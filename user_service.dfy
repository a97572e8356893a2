/**
 * `UserService`: accounts.  Usernames and e-mail addresses are unique
 * columns.  Password hashing is outside the model: a method that stores a
 * password receives it already encoded, and a check of a raw password
 * against a stored hash is a parameter `matches`.
 */
module UserService {
  import opened Wrappers
  import opened Text
  import opened Entities
  import opened Store

  /** `PasswordEncoder.matches(raw, encoded)`. */
  type Matcher = (string, string) -> bool

  // ----- lookups -----------------------------------------------------------------

  /** The usernames in use (`existsByUsername`). */
  function Usernames(users: map<int, User>): set<string> {
    set u | u in users :: users[u].username
  }

  predicate EmailTaken(users: map<int, User>, email: string) {
    exists u :: u in users && users[u].email == email
  }

  /** `findByEmail`: the user registered with `email`, unique by the column's constraint. */
  function UserByEmail(users: map<int, User>, email: string): (r: Option<int>)
    requires UsersUnique(users)
    ensures r.None? <==> !EmailTaken(users, email)
    ensures r.Some? ==> r.value in users && users[r.value].email == email
  {
    if EmailTaken(users, email) then
      var u :| u in users && users[u].email == email;
      Some(u)
    else None
  }

  /** `findByEmail` for a method: it finds the same user as `UserByEmail`. */
  method FindByEmail(db: Database, email: string) returns (r: Option<int>)
    requires UsersUnique(db.users)
    ensures r == UserByEmail(db.users, email)
  {
    if EmailTaken(db.users, email) {
      var u :| u in db.users && db.users[u].email == email;
      return Some(u);
    }
    return None;
  }

  /** A new user whose username and e-mail are both unused keeps the columns unique. */
  lemma InsertKeepsUnique(users: map<int, User>, id: int, nu: User)
    requires UsersUnique(users) && id !in users
    requires nu.username !in Usernames(users) && !EmailTaken(users, nu.email)
    ensures UsersUnique(users[id := nu])
  {
    var m := users[id := nu];
    forall a, b | a in m && b in m && a != b
      ensures m[a].username != m[b].username && m[a].email != m[b].email
    {
      if a == id {
        assert users[b].username in Usernames(users);
      } else if b == id {
        assert users[a].username in Usernames(users);
      }
    }
  }

  /** Rewriting a user while keeping its username and e-mail keeps the columns unique. */
  lemma RewriteKeepsUnique(users: map<int, User>, id: int, nu: User)
    requires UsersUnique(users) && id in users
    requires nu.username == users[id].username && nu.email == users[id].email
    ensures UsersUnique(users[id := nu])
  {
  }

  /** A change to the users table alone that keeps its columns unique keeps every integrity rule. */
  lemma UsersOnlyChange(t: Tables, s: Tables)
    requires Consistent(t) && s == t.(users := s.users) && UsersUnique(s.users)
    ensures Consistent(s)
  {
  }

  // ----- registerUser and createUserByAdmin -------------------------------------------

  /** The registration form. */
  datatype RegisterRequest = RegisterRequest(
    username: string, email: string,
    firstName: Option<string>, lastName: Option<string>, phone: Option<string>,
    address: Option<string>, dateOfBirth: Option<int>)

  function NewLocalUser(req: RegisterRequest, encodedPassword: string, role: Role): User {
    User(req.username, encodedPassword, req.email, req.firstName, req.lastName, req.phone,
         req.address, req.dateOfBirth, role, LOCAL)
  }

  /** `registerUser` refuses a taken username first, then a taken e-mail. */
  function RegisterFailure(t: Tables, req: RegisterRequest): Option<Failure> {
    if req.username in Usernames(t.users) then Some(BadRequest("username"))
    else if EmailTaken(t.users, req.email) then Some(BadRequest("email"))
    else None
  }

  /** `registerUser`: a local buyer account with the encoded password. */
  method RegisterUser(db: Database, req: RegisterRequest, encodedPassword: string) returns (r: Result<int>)
    modifies db
    ensures r.Err? <==> RegisterFailure(old(db.State()), req).Some?
    ensures r.Err? ==> r.error == RegisterFailure(old(db.State()), req).value && db.State() == old(db.State())
    ensures r.Ok? ==> r.value > 0 && r.value !in old(db.users) &&
                      db.State() == old(db.State()).(users := old(db.users)[r.value := NewLocalUser(req, encodedPassword, BUYER)])
  {
    if req.username in Usernames(db.users) {
      return Err(BadRequest("username"));
    }
    if EmailTaken(db.users, req.email) {
      return Err(BadRequest("email"));
    }
    var id := NewId(db.users.Keys);
    db.users := db.users[id := NewLocalUser(req, encodedPassword, BUYER)];
    return Ok(id);
  }

  /**
   * Registration succeeds exactly when both the username and the e-mail are
   * free; when both are taken it is the username that is reported; a new
   * account keeps the unique columns unique.
   */
  lemma RegisterSpec(t: Tables, req: RegisterRequest, id: int, encodedPassword: string)
    requires Consistent(t) && id !in t.users
    ensures RegisterFailure(t, req).None? <==>
              (forall u :: u in t.users ==> t.users[u].username != req.username && t.users[u].email != req.email)
    ensures req.username in Usernames(t.users) ==> RegisterFailure(t, req) == Some(BadRequest("username"))
    ensures RegisterFailure(t, req).None? ==>
              Consistent(t.(users := t.users[id := NewLocalUser(req, encodedPassword, BUYER)]))
  {
    if RegisterFailure(t, req).None? {
      InsertKeepsUnique(t.users, id, NewLocalUser(req, encodedPassword, BUYER));
      UsersOnlyChange(t, t.(users := t.users[id := NewLocalUser(req, encodedPassword, BUYER)]));
    } else if req.username in Usernames(t.users) {
      var u :| u in t.users && t.users[u].username == req.username;
    }
  }

  /** `createUserByAdmin` refuses with IllegalArgumentException, username first. */
  function CreateByAdminFailure(t: Tables, req: RegisterRequest): Option<Failure> {
    if req.username in Usernames(t.users) then Some(IllegalArgument("username"))
    else if EmailTaken(t.users, req.email) then Some(IllegalArgument("email"))
    else None
  }

  /** No role given means a buyer. */
  function RoleOrBuyer(role: Option<Role>): Role {
    if role.Some? then role.value else BUYER
  }

  /** `createUserByAdmin`: a local account with the chosen role, a buyer by default. */
  method CreateUserByAdmin(db: Database, req: RegisterRequest, role: Option<Role>, encodedPassword: string) returns (r: Result<int>)
    modifies db
    ensures r.Err? <==> CreateByAdminFailure(old(db.State()), req).Some?
    ensures r.Err? ==> r.error == CreateByAdminFailure(old(db.State()), req).value && db.State() == old(db.State())
    ensures r.Ok? ==> r.value > 0 && r.value !in old(db.users) &&
                      db.State() == old(db.State()).(users := old(db.users)[r.value := NewLocalUser(req, encodedPassword, RoleOrBuyer(role))])
  {
    if req.username in Usernames(db.users) {
      return Err(IllegalArgument("username"));
    }
    if EmailTaken(db.users, req.email) {
      return Err(IllegalArgument("email"));
    }
    var userRole := BUYER;
    if role.Some? {
      userRole := role.value;
    }
    var id := NewId(db.users.Keys);
    db.users := db.users[id := NewLocalUser(req, encodedPassword, userRole)];
    return Ok(id);
  }

  /** The administrator's creation refuses exactly what registration refuses, under the other exception, and defaults to a buyer. */
  lemma CreateByAdminAgreesWithRegister(t: Tables, req: RegisterRequest, encodedPassword: string)
    ensures CreateByAdminFailure(t, req).None? <==> RegisterFailure(t, req).None?
    ensures CreateByAdminFailure(t, req).Some? ==>
              CreateByAdminFailure(t, req).value == IllegalArgument(RegisterFailure(t, req).value.why)
    ensures NewLocalUser(req, encodedPassword, RoleOrBuyer(None)) == NewLocalUser(req, encodedPassword, BUYER)
  {
  }

  // ----- authenticateUser ---------------------------------------------------------------

  /** `authenticateUser`: the user with that username, when the raw password matches its hash. */
  function Authenticate(users: map<int, User>, username: string, raw: string, matches: Matcher): (r: Option<int>)
    requires UsersUnique(users)
    ensures r.Some? <==> exists u :: u in users && users[u].username == username && matches(raw, users[u].password)
    ensures r.Some? ==> r.value in users && users[r.value].username == username
  {
    if username in Usernames(users) then
      var u :| u in users && users[u].username == username;
      if matches(raw, users[u].password) then Some(u) else None
    else None
  }

  // ----- updateUserProfile, updatePassword, changePassword --------------------------------

  /** The editable part of a profile. */
  datatype Profile = Profile(
    firstName: Option<string>, lastName: Option<string>, phone: Option<string>,
    address: Option<string>, dateOfBirth: Option<int>)

  function WithProfile(u: User, p: Profile): User {
    u.(firstName := p.firstName, lastName := p.lastName, phone := p.phone, address := p.address, dateOfBirth := p.dateOfBirth)
  }

  function ProfileOutcome(t: Tables, userId: int, p: Profile): Outcome<User> {
    if userId !in t.users then Outcome(t, Err(NotFound("User")))
    else
      var u := WithProfile(t.users[userId], p);
      Outcome(t.(users := t.users[userId := u]), Ok(u))
  }

  /** `updateUserProfile`. */
  method UpdateUserProfile(db: Database, userId: int, p: Profile) returns (r: Result<User>)
    modifies db
    ensures db.State() == ProfileOutcome(old(db.State()), userId, p).state
    ensures r == ProfileOutcome(old(db.State()), userId, p).result
  {
    if userId !in db.users {
      return Err(NotFound("User"));
    }
    var u := db.users[userId];
    u := u.(firstName := p.firstName, lastName := p.lastName, phone := p.phone);
    u := u.(address := p.address, dateOfBirth := p.dateOfBirth);
    db.users := db.users[userId := u];
    return Ok(u);
  }

  /**
   * A profile update sets the five profile fields and leaves the username,
   * e-mail, password, role and provider, every other user and every
   * integrity rule as they were.
   */
  lemma ProfileSpec(t: Tables, userId: int, p: Profile)
    requires Consistent(t) && userId in t.users
    ensures var s := ProfileOutcome(t, userId, p).state;
            var before := t.users[userId];
            var after := s.users[userId];
            s.users.Keys == t.users.Keys &&
            after.firstName == p.firstName && after.lastName == p.lastName && after.phone == p.phone &&
            after.address == p.address && after.dateOfBirth == p.dateOfBirth &&
            after.username == before.username && after.email == before.email && after.password == before.password &&
            after.role == before.role && after.provider == before.provider &&
            (forall u :: u in t.users && u != userId ==> s.users[u] == t.users[u]) &&
            Consistent(s)
  {
    RewriteKeepsUnique(t.users, userId, WithProfile(t.users[userId], p));
    UsersOnlyChange(t, ProfileOutcome(t, userId, p).state);
  }

  function UpdatePasswordOutcome(t: Tables, email: string, encodedPassword: string): Outcome<()>
    requires UsersUnique(t.users)
  {
    match UserByEmail(t.users, email)
    case None => Outcome(t, Err(NotFound("User")))
    case Some(u) => Outcome(t.(users := t.users[u := t.users[u].(password := encodedPassword)]), Ok(()))
  }

  /** `updatePassword`: the password of the account registered with `email` is replaced. */
  method UpdatePassword(db: Database, email: string, encodedPassword: string) returns (r: Result<()>)
    requires UsersUnique(db.users)
    modifies db
    ensures db.State() == UpdatePasswordOutcome(old(db.State()), email, encodedPassword).state
    ensures r == UpdatePasswordOutcome(old(db.State()), email, encodedPassword).result
  {
    var found := FindByEmail(db, email);
    if found.None? {
      return Err(NotFound("User"));
    }
    var u := found.value;
    db.users := db.users[u := db.users[u].(password := encodedPassword)];
    return Ok(());
  }

  /**
   * Resetting by e-mail succeeds exactly when an account has that e-mail;
   * then that account alone gets the new hash, and the rules still hold.
   */
  lemma UpdatePasswordSpec(t: Tables, email: string, encodedPassword: string)
    requires Consistent(t)
    ensures var o := UpdatePasswordOutcome(t, email, encodedPassword);
            (o.result.Ok? <==> EmailTaken(t.users, email)) &&
            (o.result.Err? ==> o.state == t) &&
            (o.result.Ok? ==>
               var u := UserByEmail(t.users, email).value;
               t.users[u].email == email &&
               o.state.users == t.users[u := t.users[u].(password := encodedPassword)] && Consistent(o.state))
  {
    var o := UpdatePasswordOutcome(t, email, encodedPassword);
    if o.result.Ok? {
      var u := UserByEmail(t.users, email).value;
      RewriteKeepsUnique(t.users, u, t.users[u].(password := encodedPassword));
      UsersOnlyChange(t, o.state);
    }
  }

  /** `changePassword` refuses a wrong current password, then a new one equal to the old. */
  function ChangePasswordOutcome(t: Tables, userId: int, current: string, newPassword: string,
                                 matches: Matcher, encodedNew: string): Outcome<()> {
    if userId !in t.users then Outcome(t, Err(NotFound("User")))
    else
      var u := t.users[userId];
      if !matches(current, u.password) then Outcome(t, Err(BadRequest("current password")))
      else if matches(newPassword, u.password) then Outcome(t, Err(BadRequest("same password")))
      else Outcome(t.(users := t.users[userId := u.(password := encodedNew)]), Ok(()))
  }

  method ChangePassword(db: Database, userId: int, current: string, newPassword: string,
                        matches: Matcher, encodedNew: string) returns (r: Result<()>)
    modifies db
    ensures db.State() == ChangePasswordOutcome(old(db.State()), userId, current, newPassword, matches, encodedNew).state
    ensures r == ChangePasswordOutcome(old(db.State()), userId, current, newPassword, matches, encodedNew).result
  {
    if userId !in db.users {
      return Err(NotFound("User"));
    }
    var u := db.users[userId];
    if !matches(current, u.password) {
      return Err(BadRequest("current password"));
    }
    if matches(newPassword, u.password) {
      return Err(BadRequest("same password"));
    }
    db.users := db.users[userId := u.(password := encodedNew)];
    return Ok(());
  }

  /**
   * A password change succeeds exactly when the current password matches and
   * the new one does not; then only that user's password changes, to the
   * new hash.
   */
  lemma ChangePasswordSpec(t: Tables, userId: int, current: string, newPassword: string, matches: Matcher, encodedNew: string)
    requires Consistent(t)
    ensures var o := ChangePasswordOutcome(t, userId, current, newPassword, matches, encodedNew);
            o.result.Ok? <==>
              userId in t.users && matches(current, t.users[userId].password) && !matches(newPassword, t.users[userId].password)
    ensures var o := ChangePasswordOutcome(t, userId, current, newPassword, matches, encodedNew);
            o.result.Err? ==> o.state == t
    ensures var o := ChangePasswordOutcome(t, userId, current, newPassword, matches, encodedNew);
            o.result.Ok? ==>
              o.state.users == t.users[userId := t.users[userId].(password := encodedNew)] && Consistent(o.state)
  {
    var o := ChangePasswordOutcome(t, userId, current, newPassword, matches, encodedNew);
    if o.result.Ok? {
      RewriteKeepsUnique(t.users, userId, t.users[userId].(password := encodedNew));
      UsersOnlyChange(t, o.state);
    }
  }

  // ----- deleteUserById and updateUserRole ------------------------------------------------

  function DeleteOutcome(t: Tables, userId: int): Outcome<()> {
    if userId !in t.users then Outcome(t, Err(NotFound("User")))
    else Outcome(t.(users := t.users - {userId}), Ok(()))
  }

  /** `deleteUserById`. */
  method DeleteUserById(db: Database, userId: int) returns (r: Result<()>)
    modifies db
    ensures db.State() == DeleteOutcome(old(db.State()), userId).state
    ensures r == DeleteOutcome(old(db.State()), userId).result
  {
    if userId !in db.users {
      return Err(NotFound("User"));
    }
    db.users := db.users - {userId};
    return Ok(());
  }

  /** `Role.valueOf(name.toUpperCase())`: a role name in any letter case, or nothing. */
  function RoleNamed(name: string): (r: Option<Role>)
    ensures r == Some(BUYER) <==> EqualsIgnoreCase(name, "BUYER")
    ensures r == Some(ADMIN) <==> EqualsIgnoreCase(name, "ADMIN")
  {
    EqualsIgnoreCaseIsUpperEquality(name, "BUYER");
    EqualsIgnoreCaseIsUpperEquality(name, "ADMIN");
    assert Upper("BUYER") == "BUYER" && Upper("ADMIN") == "ADMIN";
    if Upper(name) == "BUYER" then Some(BUYER)
    else if Upper(name) == "ADMIN" then Some(ADMIN)
    else None
  }

  function RoleOutcome(t: Tables, userId: int, newRole: Option<string>): Outcome<User> {
    if userId !in t.users then Outcome(t, Err(NotFound("User")))
    else if newRole.None? then Outcome(t, Err(RuntimeFailure("null role")))
    else match RoleNamed(newRole.value)
      case None => Outcome(t, Err(IllegalArgument("role")))
      case Some(role) =>
        var u := t.users[userId].(role := role);
        Outcome(t.(users := t.users[userId := u]), Ok(u))
  }

  /** `updateUserRole`: an unknown role name escapes as IllegalArgumentException, a missing one as a null dereference. */
  method UpdateUserRole(db: Database, userId: int, newRole: Option<string>) returns (r: Result<User>)
    modifies db
    ensures db.State() == RoleOutcome(old(db.State()), userId, newRole).state
    ensures r == RoleOutcome(old(db.State()), userId, newRole).result
  {
    if userId !in db.users {
      return Err(NotFound("User"));
    }
    if newRole.None? {
      return Err(RuntimeFailure("null role"));
    }
    var role := RoleNamed(newRole.value);
    if role.None? {
      return Err(IllegalArgument("role"));
    }
    var u := db.users[userId].(role := role.value);
    db.users := db.users[userId := u];
    return Ok(u);
  }

  /** Deleting removes exactly the one account, and fails with nothing changed when there is none. */
  lemma DeleteSpec(t: Tables, userId: int)
    requires Consistent(t)
    ensures var o := DeleteOutcome(t, userId);
            (o.result.Ok? <==> userId in t.users) &&
            (o.result.Err? ==> o.state == t) &&
            o.state.users.Keys == t.users.Keys - {userId} &&
            (forall u :: u in o.state.users ==> o.state.users[u] == t.users[u]) &&
            Consistent(o.state)
  {
  }

  /**
   * A role change succeeds exactly for an existing account and a role name
   * known up to case; it changes that account's role and nothing else.
   */
  lemma RoleSpec(t: Tables, userId: int, newRole: Option<string>)
    requires Consistent(t)
    ensures var o := RoleOutcome(t, userId, newRole);
            (o.result.Ok? <==> userId in t.users && newRole.Some? &&
                               (EqualsIgnoreCase(newRole.value, "BUYER") || EqualsIgnoreCase(newRole.value, "ADMIN"))) &&
            (o.result.Err? ==> o.state == t) &&
            (o.result.Ok? ==>
               o.state.users == t.users[userId := t.users[userId].(role := o.result.value.role)] &&
               o.state.users[userId] == o.result.value && Consistent(o.state))
  {
    var o := RoleOutcome(t, userId, newRole);
    if o.result.Ok? {
      RewriteKeepsUnique(t.users, userId, o.result.value);
      UsersOnlyChange(t, o.state);
    } else if userId in t.users && newRole.Some? {
      var r := RoleNamed(newRole.value);
      assert r.None?;
    }
  }

  // ----- processOAuth2User ----------------------------------------------------------------

  /** `AuthProvider.valueOf(registrationId.toUpperCase())`. */
  function ProviderNamed(registrationId: string): (r: Option<AuthProvider>)
    ensures r == Some(GOOGLE) <==> EqualsIgnoreCase(registrationId, "GOOGLE")
    ensures r == Some(FACEBOOK) <==> EqualsIgnoreCase(registrationId, "FACEBOOK")
    ensures r == Some(LOCAL) <==> EqualsIgnoreCase(registrationId, "LOCAL")
  {
    EqualsIgnoreCaseIsUpperEquality(registrationId, "GOOGLE");
    EqualsIgnoreCaseIsUpperEquality(registrationId, "FACEBOOK");
    EqualsIgnoreCaseIsUpperEquality(registrationId, "LOCAL");
    assert Upper("GOOGLE") == "GOOGLE" && Upper("FACEBOOK") == "FACEBOOK" && Upper("LOCAL") == "LOCAL";
    var key := Upper(registrationId);
    if key == "LOCAL" then Some(LOCAL)
    else if key == "GOOGLE" then Some(GOOGLE)
    else if key == "FACEBOOK" then Some(FACEBOOK)
    else None
  }

  /**
   * `email.split("@")[0]`: the text before the first '@'.  Splitting drops
   * trailing empty pieces, so an address made only of '@' yields no piece
   * at all and indexing it fails.
   */
  function UsernamePrefix(email: string): (r: Option<string>)
    ensures r.None? <==> email != [] && forall i :: 0 <= i < |email| ==> email[i] == '@'
    ensures r.Some? ==> '@' !in r.value && (r.value == email || r.value + ['@'] <= email)
  {
    if email != [] && forall i :: 0 <= i < |email| ==> email[i] == '@' then None
    else
      var parts := SplitOnce(email, '@');
      assert |parts| == 2 ==> parts[0] + ['@'] == email[..|parts[0]| + 1];
      Some(parts[0])
  }

  /** The `count`-th username tried: the prefix itself, then the prefix followed by 1, 2, … */
  function Candidate(prefix: string, count: nat): string {
    if count == 0 then prefix else prefix + NatToString(count)
  }

  /** Different counts give different candidates. */
  lemma CandidateInjective(prefix: string, a: nat, b: nat)
    requires Candidate(prefix, a) == Candidate(prefix, b)
    ensures a == b
  {
    if a != 0 && b != 0 {
      assert NatToString(a) == Candidate(prefix, a)[|prefix|..];
      assert NatToString(b) == Candidate(prefix, b)[|prefix|..];
      NatToStringInjective(a, b);
    }
  }

  /** The taken names that are still ahead of the search at `count`. */
  ghost function TakenAhead(prefix: string, taken: set<string>, count: nat): set<string> {
    set s | s in taken && exists j: nat :: j >= count && s == Candidate(prefix, j)
  }

  lemma {:induction false} SubsetNoLarger<T>(a: set<T>, b: set<T>)
    requires a <= b
    ensures |a| <= |b|
    decreases |a|
  {
    if a != {} {
      var x :| x in a;
      SubsetNoLarger(a - {x}, b - {x});
    }
  }

  /** Passing a taken candidate leaves one taken name fewer ahead. */
  lemma TakenAheadShrinks(prefix: string, taken: set<string>, count: nat)
    requires Candidate(prefix, count) in taken
    ensures |TakenAhead(prefix, taken, count + 1)| < |TakenAhead(prefix, taken, count)|
  {
    var c := Candidate(prefix, count);
    var before := TakenAhead(prefix, taken, count);
    var after := TakenAhead(prefix, taken, count + 1);
    assert c in before;
    if c in after {
      var j: nat :| j >= count + 1 && c == Candidate(prefix, j);
      CandidateInjective(prefix, count, j);
    }
    SubsetNoLarger(after, before - {c});
  }

  /** The first count from `count` on whose candidate is free. */
  ghost function FirstFree(prefix: string, taken: set<string>, count: nat): (r: nat)
    ensures r >= count && Candidate(prefix, r) !in taken
    ensures forall j :: count <= j < r ==> Candidate(prefix, j) in taken
    decreases |TakenAhead(prefix, taken, count)|
  {
    if Candidate(prefix, count) !in taken then count
    else
      TakenAheadShrinks(prefix, taken, count);
      FirstFree(prefix, taken, count + 1)
  }

  /** The username a new OAuth2 user gets: the first free candidate. */
  ghost function GeneratedUsername(prefix: string, taken: set<string>): string {
    Candidate(prefix, FirstFree(prefix, taken, 0))
  }

  /** The username is free, and every candidate before it in the sequence is taken. */
  lemma GeneratedUsernameSpec(prefix: string, taken: set<string>)
    ensures GeneratedUsername(prefix, taken) !in taken
    ensures exists k: nat :: GeneratedUsername(prefix, taken) == Candidate(prefix, k) &&
                             forall j :: 0 <= j < k ==> Candidate(prefix, j) in taken
    ensures prefix !in taken ==> GeneratedUsername(prefix, taken) == prefix
  {
    var k := FirstFree(prefix, taken, 0);
    assert GeneratedUsername(prefix, taken) == Candidate(prefix, k);
  }

  /** The `existsByUsername` loop. */
  method GenerateUsername(db: Database, prefix: string) returns (name: string)
    ensures name == GeneratedUsername(prefix, Usernames(db.users))
  {
    var taken := Usernames(db.users);
    var count := 0;
    name := prefix;
    while name in taken
      invariant name == Candidate(prefix, count)
      invariant FirstFree(prefix, taken, count) == FirstFree(prefix, taken, 0)
      decreases |TakenAhead(prefix, taken, count)|
    {
      TakenAheadShrinks(prefix, taken, count);
      count := count + 1;
      name := prefix + NatToString(count);
    }
  }

  /** `name.split(" ", 2)`: the first word, and the rest or "" when there is no space. */
  function SplitName(name: string): (string, string) {
    var parts := SplitOnce(name, ' ');
    (parts[0], if |parts| == 2 then parts[1] else "")
  }

  /** Splitting at the first space loses nothing: the two parts rejoin to the name. */
  lemma SplitNameRejoins(name: string)
    ensures var (first, last) := SplitName(name);
            ' ' !in first &&
            (if ' ' in name then first + " " + last == name else first == name && last == "")
  {
  }

  /** The name shown for an account: first name, then a space and the last name when there is one, trimmed. */
  function CurrentFullName(u: User): string {
    Trim((if u.firstName.Some? then u.firstName.value else "") +
         (if u.lastName.Some? then " " + u.lastName.value else ""))
  }

  /** The input of `processOAuth2User`: the provider's registration id and the user's attributes. */
  datatype OAuth2Login = OAuth2Login(registrationId: string, email: Option<string>, name: Option<string>)

  /** The existing account after a login: renamed only if the provider's trimmed name differs from the shown one. */
  function Renamed(u: User, name: Option<string>): User {
    if name.Some? && HasText(name.value) && Trim(name.value) != CurrentFullName(u) then
      var (first, last) := SplitName(Trim(name.value));
      u.(firstName := Some(first), lastName := Some(last))
    else u
  }

  /** A new account: username from the e-mail, the provider's name split, or "User" and the username. */
  ghost function NewOAuth2User(t: Tables, email: string, prefix: string, name: Option<string>,
                               provider: AuthProvider, encodedPassword: string): User {
    var username := GeneratedUsername(prefix, Usernames(t.users));
    var (first, last) := if name.Some? && HasText(name.value) then SplitName(name.value) else ("User", username);
    User(username, encodedPassword, email, Some(first), Some(last), None, None, None, BUYER, provider)
  }

  /** Why `processOAuth2User` refuses before it reaches a new account. */
  function OAuth2Failure(t: Tables, login: OAuth2Login): Option<Failure>
    requires UsersUnique(t.users)
  {
    if login.email.None? || !HasText(login.email.value) then Some(BadRequest("email"))
    else if ProviderNamed(login.registrationId).None? then Some(BadRequest("provider"))
    else match UserByEmail(t.users, login.email.value)
      case Some(u) =>
        if t.users[u].provider != ProviderNamed(login.registrationId).value then Some(BadRequest("provider mismatch"))
        else None
      case None =>
        if UsernamePrefix(login.email.value).None? then Some(RuntimeFailure("split")) else None
  }

  /**
   * The outcome of a login that `OAuth2Failure` lets through, given the id
   * a new account would get: the existing account, possibly renamed, or the
   * new one.
   */
  ghost function OAuth2State(t: Tables, login: OAuth2Login, id: int, encodedPassword: string): Tables
    requires UsersUnique(t.users) && OAuth2Failure(t, login).None?
  {
    var email := login.email.value;
    var provider := ProviderNamed(login.registrationId).value;
    match UserByEmail(t.users, email)
    case Some(u) => t.(users := t.users[u := Renamed(t.users[u], login.name)])
    case None =>
      t.(users := t.users[id := NewOAuth2User(t, email, UsernamePrefix(email).value, login.name, provider, encodedPassword)])
  }

  /** `processOAuth2User`; `encodedPassword` is the encoded random placeholder a new account is given. */
  method ProcessOAuth2User(db: Database, login: OAuth2Login, encodedPassword: string) returns (r: Result<int>)
    requires UsersUnique(db.users)
    modifies db
    ensures r.Err? <==> OAuth2Failure(old(db.State()), login).Some?
    ensures r.Err? ==> r.error == OAuth2Failure(old(db.State()), login).value && db.State() == old(db.State())
    ensures r.Ok? ==> r.value in db.users && db.users[r.value].email == login.email.value
    ensures r.Ok? && !EmailTaken(old(db.users), login.email.value) ==>
              r.value !in old(db.users) && db.State() == OAuth2State(old(db.State()), login, r.value, encodedPassword)
    ensures r.Ok? && EmailTaken(old(db.users), login.email.value) ==>
              r.value == UserByEmail(old(db.users), login.email.value).value &&
              db.State() == OAuth2State(old(db.State()), login, r.value, encodedPassword)
  {
    if login.email.None? || !HasText(login.email.value) {
      return Err(BadRequest("email"));
    }
    var email := login.email.value;
    var existing := FindByEmail(db, email);
    var provider := ProviderNamed(login.registrationId);
    if provider.None? {
      return Err(BadRequest("provider"));
    }
    if existing.Some? {
      var u := existing.value;
      if db.users[u].provider != provider.value {
        return Err(BadRequest("provider mismatch"));
      }
      RefreshName(db, u, login.name);
      return Ok(u);
    }
    var prefix := UsernamePrefix(email);
    if prefix.None? {
      return Err(RuntimeFailure("split"));
    }
    var username := GenerateUsername(db, prefix.value);
    var first, last;
    if login.name.Some? && HasText(login.name.value) {
      var parts := SplitName(login.name.value);
      first, last := parts.0, parts.1;
    } else {
      first, last := "User", username;
    }
    var id := NewId(db.users.Keys);
    db.users := db.users[id := User(username, encodedPassword, email, Some(first), Some(last), None, None, None, BUYER, provider.value)];
    return Ok(id);
  }

  /** A returning user's row: the name is rewritten only when the provider's trimmed name differs from the shown one. */
  method RefreshName(db: Database, u: int, name: Option<string>)
    requires u in db.users
    modifies db
    ensures db.State() == old(db.State()).(users := old(db.users)[u := Renamed(old(db.users)[u], name)])
  {
    var user := db.users[u];
    if name.Some? && HasText(name.value) && Trim(name.value) != CurrentFullName(user) {
      var (first, last) := SplitName(Trim(name.value));
      user := user.(firstName := Some(first), lastName := Some(last));
      db.users := db.users[u := user];
    } else {
      assert db.users[u := user] == db.users;
    }
  }

  /**
   * A login keeps the unique columns unique: a new account's username is
   * free by construction and its e-mail is unused; a returning user keeps
   * both.
   */
  lemma OAuth2KeepsConsistency(t: Tables, login: OAuth2Login, id: int, encodedPassword: string)
    requires Consistent(t) && id !in t.users && OAuth2Failure(t, login).None?
    ensures Consistent(OAuth2State(t, login, id, encodedPassword))
  {
    var email := login.email.value;
    match UserByEmail(t.users, email)
    case Some(u) =>
      var nu := Renamed(t.users[u], login.name);
      assert OAuth2State(t, login, id, encodedPassword) == t.(users := t.users[u := nu]);
      RewriteKeepsConsistency(t, u, nu);
    case None =>
      var prefix := UsernamePrefix(email).value;
      var provider := ProviderNamed(login.registrationId).value;
      var nu := NewOAuth2User(t, email, prefix, login.name, provider, encodedPassword);
      assert OAuth2State(t, login, id, encodedPassword) == t.(users := t.users[id := nu]);
      GeneratedUsernameSpec(prefix, Usernames(t.users));
      InsertKeepsConsistency(t, id, nu);
  }

  /** Rewriting a row without touching its username or e-mail keeps every integrity rule. */
  lemma RewriteKeepsConsistency(t: Tables, id: int, nu: User)
    requires Consistent(t) && id in t.users
    requires nu.username == t.users[id].username && nu.email == t.users[id].email
    ensures Consistent(t.(users := t.users[id := nu]))
  {
    RewriteKeepsUnique(t.users, id, nu);
    UsersOnlyChange(t, t.(users := t.users[id := nu]));
  }

  /** Inserting a row with a free username and an unused e-mail keeps every integrity rule. */
  lemma InsertKeepsConsistency(t: Tables, id: int, nu: User)
    requires Consistent(t) && id !in t.users
    requires nu.username !in Usernames(t.users) && !EmailTaken(t.users, nu.email)
    ensures Consistent(t.(users := t.users[id := nu]))
  {
    InsertKeepsUnique(t.users, id, nu);
    UsersOnlyChange(t, t.(users := t.users[id := nu]));
  }

  /** A returning user logging in through another provider is refused, whatever the name. */
  lemma OAuth2ProviderMismatchRefused(t: Tables, login: OAuth2Login)
    requires UsersUnique(t.users)
    requires login.email.Some? && HasText(login.email.value) && ProviderNamed(login.registrationId).Some?
    requires EmailTaken(t.users, login.email.value)
    ensures OAuth2Failure(t, login).None? <==>
              t.users[UserByEmail(t.users, login.email.value).value].provider == ProviderNamed(login.registrationId).value
  {
  }
}
