/**
 * `CartService`: a user's cart and its lines.  A cart is stored under its
 * user's id; a line is found by (cart, product), and the unique constraint
 * on that pair keeps one line per product.  The clock is a parameter `now`
 * (milliseconds), and the cart's `lastUpdated` is set to it whenever the
 * cart is saved.
 */
module CartService {
  import opened Wrappers
  import opened Entities
  import opened Store

  // ----- lines ----------------------------------------------------------------

  /** `findByCartCartIdAndProductId`: the position of the line for `pid`, if there is one. */
  function LineOf(items: seq<CartItem>, pid: int): (r: Option<nat>)
    ensures r.None? <==> forall i :: 0 <= i < |items| ==> items[i].productId != pid
    ensures r.Some? ==> r.value < |items| && items[r.value].productId == pid
  {
    if items == [] then None
    else if items[|items| - 1].productId == pid then Some(|items| - 1)
    else LineOf(items[..|items| - 1], pid)
  }

  /** The lines of a user's cart; a user without a cart has none. */
  function ItemsOf(carts: map<int, Cart>, userId: int): seq<CartItem> {
    if userId in carts then carts[userId].items else []
  }

  /** How many of product `pid` the lines hold: the quantity of its line, or 0. */
  function QuantityIn(items: seq<CartItem>, pid: int): int {
    match LineOf(items, pid)
    case Some(k) => items[k].quantity
    case None => 0
  }

  /** In a well-formed cart the line for a product is the only one, so the search finds it. */
  lemma LineAt(items: seq<CartItem>, i: int)
    requires CartLinesValid(items) && 0 <= i < |items|
    ensures LineOf(items, items[i].productId) == Some(i)
    ensures QuantityIn(items, items[i].productId) == items[i].quantity
  {
    var k := LineOf(items, items[i].productId).value;
    assert items[k].productId == items[i].productId;
  }

  /** Every product other than `pid` has the same quantity in `a` and in `b`. */
  ghost predicate OthersUnchanged(a: seq<CartItem>, b: seq<CartItem>, pid: int) {
    forall p :: p != pid ==> QuantityIn(a, p) == QuantityIn(b, p)
  }

  /**
   * When `b` keeps, for every product but `pid`, exactly the lines of `a`
   * (each line of one is a line of the other), the quantities agree.
   */
  lemma SameLinesElsewhere(a: seq<CartItem>, b: seq<CartItem>, pid: int)
    requires CartLinesValid(a) && CartLinesValid(b)
    requires forall i :: 0 <= i < |a| && a[i].productId != pid ==> a[i] in b
    requires forall j :: 0 <= j < |b| && b[j].productId != pid ==> b[j] in a
    ensures OthersUnchanged(a, b, pid)
  {
    forall p | p != pid
      ensures QuantityIn(a, p) == QuantityIn(b, p)
    {
      if LineOf(a, p).Some? {
        var i := LineOf(a, p).value;
        assert a[i] in b;
        var j :| 0 <= j < |b| && b[j] == a[i];
        LineAt(a, i);
        LineAt(b, j);
      } else {
        forall j | 0 <= j < |b|
          ensures b[j].productId != p
        {
          if b[j].productId != pid {
            assert b[j] in a;
          }
        }
      }
    }
  }

  // ----- getOrCreateCartEntity and deleteCart -----------------------------------

  /** The user's cart, created empty when the user has none. */
  method GetOrCreateCart(db: Database, userId: int, now: int) returns (cart: Cart)
    modifies db
    ensures userId in old(db.carts) ==> db.State() == old(db.State()) && cart == old(db.carts)[userId]
    ensures userId !in old(db.carts) ==>
              db.State() == old(db.State()).(carts := old(db.carts)[userId := Cart([], now)]) &&
              cart == Cart([], now)
  {
    if userId in db.carts {
      cart := db.carts[userId];
    } else {
      cart := Cart([], now);
      db.carts := db.carts[userId := cart];
    }
  }

  /** `deleteCart`: removes the user's cart, if any. */
  method DeleteCart(db: Database, userId: int)
    modifies db
    ensures db.State() == old(db.State()).(carts := old(db.carts) - {userId})
  {
    db.carts := db.carts - {userId};
  }

  // ----- addItemToCart --------------------------------------------------------------

  /** The lines after adding `q` of `pid` at unit price `price`: merged into its line, or a new last line. */
  function Added(items: seq<CartItem>, pid: int, q: int, price: Money): seq<CartItem> {
    match LineOf(items, pid)
    case Some(k) => items[k := CartItem(pid, items[k].quantity + q, price)]
    case None => items + [CartItem(pid, q, price)]
  }

  /**
   * The lines the answer of an add is read from.  The cart re-read at the end
   * is the cached entity: a merged line is the very object that was saved and
   * so shows its new quantity, but a new line is saved without being added to
   * the cart's loaded line list and does not show.
   */
  function AnsweredAfterAdd(items: seq<CartItem>, pid: int, q: int, price: Money): seq<CartItem> {
    if LineOf(items, pid).Some? then Added(items, pid, q, price) else items
  }

  /** `addItemToCart` as written: the stored cart gets the added lines, the answer is the cached cart. */
  function AddOutcome(t: Tables, userId: int, pid: int, q: int, now: int): Outcome<Cart> {
    if q <= 0 then Outcome(t, Err(BadRequest("quantity")))
    else if pid !in t.products then Outcome(t, Err(NotFound("Product")))
    else
      var items := ItemsOf(t.carts, userId);
      if QuantityIn(items, pid) + q > t.products[pid].stock then Outcome(t, Err(OperationFailed("stock")))
      else
        var price := t.products[pid].price;
        var cart := Cart(Added(items, pid, q, price), now);
        Outcome(t.(carts := t.carts[userId := cart]), Ok(Cart(AnsweredAfterAdd(items, pid, q, price), now)))
  }

  /** The intended `addItemToCart`: the same new state, answered with the cart as stored. */
  function AddOutcomeCorrected(t: Tables, userId: int, pid: int, q: int, now: int): Outcome<Cart> {
    var o := AddOutcome(t, userId, pid, q, now);
    if o.result.Ok? && userId in o.state.carts then Outcome(o.state, Ok(o.state.carts[userId])) else o
  }

  /**
   * `addItemToCart`: a positive quantity of an existing product is added to the
   * user's cart (created if missing) as long as the cart then holds no more
   * than the stock; on a refusal the transaction, and so the created cart, is
   * rolled back.
   */
  method AddItemToCart(db: Database, userId: int, pid: int, q: int, now: int) returns (r: Result<Cart>)
    modifies db
    ensures db.State() == AddOutcome(old(db.State()), userId, pid, q, now).state
    ensures r == AddOutcome(old(db.State()), userId, pid, q, now).result
  {
    if q <= 0 {
      return Err(BadRequest("quantity"));
    }
    if pid !in db.products {
      return Err(NotFound("Product"));
    }
    var product := db.products[pid];
    var t0 := db.State();
    var cart := GetOrCreateCart(db, userId, now);
    assert cart.items == ItemsOf(t0.carts, userId);
    var existing := LineOf(cart.items, pid);
    var current := if existing.Some? then cart.items[existing.value].quantity else 0;
    if current + q > product.stock {
      db.Restore(t0);
      return Err(OperationFailed("stock"));
    }
    var items;
    if existing.Some? {
      items := cart.items[existing.value := CartItem(pid, current + q, product.price)];
    } else {
      items := cart.items + [CartItem(pid, q, product.price)];
    }
    var saved := Cart(items, now);
    db.carts := db.carts[userId := saved];
    assert db.carts == t0.carts[userId := saved];
    return Ok(Cart(if existing.Some? then items else cart.items, now));
  }

  /** The add with the cart re-read from the stored state, so that a new line shows in the answer. */
  method AddItemToCartCorrected(db: Database, userId: int, pid: int, q: int, now: int) returns (r: Result<Cart>)
    modifies db
    ensures db.State() == AddOutcomeCorrected(old(db.State()), userId, pid, q, now).state
    ensures r == AddOutcomeCorrected(old(db.State()), userId, pid, q, now).result
  {
    r := AddItemToCart(db, userId, pid, q, now);
    if r.Ok? && userId in db.carts {
      r := Ok(db.carts[userId]);
    }
  }

  /**
   * As written, a successful add answers the cart as stored exactly when the
   * product already had a line; for a new product the answer is the cart's
   * lines from before the add, with no line for the product at all.
   */
  lemma AddAnswerAsWritten(t: Tables, userId: int, pid: int, q: int, now: int)
    requires AddOutcome(t, userId, pid, q, now).result.Ok?
    ensures var o := AddOutcome(t, userId, pid, q, now);
            o.result.value == o.state.carts[userId] <==> LineOf(ItemsOf(t.carts, userId), pid).Some?
    ensures var o := AddOutcome(t, userId, pid, q, now);
            LineOf(ItemsOf(t.carts, userId), pid).None? ==>
              o.result.value.items == ItemsOf(t.carts, userId) &&
              QuantityIn(o.result.value.items, pid) == 0 && QuantityIn(o.state.carts[userId].items, pid) == q
  {
    var items := ItemsOf(t.carts, userId);
    var price := t.products[pid].price;
    if LineOf(items, pid).None? {
      var added := Added(items, pid, q, price);
      assert added == items + [CartItem(pid, q, price)];
      assert |added| != |items|;
      assert added[|items|].productId == pid;
      assert added[..|added| - 1] == items;
      assert LineOf(added, pid) == Some(|items|);
    }
  }

  /** A user with one line adds a product not yet in the cart: the answer still has only the old line. */
  lemma AddAnswerMissesNewLine(t: Tables, now: int)
    requires t.carts == map[1 := Cart([CartItem(7, 1, 100)], 0)]
    requires 8 in t.products && t.products[8].stock >= 1
    ensures AddOutcome(t, 1, 8, 1, now).result == Ok(Cart([CartItem(7, 1, 100)], now))
    ensures AddOutcome(t, 1, 8, 1, now).state.carts[1].items == [CartItem(7, 1, 100), CartItem(8, 1, t.products[8].price)]
  {
    assert LineOf([CartItem(7, 1, 100)], 8) == None;
  }

  /**
   * The intended add answers the cart as stored: the product's quantity is
   * its old quantity plus `q`, at the current price, and every other
   * product's quantity is as it was.
   */
  lemma CorrectedAddSpec(t: Tables, userId: int, pid: int, q: int, now: int)
    requires CartsConsistent(t.carts)
    requires AddOutcomeCorrected(t, userId, pid, q, now).result.Ok?
    ensures var c := AddOutcomeCorrected(t, userId, pid, q, now).result.value;
            CartLinesValid(c.items) && c.lastUpdated == now &&
            QuantityIn(c.items, pid) == QuantityIn(ItemsOf(t.carts, userId), pid) + q &&
            c.items[LineOf(c.items, pid).value].priceAtAddition == t.products[pid].price &&
            OthersUnchanged(ItemsOf(t.carts, userId), c.items, pid)
  {
    AddSpec(t, userId, pid, q, now);
  }

  /** An add succeeds exactly when the quantity is positive, the product exists and the stock covers the cart's new quantity. */
  lemma AddOkIff(t: Tables, userId: int, pid: int, q: int, now: int)
    ensures AddOutcome(t, userId, pid, q, now).result.Ok? <==>
              q > 0 && pid in t.products && QuantityIn(ItemsOf(t.carts, userId), pid) + q <= t.products[pid].stock
    ensures AddOutcome(t, userId, pid, q, now).result.Err? ==> AddOutcome(t, userId, pid, q, now).state == t
  {
  }

  /**
   * A successful add raises the product's quantity by `q`, never above the
   * stock, prices the line at the product's current price, keeps one line per
   * product and leaves every other product's quantity, and every other
   * table, as it was.
   */
  lemma AddSpec(t: Tables, userId: int, pid: int, q: int, now: int)
    requires CartsConsistent(t.carts)
    requires AddOutcome(t, userId, pid, q, now).result.Ok?
    ensures var s := AddOutcome(t, userId, pid, q, now).state;
            var items := ItemsOf(s.carts, userId);
            userId in s.carts && s.carts[userId].lastUpdated == now &&
            CartsConsistent(s.carts) &&
            QuantityIn(items, pid) == QuantityIn(ItemsOf(t.carts, userId), pid) + q &&
            QuantityIn(items, pid) <= t.products[pid].stock &&
            items[LineOf(items, pid).value].priceAtAddition == t.products[pid].price &&
            OthersUnchanged(ItemsOf(t.carts, userId), items, pid) &&
            s == t.(carts := s.carts) &&
            forall u :: u != userId ==> ItemsOf(s.carts, u) == ItemsOf(t.carts, u)
  {
    var old_ := ItemsOf(t.carts, userId);
    var price := t.products[pid].price;
    assert CartLinesValid(old_);
    AddedSpec(old_, pid, q, price);
    PutCart(t.carts, userId, Cart(Added(old_, pid, q, price), now));
  }

  /** Adding to a well-formed cart's lines: the product's quantity grows by `q` at the new price, and no other changes. */
  lemma AddedSpec(items: seq<CartItem>, pid: int, q: int, price: Money)
    requires CartLinesValid(items) && q > 0
    ensures var r := Added(items, pid, q, price);
            CartLinesValid(r) && LineOf(r, pid).Some? &&
            QuantityIn(r, pid) == QuantityIn(items, pid) + q &&
            r[LineOf(r, pid).value].priceAtAddition == price &&
            OthersUnchanged(items, r, pid)
  {
    match LineOf(items, pid)
    case Some(k) =>
      var x := CartItem(pid, items[k].quantity + q, price);
      LineAt(items, k);
      SetLine(items, k, x);
      assert Added(items, pid, q, price) == items[k := x];
      assert items[k := x][k] == x;
    case None =>
      var x := CartItem(pid, q, price);
      AppendLine(items, x);
      assert Added(items, pid, q, price) == items + [x];
      assert (items + [x])[|items|] == x;
  }

  /** Replacing a line by one for the same product keeps the cart well formed and touches no other product. */
  lemma SetLine(items: seq<CartItem>, k: nat, x: CartItem)
    requires CartLinesValid(items) && k < |items| && x.productId == items[k].productId && x.quantity > 0
    ensures CartLinesValid(items[k := x])
    ensures LineOf(items[k := x], x.productId) == Some(k)
    ensures OthersUnchanged(items, items[k := x], x.productId)
  {
    var r := items[k := x];
    assert CartLinesValid(r) by {
      forall i, j | 0 <= i < j < |r|
        ensures r[i].productId != r[j].productId
      {
        assert items[i].productId != items[j].productId;
      }
    }
    LineAt(r, k);
    forall i | 0 <= i < |items| && items[i].productId != x.productId
      ensures items[i] in r
    {
      assert r[i] == items[i];
    }
    forall j | 0 <= j < |r| && r[j].productId != x.productId
      ensures r[j] in items
    {
      assert r[j] == items[j];
    }
    SameLinesElsewhere(items, r, x.productId);
  }

  /** Appending a line for a product the cart lacks keeps the cart well formed and touches no other product. */
  lemma AppendLine(items: seq<CartItem>, x: CartItem)
    requires CartLinesValid(items) && x.quantity > 0
    requires forall i :: 0 <= i < |items| ==> items[i].productId != x.productId
    ensures CartLinesValid(items + [x])
    ensures LineOf(items + [x], x.productId) == Some(|items|)
    ensures OthersUnchanged(items, items + [x], x.productId)
  {
    var r := items + [x];
    assert CartLinesValid(r) by {
      forall i, j | 0 <= i < j < |r|
        ensures r[i].productId != r[j].productId
      {
        if j < |items| {
          assert items[i].productId != items[j].productId;
        }
      }
    }
    LineAt(r, |items|);
    forall i | 0 <= i < |items| && items[i].productId != x.productId
      ensures items[i] in r
    {
      assert r[i] == items[i];
    }
    forall j | 0 <= j < |r| && r[j].productId != x.productId
      ensures r[j] in items
    {
      assert r[j] == items[j];
    }
    SameLinesElsewhere(items, r, x.productId);
  }

  // ----- removeItemFromCart ------------------------------------------------------------

  /** The lines without position `k`. */
  function Without(items: seq<CartItem>, k: nat): seq<CartItem>
    requires k < |items|
  {
    items[..k] + items[k + 1..]
  }

  function RemoveOutcome(t: Tables, userId: int, pid: int, now: int): Outcome<Cart> {
    if userId !in t.carts then Outcome(t, Err(NotFound("Cart")))
    else match LineOf(t.carts[userId].items, pid)
      case None => Outcome(t, Err(NotFound("CartItem")))
      case Some(k) =>
        var rest := Without(t.carts[userId].items, k);
        if rest == [] then Outcome(t.(carts := t.carts - {userId}), Ok(Cart([], now)))
        else Outcome(t.(carts := t.carts[userId := Cart(rest, now)]), Ok(Cart(rest, now)))
  }

  /**
   * `removeItemFromCart`: the product's line leaves the cart, and a cart left
   * without lines is deleted.
   */
  method RemoveItemFromCart(db: Database, userId: int, pid: int, now: int) returns (r: Result<Cart>)
    modifies db
    ensures db.State() == RemoveOutcome(old(db.State()), userId, pid, now).state
    ensures r == RemoveOutcome(old(db.State()), userId, pid, now).result
  {
    if userId !in db.carts {
      return Err(NotFound("Cart"));
    }
    var cart := db.carts[userId];
    var found := LineOf(cart.items, pid);
    if found.None? {
      return Err(NotFound("CartItem"));
    }
    var rest := cart.items[..found.value] + cart.items[found.value + 1..];
    if rest == [] {
      db.carts := db.carts - {userId};
      return Ok(Cart([], now));
    }
    db.carts := db.carts[userId := Cart(rest, now)];
    return Ok(Cart(rest, now));
  }

  /** A removal succeeds exactly when the user has a cart holding a line for the product. */
  lemma RemoveOkIff(t: Tables, userId: int, pid: int, now: int)
    ensures RemoveOutcome(t, userId, pid, now).result.Ok? <==>
              userId in t.carts && exists i :: 0 <= i < |t.carts[userId].items| && t.carts[userId].items[i].productId == pid
    ensures RemoveOutcome(t, userId, pid, now).result.Err? ==> RemoveOutcome(t, userId, pid, now).state == t
  {
    if userId in t.carts && RemoveOutcome(t, userId, pid, now).result.Err? {
      assert LineOf(t.carts[userId].items, pid).None?;
    }
  }

  /**
   * A successful removal leaves no quantity of the product, one line fewer,
   * every other product as it was, and no empty cart behind.
   */
  lemma RemoveSpec(t: Tables, userId: int, pid: int, now: int)
    requires CartsConsistent(t.carts)
    requires RemoveOutcome(t, userId, pid, now).result.Ok?
    ensures var s := RemoveOutcome(t, userId, pid, now).state;
            var items := ItemsOf(s.carts, userId);
            QuantityIn(items, pid) == 0 &&
            |items| == |ItemsOf(t.carts, userId)| - 1 &&
            (userId in s.carts ==> items != [] && s.carts[userId].lastUpdated == now) &&
            CartsConsistent(s.carts) &&
            OthersUnchanged(ItemsOf(t.carts, userId), items, pid) &&
            s == t.(carts := s.carts) &&
            forall u :: u != userId ==> ItemsOf(s.carts, u) == ItemsOf(t.carts, u)
  {
    var old_ := t.carts[userId].items;
    var k := LineOf(old_, pid).value;
    var rest := Without(old_, k);
    var s := RemoveOutcome(t, userId, pid, now).state;
    assert CartLinesValid(old_);
    DropLine(old_, k);
    if rest == [] {
      DropCart(t.carts, userId);
    } else {
      PutCart(t.carts, userId, Cart(rest, now));
    }
  }

  /** Dropping one line of a well-formed cart leaves a well-formed cart without that product, touching no other. */
  lemma DropLine(items: seq<CartItem>, k: nat)
    requires CartLinesValid(items) && k < |items|
    ensures var rest := Without(items, k);
            CartLinesValid(rest) && |rest| == |items| - 1 &&
            LineOf(rest, items[k].productId).None? &&
            OthersUnchanged(items, rest, items[k].productId)
  {
    var rest := Without(items, k);
    var pid := items[k].productId;
    forall i | 0 <= i < |rest|
      ensures rest[i] == items[if i < k then i else i + 1]
    {
    }
    forall i | 0 <= i < |rest|
      ensures rest[i].productId != pid
    {
      if i >= k {
        assert items[k].productId != items[i + 1].productId;
      }
    }
    forall i | 0 <= i < |items| && items[i].productId != pid
      ensures items[i] in rest
    {
      if i < k {
        assert rest[i] == items[i];
      } else {
        assert rest[i - 1] == items[i];
      }
    }
    forall j | 0 <= j < |rest| && rest[j].productId != pid
      ensures rest[j] in items
    {
    }
    SameLinesElsewhere(items, rest, pid);
  }

  // ----- updateItemQuantity -------------------------------------------------------------

  function UpdateOutcome(t: Tables, userId: int, pid: int, q: int, now: int): Outcome<Cart> {
    if q <= 0 then RemoveOutcome(t, userId, pid, now)
    else if userId !in t.carts then Outcome(t, Err(NotFound("Cart")))
    else match LineOf(t.carts[userId].items, pid)
      case None => Outcome(t, Err(NotFound("CartItem")))
      case Some(k) =>
        if pid !in t.products then Outcome(t, Err(NotFound("Product")))
        else if q > t.products[pid].stock then Outcome(t, Err(OperationFailed("stock")))
        else
          var cart := Cart(t.carts[userId].items[k := CartItem(pid, q, t.products[pid].price)], now);
          Outcome(t.(carts := t.carts[userId := cart]), Ok(cart))
  }

  /**
   * `updateItemQuantity`: a quantity of zero or less is a removal; otherwise
   * the product's line is set to exactly `q` at the current price, provided
   * the stock covers it.
   */
  method UpdateItemQuantity(db: Database, userId: int, pid: int, q: int, now: int) returns (r: Result<Cart>)
    modifies db
    ensures db.State() == UpdateOutcome(old(db.State()), userId, pid, q, now).state
    ensures r == UpdateOutcome(old(db.State()), userId, pid, q, now).result
  {
    if q <= 0 {
      r := RemoveItemFromCart(db, userId, pid, now);
      return;
    }
    if userId !in db.carts {
      return Err(NotFound("Cart"));
    }
    var cart := db.carts[userId];
    var found := LineOf(cart.items, pid);
    if found.None? {
      return Err(NotFound("CartItem"));
    }
    if pid !in db.products {
      return Err(NotFound("Product"));
    }
    var product := db.products[pid];
    if q > product.stock {
      return Err(OperationFailed("stock"));
    }
    var saved := Cart(cart.items[found.value := CartItem(pid, q, product.price)], now);
    db.carts := db.carts[userId := saved];
    return Ok(saved);
  }

  /** A positive update succeeds exactly when the cart, its line and the product exist and the stock covers `q`. */
  lemma UpdateOkIff(t: Tables, userId: int, pid: int, q: int, now: int)
    requires q > 0
    ensures UpdateOutcome(t, userId, pid, q, now).result.Ok? <==>
              userId in t.carts && (exists i :: 0 <= i < |t.carts[userId].items| && t.carts[userId].items[i].productId == pid) &&
              pid in t.products && q <= t.products[pid].stock
    ensures UpdateOutcome(t, userId, pid, q, now).result.Err? ==> UpdateOutcome(t, userId, pid, q, now).state == t
  {
    if userId in t.carts && LineOf(t.carts[userId].items, pid).None? {
      assert forall i :: 0 <= i < |t.carts[userId].items| ==> t.carts[userId].items[i].productId != pid;
    }
  }

  /** After a successful positive update the product's quantity is exactly `q`, at its current price, and nothing else moves. */
  lemma UpdateSpec(t: Tables, userId: int, pid: int, q: int, now: int)
    requires CartsConsistent(t.carts) && q > 0
    requires UpdateOutcome(t, userId, pid, q, now).result.Ok?
    ensures var s := UpdateOutcome(t, userId, pid, q, now).state;
            var items := ItemsOf(s.carts, userId);
            QuantityIn(items, pid) == q && q <= t.products[pid].stock &&
            items[LineOf(items, pid).value].priceAtAddition == t.products[pid].price &&
            |items| == |ItemsOf(t.carts, userId)| &&
            s.carts[userId].lastUpdated == now &&
            CartsConsistent(s.carts) &&
            OthersUnchanged(ItemsOf(t.carts, userId), items, pid) &&
            s == t.(carts := s.carts) &&
            forall u :: u != userId ==> ItemsOf(s.carts, u) == ItemsOf(t.carts, u)
  {
    var old_ := t.carts[userId].items;
    assert CartLinesValid(old_);
    var k := LineOf(old_, pid).value;
    SetLine(old_, k, CartItem(pid, q, t.products[pid].price));
  }

  /** An update to zero or less is a removal, with the same answer and the same new state. */
  lemma UpdateToZeroIsRemove(t: Tables, userId: int, pid: int, q: int, now: int)
    requires q <= 0
    ensures UpdateOutcome(t, userId, pid, q, now) == RemoveOutcome(t, userId, pid, now)
  {
  }

  // ----- removeItemsFromCartBatch --------------------------------------------------------

  /** The lines whose product is not listed: what the bulk DELETE leaves in the table. */
  function Unlisted(items: seq<CartItem>, pids: seq<int>): (r: seq<CartItem>)
    ensures |r| <= |items|
    ensures forall j :: 0 <= j < |r| ==> r[j] in items && r[j].productId !in pids
    ensures forall i :: 0 <= i < |items| && items[i].productId !in pids ==> items[i] in r
  {
    if items == [] then []
    else
      var front := Unlisted(items[..|items| - 1], pids);
      var last := items[|items| - 1];
      assert items == items[..|items| - 1] + [last];
      if last.productId in pids then front else front + [last]
  }

  /**
   * `removeItemsFromCartBatch` as written.  The bulk DELETE bypasses the
   * persistence context, so the cart re-read by id is the cached entity
   * whose line list still holds the deleted lines.  The emptiness test
   * therefore looks at the lines as they were before the delete: a cart
   * emptied by the batch is kept, with no lines, and re-stamped.
   */
  function BatchAsWritten(t: Tables, userId: int, pids: Option<seq<int>>, now: int): Tables {
    if pids.None? || pids.value == [] || userId !in t.carts then t
    else
      var cached := t.carts[userId];
      if cached.items == [] then t.(carts := t.carts - {userId})
      else t.(carts := t.carts[userId := Cart(Unlisted(cached.items, pids.value), now)])
  }

  /** The intended batch removal: the listed lines go, and a cart left without lines is deleted. */
  function BatchRemoved(t: Tables, userId: int, pids: Option<seq<int>>, now: int): Tables {
    if pids.None? || pids.value == [] || userId !in t.carts then t
    else
      var rest := Unlisted(t.carts[userId].items, pids.value);
      if rest == [] then t.(carts := t.carts - {userId})
      else t.(carts := t.carts[userId := Cart(rest, now)])
  }

  /** The method as the source writes it, with the emptiness test on the stale line list. */
  method RemoveItemsFromCartBatch(db: Database, userId: int, pids: Option<seq<int>>, now: int)
    modifies db
    ensures db.State() == BatchAsWritten(old(db.State()), userId, pids, now)
  {
    if pids.None? || pids.value == [] || userId !in db.carts {
      return;
    }
    var cached := db.carts[userId];
    var rest := Unlisted(cached.items, pids.value);
    db.carts := db.carts[userId := Cart(rest, cached.lastUpdated)];
    if cached.items == [] {
      db.carts := db.carts - {userId};
    } else {
      db.carts := db.carts[userId := Cart(rest, now)];
    }
  }

  /** The batch removal with the emptiness test on the lines that remain. */
  method RemoveItemsFromCartBatchCorrected(db: Database, userId: int, pids: Option<seq<int>>, now: int)
    modifies db
    ensures db.State() == BatchRemoved(old(db.State()), userId, pids, now)
  {
    if pids.None? || pids.value == [] || userId !in db.carts {
      return;
    }
    var rest := Unlisted(db.carts[userId].items, pids.value);
    if rest == [] {
      db.carts := db.carts - {userId};
    } else {
      db.carts := db.carts[userId := Cart(rest, now)];
    }
  }

  /** The two differ exactly when the batch removes the last lines of a cart that had some. */
  lemma BatchAgreesUnlessEmptied(t: Tables, userId: int, pids: seq<int>, now: int)
    requires pids != [] && userId in t.carts
    ensures BatchAsWritten(t, userId, Some(pids), now) != BatchRemoved(t, userId, Some(pids), now) <==>
              t.carts[userId].items != [] && Unlisted(t.carts[userId].items, pids) == []
  {
    var s := BatchAsWritten(t, userId, Some(pids), now);
    if t.carts[userId].items != [] && Unlisted(t.carts[userId].items, pids) == [] {
      assert userId in s.carts;
    }
  }

  /** A cart whose one line is removed by the batch stays behind, empty, where it should have been deleted. */
  lemma BatchKeepsEmptiedCart(t: Tables, now: int)
    requires t.carts == map[1 := Cart([CartItem(7, 1, 100)], 0)]
    ensures var s := BatchAsWritten(t, 1, Some([7]), now);
            1 in s.carts && s.carts[1].items == []
    ensures 1 !in BatchRemoved(t, 1, Some([7]), now).carts
  {
    assert Unlisted([CartItem(7, 1, 100)], [7]) == [];
  }

  /**
   * The intended batch removal leaves no listed product in the cart, keeps
   * the full quantity of every unlisted one, and never leaves an empty cart
   * behind.
   */
  lemma BatchRemovedSpec(t: Tables, userId: int, pids: Option<seq<int>>, now: int)
    requires CartsConsistent(t.carts)
    ensures pids.Some? && userId in t.carts ==>
              forall p :: p in pids.value ==> QuantityIn(ItemsOf(BatchRemoved(t, userId, pids, now).carts, userId), p) == 0
    ensures pids.Some? ==>
              forall p :: p !in pids.value ==>
                QuantityIn(ItemsOf(BatchRemoved(t, userId, pids, now).carts, userId), p) == QuantityIn(ItemsOf(t.carts, userId), p)
    ensures var s := BatchRemoved(t, userId, pids, now);
            userId in s.carts && userId in t.carts && pids.Some? && pids.value != [] ==>
              s.carts[userId].items != [] && s.carts[userId].lastUpdated == now
  {
    if pids.Some? && pids.value != [] && userId in t.carts {
      var rest := Unlisted(t.carts[userId].items, pids.value);
      var s := BatchRemoved(t, userId, pids, now);
      assert ItemsOf(s.carts, userId) == rest;
      assert CartLinesValid(t.carts[userId].items);
      UnlistedLines(t.carts[userId].items, pids.value);
    }
  }

  /**
   * The intended batch removal keeps one line per product in every cart and
   * changes no other user's cart and no other table; a missing list, an
   * empty list or a missing cart change nothing at all.
   */
  lemma BatchRemovedFrame(t: Tables, userId: int, pids: Option<seq<int>>, now: int)
    requires CartsConsistent(t.carts)
    ensures pids.None? || pids.value == [] || userId !in t.carts ==> BatchRemoved(t, userId, pids, now) == t
    ensures CartsConsistent(BatchRemoved(t, userId, pids, now).carts)
    ensures BatchRemoved(t, userId, pids, now) == t.(carts := BatchRemoved(t, userId, pids, now).carts)
    ensures forall u :: u != userId ==> ItemsOf(BatchRemoved(t, userId, pids, now).carts, u) == ItemsOf(t.carts, u)
  {
    if pids.Some? && pids.value != [] && userId in t.carts {
      var rest := Unlisted(t.carts[userId].items, pids.value);
      assert CartLinesValid(t.carts[userId].items);
      if rest == [] {
        DropCart(t.carts, userId);
      } else {
        UnlistedKeepsLines(t.carts[userId].items, pids.value);
        PutCart(t.carts, userId, Cart(rest, now));
      }
    }
  }

  /** The bulk delete leaves none of the listed products and the full quantity of every other one. */
  lemma UnlistedLines(items: seq<CartItem>, pids: seq<int>)
    requires CartLinesValid(items)
    ensures var rest := Unlisted(items, pids);
            CartLinesValid(rest) &&
            (forall p :: p in pids ==> QuantityIn(rest, p) == 0) &&
            (forall p :: p !in pids ==> QuantityIn(rest, p) == QuantityIn(items, p))
  {
    var rest := Unlisted(items, pids);
    UnlistedKeepsLines(items, pids);
    forall p | p in pids
      ensures QuantityIn(rest, p) == 0
    {
      assert forall j :: 0 <= j < |rest| ==> rest[j].productId != p;
    }
    forall p | p !in pids
      ensures QuantityIn(rest, p) == QuantityIn(items, p)
    {
      if LineOf(items, p).Some? {
        var i := LineOf(items, p).value;
        assert items[i] in rest;
        var j :| 0 <= j < |rest| && rest[j] == items[i];
        LineAt(items, i);
        LineAt(rest, j);
      } else {
        forall j | 0 <= j < |rest|
          ensures rest[j].productId != p
        {
          assert rest[j] in items;
        }
      }
    }
  }

  /** The bulk delete of a well-formed cart leaves a well-formed cart. */
  lemma {:induction false} UnlistedKeepsLines(items: seq<CartItem>, pids: seq<int>)
    requires CartLinesValid(items)
    ensures CartLinesValid(Unlisted(items, pids))
  {
    if items != [] {
      var init := items[..|items| - 1];
      var last := items[|items| - 1];
      assert CartLinesValid(init) by {
        forall i, j | 0 <= i < j < |init|
          ensures init[i].productId != init[j].productId
        {
          assert items[i].productId != items[j].productId;
        }
      }
      UnlistedKeepsLines(init, pids);
      var front := Unlisted(init, pids);
      assert items == init + [last];
      if last.productId !in pids {
        forall j | 0 <= j < |front|
          ensures front[j].productId != last.productId
        {
          var i :| 0 <= i < |init| && init[i] == front[j];
          assert items[i].productId != items[|items| - 1].productId;
        }
        assert last.quantity > 0 by {
          assert items[|items| - 1] == last;
        }
        AppendLine(front, last);
      }
    }
  }

  // ----- getCartByUserIdWithDetails --------------------------------------------------

  /** One line as the cart view shows it, with the product's current price, name, picture and stock. */
  datatype CartLineDetail = CartLineDetail(
    productId: int, quantity: int, price: Money, name: string, imageUrl: Option<string>, stock: int)

  /** The lines whose product still exists, in cart order. */
  function Present(items: seq<CartItem>, products: map<int, Product>): (r: seq<CartItem>)
    ensures |r| <= |items|
    ensures forall j :: 0 <= j < |r| ==> r[j] in items && r[j].productId in products
    ensures forall i :: 0 <= i < |items| && items[i].productId in products ==> items[i] in r
    ensures (forall i :: 0 <= i < |items| ==> items[i].productId in products) ==> r == items
  {
    if items == [] then []
    else
      var front := Present(items[..|items| - 1], products);
      var last := items[|items| - 1];
      assert items == items[..|items| - 1] + [last];
      if last.productId in products then front + [last] else front
  }

  /** A line as the view shows it: its quantity with the product's current price, name, primary picture and stock. */
  function DetailOf(line: CartItem, p: Product): CartLineDetail {
    CartLineDetail(line.productId, line.quantity, p.price, p.name, PrimaryImageUrl(p), p.stock)
  }

  /** The cart view's lines: exactly the lines whose product still exists, in cart order, each with its product's details. */
  function Details(items: seq<CartItem>, products: map<int, Product>): (r: seq<CartLineDetail>)
    ensures |r| == |Present(items, products)| <= |items|
    ensures forall j :: 0 <= j < |r| ==>
              var line := Present(items, products)[j];
              r[j] == DetailOf(line, products[line.productId])
    ensures (forall i :: 0 <= i < |items| ==> items[i].productId in products) ==> |r| == |items|
  {
    if items == [] then []
    else
      var front := Details(items[..|items| - 1], products);
      var line := items[|items| - 1];
      if line.productId !in products then front
      else front + [DetailOf(line, products[line.productId])]
  }

  /** Every line whose product exists shows in the view with that product's details. */
  lemma DetailsComplete(items: seq<CartItem>, products: map<int, Product>)
    ensures forall i :: 0 <= i < |items| && items[i].productId in products ==>
              DetailOf(items[i], products[items[i].productId]) in Details(items, products)
  {
    var present := Present(items, products);
    var r := Details(items, products);
    forall i | 0 <= i < |items| && items[i].productId in products
      ensures DetailOf(items[i], products[items[i].productId]) in r
    {
      var j :| 0 <= j < |present| && present[j] == items[i];
      assert r[j] == DetailOf(items[i], products[items[i].productId]);
    }
  }

  /**
   * `getCartByUserIdWithDetails`: nothing for a user without a cart,
   * otherwise the cart's timestamp and one detail line per line whose
   * product exists, in cart order; every such line shows.
   */
  function CartView(t: Tables, userId: int): (r: Option<(seq<CartLineDetail>, int)>)
    ensures r.None? <==> userId !in t.carts
    ensures r.Some? ==> r.value.1 == t.carts[userId].lastUpdated
    ensures r.Some? ==>
              var present := Present(t.carts[userId].items, t.products);
              |r.value.0| == |present| &&
              forall j :: 0 <= j < |present| ==> r.value.0[j] == DetailOf(present[j], t.products[present[j].productId])
    ensures r.Some? ==>
              var items := t.carts[userId].items;
              forall i :: 0 <= i < |items| && items[i].productId in t.products ==>
                DetailOf(items[i], t.products[items[i].productId]) in r.value.0
  {
    if userId !in t.carts then None
    else
      DetailsComplete(t.carts[userId].items, t.products);
      Some((Details(t.carts[userId].items, t.products), t.carts[userId].lastUpdated))
  }

  // ----- integrity ----------------------------------------------------------------

  /** Storing a well-formed cart keeps every cart well formed and changes no other user's lines. */
  lemma PutCart(carts: map<int, Cart>, userId: int, c: Cart)
    requires CartsConsistent(carts) && CartLinesValid(c.items)
    ensures CartsConsistent(carts[userId := c]) && ItemsOf(carts[userId := c], userId) == c.items
    ensures forall u :: u != userId ==> ItemsOf(carts[userId := c], u) == ItemsOf(carts, u)
  {
  }

  /** Deleting a cart keeps the others well formed and unchanged. */
  lemma DropCart(carts: map<int, Cart>, userId: int)
    requires CartsConsistent(carts)
    ensures CartsConsistent(carts - {userId}) && ItemsOf(carts - {userId}, userId) == []
    ensures forall u :: u != userId ==> ItemsOf(carts - {userId}, u) == ItemsOf(carts, u)
  {
  }

  /** A change to the carts alone that keeps them well formed keeps every integrity rule. */
  lemma CartsOnlyChange(t: Tables, s: Tables)
    requires Consistent(t) && s == t.(carts := s.carts) && CartsConsistent(s.carts)
    ensures Consistent(s)
  {
  }

  /** The batch as written changes only the carts and keeps every cart well formed; a cart it keeps may be empty. */
  lemma BatchAsWrittenFrame(t: Tables, userId: int, pids: Option<seq<int>>, now: int)
    requires CartsConsistent(t.carts)
    ensures CartsConsistent(BatchAsWritten(t, userId, pids, now).carts)
    ensures BatchAsWritten(t, userId, pids, now) == t.(carts := BatchAsWritten(t, userId, pids, now).carts)
  {
    if pids.Some? && pids.value != [] && userId in t.carts {
      var cached := t.carts[userId];
      assert CartLinesValid(cached.items);
      if cached.items == [] {
        DropCart(t.carts, userId);
        assert BatchAsWritten(t, userId, pids, now).carts == t.carts - {userId};
      } else {
        var kept := Cart(Unlisted(cached.items, pids.value), now);
        UnlistedKeepsLines(cached.items, pids.value);
        PutCart(t.carts, userId, kept);
        assert BatchAsWritten(t, userId, pids, now).carts == t.carts[userId := kept];
      }
    }
  }

  /** Every cart operation keeps every integrity rule of the database. */
  lemma CartOperationsKeepConsistency(t: Tables, userId: int, pid: int, q: int, pids: Option<seq<int>>, now: int)
    requires Consistent(t)
    ensures Consistent(AddOutcome(t, userId, pid, q, now).state)
    ensures Consistent(RemoveOutcome(t, userId, pid, now).state)
    ensures Consistent(UpdateOutcome(t, userId, pid, q, now).state)
    ensures Consistent(BatchAsWritten(t, userId, pids, now))
    ensures Consistent(BatchRemoved(t, userId, pids, now))
  {
    if AddOutcome(t, userId, pid, q, now).result.Ok? {
      AddSpec(t, userId, pid, q, now);
      CartsOnlyChange(t, AddOutcome(t, userId, pid, q, now).state);
    }
    if RemoveOutcome(t, userId, pid, now).result.Ok? {
      RemoveSpec(t, userId, pid, now);
      CartsOnlyChange(t, RemoveOutcome(t, userId, pid, now).state);
    }
    if q > 0 && UpdateOutcome(t, userId, pid, q, now).result.Ok? {
      UpdateSpec(t, userId, pid, q, now);
      CartsOnlyChange(t, UpdateOutcome(t, userId, pid, q, now).state);
    }
    BatchAsWrittenFrame(t, userId, pids, now);
    CartsOnlyChange(t, BatchAsWritten(t, userId, pids, now));
    BatchRemovedFrame(t, userId, pids, now);
    CartsOnlyChange(t, BatchRemoved(t, userId, pids, now));
  }
}
