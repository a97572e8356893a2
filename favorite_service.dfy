/**
 * `FavoriteService`: a user's favourite products, one record per
 * (user, product) pair.
 */
module FavoriteService {
  import opened Wrappers
  import opened Entities
  import opened Store

  predicate IsFavorite(favorites: map<int, Favorite>, userId: int, productId: int) {
    exists f :: f in favorites && favorites[f] == Favorite(userId, productId)
  }

  /** `findByUserUserIdAndProductProductId`: the pair's record, unique in a consistent table. */
  function FavoriteOf(favorites: map<int, Favorite>, userId: int, productId: int): (r: Option<int>)
    requires FavoritesUnique(favorites)
    ensures r.None? <==> !IsFavorite(favorites, userId, productId)
    ensures r.Some? ==> r.value in favorites && favorites[r.value] == Favorite(userId, productId)
  {
    if IsFavorite(favorites, userId, productId) then
      var f :| f in favorites && favorites[f] == Favorite(userId, productId);
      Some(f)
    else None
  }

  method FindFavorite(db: Database, userId: int, productId: int) returns (r: Option<int>)
    requires FavoritesUnique(db.favorites)
    ensures r == FavoriteOf(db.favorites, userId, productId)
  {
    if IsFavorite(db.favorites, userId, productId) {
      var f :| f in db.favorites && db.favorites[f] == Favorite(userId, productId);
      return Some(f);
    }
    return None;
  }

  // ----- addFavorite ----------------------------------------------------------------

  /** An existing pair is answered first; only a new pair needs the user and the product to exist. */
  function AddFailure(t: Tables, userId: int, productId: int): Option<Failure> {
    if IsFavorite(t.favorites, userId, productId) then None
    else if userId !in t.users then Some(NotFound("User"))
    else if productId !in t.products then Some(NotFound("Product"))
    else None
  }

  /** The table after a successful `addFavorite`, with `id` the key a new record would get. */
  function AddState(t: Tables, userId: int, productId: int, id: int): Tables {
    if IsFavorite(t.favorites, userId, productId) then t
    else t.(favorites := t.favorites[id := Favorite(userId, productId)])
  }

  /** `addFavorite`: the pair's existing record, or a new one. */
  method AddFavorite(db: Database, userId: int, productId: int) returns (r: Result<int>)
    requires FavoritesUnique(db.favorites)
    modifies db
    ensures r.Err? <==> AddFailure(old(db.State()), userId, productId).Some?
    ensures r.Err? ==> r.error == AddFailure(old(db.State()), userId, productId).value && db.State() == old(db.State())
    ensures r.Ok? && IsFavorite(old(db.favorites), userId, productId) ==>
              r.value == FavoriteOf(old(db.favorites), userId, productId).value && db.State() == old(db.State())
    ensures r.Ok? && !IsFavorite(old(db.favorites), userId, productId) ==>
              r.value > 0 && r.value !in old(db.favorites) && db.State() == AddState(old(db.State()), userId, productId, r.value)
  {
    var existing := FindFavorite(db, userId, productId);
    if existing.Some? {
      return Ok(existing.value);
    }
    if userId !in db.users {
      return Err(NotFound("User"));
    }
    if productId !in db.products {
      return Err(NotFound("Product"));
    }
    var id := NewId(db.favorites.Keys);
    db.favorites := db.favorites[id := Favorite(userId, productId)];
    return Ok(id);
  }

  /** Inserting a pair that has no record keeps one record per pair and adds one key. */
  lemma InsertKeepsUnique(favorites: map<int, Favorite>, id: int, fav: Favorite)
    requires FavoritesUnique(favorites) && id !in favorites && !IsFavorite(favorites, fav.userId, fav.productId)
    ensures FavoritesUnique(favorites[id := fav]) && IsFavorite(favorites[id := fav], fav.userId, fav.productId)
    ensures favorites[id := fav].Keys == favorites.Keys + {id} && |favorites[id := fav]| == |favorites| + 1
  {
    var m := favorites[id := fav];
    forall a, b | a in m && b in m && a != b
      ensures m[a] != m[b]
    {
      if a == id {
        assert b in favorites;
      } else if b == id {
        assert a in favorites;
      }
    }
    assert m[id] == fav;
  }

  /** A change to the favourites table alone that keeps one record per pair keeps every integrity rule. */
  lemma FavoritesOnlyChange(t: Tables, s: Tables)
    requires Consistent(t) && s == t.(favorites := s.favorites) && FavoritesUnique(s.favorites)
    ensures Consistent(s)
  {
  }

  /**
   * Adding keeps one record per pair: afterwards the pair is a favourite,
   * exactly one new record was inserted if it was not, every integrity rule
   * holds, and adding the same pair again changes nothing.
   */
  lemma AddSpec(t: Tables, userId: int, productId: int, id: int, id2: int)
    requires Consistent(t) && id !in t.favorites && AddFailure(t, userId, productId).None?
    ensures var s := AddState(t, userId, productId, id);
            Consistent(s) && IsFavorite(s.favorites, userId, productId) &&
            (IsFavorite(t.favorites, userId, productId) ==> s == t) &&
            (!IsFavorite(t.favorites, userId, productId) ==>
               s.favorites.Keys == t.favorites.Keys + {id} && |s.favorites| == |t.favorites| + 1) &&
            AddFailure(s, userId, productId).None? && AddState(s, userId, productId, id2) == s
  {
    if !IsFavorite(t.favorites, userId, productId) {
      var s := AddState(t, userId, productId, id);
      InsertKeepsUnique(t.favorites, id, Favorite(userId, productId));
      FavoritesOnlyChange(t, s);
    }
  }

  // ----- removeFavorite and removeFavoriteByProduct -------------------------------------------

  function RemoveOutcome(t: Tables, userId: int, favoriteId: int): Outcome<()> {
    if favoriteId !in t.favorites then Outcome(t, Err(NotFound("Favorite")))
    else if t.favorites[favoriteId].userId != userId then Outcome(t, Err(BadRequest("owner")))
    else Outcome(t.(favorites := t.favorites - {favoriteId}), Ok(()))
  }

  /** `removeFavorite`: only the record's owner may remove it. */
  method RemoveFavorite(db: Database, userId: int, favoriteId: int) returns (r: Result<()>)
    modifies db
    ensures db.State() == RemoveOutcome(old(db.State()), userId, favoriteId).state
    ensures r == RemoveOutcome(old(db.State()), userId, favoriteId).result
  {
    if favoriteId !in db.favorites {
      return Err(NotFound("Favorite"));
    }
    if db.favorites[favoriteId].userId != userId {
      return Err(BadRequest("owner"));
    }
    db.favorites := db.favorites - {favoriteId};
    return Ok(());
  }

  function RemoveByProductOutcome(t: Tables, userId: int, productId: int): Outcome<()>
    requires FavoritesUnique(t.favorites)
  {
    match FavoriteOf(t.favorites, userId, productId)
    case None => Outcome(t, Err(NotFound("Favorite")))
    case Some(f) => Outcome(t.(favorites := t.favorites - {f}), Ok(()))
  }

  /** `removeFavoriteByProduct`. */
  method RemoveFavoriteByProduct(db: Database, userId: int, productId: int) returns (r: Result<()>)
    requires FavoritesUnique(db.favorites)
    modifies db
    ensures db.State() == RemoveByProductOutcome(old(db.State()), userId, productId).state
    ensures r == RemoveByProductOutcome(old(db.State()), userId, productId).result
  {
    var found := FindFavorite(db, userId, productId);
    if found.None? {
      return Err(NotFound("Favorite"));
    }
    db.favorites := db.favorites - {found.value};
    return Ok(());
  }

  /**
   * A removal by someone else is refused and keeps the record; the owner's
   * removal deletes exactly that record; either removal leaves the integrity
   * rules holding.
   */
  lemma RemoveSpec(t: Tables, userId: int, favoriteId: int)
    requires Consistent(t)
    ensures var o := RemoveOutcome(t, userId, favoriteId);
            (o.result.Ok? <==> favoriteId in t.favorites && t.favorites[favoriteId].userId == userId) &&
            (o.result.Err? ==> o.state == t) &&
            (o.result.Ok? ==> o.state.favorites.Keys == t.favorites.Keys - {favoriteId}) &&
            Consistent(o.state)
  {
  }

  /** After removal by product the pair is no favourite any more; removal fails exactly when it was none. */
  lemma RemoveByProductSpec(t: Tables, userId: int, productId: int)
    requires Consistent(t)
    ensures var o := RemoveByProductOutcome(t, userId, productId);
            (o.result.Ok? <==> IsFavorite(t.favorites, userId, productId)) &&
            (o.result.Err? ==> o.state == t) &&
            !IsFavorite(o.state.favorites, userId, productId) &&
            Consistent(o.state)
  {
    var o := RemoveByProductOutcome(t, userId, productId);
    if o.result.Ok? {
      var f := FavoriteOf(t.favorites, userId, productId).value;
      forall g | g in o.state.favorites
        ensures o.state.favorites[g] != Favorite(userId, productId)
      {
        assert g in t.favorites && g != f;
      }
    }
  }

  /** Removing by product undoes adding a pair that was not a favourite. */
  lemma RemoveByProductUndoesAdd(t: Tables, userId: int, productId: int, id: int)
    requires Consistent(t) && id !in t.favorites
    requires !IsFavorite(t.favorites, userId, productId) && AddFailure(t, userId, productId).None?
    ensures var s := AddState(t, userId, productId, id);
            FavoritesUnique(s.favorites) && RemoveByProductOutcome(s, userId, productId) == Outcome(t, Ok(()))
  {
    AddSpec(t, userId, productId, id, id);
    var s := AddState(t, userId, productId, id);
    assert FavoriteOf(s.favorites, userId, productId) == Some(id);
    assert s.favorites - {id} == t.favorites;
  }
}
