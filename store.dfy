/**
 * The relational database behind the Spring Data repositories: one table per
 * entity, keyed by its generated identifier (carts are keyed by the user id,
 * which is unique per cart), and the integrity rules the services keep.
 */
module Store {
  import opened Wrappers
  import opened Entities

  /** All tables at one instant. */
  datatype Tables = Tables(
    categories: set<int>,
    products: map<int, Product>,
    orders: map<int, Order>,
    carts: map<int, Cart>,
    reviews: map<int, Review>,
    users: map<int, User>,
    favorites: map<int, Favorite>,
    invoices: map<int, Invoice>,
    tokens: map<int, ResetToken>)

  /** What a service call does to the tables, and what it answers. */
  datatype Outcome<T> = Outcome(state: Tables, result: Result<T>)

  class Database {
    var categories: set<int>
    var products: map<int, Product>
    var orders: map<int, Order>
    var carts: map<int, Cart>
    var reviews: map<int, Review>
    var users: map<int, User>
    var favorites: map<int, Favorite>
    var invoices: map<int, Invoice>
    var tokens: map<int, ResetToken>

    function State(): Tables
      reads this
    {
      Tables(categories, products, orders, carts, reviews, users, favorites, invoices, tokens)
    }

    predicate Valid()
      reads this
    {
      Consistent(State())
    }

    /** An empty database satisfies every integrity rule. */
    constructor (categoryIds: set<int>)
      ensures State() == Tables(categoryIds, map[], map[], map[], map[], map[], map[], map[], map[])
      ensures Valid()
    {
      categories := categoryIds;
      products, orders, carts, reviews := map[], map[], map[], map[];
      users, favorites, invoices, tokens := map[], map[], map[], map[];
    }

    /** Puts every table back as it was at `t`: the rollback of a transaction. */
    method Restore(t: Tables)
      modifies this
      ensures State() == t
    {
      categories, products, orders, carts, reviews := t.categories, t.products, t.orders, t.carts, t.reviews;
      users, favorites, invoices, tokens := t.users, t.favorites, t.invoices, t.tokens;
    }
  }

  // ----- integrity rules -------------------------------------------------------

  /** Stock is never negative. */
  predicate StocksNonNegative(products: map<int, Product>) {
    forall p :: p in products ==> products[p].stock >= 0
  }

  /** Every order line names an existing product and a positive quantity. */
  predicate OrdersConsistent(orders: map<int, Order>, products: map<int, Product>) {
    forall o, i :: o in orders && 0 <= i < |orders[o].items| ==>
      orders[o].items[i].productId in products && orders[o].items[i].quantity > 0
  }

  /** A cart holds at most one line per product (unique cart_id, product_id), each with a positive quantity. */
  predicate CartLinesValid(items: seq<CartItem>) {
    (forall i :: 0 <= i < |items| ==> items[i].quantity > 0) &&
    (forall i, j :: 0 <= i < j < |items| ==> items[i].productId != items[j].productId)
  }

  predicate CartsConsistent(carts: map<int, Cart>) {
    forall u :: u in carts ==> CartLinesValid(carts[u].items)
  }

  /** Reviews name existing products, and a user reviews a product at most once per order. */
  predicate ReviewsConsistent(reviews: map<int, Review>, products: map<int, Product>) {
    (forall r :: r in reviews ==> reviews[r].productId in products) &&
    (forall r1, r2 :: r1 in reviews && r2 in reviews && r1 != r2 ==>
       !SameReviewKey(reviews[r1], reviews[r2]))
  }

  predicate SameReviewKey(a: Review, b: Review) {
    a.userId == b.userId && a.productId == b.productId && a.orderId == b.orderId
  }

  /** The ids of the visible reviews of product `pid`. */
  function VisibleReviews(reviews: map<int, Review>, pid: int): set<int> {
    set r | r in reviews && reviews[r].productId == pid && reviews[r].visible
  }

  /** A product's stored count is the number of its visible reviews, and its average is zero exactly when there is none. */
  predicate RatingAgrees(p: Product, reviews: map<int, Review>, pid: int) {
    p.reviewCount == |VisibleReviews(reviews, pid)| &&
    (p.averageRating == ZeroRating <==> p.reviewCount == 0)
  }

  predicate RatingsConsistent(products: map<int, Product>, reviews: map<int, Review>) {
    forall p :: p in products ==> RatingAgrees(products[p], reviews, p)
  }

  /** Usernames and e-mail addresses are unique columns. */
  predicate UsersUnique(users: map<int, User>) {
    forall a, b :: a in users && b in users && a != b ==>
      users[a].username != users[b].username && users[a].email != users[b].email
  }

  /** A user marks a product as favourite at most once. */
  predicate FavoritesUnique(favorites: map<int, Favorite>) {
    forall a, b :: a in favorites && b in favorites && a != b ==> favorites[a] != favorites[b]
  }

  /** An order has at most one invoice (the one-to-one join column). */
  predicate InvoicesUnique(invoices: map<int, Invoice>) {
    forall a, b :: a in invoices && b in invoices && a != b ==> invoices[a].orderId != invoices[b].orderId
  }

  predicate Consistent(t: Tables) {
    StocksNonNegative(t.products) &&
    OrdersConsistent(t.orders, t.products) &&
    CartsConsistent(t.carts) &&
    ReviewsConsistent(t.reviews, t.products) &&
    RatingsConsistent(t.products, t.reviews) &&
    UsersUnique(t.users) &&
    FavoritesUnique(t.favorites) &&
    InvoicesUnique(t.invoices)
  }

  /** A set that is not empty has a member. */
  lemma HasMember(s: set<int>)
    requires s != {}
    ensures exists x :: x in s
  {
    if forall x :: x !in s {
      assert false;
    }
  }

  /**
   * The key an IDENTITY column hands out: positive and above every key in
   * the table, found by a scan for the largest one.
   */
  method NewId(keys: set<int>) returns (id: int)
    ensures id > 0 && id !in keys
    ensures forall k :: k in keys ==> k < id
  {
    var rest := keys;
    var top := 0;
    while rest != {}
      invariant rest <= keys
      invariant top >= 0
      invariant forall k :: k in keys && k !in rest ==> k <= top
      decreases |rest|
    {
      HasMember(rest);
      var x :| x in rest;
      if x > top {
        top := x;
      }
      rest := rest - {x};
    }
    id := top + 1;
  }
}
