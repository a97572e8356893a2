/**
 * `ProductReviewService`: reviews of products by the users who bought them.
 * A review is tied to one completed order, so a user reviews a product at
 * most once per order.  After every change the product's stored review count
 * is recomputed from its visible reviews.
 */
module ReviewService {
  import opened Wrappers
  import opened Entities
  import opened Store

  // ----- the rating recount ------------------------------------------------------------

  /**
   * `updateProductAverageRatingAndCount`: the product's count becomes the
   * number of its visible reviews, and its average the zero default when
   * there is none.
   */
  function Recount(products: map<int, Product>, reviews: map<int, Review>, pid: int): (r: map<int, Product>)
    ensures r.Keys == products.Keys
    ensures forall p :: p in products && p != pid ==> r[p] == products[p]
    ensures pid in products ==>
              RatingAgrees(r[pid], reviews, pid) && r[pid] == products[pid].(reviewCount := r[pid].reviewCount, averageRating := r[pid].averageRating)
  {
    if pid !in products then products
    else
      var n := |VisibleReviews(reviews, pid)|;
      products[pid := products[pid].(reviewCount := n, averageRating := if n == 0 then ZeroRating else RoundedMean)]
  }

  method UpdateRatingAndCount(db: Database, pid: int)
    modifies db
    ensures db.State() == old(db.State()).(products := Recount(old(db.products), old(db.reviews), pid))
  {
    if pid in db.products {
      var n := |VisibleReviews(db.reviews, pid)|;
      db.products := db.products[pid := db.products[pid].(reviewCount := n, averageRating := if n == 0 then ZeroRating else RoundedMean)];
    }
  }

  /**
   * A change to the reviews that keeps every review on an existing product,
   * one review per (user, product, order), and every other product's
   * visible reviews, followed by the recount of `pid`, keeps every integrity
   * rule.
   */
  lemma ReviewChangeKeepsConsistency(t: Tables, reviews: map<int, Review>, pid: int)
    requires Consistent(t)
    requires ReviewsConsistent(reviews, t.products)
    requires forall p :: p != pid ==> VisibleReviews(reviews, p) == VisibleReviews(t.reviews, p)
    ensures Consistent(t.(reviews := reviews, products := Recount(t.products, reviews, pid)))
  {
    var ps := Recount(t.products, reviews, pid);
    forall p | p in ps
      ensures RatingAgrees(ps[p], reviews, p)
    {
      if p != pid {
        assert RatingAgrees(t.products[p], t.reviews, p);
      }
    }
    forall o, i | o in t.orders && 0 <= i < |t.orders[o].items|
      ensures t.orders[o].items[i].productId in ps
    {
    }
  }

  // ----- addReview --------------------------------------------------------------------

  /** `findByUserUserIdAndProductProductIdAndOrderOrderId`: the user already reviewed the product for that order. */
  predicate Reviewed(reviews: map<int, Review>, userId: int, pid: int, orderId: int) {
    exists r :: r in reviews && reviews[r].userId == userId && reviews[r].productId == pid && reviews[r].orderId == orderId
  }

  /** The position of the first order in `completed` the user has not yet reviewed the product for. */
  function FirstUnreviewed(reviews: map<int, Review>, userId: int, pid: int, completed: seq<int>): (r: Option<nat>)
    ensures r.None? <==> forall j :: 0 <= j < |completed| ==> Reviewed(reviews, userId, pid, completed[j])
    ensures r.Some? ==>
              r.value < |completed| && !Reviewed(reviews, userId, pid, completed[r.value]) &&
              forall j :: 0 <= j < r.value ==> Reviewed(reviews, userId, pid, completed[j])
  {
    if completed == [] then None
    else if !Reviewed(reviews, userId, pid, completed[0]) then Some(0)
    else match FirstUnreviewed(reviews, userId, pid, completed[1..])
      case None => None
      case Some(k) => Some(k + 1)
  }

  /** The scan of the completed orders, stopping at the first one not yet reviewed. */
  method FindEligibleOrder(db: Database, userId: int, pid: int, completed: seq<int>) returns (r: Option<nat>)
    ensures r == FirstUnreviewed(db.reviews, userId, pid, completed)
  {
    var i := 0;
    r := None;
    while i < |completed|
      invariant 0 <= i <= |completed|
      invariant forall j :: 0 <= j < i ==> Reviewed(db.reviews, userId, pid, completed[j])
      decreases |completed| - i
    {
      if !Reviewed(db.reviews, userId, pid, completed[i]) {
        r := Some(i);
        FirstUnreviewedIsFirst(db.reviews, userId, pid, completed, i);
        return;
      }
      i := i + 1;
    }
  }

  /** An unreviewed order preceded only by reviewed ones is the one the search finds. */
  lemma FirstUnreviewedIsFirst(reviews: map<int, Review>, userId: int, pid: int, completed: seq<int>, i: nat)
    requires i < |completed| && !Reviewed(reviews, userId, pid, completed[i])
    requires forall j :: 0 <= j < i ==> Reviewed(reviews, userId, pid, completed[j])
    ensures FirstUnreviewed(reviews, userId, pid, completed) == Some(i)
  {
    var r := FirstUnreviewed(reviews, userId, pid, completed);
    assert r.Some?;
    assert !(r.value < i) && !(i < r.value);
  }

  /** The review request: the product, the rating and the comment. */
  datatype ReviewRequest = ReviewRequest(productId: int, orderId: Option<int>, rating: int, comment: Option<string>)

  /**
   * Why `addReview` refuses, checked in the source's order: an unknown user,
   * an unknown product, then no completed order at all, or every completed
   * order already reviewed.
   */
  function AddFailure(t: Tables, userId: int, req: ReviewRequest, completed: seq<int>): Option<Failure> {
    if userId !in t.users then Some(NotFound("User"))
    else if req.productId !in t.products then Some(NotFound("Product"))
    else if FirstUnreviewed(t.reviews, userId, req.productId, completed).None? then
      if completed == [] then Some(BadRequest("no completed order")) else Some(BadRequest("already reviewed"))
    else None
  }

  /** The new review: on the first eligible order, visible, with the requested rating and comment. */
  function NewReview(t: Tables, userId: int, req: ReviewRequest, completed: seq<int>): Review
    requires FirstUnreviewed(t.reviews, userId, req.productId, completed).Some?
  {
    Review(req.productId, userId, completed[FirstUnreviewed(t.reviews, userId, req.productId, completed).value],
           req.rating, req.comment, true)
  }

  function AddState(t: Tables, id: int, userId: int, req: ReviewRequest, completed: seq<int>): Tables
    requires FirstUnreviewed(t.reviews, userId, req.productId, completed).Some?
  {
    var reviews := t.reviews[id := NewReview(t, userId, req, completed)];
    t.(reviews := reviews, products := Recount(t.products, reviews, req.productId))
  }

  /**
   * `addReview`.  `completed` is the list of the user's completed orders
   * holding the product, in the order the order query returns them.
   */
  method AddReview(db: Database, userId: int, req: ReviewRequest, completed: seq<int>) returns (r: Result<int>)
    modifies db
    ensures r.Err? <==> AddFailure(old(db.State()), userId, req, completed).Some?
    ensures r.Err? ==> r.error == AddFailure(old(db.State()), userId, req, completed).value && db.State() == old(db.State())
    ensures r.Ok? ==> r.value > 0 && r.value !in old(db.reviews)
    ensures r.Ok? ==> db.State() == AddState(old(db.State()), r.value, userId, req, completed)
  {
    if userId !in db.users {
      return Err(NotFound("User"));
    }
    if req.productId !in db.products {
      return Err(NotFound("Product"));
    }
    var eligible := FindEligibleOrder(db, userId, req.productId, completed);
    if eligible.None? {
      if completed == [] {
        return Err(BadRequest("no completed order"));
      }
      return Err(BadRequest("already reviewed"));
    }
    var t0 := db.State();
    var id := NewId(db.reviews.Keys);
    db.reviews := db.reviews[id := Review(req.productId, userId, completed[eligible.value], req.rating, req.comment, true)];
    UpdateRatingAndCount(db, req.productId);
    assert db.reviews == t0.reviews[id := NewReview(t0, userId, req, completed)];
    return Ok(id);
  }

  /** The orders a user may still review a product for are exactly the listed ones without a review. */
  lemma AddFailsExactly(t: Tables, userId: int, req: ReviewRequest, completed: seq<int>)
    requires userId in t.users && req.productId in t.products
    ensures AddFailure(t, userId, req, completed).None? <==>
              exists j :: 0 <= j < |completed| && !Reviewed(t.reviews, userId, req.productId, completed[j])
    ensures completed == [] ==> AddFailure(t, userId, req, completed) == Some(BadRequest("no completed order"))
  {
    if AddFailure(t, userId, req, completed).None? {
      var k := FirstUnreviewed(t.reviews, userId, req.productId, completed).value;
      assert !Reviewed(t.reviews, userId, req.productId, completed[k]);
    }
  }

  /**
   * A new review never repeats a (user, product, order) triple, keeps every
   * integrity rule, and the product's count goes up by one.
   */
  lemma AddKeepsConsistency(t: Tables, id: int, userId: int, req: ReviewRequest, completed: seq<int>)
    requires Consistent(t) && id !in t.reviews
    requires AddFailure(t, userId, req, completed).None?
    ensures Consistent(AddState(t, id, userId, req, completed))
    ensures AddState(t, id, userId, req, completed).products[req.productId].reviewCount ==
            |VisibleReviews(t.reviews, req.productId)| + 1
  {
    var nr := NewReview(t, userId, req, completed);
    var reviews := t.reviews[id := nr];
    assert !Reviewed(t.reviews, userId, req.productId, nr.orderId);
    forall r1, r2 | r1 in reviews && r2 in reviews && r1 != r2
      ensures !SameReviewKey(reviews[r1], reviews[r2])
    {
      if r1 == id {
        assert !(t.reviews[r2].userId == userId && t.reviews[r2].productId == req.productId && t.reviews[r2].orderId == nr.orderId);
      } else if r2 == id {
        assert !(t.reviews[r1].userId == userId && t.reviews[r1].productId == req.productId && t.reviews[r1].orderId == nr.orderId);
      }
    }
    forall p | p != req.productId
      ensures VisibleReviews(reviews, p) == VisibleReviews(t.reviews, p)
    {
    }
    assert VisibleReviews(reviews, req.productId) == VisibleReviews(t.reviews, req.productId) + {id};
    ReviewChangeKeepsConsistency(t, reviews, req.productId);
  }

  // ----- deleting reviews -----------------------------------------------------------------

  function DeletedState(t: Tables, reviewId: int): Tables
    requires reviewId in t.reviews
  {
    var reviews := t.reviews - {reviewId};
    t.(reviews := reviews, products := Recount(t.products, reviews, t.reviews[reviewId].productId))
  }

  function DeleteForAdminOutcome(t: Tables, reviewId: int): Outcome<()> {
    if reviewId !in t.reviews then Outcome(t, Err(NotFound("ProductReview")))
    else Outcome(DeletedState(t, reviewId), Ok(()))
  }

  /** `deleteReviewForAdmin`: any review can go, and its product is recounted. */
  method DeleteReviewForAdmin(db: Database, reviewId: int) returns (r: Result<()>)
    modifies db
    ensures db.State() == DeleteForAdminOutcome(old(db.State()), reviewId).state
    ensures r == DeleteForAdminOutcome(old(db.State()), reviewId).result
  {
    if reviewId !in db.reviews {
      return Err(NotFound("ProductReview"));
    }
    var pid := db.reviews[reviewId].productId;
    db.reviews := db.reviews - {reviewId};
    UpdateRatingAndCount(db, pid);
    return Ok(());
  }

  function DeleteUserReviewOutcome(t: Tables, reviewId: int, userId: int): Outcome<()> {
    if reviewId !in t.reviews then Outcome(t, Err(NotFound("ProductReview")))
    else if t.reviews[reviewId].userId != userId then Outcome(t, Err(AccessDenied))
    else Outcome(DeletedState(t, reviewId), Ok(()))
  }

  /** `deleteUserReview`: only the review's author may delete it. */
  method DeleteUserReview(db: Database, reviewId: int, userId: int) returns (r: Result<()>)
    modifies db
    ensures db.State() == DeleteUserReviewOutcome(old(db.State()), reviewId, userId).state
    ensures r == DeleteUserReviewOutcome(old(db.State()), reviewId, userId).result
  {
    if reviewId !in db.reviews {
      return Err(NotFound("ProductReview"));
    }
    if db.reviews[reviewId].userId != userId {
      return Err(AccessDenied);
    }
    r := DeleteReviewForAdmin(db, reviewId);
  }

  /** A deletion keeps every integrity rule and leaves no review under that id. */
  lemma DeleteKeepsConsistency(t: Tables, reviewId: int)
    requires Consistent(t) && reviewId in t.reviews
    ensures Consistent(DeletedState(t, reviewId))
    ensures reviewId !in DeletedState(t, reviewId).reviews
  {
    var pid := t.reviews[reviewId].productId;
    var reviews := t.reviews - {reviewId};
    forall p | p != pid
      ensures VisibleReviews(reviews, p) == VisibleReviews(t.reviews, p)
    {
    }
    ReviewChangeKeepsConsistency(t, reviews, pid);
  }

  /** A user who does not own the review is refused and nothing changes; the owner's deletion is the admin's. */
  lemma DeleteUserReviewOwnerOnly(t: Tables, reviewId: int, userId: int)
    requires reviewId in t.reviews
    ensures t.reviews[reviewId].userId != userId ==>
              DeleteUserReviewOutcome(t, reviewId, userId) == Outcome(t, Err(AccessDenied))
    ensures t.reviews[reviewId].userId == userId ==>
              DeleteUserReviewOutcome(t, reviewId, userId) == DeleteForAdminOutcome(t, reviewId)
  {
  }

  // ----- updateUserReview -------------------------------------------------------------------

  function UpdateOutcome(t: Tables, reviewId: int, userId: int, req: ReviewRequest): Outcome<Review> {
    if reviewId !in t.reviews then Outcome(t, Err(NotFound("ProductReview")))
    else
      var old_ := t.reviews[reviewId];
      if old_.userId != userId then Outcome(t, Err(AccessDenied))
      else if old_.productId != req.productId then Outcome(t, Err(BadRequest("product")))
      else if req.orderId.Some? && req.orderId.value != old_.orderId then Outcome(t, Err(BadRequest("order")))
      else
        var updated := old_.(rating := req.rating, comment := req.comment);
        var reviews := t.reviews[reviewId := updated];
        Outcome(t.(reviews := reviews, products := Recount(t.products, reviews, old_.productId)), Ok(updated))
  }

  /** `updateUserReview`: the author may change the rating and the comment, and nothing else. */
  method UpdateUserReview(db: Database, reviewId: int, userId: int, req: ReviewRequest) returns (r: Result<Review>)
    modifies db
    ensures db.State() == UpdateOutcome(old(db.State()), reviewId, userId, req).state
    ensures r == UpdateOutcome(old(db.State()), reviewId, userId, req).result
  {
    if reviewId !in db.reviews {
      return Err(NotFound("ProductReview"));
    }
    var review := db.reviews[reviewId];
    if review.userId != userId {
      return Err(AccessDenied);
    }
    if review.productId != req.productId {
      return Err(BadRequest("product"));
    }
    if req.orderId.Some? && req.orderId.value != review.orderId {
      return Err(BadRequest("order"));
    }
    var updated := review.(rating := req.rating, comment := req.comment);
    db.reviews := db.reviews[reviewId := updated];
    UpdateRatingAndCount(db, review.productId);
    return Ok(updated);
  }

  /**
   * An update succeeds exactly for the author, on the same product and (when
   * one is named) the same order; it changes only the rating and comment, so
   * the visible reviews and every integrity rule stay as they were.
   */
  lemma UpdateSpec(t: Tables, reviewId: int, userId: int, req: ReviewRequest)
    requires Consistent(t)
    ensures var o := UpdateOutcome(t, reviewId, userId, req);
            o.result.Ok? <==>
              reviewId in t.reviews && t.reviews[reviewId].userId == userId &&
              t.reviews[reviewId].productId == req.productId &&
              (req.orderId.Some? ==> req.orderId.value == t.reviews[reviewId].orderId)
    ensures var o := UpdateOutcome(t, reviewId, userId, req);
            o.result.Err? ==> o.state == t
    ensures var o := UpdateOutcome(t, reviewId, userId, req);
            o.result.Ok? ==>
              o.state.reviews == t.reviews[reviewId := t.reviews[reviewId].(rating := req.rating, comment := req.comment)] &&
              o.state.products == t.products &&
              Consistent(o.state)
  {
    var o := UpdateOutcome(t, reviewId, userId, req);
    if o.result.Ok? {
      var pid := t.reviews[reviewId].productId;
      var reviews := o.state.reviews;
      forall p
        ensures VisibleReviews(reviews, p) == VisibleReviews(t.reviews, p)
      {
      }
      assert forall r1 :: r1 in reviews ==> SameReviewKey(reviews[r1], t.reviews[r1]);
      ReviewChangeKeepsConsistency(t, reviews, pid);
      assert RatingAgrees(t.products[pid], t.reviews, pid);
      assert Recount(t.products, reviews, pid)[pid] == t.products[pid];
    }
  }

  // ----- setReviewVisibility --------------------------------------------------------------

  function VisibilityOutcome(t: Tables, reviewId: int, visible: bool): Outcome<Review> {
    if reviewId !in t.reviews then Outcome(t, Err(NotFound("ProductReview")))
    else
      var updated := t.reviews[reviewId].(visible := visible);
      var reviews := t.reviews[reviewId := updated];
      Outcome(t.(reviews := reviews, products := Recount(t.products, reviews, updated.productId)), Ok(updated))
  }

  /** `setReviewVisibility`: an administrator shows or hides a review. */
  method SetReviewVisibility(db: Database, reviewId: int, visible: bool) returns (r: Result<Review>)
    modifies db
    ensures db.State() == VisibilityOutcome(old(db.State()), reviewId, visible).state
    ensures r == VisibilityOutcome(old(db.State()), reviewId, visible).result
  {
    if reviewId !in db.reviews {
      return Err(NotFound("ProductReview"));
    }
    var updated := db.reviews[reviewId].(visible := visible);
    db.reviews := db.reviews[reviewId := updated];
    UpdateRatingAndCount(db, updated.productId);
    return Ok(updated);
  }

  /** A visibility change sets exactly the flag and keeps every integrity rule. */
  lemma VisibilityKeepsConsistency(t: Tables, reviewId: int, visible: bool)
    requires Consistent(t) && reviewId in t.reviews
    ensures var o := VisibilityOutcome(t, reviewId, visible);
            o.result.Ok? &&
            o.state.reviews == t.reviews[reviewId := t.reviews[reviewId].(visible := visible)] &&
            Consistent(o.state)
  {
    var pid := t.reviews[reviewId].productId;
    var reviews := t.reviews[reviewId := t.reviews[reviewId].(visible := visible)];
    forall p | p != pid
      ensures VisibleReviews(reviews, p) == VisibleReviews(t.reviews, p)
    {
    }
    assert forall r1 :: r1 in reviews ==> SameReviewKey(reviews[r1], t.reviews[r1]);
    ReviewChangeKeepsConsistency(t, reviews, pid);
  }

  /** Showing a hidden review raises its product's count by one, hiding a visible one lowers it by one. */
  lemma VisibilityCount(t: Tables, reviewId: int, visible: bool)
    requires reviewId in t.reviews && t.reviews[reviewId].productId in t.products
    ensures var pid := t.reviews[reviewId].productId;
            VisibilityOutcome(t, reviewId, visible).state.products[pid].reviewCount ==
              |VisibleReviews(t.reviews, pid)| +
              (if visible && !t.reviews[reviewId].visible then 1
               else if !visible && t.reviews[reviewId].visible then -1
               else 0)
  {
    var pid := t.reviews[reviewId].productId;
    var reviews := t.reviews[reviewId := t.reviews[reviewId].(visible := visible)];
    var before := VisibleReviews(t.reviews, pid);
    var after := VisibleReviews(reviews, pid);
    assert VisibilityOutcome(t, reviewId, visible).state.products == Recount(t.products, reviews, pid);
    if visible && !t.reviews[reviewId].visible {
      assert reviewId !in before;
      assert after == before + {reviewId};
    } else if !visible && t.reviews[reviewId].visible {
      assert reviewId in before;
      assert after == before - {reviewId};
    } else {
      assert after == before;
    }
  }
}
