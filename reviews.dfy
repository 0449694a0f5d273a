/** The review resolvers of src/resolvers/reviewResolvers.ts. A signed-in
    customer writes a review, which stays hidden from the public until an
    admin approves it. */
module ReviewResolvers {
  import opened Errors
  import opened Domain
  import opened Auth
  import opened Validation
  import opened Store

  /** Every review sits under its own id. */
  predicate ReviewsConsistent(reviews: map<Id, Review>) {
    forall id :: id in reviews ==> reviews[id].id == id
  }

  /** Who may read a review: anyone once it is approved; before that, an
      authenticated admin or its author. */
  predicate CanRead(ctx: Context, rv: Review) {
    rv.isApproved
    || (ctx.isAuthenticated && (ctx.isAdmin || (ctx.user.Some? && ctx.user.value.id == rv.userId)))
  }

  // ---------------------------------------------------------------- queries

  /** `reviews`: every review, for an admin. */
  function Reviews(ctx: Context, reviews: map<Id, Review>): (r: Result<set<Review>>)
    ensures r.Ok? <==> RequireAdmin(ctx).Ok?
    ensures r.Ok? ==> r.value == reviews.Values
    ensures r.Err? ==> r.error == RequireAdmin(ctx).error
  {
    var _ :- RequireAdmin(ctx);
    Ok(reviews.Values)
  }

  /** `approvedReviews`: no caller check. */
  function ApprovedReviews(reviews: map<Id, Review>): (r: set<Review>)
    ensures r <= reviews.Values
  {
    set rv | rv in reviews.Values && rv.isApproved
  }

  /** `review(id)`. */
  function ReviewById(ctx: Context, reviews: map<Id, Review>, id: Id): (r: Result<Review>)
    ensures r.Ok? <==> IsObjectId(id) && id in reviews && CanRead(ctx, reviews[id])
    ensures r.Ok? ==> r.value == reviews[id]
  {
    var _ :- ValidateObjectId(id, "Review ID");
    if id !in reviews then Fail(NotFound, "Review not found")
    else
      var rv := reviews[id];
      if !rv.isApproved && !ctx.isAuthenticated then Fail(Forbidden, "Access denied")
      else if !rv.isApproved && !ctx.isAdmin && (ctx.user.None? || rv.userId != ctx.user.value.id) then
        Fail(Forbidden, "Access denied")
      else Ok(rv)
  }

  /** The errors of `review(id)`: no authentication error ever, since the
      query is public; a hidden review is refused as forbidden. */
  lemma ReviewByIdErrors(ctx: Context, reviews: map<Id, Review>, id: Id)
    ensures !IsObjectId(id) ==> ReviewById(ctx, reviews, id) == Fail(Validation, "Invalid Review ID format")
    ensures IsObjectId(id) && id !in reviews ==> ReviewById(ctx, reviews, id) == Fail(NotFound, "Review not found")
    ensures IsObjectId(id) && id in reviews && !CanRead(ctx, reviews[id]) ==>
      ReviewById(ctx, reviews, id) == Fail(Forbidden, "Access denied")
    ensures !FailedWith(ReviewById(ctx, reviews, id), Authentication)
  {
  }

  /** The public list holds exactly the reviews an anonymous caller may
      fetch one by one. */
  lemma ApprovedAreThePublicOnes(reviews: map<Id, Review>, id: Id, anonymous: Context)
    requires ReviewsConsistent(reviews) && id in reviews && IsObjectId(id)
    requires !anonymous.isAuthenticated
    ensures reviews[id] in ApprovedReviews(reviews) <==> ReviewById(anonymous, reviews, id).Ok?
  {
  }

  // ---------------------------------------------------------------- createReview

  /** The row `createReview(input)` writes: the caller's, not yet approved. */
  function NewReview(ctx: Context, input: ReviewInput, newId: Id): (r: Result<Review>)
    ensures r.Ok? <==> RequireAuth(ctx).Ok? && 1 <= input.rating <= 5 && 10 <= |input.comment| <= 500
    ensures r.Ok? ==> r.value == Review(newId, ctx.user.value.id, input.rating, input.comment, false)
  {
    var user :- RequireAuth(ctx);
    ReviewInputAccepted(input);
    var valid :- ValidateInput(ReviewInputErrors(input), input);
    Ok(Review(newId, user.id, valid.rating, valid.comment, false))
  }

  /** A new review is hidden from the public list, yet its author can read it. */
  lemma NewReviewHiddenButReadable(ctx: Context, input: ReviewInput, reviews: map<Id, Review>, newId: Id)
    requires NewReview(ctx, input, newId).Ok? && IsObjectId(newId)
    requires ReviewsConsistent(reviews) && newId !in reviews
    ensures var rv := NewReview(ctx, input, newId).value;
      && ApprovedReviews(reviews[newId := rv]) == ApprovedReviews(reviews)
      && ReviewById(ctx, reviews[newId := rv], newId) == Ok(rv)
  {
    var rv := NewReview(ctx, input, newId).value;
    assert reviews[newId := rv].Values == reviews.Values + {rv} by {
      forall x | x in reviews[newId := rv].Values ensures x in reviews.Values + {rv} {
        var k :| k in reviews[newId := rv] && reviews[newId := rv][k] == x;
      }
      assert reviews[newId := rv][newId] == rv;
      forall x | x in reviews.Values ensures x in reviews[newId := rv].Values {
        var k :| k in reviews && reviews[k] == x;
        assert k != newId;
        assert reviews[newId := rv][k] == x;
      }
    }
  }

  /** `createReview`. */
  method CreateReview(db: Database, ctx: Context, input: ReviewInput, newId: Id) returns (r: Result<Review>)
    requires newId !in db.reviews
    modifies db`reviews
    ensures r == NewReview(ctx, input, newId)
    ensures db.reviews == if r.Ok? then old(db.reviews)[newId := r.value] else old(db.reviews)
  {
    r := NewReview(ctx, input, newId);
    if r.Ok? {
      db.reviews := db.reviews[newId := r.value];
    }
  }

  // ---------------------------------------------------------------- approveReview

  /** The row `approveReview(id)` writes. */
  function Approval(ctx: Context, reviews: map<Id, Review>, id: Id): (r: Result<Review>)
    ensures r.Ok? <==> RequireAdmin(ctx).Ok? && IsObjectId(id) && id in reviews
    ensures r.Ok? ==> r.value == reviews[id].(isApproved := true)
    ensures RequireAdmin(ctx).Ok? && IsObjectId(id) && id !in reviews ==> r == Fail(NotFound, "Review not found")
  {
    var _ :- RequireAdmin(ctx);
    var _ :- ValidateObjectId(id, "Review ID");
    if id !in reviews then Fail(NotFound, "Review not found")
    else Ok(reviews[id].(isApproved := true))
  }

  /** Approving twice writes the same row; once approved, a review is public. */
  lemma ApprovalIdempotentAndPublishes(ctx: Context, reviews: map<Id, Review>, id: Id, anyone: Context)
    requires Approval(ctx, reviews, id).Ok?
    ensures var after := reviews[id := Approval(ctx, reviews, id).value];
      && Approval(ctx, after, id) == Approval(ctx, reviews, id)
      && after[id] in ApprovedReviews(after)
      && ReviewById(anyone, after, id).Ok?
  {
  }

  /** `approveReview`. */
  method ApproveReview(db: Database, ctx: Context, id: Id) returns (r: Result<Review>)
    modifies db`reviews
    ensures r == Approval(ctx, old(db.reviews), id)
    ensures db.reviews == if r.Ok? then old(db.reviews)[id := r.value] else old(db.reviews)
  {
    r := Approval(ctx, db.reviews, id);
    if r.Ok? {
      db.reviews := db.reviews[id := r.value];
    }
  }

  // ---------------------------------------------------------------- deleteReview

  /** Whether `deleteReview(id)` may delete: `true`, or the error it throws. */
  function Deletion(ctx: Context, reviews: map<Id, Review>, id: Id): (r: Result<bool>)
    ensures r.Ok? <==> RequireAdmin(ctx).Ok? && IsObjectId(id) && id in reviews
    ensures r.Ok? ==> r.value
    ensures RequireAdmin(ctx).Ok? && IsObjectId(id) && id !in reviews ==> r == Fail(NotFound, "Review not found")
  {
    var _ :- RequireAdmin(ctx);
    var _ :- ValidateObjectId(id, "Review ID");
    if id !in reviews then Fail(NotFound, "Review not found") else Ok(true)
  }

  /** After a deletion the review is gone and no other review changed; a
      second deletion is refused as not found. */
  lemma DeletionRemovesOnlyThat(ctx: Context, reviews: map<Id, Review>, id: Id, other: Id)
    requires Deletion(ctx, reviews, id).Ok?
    ensures Deletion(ctx, reviews - {id}, id) == Fail(NotFound, "Review not found")
    ensures ReviewById(ctx, reviews - {id}, id) == Fail(NotFound, "Review not found")
    ensures other != id && other in reviews ==> other in reviews - {id} && (reviews - {id})[other] == reviews[other]
  {
  }

  /** `deleteReview`. */
  method DeleteReview(db: Database, ctx: Context, id: Id) returns (r: Result<bool>)
    modifies db`reviews
    ensures r == Deletion(ctx, old(db.reviews), id)
    ensures db.reviews == if r.Ok? then old(db.reviews) - {id} else old(db.reviews)
  {
    r := Deletion(ctx, db.reviews, id);
    if r.Ok? {
      db.reviews := db.reviews - {id};
    }
  }
}
