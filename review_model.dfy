/**
 * The Review schema: who reviewed which recipe, a rating between 1 and 5, a
 * bounded comment, and the helpful-vote counter with the voters behind it.
 * `user` and `recipe` are required references: the datatype has no way to leave them out.
 */
module ReviewModel {
  import opened Wrappers
  import opened Ids
  import opened Seqs

  const MinRating: real := 1.0
  const MaxRating: real := 5.0
  const MaxCommentLength: nat := 1000

  datatype Review = Review(
    user: UserId,
    recipe: RecipeId,
    rating: real,
    comment: string,
    helpful: int,
    helpfulBy: seq<UserId>,
    createdAt: int)

  /** `rating: { required: true, min: 1, max: 5 }`. */
  predicate ValidRating(rating: Option<real>) {
    rating.Some? && MinRating <= rating.value <= MaxRating
  }

  /** `comment: { required: true, maxLength: 1000 }`; a required string may not be empty. */
  predicate ValidComment(comment: Option<string>) {
    comment.Some? && 0 < |comment.value| <= MaxCommentLength
  }

  /** What mongoose checks before a review is written. */
  predicate ValidReview(r: Review) {
    ValidRating(Some(r.rating)) && ValidComment(Some(r.comment))
  }

  /** A review as `new Review({ user, recipe, rating, comment })` creates it. */
  function NewReview(user: UserId, recipe: RecipeId, rating: real, comment: string, createdAt: int): Review {
    Review(user, recipe, rating, comment, 0, [], createdAt)
  }

  /** A fresh review starts with no helpful votes and, given valid input, passes validation. */
  lemma NewReviewDefaults(user: UserId, recipe: RecipeId, rating: Option<real>, comment: Option<string>, createdAt: int)
    requires ValidRating(rating) && ValidComment(comment)
    ensures var r := NewReview(user, recipe, rating.value, comment.value, createdAt);
      r.helpful == 0 && r.helpfulBy == [] && ValidReview(r) && r.user == user && r.recipe == recipe
  {
  }

  /** The unique index `{ user: 1, recipe: 1 }`: one review per user per recipe. */
  ghost predicate OneReviewPerUserAndRecipe(reviews: map<ReviewId, Review>) {
    forall a, b ::
      (a in reviews && b in reviews && reviews[a].user == reviews[b].user && reviews[a].recipe == reviews[b].recipe)
      ==> a == b
  }

  /** `Review.findOne({ user, recipe })` finds something. */
  predicate HasReviewBy(reviews: map<ReviewId, Review>, user: UserId, recipe: RecipeId) {
    exists k :: k in reviews && reviews[k].user == user && reviews[k].recipe == recipe
  }

  /**
   * The helpful toggle: a voter already in `helpfulBy` is pulled and the counter drops
   * by one; anyone else is pushed and the counter rises by one.
   */
  function ToggleHelpful(r: Review, voter: UserId): (t: Review)
    ensures t.(helpful := r.helpful, helpfulBy := r.helpfulBy) == r
    ensures voter in r.helpfulBy ==> voter !in t.helpfulBy && t.helpful == r.helpful - 1
    ensures voter !in r.helpfulBy ==> t.helpfulBy == r.helpfulBy + [voter] && t.helpful == r.helpful + 1
    ensures forall u :: u != voter ==> (u in t.helpfulBy <==> u in r.helpfulBy)
  {
    if voter in r.helpfulBy then r.(helpfulBy := RemoveAll(r.helpfulBy, voter), helpful := r.helpful - 1)
    else r.(helpfulBy := r.helpfulBy + [voter], helpful := r.helpful + 1)
  }

  /** Toggling twice restores the counter and who is among the voters. */
  lemma ToggleTwice(r: Review, voter: UserId)
    ensures ToggleHelpful(ToggleHelpful(r, voter), voter).helpful == r.helpful
    ensures forall u :: u in ToggleHelpful(ToggleHelpful(r, voter), voter).helpfulBy <==> u in r.helpfulBy
  {
  }

  /** Toggling twice from "not marked" gives back exactly the review one started from. */
  lemma ToggleTwiceUnmarked(r: Review, voter: UserId)
    requires voter !in r.helpfulBy
    ensures ToggleHelpful(ToggleHelpful(r, voter), voter) == r
  {
    RemoveAppend(r.helpfulBy, [voter], voter);
    RemoveAbsent(r.helpfulBy, voter);
    assert RemoveAll([voter], voter) == [];
  }

  /** While `helpfulBy` has no duplicates, the toggle keeps it so and keeps `helpful - |helpfulBy|`. */
  lemma ToggleKeepsBalance(r: Review, voter: UserId)
    requires NoDup(r.helpfulBy)
    ensures var t := ToggleHelpful(r, voter);
      NoDup(t.helpfulBy) && t.helpful - |t.helpfulBy| == r.helpful - |r.helpfulBy|
  {
    RemoveFromNoDup(r.helpfulBy, voter);
  }
}
