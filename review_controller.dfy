/**
 * The review handlers: add, list by recipe, update, delete, toggle helpful, list by
 * user. Every write to a review is followed by a rewrite of its recipe's aggregates
 * from a fresh read of the recipe's reviews. The review write and the recipe write
 * are separate steps, so a missing recipe surfaces as a 500 after the review write.
 */
module ReviewController {
  import opened Wrappers
  import opened Ids
  import opened Seqs
  import opened Listing
  import opened ReviewModel
  import opened RecipeModel
  import opened Aggregates
  import opened Database

  /**
   * `addReview`: the user's first review of the recipe. A second one answers 400.
   * Validation or an id clash answers 500 with nothing written. Otherwise the review
   * is stored; if the recipe then cannot be loaded the answer is 500 with the review
   * kept, else its id is pushed, `reviewCount` goes up by one and the average and
   * `ratingCount` are recomputed over all of the recipe's reviews, the new one included.
   */
  method AddReview(
    db: Db, recipeId: RecipeId, userId: UserId, rating: Option<real>, comment: Option<string>,
    newId: ReviewId, now: int)
    returns (status: int)
    requires db.Valid()
    modifies db
    ensures db.Valid()
    ensures old(db.Synced()) ==> db.Synced()
    ensures db.users == old(db.users)
    ensures status ==
      if HasReviewBy(old(db.reviews), userId, recipeId) then BadRequest
      else if !ValidRating(rating) || !ValidComment(comment) || newId in old(db.reviews) then ServerError
      else if recipeId !in old(db.recipes) then ServerError
      else Created
    ensures db.reviews ==
      if status == BadRequest || !ValidRating(rating) || !ValidComment(comment) || newId in old(db.reviews)
      then old(db.reviews)
      else old(db.reviews)[newId := NewReview(userId, recipeId, rating.value, comment.value, now)]
    ensures status != Created ==> db.recipes == old(db.recipes)
    ensures status == Created ==>
      var before := old(db.recipes)[recipeId];
      && db.recipes == old(db.recipes)[recipeId := before.(
           reviews := before.reviews + [newId],
           reviewCount := before.reviewCount + 1,
           averageRating := MeanRating(db.reviews, recipeId),
           ratingCount := |ReviewsOf(db.reviews, recipeId)|)]
      && db.recipes[recipeId].ratingCount >= 1
      && 1.0 <= db.recipes[recipeId].averageRating <= 5.0
  {
    ghost var synced := db.Synced();
    if HasReviewBy(db.reviews, userId, recipeId) {
      return BadRequest;
    }
    if !ValidRating(rating) || !ValidComment(comment) || newId in db.reviews {
      return ServerError;
    }
    var review := NewReview(userId, recipeId, rating.value, comment.value, now);
    NewReviewDefaults(userId, recipeId, rating, comment, now);
    ValidAfterInsert(db.users, db.recipes, db.reviews, newId, review);
    if synced && recipeId !in db.recipes {
      StoreInSyncAfterOrphanInsert(db.recipes, db.reviews, newId, review);
    }
    if synced && recipeId in db.recipes {
      StoreInSyncAfterAdd(db.recipes, db.reviews, newId, review);
    }
    db.reviews := db.reviews[newId := review];
    if recipeId !in db.recipes {
      return ServerError;
    }
    var before := db.recipes[recipeId];
    var total, count := TallyRatings(db.reviews, recipeId);
    assert newId in ReviewsOf(db.reviews, recipeId);
    MeanRatingBounds(db.reviews, recipeId);
    var recipe := before.(reviews := before.reviews + [newId], reviewCount := before.reviewCount + 1,
                          averageRating := total / count as real, ratingCount := count);
    AggregatesKeepValid(before, recipe.reviews, recipe.reviewCount, recipe.averageRating, recipe.ratingCount);
    ValidAfterRecipeWrite(db.users, db.recipes, db.reviews, recipeId, recipe);
    db.recipes := db.recipes[recipeId := recipe];
    return Created;
  }

  /**
   * `getRecipeReviews`: one page of the recipe's reviews, newest first, with their number
   * and the page count. `page` and `limit` default to 1 and 10.
   */
  method GetRecipeReviews(db: Db, recipeId: RecipeId, page: Option<int>, limit: Option<int>)
    returns (r: Option<Page<ReviewId>>)
    ensures exists order ::
              && NewestFirst(order, ReviewsOf(db.reviews, recipeId), ReviewTimes(db.reviews))
              && r == PageOf(order, page.GetOr(DefaultPage), limit.GetOr(DefaultLimit))
    ensures r.Some? ==> r.value.total == |ReviewsOf(db.reviews, recipeId)|
  {
    r := ListNewestFirst(ReviewsOf(db.reviews, recipeId), ReviewTimes(db.reviews),
      page.GetOr(DefaultPage), limit.GetOr(DefaultLimit));
  }

  /**
   * `updateReview`: 404 for a missing review, 403 for anyone but its author, 500 when the
   * new rating or comment fails validation (nothing written). Otherwise exactly the
   * review's rating and comment change; the recipe's average is recomputed (500 if the
   * recipe cannot be loaded) while `ratingCount` and `reviewCount` are left as they are.
   */
  method UpdateReview(db: Db, reviewId: ReviewId, userId: UserId, rating: Option<real>, comment: Option<string>)
    returns (status: int)
    requires db.Valid()
    modifies db
    ensures db.Valid()
    ensures old(db.Synced()) ==> db.Synced()
    ensures db.users == old(db.users)
    ensures status ==
      if reviewId !in old(db.reviews) then NotFound
      else if old(db.reviews)[reviewId].user != userId then Forbidden
      else if !ValidRating(rating) || !ValidComment(comment) then ServerError
      else if old(db.reviews)[reviewId].recipe !in old(db.recipes) then ServerError
      else Ok
    ensures db.reviews ==
      if status == NotFound || status == Forbidden || !ValidRating(rating) || !ValidComment(comment)
      then old(db.reviews)
      else old(db.reviews)[reviewId := old(db.reviews)[reviewId].(rating := rating.value, comment := comment.value)]
    ensures status != Ok ==> db.recipes == old(db.recipes)
    ensures status == Ok ==>
      var rid := old(db.reviews)[reviewId].recipe;
      db.recipes == old(db.recipes)[rid := old(db.recipes)[rid].(averageRating := MeanRating(db.reviews, rid))]
  {
    ghost var synced := db.Synced();
    if reviewId !in db.reviews {
      return NotFound;
    }
    var review := db.reviews[reviewId];
    if review.user != userId {
      return Forbidden;
    }
    if !ValidRating(rating) || !ValidComment(comment) {
      return ServerError;
    }
    review := review.(rating := rating.value);
    review := review.(comment := comment.value);
    ValidAfterRewrite(db.users, db.recipes, db.reviews, reviewId, review);
    var rid := review.recipe;
    if synced && rid !in db.recipes {
      StoreInSyncAfterOrphanRewrite(db.recipes, db.reviews, reviewId, review);
    }
    if synced && rid in db.recipes {
      StoreInSyncAfterRewrite(db.recipes, db.reviews, reviewId, review);
    }
    db.reviews := db.reviews[reviewId := review];
    if rid !in db.recipes {
      return ServerError;
    }
    var recipe := db.recipes[rid];
    var total, count := TallyRatings(db.reviews, rid);
    assert reviewId in ReviewsOf(db.reviews, rid);
    recipe := recipe.(averageRating := total / count as real);
    AggregatesKeepValid(db.recipes[rid], recipe.reviews, recipe.reviewCount, recipe.averageRating, recipe.ratingCount);
    ValidAfterRecipeWrite(db.users, db.recipes, db.reviews, rid, recipe);
    db.recipes := db.recipes[rid := recipe];
    return Ok;
  }

  /**
   * The common tail of both delete handlers: the review is deleted; if its recipe cannot
   * then be loaded the answer is 500, else the id is pulled from `reviews`, `reviewCount`
   * drops by one and the average and `ratingCount` are recomputed over the remaining
   * reviews, both 0 when none remain.
   */
  method RemoveReview(db: Db, reviewId: ReviewId) returns (status: int)
    requires db.Valid()
    requires reviewId in db.reviews
    modifies db
    ensures db.Valid()
    ensures old(db.Synced()) ==> db.Synced()
    ensures db.users == old(db.users)
    ensures db.reviews == old(db.reviews) - {reviewId}
    ensures var rid := old(db.reviews)[reviewId].recipe;
      status == if rid in old(db.recipes) then Ok else ServerError
    ensures status != Ok ==> db.recipes == old(db.recipes)
    ensures status == Ok ==>
      var rid := old(db.reviews)[reviewId].recipe;
      var before := old(db.recipes)[rid];
      && db.recipes == old(db.recipes)[rid := before.(
           reviews := RemoveAll(before.reviews, reviewId),
           reviewCount := before.reviewCount - 1,
           averageRating := MeanRating(db.reviews, rid),
           ratingCount := |ReviewsOf(db.reviews, rid)|)]
      && (ReviewsOf(db.reviews, rid) == {} ==>
            db.recipes[rid].averageRating == 0.0 && db.recipes[rid].ratingCount == 0)
  {
    ghost var synced := db.Synced();
    var rid := db.reviews[reviewId].recipe;
    ValidAfterRemove(db.users, db.recipes, db.reviews, reviewId);
    if synced && rid !in db.recipes {
      StoreInSyncAfterOrphanRemove(db.recipes, db.reviews, reviewId);
    }
    if synced && rid in db.recipes {
      StoreInSyncAfterRemove(db.recipes, db.reviews, reviewId);
    }
    db.reviews := db.reviews - {reviewId};
    if rid !in db.recipes {
      return ServerError;
    }
    var before := db.recipes[rid];
    var total, count := TallyRatings(db.reviews, rid);
    var average := if count > 0 then total / count as real else 0.0;
    var recipe := before.(reviews := RemoveAll(before.reviews, reviewId), reviewCount := before.reviewCount - 1,
                          averageRating := average, ratingCount := count);
    AggregatesKeepValid(before, recipe.reviews, recipe.reviewCount, recipe.averageRating, recipe.ratingCount);
    ValidAfterRecipeWrite(db.users, db.recipes, db.reviews, rid, recipe);
    db.recipes := db.recipes[rid := recipe];
    return Ok;
  }

  /** `deleteReview`: 404 for a missing review, 403 for anyone but its author (nothing changes), else `RemoveReview`. */
  method DeleteReview(db: Db, reviewId: ReviewId, userId: UserId) returns (status: int)
    requires db.Valid()
    modifies db
    ensures db.Valid()
    ensures old(db.Synced()) ==> db.Synced()
    ensures db.users == old(db.users)
    ensures reviewId !in old(db.reviews) ==>
      status == NotFound && db.reviews == old(db.reviews) && db.recipes == old(db.recipes)
    ensures reviewId in old(db.reviews) && old(db.reviews)[reviewId].user != userId ==>
      status == Forbidden && db.reviews == old(db.reviews) && db.recipes == old(db.recipes)
    ensures reviewId in old(db.reviews) && old(db.reviews)[reviewId].user == userId ==>
      var rid := old(db.reviews)[reviewId].recipe;
      && db.reviews == old(db.reviews) - {reviewId}
      && status == (if rid in old(db.recipes) then Ok else ServerError)
      && (status == Ok ==>
            var before := old(db.recipes)[rid];
            db.recipes == old(db.recipes)[rid := before.(
              reviews := RemoveAll(before.reviews, reviewId),
              reviewCount := before.reviewCount - 1,
              averageRating := MeanRating(db.reviews, rid),
              ratingCount := |ReviewsOf(db.reviews, rid)|)])
  {
    if reviewId !in db.reviews {
      return NotFound;
    }
    if db.reviews[reviewId].user != userId {
      return Forbidden;
    }
    status := RemoveReview(db, reviewId);
  }

  /**
   * `markHelpful`: 404 for a missing review; otherwise the voter's helpful mark is toggled
   * and the answer carries the new counter and whether the voter now has a mark, which
   * is the negation of whether they had one before.
   */
  method MarkHelpful(db: Db, reviewId: ReviewId, userId: UserId)
    returns (status: int, helpful: int, isMarkedHelpful: bool)
    requires db.Valid()
    modifies db
    ensures db.Valid()
    ensures old(db.Synced()) ==> db.Synced()
    ensures db.users == old(db.users) && db.recipes == old(db.recipes)
    ensures reviewId !in old(db.reviews) ==> status == NotFound && db.reviews == old(db.reviews)
    ensures reviewId in old(db.reviews) ==>
      && status == Ok
      && db.reviews == old(db.reviews)[reviewId := ToggleHelpful(old(db.reviews)[reviewId], userId)]
      && helpful == db.reviews[reviewId].helpful
      && isMarkedHelpful == (userId !in old(db.reviews)[reviewId].helpfulBy)
  {
    ghost var synced := db.Synced();
    if reviewId !in db.reviews {
      return NotFound, 0, false;
    }
    var review := db.reviews[reviewId];
    var alreadyMarked := userId in review.helpfulBy;
    if alreadyMarked {
      review := review.(helpfulBy := RemoveAll(review.helpfulBy, userId));
      review := review.(helpful := review.helpful - 1);
    } else {
      review := review.(helpfulBy := review.helpfulBy + [userId]);
      review := review.(helpful := review.helpful + 1);
    }
    ValidAfterRewrite(db.users, db.recipes, db.reviews, reviewId, review);
    if synced {
      StoreInSyncAfterUnratedRewrite(db.recipes, db.reviews, reviewId, review);
    }
    db.reviews := db.reviews[reviewId := review];
    return Ok, review.helpful, !alreadyMarked;
  }

  /** `getUserReviews`: one page of the user's reviews, newest first, with their number and the page count. */
  method GetUserReviews(db: Db, userId: UserId, page: Option<int>, limit: Option<int>)
    returns (r: Option<Page<ReviewId>>)
    ensures exists order ::
              && NewestFirst(order, ReviewsBy(db.reviews, userId), ReviewTimes(db.reviews))
              && r == PageOf(order, page.GetOr(DefaultPage), limit.GetOr(DefaultLimit))
    ensures r.Some? ==> r.value.total == |ReviewsBy(db.reviews, userId)|
  {
    r := ListNewestFirst(ReviewsBy(db.reviews, userId), ReviewTimes(db.reviews),
      page.GetOr(DefaultPage), limit.GetOr(DefaultLimit));
  }
}
