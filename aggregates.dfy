/**
 * The denormalised review aggregates of a recipe and the reviews they summarise.
 * The handlers recompute the average by reading every review of the recipe
 * (`Review.find({ recipe })` and a `reduce` over the ratings); this module states
 * what that computes and when a recipe's aggregates agree with the review store.
 */
module Aggregates {
  import opened Ids
  import opened Seqs
  import opened ReviewModel
  import opened RecipeModel

  /** The ids of the stored reviews of recipe `rid`: what `Review.find({ recipe: rid })` returns. */
  function ReviewsOf(reviews: map<ReviewId, Review>, rid: RecipeId): set<ReviewId> {
    set k | k in reviews && reviews[k].recipe == rid
  }

  /** The ids of the stored reviews written by `userId`: what `Review.find({ user: userId })` returns. */
  function ReviewsBy(reviews: map<ReviewId, Review>, userId: UserId): set<ReviewId> {
    set k | k in reviews && reviews[k].user == userId
  }

  /** The ratings of the reviews `ks`, added up. */
  ghost function RatingSum(reviews: map<ReviewId, Review>, ks: set<ReviewId>): real
    requires ks <= reviews.Keys
    decreases ks
  {
    if ks == {} then 0.0
    else
      var k :| k in ks;
      reviews[k].rating + RatingSum(reviews, ks - {k})
  }

  /** Any review can be taken out of the sum first. */
  lemma {:induction false} RatingSumRemove(reviews: map<ReviewId, Review>, ks: set<ReviewId>, x: ReviewId)
    requires ks <= reviews.Keys && x in ks
    ensures RatingSum(reviews, ks) == reviews[x].rating + RatingSum(reviews, ks - {x})
    decreases ks
  {
    var y :| y in ks && RatingSum(reviews, ks) == reviews[y].rating + RatingSum(reviews, ks - {y});
    if y != x {
      RatingSumRemove(reviews, ks - {y}, x);
      assert ks - {y} - {x} == ks - {x} - {y};
      RatingSumRemove(reviews, ks - {x}, y);
    }
  }

  /** The sum only depends on the ratings of the reviews it adds up. */
  lemma {:induction false} RatingSumFrame(reviews: map<ReviewId, Review>, reviews': map<ReviewId, Review>, ks: set<ReviewId>)
    requires ks <= reviews.Keys && ks <= reviews'.Keys
    requires forall k :: k in ks ==> reviews'[k].rating == reviews[k].rating
    ensures RatingSum(reviews', ks) == RatingSum(reviews, ks)
    decreases ks
  {
    if ks != {} {
      var k :| k in ks;
      RatingSumRemove(reviews, ks, k);
      RatingSumRemove(reviews', ks, k);
      RatingSumFrame(reviews, reviews', ks - {k});
    }
  }

  /** With every rating between 1 and 5, the sum of n ratings lies between n and 5n. */
  lemma {:induction false} RatingSumBounds(reviews: map<ReviewId, Review>, ks: set<ReviewId>)
    requires ks <= reviews.Keys
    requires forall k :: k in ks ==> ValidReview(reviews[k])
    ensures |ks| as real <= RatingSum(reviews, ks) <= 5.0 * |ks| as real
    decreases ks
  {
    if ks != {} {
      var k :| k in ks;
      RatingSumRemove(reviews, ks, k);
      RatingSumBounds(reviews, ks - {k});
    }
  }

  /** The mean rating of the reviews of `rid`, or 0 when it has none. */
  ghost function MeanRating(reviews: map<ReviewId, Review>, rid: RecipeId): real {
    var ks := ReviewsOf(reviews, rid);
    if |ks| == 0 then 0.0 else RatingSum(reviews, ks) / |ks| as real
  }

  /** The mean of valid reviews is a valid rating. */
  lemma MeanRatingBounds(reviews: map<ReviewId, Review>, rid: RecipeId)
    requires forall k :: k in reviews ==> ValidReview(reviews[k])
    requires ReviewsOf(reviews, rid) != {}
    ensures 1.0 <= MeanRating(reviews, rid) <= 5.0
  {
    var ks := ReviewsOf(reviews, rid);
    RatingSumBounds(reviews, ks);
    QuotientBounds(RatingSum(reviews, ks), |ks| as real);
  }

  /** A sum of n values between 1 and 5, divided by n, lies between 1 and 5. */
  lemma QuotientBounds(s: real, n: real)
    requires n > 0.0 && n <= s <= 5.0 * n
    ensures 1.0 <= s / n <= 5.0
  {
  }

  /**
   * Adds up the ratings of the reviews of `rid` and counts them, one review at a time:
   * the `Review.find({ recipe })` followed by `reduce((sum, r) => sum + r.rating, 0)`.
   */
  method TallyRatings(reviews: map<ReviewId, Review>, rid: RecipeId) returns (total: real, count: nat)
    ensures total == RatingSum(reviews, ReviewsOf(reviews, rid))
    ensures count == |ReviewsOf(reviews, rid)|
    ensures count > 0 ==> total / count as real == MeanRating(reviews, rid)
    ensures count == 0 ==> MeanRating(reviews, rid) == 0.0
  {
    var all := ReviewsOf(reviews, rid);
    total, count := 0.0, 0;
    var rest := all;
    while rest != {}
      invariant rest <= all
      invariant total + RatingSum(reviews, rest) == RatingSum(reviews, all)
      invariant count + |rest| == |all|
      decreases |rest|
    {
      var k :| k in rest;
      RatingSumRemove(reviews, rest, k);
      total := total + reviews[k].rating;
      count := count + 1;
      rest := rest - {k};
    }
  }

  /**
   * Recipe `r`, stored under `rid`, agrees with the review store: its `reviews` list holds
   * each review of the recipe exactly once, `reviewCount` and `ratingCount` count them,
   * and `averageRating` is their mean (0 when there are none).
   */
  ghost predicate InSync(r: Recipe, reviews: map<ReviewId, Review>, rid: RecipeId) {
    var ks := ReviewsOf(reviews, rid);
    && NoDup(r.reviews)
    && (forall i :: 0 <= i < |r.reviews| ==> r.reviews[i] in ks)
    && (forall k :: k in ks ==> k in r.reviews)
    && r.reviewCount == |r.reviews|
    && r.reviewCount == |ks|
    && r.ratingCount == |ks|
    && r.averageRating == MeanRating(reviews, rid)
  }

  /** Every stored recipe agrees with the review store. */
  ghost predicate StoreInSync(recipes: map<RecipeId, Recipe>, reviews: map<ReviewId, Review>) {
    forall rid :: rid in recipes ==> InSync(recipes[rid], reviews, rid)
  }

  /** For a recipe in sync, `averageRating * ratingCount` is the sum of its reviews' ratings. */
  lemma InSyncAverageTimesCount(r: Recipe, reviews: map<ReviewId, Review>, rid: RecipeId)
    requires InSync(r, reviews, rid)
    ensures r.averageRating * r.ratingCount as real == RatingSum(reviews, ReviewsOf(reviews, rid))
    ensures r.ratingCount == 0 ==> r.averageRating == 0.0
  {
  }

  /** For a recipe in sync, the JSON `reviews` number is the length of the id list it replaces. */
  lemma InSyncJsonReviews(r: Recipe, reviews: map<ReviewId, Review>, rid: RecipeId)
    requires InSync(r, reviews, rid)
    ensures ToJson(r).reviews == |r.reviews| == |ReviewsOf(reviews, rid)|
  {
  }

  /** A new recipe is in sync as long as no stored review references its id. */
  lemma NewRecipeInSync(r: Recipe, reviews: map<ReviewId, Review>, rid: RecipeId)
    requires r.reviews == [] && r.reviewCount == 0 && r.ratingCount == 0 && r.averageRating == 0.0
    ensures InSync(r, reviews, rid) <==> ReviewsOf(reviews, rid) == {}
  {
    if ReviewsOf(reviews, rid) != {} {
      var k :| k in ReviewsOf(reviews, rid);
      assert k !in r.reviews;
    }
  }

  /** The reviews of `rid`, and their ratings, are the same in both stores. */
  ghost predicate SameRatingsFor(reviews: map<ReviewId, Review>, reviews': map<ReviewId, Review>, rid: RecipeId) {
    && ReviewsOf(reviews', rid) == ReviewsOf(reviews, rid)
    && forall k :: k in ReviewsOf(reviews, rid) ==> reviews'[k].rating == reviews[k].rating
  }

  /** Being in sync depends on nothing else in the review store. */
  lemma InSyncFrame(r: Recipe, reviews: map<ReviewId, Review>, reviews': map<ReviewId, Review>, rid: RecipeId)
    requires SameRatingsFor(reviews, reviews', rid)
    ensures InSync(r, reviews', rid) <==> InSync(r, reviews, rid)
  {
    RatingSumFrame(reviews, reviews', ReviewsOf(reviews, rid));
  }

  /**
   * The whole store stays in sync when every recipe outside `touched` is untouched and
   * keeps the same reviews, and every recipe in `touched` is in sync afterwards.
   */
  lemma StoreInSyncAfter(
    recipes: map<RecipeId, Recipe>, reviews: map<ReviewId, Review>,
    recipes': map<RecipeId, Recipe>, reviews': map<ReviewId, Review>, touched: set<RecipeId>)
    requires StoreInSync(recipes, reviews)
    requires recipes'.Keys <= recipes.Keys
    requires forall rid :: rid in recipes' && rid !in touched ==>
      recipes'[rid] == recipes[rid] && SameRatingsFor(reviews, reviews', rid)
    requires forall rid :: rid in recipes' && rid in touched ==> InSync(recipes'[rid], reviews', rid)
    ensures StoreInSync(recipes', reviews')
  {
    forall rid | rid in recipes' ensures InSync(recipes'[rid], reviews', rid) {
      if rid !in touched {
        InSyncFrame(recipes[rid], reviews, reviews', rid);
      }
    }
  }

  /**
   * The whole store stays in sync when one recipe `rid` is replaced by `r'`, which is in
   * sync with the new reviews, and every other recipe keeps the same reviews.
   */
  lemma StoreInSyncAfterOne(
    recipes: map<RecipeId, Recipe>, reviews: map<ReviewId, Review>, reviews': map<ReviewId, Review>,
    rid: RecipeId, r': Recipe)
    requires StoreInSync(recipes, reviews) && rid in recipes
    requires forall other :: other != rid ==> SameRatingsFor(reviews, reviews', other)
    requires InSync(r', reviews', rid)
    ensures StoreInSync(recipes[rid := r'], reviews')
  {
    var recipes' := recipes[rid := r'];
    forall x | x in recipes' ensures InSync(recipes'[x], reviews', x) {
      if x != rid {
        InSyncFrame(recipes[x], reviews, reviews', x);
      }
    }
  }

  /** Storing a review of another recipe leaves the reviews of `rid` as they were. */
  lemma InsertElsewhere(reviews: map<ReviewId, Review>, id: ReviewId, rv: Review, rid: RecipeId)
    requires id !in reviews && rv.recipe != rid
    ensures SameRatingsFor(reviews, reviews[id := rv], rid)
  {
    assert ReviewsOf(reviews[id := rv], rid) == ReviewsOf(reviews, rid);
  }

  /** Deleting a review of another recipe leaves the reviews of `rid` as they were. */
  lemma RemoveElsewhere(reviews: map<ReviewId, Review>, id: ReviewId, rid: RecipeId)
    requires id in reviews && reviews[id].recipe != rid
    ensures SameRatingsFor(reviews, reviews - {id}, rid)
  {
    assert ReviewsOf(reviews - {id}, rid) == ReviewsOf(reviews, rid);
  }

  /** Rewriting a review without moving it to another recipe keeps every recipe's set of reviews. */
  lemma RewriteKeepsMembership(reviews: map<ReviewId, Review>, id: ReviewId, rv: Review, rid: RecipeId)
    requires id in reviews && rv.recipe == reviews[id].recipe
    ensures ReviewsOf(reviews[id := rv], rid) == ReviewsOf(reviews, rid)
    ensures rv.recipe != rid ==> SameRatingsFor(reviews, reviews[id := rv], rid)
  {
    assert ReviewsOf(reviews[id := rv], rid) == ReviewsOf(reviews, rid);
  }

  /** After a review `id` of `rid` is stored, the recipe with the id pushed, the count raised and the aggregates recomputed is in sync. */
  lemma InSyncAfterAdd(r: Recipe, reviews: map<ReviewId, Review>, rid: RecipeId, id: ReviewId, rv: Review)
    requires InSync(r, reviews, rid) && id !in reviews && rv.recipe == rid
    ensures var reviews' := reviews[id := rv];
      InSync(r.(reviews := r.reviews + [id], reviewCount := r.reviewCount + 1,
                averageRating := MeanRating(reviews', rid), ratingCount := |ReviewsOf(reviews', rid)|),
             reviews', rid)
  {
    var reviews' := reviews[id := rv];
    var ks := ReviewsOf(reviews, rid);
    assert ReviewsOf(reviews', rid) == ks + {id};
    assert id !in r.reviews;
    var l := r.reviews + [id];
    assert NoDup(l) by {
      forall i, j | 0 <= i < j < |l| ensures l[i] != l[j] {
        if j == |l| - 1 { assert l[i] == r.reviews[i]; }
      }
    }
  }

  /** Pulling one member out of a duplicate-free list of the set `ks` leaves a duplicate-free list of `ks - {id}`. */
  lemma PullFromListOf(l: seq<ReviewId>, ks: set<ReviewId>, id: ReviewId)
    requires NoDup(l) && id in ks
    requires (forall i :: 0 <= i < |l| ==> l[i] in ks) && (forall k :: k in ks ==> k in l)
    ensures var l' := RemoveAll(l, id);
      && NoDup(l') && |l'| == |l| - 1
      && (forall i :: 0 <= i < |l'| ==> l'[i] in ks - {id})
      && (forall k :: k in ks - {id} ==> k in l')
  {
    RemoveFromNoDup(l, id);
    var l' := RemoveAll(l, id);
    forall i | 0 <= i < |l'| ensures l'[i] in ks - {id} {
      assert l'[i] in l && l'[i] != id;
    }
  }

  /** Deleting review `id` of `rid` takes exactly that id out of the reviews of `rid`. */
  lemma RemoveFromReviewsOf(reviews: map<ReviewId, Review>, rid: RecipeId, id: ReviewId)
    requires id in reviews && reviews[id].recipe == rid
    ensures ReviewsOf(reviews - {id}, rid) == ReviewsOf(reviews, rid) - {id}
    ensures |ReviewsOf(reviews - {id}, rid)| == |ReviewsOf(reviews, rid)| - 1
  {
    assert ReviewsOf(reviews - {id}, rid) == ReviewsOf(reviews, rid) - {id};
  }

  /** After review `id` of `rid` is deleted, the recipe with the id pulled, the count lowered and the aggregates recomputed is in sync. */
  lemma InSyncAfterRemove(r: Recipe, reviews: map<ReviewId, Review>, rid: RecipeId, id: ReviewId)
    requires InSync(r, reviews, rid) && id in reviews && reviews[id].recipe == rid
    ensures var reviews' := reviews - {id};
      InSync(r.(reviews := RemoveAll(r.reviews, id), reviewCount := r.reviewCount - 1,
                averageRating := MeanRating(reviews', rid), ratingCount := |ReviewsOf(reviews', rid)|),
             reviews', rid)
  {
    RemoveFromReviewsOf(reviews, rid, id);
    PullFromListOf(r.reviews, ReviewsOf(reviews, rid), id);
  }

  /** After a review of `rid` is rewritten in place, the recipe with its average recomputed is in sync. */
  lemma InSyncAfterRewrite(r: Recipe, reviews: map<ReviewId, Review>, rid: RecipeId, id: ReviewId, rv: Review)
    requires InSync(r, reviews, rid) && id in reviews && reviews[id].recipe == rid && rv.recipe == rid
    ensures InSync(r.(averageRating := MeanRating(reviews[id := rv], rid)), reviews[id := rv], rid)
  {
    RewriteKeepsMembership(reviews, id, rv, rid);
  }

  /** Storing a review for a recipe that is not in the store leaves every recipe in sync. */
  lemma StoreInSyncAfterOrphanInsert(
    recipes: map<RecipeId, Recipe>, reviews: map<ReviewId, Review>, id: ReviewId, rv: Review)
    requires StoreInSync(recipes, reviews) && id !in reviews && rv.recipe !in recipes
    ensures StoreInSync(recipes, reviews[id := rv])
  {
    forall rid | rid in recipes ensures SameRatingsFor(reviews, reviews[id := rv], rid) {
      InsertElsewhere(reviews, id, rv, rid);
    }
    StoreInSyncAfter(recipes, reviews, recipes, reviews[id := rv], {});
  }

  /** `addReview`'s two writes together keep the whole store in sync. */
  lemma StoreInSyncAfterAdd(
    recipes: map<RecipeId, Recipe>, reviews: map<ReviewId, Review>, id: ReviewId, rv: Review)
    requires StoreInSync(recipes, reviews) && id !in reviews && rv.recipe in recipes
    ensures var reviews' := reviews[id := rv];
      var r := recipes[rv.recipe];
      StoreInSync(
        recipes[rv.recipe := r.(reviews := r.reviews + [id], reviewCount := r.reviewCount + 1,
                                averageRating := MeanRating(reviews', rv.recipe),
                                ratingCount := |ReviewsOf(reviews', rv.recipe)|)],
        reviews')
  {
    var reviews' := reviews[id := rv];
    var rid := rv.recipe;
    var r := recipes[rid];
    forall other | other != rid ensures SameRatingsFor(reviews, reviews', other) {
      InsertElsewhere(reviews, id, rv, other);
    }
    InSyncAfterAdd(r, reviews, rid, id, rv);
    StoreInSyncAfterOne(recipes, reviews, reviews', rid,
      r.(reviews := r.reviews + [id], reviewCount := r.reviewCount + 1,
         averageRating := MeanRating(reviews', rid), ratingCount := |ReviewsOf(reviews', rid)|));
  }

  /** Rewriting a review whose recipe is not in the store leaves every recipe in sync. */
  lemma StoreInSyncAfterOrphanRewrite(
    recipes: map<RecipeId, Recipe>, reviews: map<ReviewId, Review>, id: ReviewId, rv: Review)
    requires StoreInSync(recipes, reviews) && id in reviews && rv.recipe == reviews[id].recipe
    requires rv.recipe !in recipes
    ensures StoreInSync(recipes, reviews[id := rv])
  {
    forall rid | rid in recipes ensures SameRatingsFor(reviews, reviews[id := rv], rid) {
      RewriteKeepsMembership(reviews, id, rv, rid);
    }
    StoreInSyncAfter(recipes, reviews, recipes, reviews[id := rv], {});
  }

  /** Rewriting a review without touching its rating or recipe leaves every recipe in sync. */
  lemma StoreInSyncAfterUnratedRewrite(
    recipes: map<RecipeId, Recipe>, reviews: map<ReviewId, Review>, id: ReviewId, rv: Review)
    requires StoreInSync(recipes, reviews) && id in reviews
    requires rv.recipe == reviews[id].recipe && rv.rating == reviews[id].rating
    ensures StoreInSync(recipes, reviews[id := rv])
  {
    forall rid | rid in recipes ensures SameRatingsFor(reviews, reviews[id := rv], rid) {
      RewriteKeepsMembership(reviews, id, rv, rid);
    }
    StoreInSyncAfter(recipes, reviews, recipes, reviews[id := rv], {});
  }

  /** `updateReview`'s two writes together keep the whole store in sync. */
  lemma StoreInSyncAfterRewrite(
    recipes: map<RecipeId, Recipe>, reviews: map<ReviewId, Review>, id: ReviewId, rv: Review)
    requires StoreInSync(recipes, reviews) && id in reviews && rv.recipe == reviews[id].recipe
    requires rv.recipe in recipes
    ensures var reviews' := reviews[id := rv];
      StoreInSync(recipes[rv.recipe := recipes[rv.recipe].(averageRating := MeanRating(reviews', rv.recipe))], reviews')
  {
    var reviews' := reviews[id := rv];
    forall rid | rid != rv.recipe ensures SameRatingsFor(reviews, reviews', rid) {
      RewriteKeepsMembership(reviews, id, rv, rid);
    }
    InSyncAfterRewrite(recipes[rv.recipe], reviews, rv.recipe, id, rv);
    StoreInSyncAfterOne(recipes, reviews, reviews', rv.recipe,
      recipes[rv.recipe].(averageRating := MeanRating(reviews', rv.recipe)));
  }

  /** Deleting a review whose recipe is not in the store leaves every recipe in sync. */
  lemma StoreInSyncAfterOrphanRemove(recipes: map<RecipeId, Recipe>, reviews: map<ReviewId, Review>, id: ReviewId)
    requires StoreInSync(recipes, reviews) && id in reviews && reviews[id].recipe !in recipes
    ensures StoreInSync(recipes, reviews - {id})
  {
    forall rid | rid in recipes ensures SameRatingsFor(reviews, reviews - {id}, rid) {
      RemoveElsewhere(reviews, id, rid);
    }
    StoreInSyncAfter(recipes, reviews, recipes, reviews - {id}, {});
  }

  /** The delete handlers' two writes together keep the whole store in sync. */
  lemma StoreInSyncAfterRemove(recipes: map<RecipeId, Recipe>, reviews: map<ReviewId, Review>, id: ReviewId)
    requires StoreInSync(recipes, reviews) && id in reviews && reviews[id].recipe in recipes
    ensures var reviews' := reviews - {id};
      var rid := reviews[id].recipe;
      var r := recipes[rid];
      StoreInSync(
        recipes[rid := r.(reviews := RemoveAll(r.reviews, id), reviewCount := r.reviewCount - 1,
                          averageRating := MeanRating(reviews', rid),
                          ratingCount := |ReviewsOf(reviews', rid)|)],
        reviews')
  {
    var reviews' := reviews - {id};
    var rid := reviews[id].recipe;
    forall other | other != rid ensures SameRatingsFor(reviews, reviews', other) {
      RemoveElsewhere(reviews, id, other);
    }
    var r := recipes[rid];
    InSyncAfterRemove(r, reviews, rid, id);
    StoreInSyncAfterOne(recipes, reviews, reviews', rid,
      r.(reviews := RemoveAll(r.reviews, id), reviewCount := r.reviewCount - 1,
         averageRating := MeanRating(reviews', rid), ratingCount := |ReviewsOf(reviews', rid)|));
  }

  /** Rewriting a recipe's content, keeping its four aggregate fields, keeps the store in sync. */
  lemma StoreInSyncAfterContentWrite(recipes: map<RecipeId, Recipe>, reviews: map<ReviewId, Review>, rid: RecipeId, r: Recipe)
    requires StoreInSync(recipes, reviews) && rid in recipes
    requires r.reviews == recipes[rid].reviews && r.reviewCount == recipes[rid].reviewCount
    requires r.averageRating == recipes[rid].averageRating && r.ratingCount == recipes[rid].ratingCount
    ensures StoreInSync(recipes[rid := r], reviews)
  {
    assert InSync(recipes[rid], reviews, rid);
  }
}
