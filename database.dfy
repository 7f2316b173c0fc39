/**
 * The document store the handlers work against: three collections keyed by id.
 * Each handler is one atomic step on this object.
 */
module Database {
  import opened Ids
  import opened ReviewModel
  import opened RecipeModel
  import opened UserModel
  import opened Aggregates

  class Db {
    var users: map<UserId, User>
    var recipes: map<RecipeId, Recipe>
    var reviews: map<ReviewId, Review>

    /** The three collections satisfy `ValidStore`. */
    ghost predicate Valid()
      reads this
    {
      ValidStore(users, recipes, reviews)
    }

    /** Every recipe's review aggregates agree with the stored reviews. */
    ghost predicate Synced()
      reads this
    {
      StoreInSync(recipes, reviews)
    }

    /** An empty database. */
    constructor ()
      ensures users == map[] && recipes == map[] && reviews == map[]
      ensures Valid() && Synced()
    {
      users, recipes, reviews := map[], map[], map[];
    }
  }

  /**
   * What the schema validators and the unique indexes guarantee of every stored
   * review and recipe: records pass validation, one review per (user, recipe),
   * one user per email. Users are not required to pass validation: records older
   * than the `role` field exist, which is why the role backfill exists.
   */
  ghost predicate ValidStore(users: map<UserId, User>, recipes: map<RecipeId, Recipe>, reviews: map<ReviewId, Review>) {
    && (forall k :: k in reviews ==> ValidReview(reviews[k]))
    && OneReviewPerUserAndRecipe(reviews)
    && (forall rid :: rid in recipes ==> ValidRecipe(recipes[rid]))
    && UniqueEmails(users)
  }

  /** Storing a valid review under a fresh id for a (user, recipe) pair without one keeps the store valid. */
  lemma ValidAfterInsert(
    users: map<UserId, User>, recipes: map<RecipeId, Recipe>, reviews: map<ReviewId, Review>,
    id: ReviewId, rv: Review)
    requires ValidStore(users, recipes, reviews)
    requires id !in reviews && ValidReview(rv) && !HasReviewBy(reviews, rv.user, rv.recipe)
    ensures ValidStore(users, recipes, reviews[id := rv])
  {
    var reviews' := reviews[id := rv];
    assert forall k :: k in reviews ==> !(reviews[k].user == rv.user && reviews[k].recipe == rv.recipe);
    forall a, b | a in reviews' && b in reviews' && reviews'[a].user == reviews'[b].user
                  && reviews'[a].recipe == reviews'[b].recipe
      ensures a == b
    {
      if a != id && b != id {
        assert reviews'[a] == reviews[a] && reviews'[b] == reviews[b];
      }
    }
  }

  /** Deleting a review keeps the store valid. */
  lemma ValidAfterRemove(
    users: map<UserId, User>, recipes: map<RecipeId, Recipe>, reviews: map<ReviewId, Review>, id: ReviewId)
    requires ValidStore(users, recipes, reviews)
    ensures ValidStore(users, recipes, reviews - {id})
  {
    var reviews' := reviews - {id};
    forall a, b | a in reviews' && b in reviews' && reviews'[a].user == reviews'[b].user
                  && reviews'[a].recipe == reviews'[b].recipe
      ensures a == b
    {
      assert reviews'[a] == reviews[a] && reviews'[b] == reviews[b];
    }
  }

  /** Rewriting a review in place, valid and with the same author and recipe, keeps the store valid. */
  lemma ValidAfterRewrite(
    users: map<UserId, User>, recipes: map<RecipeId, Recipe>, reviews: map<ReviewId, Review>,
    id: ReviewId, rv: Review)
    requires ValidStore(users, recipes, reviews)
    requires id in reviews && ValidReview(rv) && rv.user == reviews[id].user && rv.recipe == reviews[id].recipe
    ensures ValidStore(users, recipes, reviews[id := rv])
  {
    var reviews' := reviews[id := rv];
    forall a, b | a in reviews' && b in reviews' && reviews'[a].user == reviews'[b].user
                  && reviews'[a].recipe == reviews'[b].recipe
      ensures a == b
    {
      assert reviews'[a].user == reviews[a].user && reviews'[a].recipe == reviews[a].recipe;
      assert reviews'[b].user == reviews[b].user && reviews'[b].recipe == reviews[b].recipe;
    }
  }

  /** Replacing a stored recipe by one that still validates keeps the store valid. */
  lemma ValidAfterRecipeWrite(
    users: map<UserId, User>, recipes: map<RecipeId, Recipe>, reviews: map<ReviewId, Review>,
    rid: RecipeId, r: Recipe)
    requires ValidStore(users, recipes, reviews) && ValidRecipe(r)
    ensures ValidStore(users, recipes[rid := r], reviews)
  {
  }

  /** Rewriting a user without changing the email keeps the store valid. */
  lemma ValidAfterUserWrite(
    users: map<UserId, User>, recipes: map<RecipeId, Recipe>, reviews: map<ReviewId, Review>,
    id: UserId, u: User)
    requires ValidStore(users, recipes, reviews)
    requires id in users && u.email == users[id].email
    ensures ValidStore(users[id := u], recipes, reviews)
  {
    var users' := users[id := u];
    forall a, b | a in users' && b in users' && users'[a].email == users'[b].email
      ensures a == b
    {
      assert users'[a].email == users[a].email && users'[b].email == users[b].email;
    }
  }

  /** Creation times of the reviews, for `.sort('-createdAt')`. */
  function ReviewTimes(reviews: map<ReviewId, Review>): map<ReviewId, int> {
    map k | k in reviews :: reviews[k].createdAt
  }

  function RecipeTimes(recipes: map<RecipeId, Recipe>): map<RecipeId, int> {
    map k | k in recipes :: recipes[k].createdAt
  }

  function UserTimes(users: map<UserId, User>): map<UserId, int> {
    map k | k in users :: users[k].createdAt
  }
}
