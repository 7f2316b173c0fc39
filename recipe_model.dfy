/**
 * The Recipe schema: required content fields, the embedded ratings, and the
 * denormalised review aggregates (`reviews`, `reviewCount`, `averageRating`,
 * `ratingCount`) that the review handlers keep up to date.
 */
module RecipeModel {
  import opened Wrappers
  import opened Ids

  const MinRating: real := 1.0
  const MaxRating: real := 5.0

  /** An entry of the embedded `ratings` array; both of its fields are optional. */
  datatype RatingEntry = RatingEntry(user: Option<UserId>, rating: Option<real>)

  datatype Recipe = Recipe(
    title: string,
    description: string,
    image: string,
    images: seq<string>,
    prepTime: real,
    difficulty: string,
    category: string,
    cuisine: string,
    diet: string,
    serves: real,
    calories: Option<real>,
    ingredients: seq<string>,
    instructions: seq<string>,
    user: UserId,
    likes: int,
    likedBy: seq<UserId>,
    views: int,
    averageRating: real,
    ratingCount: int,
    ratings: seq<RatingEntry>,
    reviews: seq<ReviewId>,
    reviewCount: int,
    createdAt: int)

  /** An embedded rating, when present, lies between 1 and 5. */
  predicate ValidRatingEntry(e: RatingEntry) {
    e.rating.None? || MinRating <= e.rating.value <= MaxRating
  }

  /**
   * What mongoose checks before a recipe is written: the required strings are non-empty
   * (`prepTime`, `serves` and `user` cannot be missing in this datatype), so is every
   * ingredient and instruction, and every embedded rating is in range.
   */
  predicate ValidRecipe(r: Recipe) {
    && r.title != "" && r.description != "" && r.image != ""
    && r.difficulty != "" && r.category != "" && r.cuisine != "" && r.diet != ""
    && (forall i :: 0 <= i < |r.ingredients| ==> r.ingredients[i] != "")
    && (forall i :: 0 <= i < |r.instructions| ==> r.instructions[i] != "")
    && (forall i :: 0 <= i < |r.ratings| ==> ValidRatingEntry(r.ratings[i]))
  }

  /** A recipe as created from its content: every counter and list takes its schema default. */
  function NewRecipe(
    title: string, description: string, image: string, images: seq<string>, prepTime: real,
    difficulty: string, category: string, cuisine: string, diet: string, serves: real,
    calories: Option<real>, ingredients: seq<string>, instructions: seq<string>,
    user: UserId, createdAt: int): Recipe
  {
    Recipe(title, description, image, images, prepTime, difficulty, category, cuisine, diet, serves,
      calories, ingredients, instructions, user, 0, [], 0, 0.0, 0, [], [], 0, createdAt)
  }

  /** The defaults: no likes, views, ratings or reviews yet. */
  lemma NewRecipeDefaults(
    title: string, description: string, image: string, images: seq<string>, prepTime: real,
    difficulty: string, category: string, cuisine: string, diet: string, serves: real,
    calories: Option<real>, ingredients: seq<string>, instructions: seq<string>,
    user: UserId, createdAt: int)
    ensures var r := NewRecipe(title, description, image, images, prepTime, difficulty, category,
      cuisine, diet, serves, calories, ingredients, instructions, user, createdAt);
      && r.likes == 0 && r.views == 0 && r.averageRating == 0.0 && r.ratingCount == 0
      && r.reviewCount == 0 && r.reviews == [] && r.likedBy == [] && r.ratings == []
      && (ValidRecipe(r) <==>
            && title != "" && description != "" && image != "" && difficulty != ""
            && category != "" && cuisine != "" && diet != ""
            && (forall i :: 0 <= i < |ingredients| ==> ingredients[i] != "")
            && (forall i :: 0 <= i < |instructions| ==> instructions[i] != ""))
  {
  }

  /** Validation does not look at the review aggregates, so rewriting them keeps a recipe valid. */
  lemma AggregatesKeepValid(r: Recipe, reviews: seq<ReviewId>, reviewCount: int, averageRating: real, ratingCount: int)
    ensures ValidRecipe(r.(reviews := reviews, reviewCount := reviewCount,
                           averageRating := averageRating, ratingCount := ratingCount)) == ValidRecipe(r)
  {
  }

  /** The `rating` virtual, `averageRating || 0`: the average itself, since only 0 is falsy among exact numbers. */
  function RatingOf(r: Recipe): (x: real)
    ensures x == r.averageRating
  {
    if r.averageRating != 0.0 then r.averageRating else 0.0
  }

  /** A recipe as `toJSON` renders it: the id list `reviews` becomes a number, and the `rating` virtual is added. */
  datatype RecipeJson = RecipeJson(
    title: string,
    description: string,
    image: string,
    images: seq<string>,
    prepTime: real,
    difficulty: string,
    category: string,
    cuisine: string,
    diet: string,
    serves: real,
    calories: Option<real>,
    ingredients: seq<string>,
    instructions: seq<string>,
    user: UserId,
    likes: int,
    likedBy: seq<UserId>,
    views: int,
    averageRating: real,
    ratingCount: int,
    ratings: seq<RatingEntry>,
    reviews: int,
    reviewCount: int,
    createdAt: int,
    rating: real)

  /** The `toJSON` transform, `ret.reviews = ret.reviewCount || 0`, with virtuals included. */
  function ToJson(r: Recipe): (j: RecipeJson)
    ensures j.reviews == r.reviewCount && j.rating == r.averageRating
    ensures j.title == r.title && j.image == r.image && j.images == r.images && j.user == r.user
    ensures j.averageRating == r.averageRating && j.ratingCount == r.ratingCount && j.reviewCount == r.reviewCount
    ensures && j.description == r.description && j.prepTime == r.prepTime && j.difficulty == r.difficulty
            && j.category == r.category && j.cuisine == r.cuisine && j.diet == r.diet && j.serves == r.serves
            && j.calories == r.calories && j.ingredients == r.ingredients && j.instructions == r.instructions
            && j.likes == r.likes && j.likedBy == r.likedBy && j.views == r.views && j.ratings == r.ratings
            && j.createdAt == r.createdAt
  {
    RecipeJson(r.title, r.description, r.image, r.images, r.prepTime, r.difficulty, r.category,
      r.cuisine, r.diet, r.serves, r.calories, r.ingredients, r.instructions, r.user, r.likes,
      r.likedBy, r.views, r.averageRating, r.ratingCount, r.ratings,
      if r.reviewCount != 0 then r.reviewCount else 0,
      r.reviewCount, r.createdAt, RatingOf(r))
  }
}
