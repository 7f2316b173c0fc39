/**
 * The admin handlers: the admin check, the three filtered listings, and the user,
 * recipe and review management operations.
 */
module AdminController {
  import opened Wrappers
  import opened Ids
  import opened Seqs
  import opened Text
  import opened Listing
  import opened ReviewModel
  import opened RecipeModel
  import opened UserModel
  import opened Aggregates
  import opened Database
  import opened ReviewController

  /** What a middleware does with a request: hand it on, or answer it with a status. */
  datatype GateResult = Next | Deny(status: int)

  /**
   * `requireAdmin`: the request goes on only when the authenticated user's record exists
   * and its role is exactly `'admin'`; anyone else gets 403.
   */
  function RequireAdmin(users: map<UserId, User>, userId: UserId): (g: GateResult)
    ensures g.Next? <==> userId in users && users[userId].role == Some(AdminRole)
    ensures g.Deny? ==> g.status == Forbidden
  {
    if userId in users && users[userId].role == Some(AdminRole) then Next else Deny(Forbidden)
  }

  // ---------------------------------------------------------------------------
  // getUsers: the query object and the records it selects

  /** The `$or` member of the users query. */
  datatype OrClause =
    | NameOrEmail(term: string)   // `fullName` or `email` matches `term`, ignoring case
    | UserOrUnset                 // `role` is `'user'`, absent, null or `''`

  /** The users query: an optional `$or` and an optional exact `role`. */
  datatype UserQuery = UserQuery(or: Option<OrClause>, role: Option<string>)

  /**
   * The query as `getUsers` builds it by successive assignments: a search sets `$or`;
   * then `role == 'user'` replaces `$or` and any other non-empty role sets `role`.
   */
  function BuildUserQuery(search: string, role: string): (q: UserQuery)
    ensures role == UserRole ==> q == UserQuery(Some(UserOrUnset), None)
    ensures role != UserRole ==> q.role == (if role == "" then None else Some(role))
    ensures role != UserRole ==> q.or == (if search == "" then None else Some(NameOrEmail(search)))
  {
    var q := UserQuery(None, None);
    var q := if search != "" then q.(or := Some(NameOrEmail(search))) else q;
    if role == "" then q
    else if role == UserRole then q.(or := Some(UserOrUnset))
    else q.(role := Some(role))
  }

  /** A user without a proper role: the field is absent, null or the empty string. */
  predicate LacksRole(u: User) {
    u.role.None? || u.role == Some("")
  }

  predicate OrMatches(c: OrClause, u: User) {
    match c
    case NameOrEmail(term) => ContainsIgnoringCase(u.fullName, term) || ContainsIgnoringCase(u.email, term)
    case UserOrUnset => u.role == Some(UserRole) || LacksRole(u)
  }

  predicate UserMatches(q: UserQuery, u: User) {
    && (q.or.None? || OrMatches(q.or.value, u))
    && (q.role.None? || u.role == q.role)
  }

  /** The ids `User.find(query)` and `User.countDocuments(query)` select. */
  function MatchingUsers(users: map<UserId, User>, q: UserQuery): set<UserId> {
    set k | k in users && UserMatches(q, users[k])
  }

  /** The name-or-email search, ignoring case; an empty search matches everyone. */
  predicate SearchHits(search: string, u: User) {
    search == "" || ContainsIgnoringCase(u.fullName, search) || ContainsIgnoringCase(u.email, search)
  }

  /** `role=user` selects the users whose role is `'user'`, absent, null or `''`, and the search is dropped. */
  lemma RoleUserFilter(search: string, u: User)
    ensures UserMatches(BuildUserQuery(search, UserRole), u) <==> u.role == Some(UserRole) || LacksRole(u)
  {
  }

  /** Any other non-empty role is matched exactly, together with the search. */
  lemma OtherRoleFilter(search: string, role: string, u: User)
    requires role != "" && role != UserRole
    ensures UserMatches(BuildUserQuery(search, role), u) <==> u.role == Some(role) && SearchHits(search, u)
  {
  }

  /** Without a role, only the search filters. */
  lemma NoRoleFilter(search: string, u: User)
    ensures UserMatches(BuildUserQuery(search, ""), u) <==> SearchHits(search, u)
  {
  }

  /** With `role=user` the search has no effect at all on the result. */
  lemma SearchIgnoredForRoleUser(users: map<UserId, User>, search: string)
    ensures MatchingUsers(users, BuildUserQuery(search, UserRole)) == MatchingUsers(users, BuildUserQuery("", UserRole))
  {
    assert BuildUserQuery(search, UserRole) == BuildUserQuery("", UserRole);
  }

  /**
   * A search term that `$regex` reads as plain text: it holds none of the characters that
   * make a pattern differ from the literal string or fail to compile.
   */
  predicate RegexLiteral(s: string) {
    forall i :: 0 <= i < |s| ==> s[i] !in "\\^$|?*+()[]{"
  }

  /**
   * Searching for a user's own email or own full name lists that user, unless the role filter
   * excludes them (`role=user` ignores the search; another role must be the user's own).
   * This holds for a term that is a literal pattern; a term such as `a+b@x.com` is a
   * different regular expression and is outside the model.
   */
  lemma SearchForOwnNameOrEmail(users: map<UserId, User>, k: UserId, role: string)
    requires k in users
    requires role == "" || (role != UserRole && users[k].role == Some(role))
    ensures RegexLiteral(users[k].email) ==> k in MatchingUsers(users, BuildUserQuery(users[k].email, role))
    ensures RegexLiteral(users[k].fullName) ==> k in MatchingUsers(users, BuildUserQuery(users[k].fullName, role))
  {
    ContainsItself(users[k].email);
    ContainsItself(users[k].fullName);
  }

  /** The recipes owned by `userId`: `Recipe.countDocuments({ user })` counts them. */
  function RecipesBy(recipes: map<RecipeId, Recipe>, userId: UserId): set<RecipeId> {
    set k | k in recipes && recipes[k].user == userId
  }

  /** A row of the users listing: the user with the number of recipes and reviews they wrote. */
  datatype UserRow = UserRow(id: UserId, recipeCount: nat, reviewCount: nat)

  function StatsRow(recipes: map<RecipeId, Recipe>, reviews: map<ReviewId, Review>, id: UserId): UserRow {
    UserRow(id, |RecipesBy(recipes, id)|, |ReviewsBy(reviews, id)|)
  }

  /** The page with each user id replaced by its row. */
  function WithStats(p: Option<Page<UserId>>, recipes: map<RecipeId, Recipe>, reviews: map<ReviewId, Review>)
    : (r: Option<Page<UserRow>>)
    ensures r.None? <==> p.None?
    ensures r.Some? ==>
      && |r.value.items| == |p.value.items|
      && r.value.total == p.value.total && r.value.totalPages == p.value.totalPages
      && r.value.currentPage == p.value.currentPage
      && forall i :: 0 <= i < |r.value.items| ==> r.value.items[i] == StatsRow(recipes, reviews, p.value.items[i])
  {
    match p
    case None => None
    case Some(pg) =>
      Some(Page(seq(|pg.items|, i requires 0 <= i < |pg.items| => StatsRow(recipes, reviews, pg.items[i])),
        pg.total, pg.currentPage, pg.totalPages))
  }

  /**
   * `getUsers`: one page of the users the query selects, newest first, each with its recipe
   * and review counts, together with the number of matching users and the page count.
   */
  method GetUsers(db: Db, page: Option<int>, limit: Option<int>, search: string, role: string)
    returns (r: Option<Page<UserRow>>)
    ensures exists order ::
              && NewestFirst(order, MatchingUsers(db.users, BuildUserQuery(search, role)), UserTimes(db.users))
              && r == WithStats(PageOf(order, page.GetOr(DefaultPage), limit.GetOr(DefaultLimit)), db.recipes, db.reviews)
    ensures r.Some? ==> r.value.total == |MatchingUsers(db.users, BuildUserQuery(search, role))|
    ensures r.Some? <==> Skip(page.GetOr(DefaultPage), limit.GetOr(DefaultLimit)) >= 0
  {
    var q := BuildUserQuery(search, role);
    var ids := ListNewestFirst(MatchingUsers(db.users, q), UserTimes(db.users),
      page.GetOr(DefaultPage), limit.GetOr(DefaultLimit));
    r := WithStats(ids, db.recipes, db.reviews);
  }

  // ---------------------------------------------------------------------------
  // getRecipes

  /** `getRecipes`' query: title or description matches the search, and the category is exact. */
  predicate RecipeMatches(search: string, category: string, r: Recipe) {
    && (search == "" || ContainsIgnoringCase(r.title, search) || ContainsIgnoringCase(r.description, search))
    && (category == "" || r.category == category)
  }

  function MatchingRecipes(recipes: map<RecipeId, Recipe>, search: string, category: string): set<RecipeId> {
    set k | k in recipes && RecipeMatches(search, category, recipes[k])
  }

  /** `getRecipes`: one page of the matching recipes, newest first, with their number and the page count. */
  method GetRecipes(db: Db, page: Option<int>, limit: Option<int>, search: string, category: string)
    returns (r: Option<Page<RecipeId>>)
    ensures exists order ::
              && NewestFirst(order, MatchingRecipes(db.recipes, search, category), RecipeTimes(db.recipes))
              && r == PageOf(order, page.GetOr(DefaultPage), limit.GetOr(DefaultLimit))
    ensures r.Some? ==> r.value.total == |MatchingRecipes(db.recipes, search, category)|
    ensures r.Some? <==> Skip(page.GetOr(DefaultPage), limit.GetOr(DefaultLimit)) >= 0
  {
    r := ListNewestFirst(MatchingRecipes(db.recipes, search, category), RecipeTimes(db.recipes),
      page.GetOr(DefaultPage), limit.GetOr(DefaultLimit));
  }

  /** Without search or category every recipe is listed. */
  lemma UnfilteredRecipes(recipes: map<RecipeId, Recipe>)
    ensures MatchingRecipes(recipes, "", "") == recipes.Keys
  {
  }

  // ---------------------------------------------------------------------------
  // getReviews, and the `parseInt` its rating filter goes through

  function DigitValue(c: char, radix: nat): Option<nat> {
    if '0' <= c <= '9' && (c as int - '0' as int) < radix then Some(c as int - '0' as int)
    else if radix == 16 && 'a' <= c <= 'f' then Some(c as int - 'a' as int + 10)
    else if radix == 16 && 'A' <= c <= 'F' then Some(c as int - 'A' as int + 10)
    else None
  }

  /** The length of the longest prefix of `s` made of digits in `radix`. */
  function DigitRun(s: string, radix: nat): (n: nat)
    ensures n <= |s|
    ensures forall i :: 0 <= i < n ==> DigitValue(s[i], radix).Some?
    ensures n < |s| ==> DigitValue(s[n], radix).None?
  {
    if s == [] || DigitValue(s[0], radix).None? then 0 else 1 + DigitRun(s[1..], radix)
  }

  /** The number the digits `s` spell in `radix`, most significant first. */
  function DigitsValue(s: string, radix: nat): nat
    requires forall i :: 0 <= i < |s| ==> DigitValue(s[i], radix).Some?
  {
    if s == [] then 0
    else DigitsValue(s[..|s| - 1], radix) * radix + DigitValue(s[|s| - 1], radix).value
  }

  /** The longest run of digits at the start of `v`, read in `radix`; `None` when there is none. */
  function ReadDigits(v: string, radix: nat): Option<nat> {
    var n := DigitRun(v, radix);
    if n == 0 then None else Some(DigitsValue(v[..n], radix))
  }

  /** A leading `-` makes the result negative; one leading sign, `+` or `-`, is dropped. */
  function StripSign(t: string): (bool, string) {
    if |t| > 0 && (t[0] == '-' || t[0] == '+') then (t[0] == '-', t[1..]) else (false, t)
  }

  /** A leading `0x` or `0X` selects base 16 and is dropped; otherwise the base is 10. */
  function StripHexPrefix(u: string): (nat, string) {
    if |u| >= 2 && u[0] == '0' && (u[1] == 'x' || u[1] == 'X') then (16, u[2..]) else (10, u)
  }

  /**
   * JavaScript's `parseInt(s)` with no radix: leading whitespace is skipped, one sign is
   * taken, `0x`/`0X` switches to base 16, and the longest run of digits that follows is
   * read; no digit at all gives `NaN`, which is `None`.
   */
  function ParseInt(s: string): Option<int> {
    var (negative, u) := StripSign(TrimStart(s));
    var (radix, v) := StripHexPrefix(u);
    match ReadDigits(v, radix)
    case None => None
    case Some(m) =>
      var value: int := if negative then -(m as int) else m as int;
      Some(value)
  }

  /** The decimal numeral of `n`, without leading zeros. */
  function Decimal(n: nat): (s: string)
    ensures |s| >= 1 && (|s| > 1 ==> s[0] != '0')
    ensures forall i :: 0 <= i < |s| ==> '0' <= s[i] <= '9'
  {
    if n < 10 then [('0' as int + n) as char]
    else Decimal(n / 10) + [('0' as int + n % 10) as char]
  }

  lemma {:induction false} DecimalValue(n: nat)
    ensures forall i :: 0 <= i < |Decimal(n)| ==> DigitValue(Decimal(n)[i], 10).Some?
    ensures DigitsValue(Decimal(n), 10) == n
  {
    var s := Decimal(n);
    if n >= 10 {
      DecimalValue(n / 10);
      assert s[..|s| - 1] == Decimal(n / 10);
    }
  }

  /** A string made only of digits is one run. */
  lemma {:induction false} DigitRunOfDigits(s: string, radix: nat)
    requires forall i :: 0 <= i < |s| ==> DigitValue(s[i], radix).Some?
    ensures DigitRun(s, radix) == |s|
  {
    if s != [] {
      DigitRunOfDigits(s[1..], radix);
    }
  }

  /** A non-empty string made only of digits is read whole. */
  lemma ReadAllDigits(s: string, radix: nat)
    requires |s| > 0 && forall i :: 0 <= i < |s| ==> DigitValue(s[i], radix).Some?
    ensures ReadDigits(s, radix) == Some(DigitsValue(s, radix))
  {
    DigitRunOfDigits(s, radix);
    assert s[..|s|] == s;
  }

  lemma ReadDecimal(n: nat)
    ensures ReadDigits(Decimal(n), 10) == Some(n)
  {
    DecimalValue(n);
    ReadAllDigits(Decimal(n), 10);
  }

  /** A query value written as a plain decimal numeral reads back as that number. */
  lemma ParseIntOfDecimal(n: nat)
    ensures ParseInt(Decimal(n)) == Some(n)
  {
    var s := Decimal(n);
    assert !IsSpace(s[0]);
    assert TrimStart(s) == s;
    assert StripSign(s) == (false, s);
    assert StripHexPrefix(s) == (10, s);
    ReadDecimal(n);
  }

  /** `getReviews`' query: the comment matches the search; a rating filter keeps reviews of exactly `parseInt(rating)`. */
  predicate ReviewMatches(search: string, rating: string, r: Review) {
    && (search == "" || ContainsIgnoringCase(r.comment, search))
    && (rating == "" || (ParseInt(rating).Some? && r.rating == ParseInt(rating).value as real))
  }

  function MatchingReviews(reviews: map<ReviewId, Review>, search: string, rating: string): set<ReviewId> {
    set k | k in reviews && ReviewMatches(search, rating, reviews[k])
  }

  /**
   * Whether the `rating` filter survives mongoose's Number cast: an absent filter, or one
   * `parseInt` reads as a number. `{ rating: NaN }` is refused and `find` throws.
   */
  predicate RatingFilterCasts(rating: string) {
    rating == "" || ParseInt(rating).Some?
  }

  /** Every decimal numeral is a usable filter. */
  lemma DecimalRatingFilterCasts(n: nat)
    ensures RatingFilterCasts(Decimal(n))
  {
    ParseIntOfDecimal(n);
  }

  /** A filter that starts with a letter, such as `abc`, is `NaN` and so is refused. */
  lemma WordRatingFilterRefused(w: string)
    requires |w| > 0 && 'a' <= w[0] <= 'z'
    ensures !RatingFilterCasts(w)
  {
    assert !IsSpace(w[0]);
    assert TrimStart(w) == w;
    assert StripSign(w) == (false, w);
    assert DigitRun(w, 10) == 0;
  }

  /** A rating filter `"n"` keeps exactly the reviews rated n whose comment matches. */
  lemma DecimalRatingFilter(reviews: map<ReviewId, Review>, search: string, n: nat)
    ensures forall k :: k in MatchingReviews(reviews, search, Decimal(n)) <==>
      k in reviews && reviews[k].rating == n as real && (search == "" || ContainsIgnoringCase(reviews[k].comment, search))
  {
    ParseIntOfDecimal(n);
  }

  /**
   * `getReviews`: one page of the matching reviews, newest first, with their number and the
   * page count; `None` (the 500 of the `catch`) when the rating filter fails its cast.
   */
  method GetReviews(db: Db, page: Option<int>, limit: Option<int>, search: string, rating: string)
    returns (r: Option<Page<ReviewId>>)
    ensures !RatingFilterCasts(rating) ==> r.None?
    ensures RatingFilterCasts(rating) ==>
      exists order ::
        && NewestFirst(order, MatchingReviews(db.reviews, search, rating), ReviewTimes(db.reviews))
        && r == PageOf(order, page.GetOr(DefaultPage), limit.GetOr(DefaultLimit))
    ensures r.Some? ==> r.value.total == |MatchingReviews(db.reviews, search, rating)|
    ensures r.Some? <==> RatingFilterCasts(rating) && Skip(page.GetOr(DefaultPage), limit.GetOr(DefaultLimit)) >= 0
  {
    if !RatingFilterCasts(rating) {
      return None;
    }
    r := ListNewestFirst(MatchingReviews(db.reviews, search, rating), ReviewTimes(db.reviews),
      page.GetOr(DefaultPage), limit.GetOr(DefaultLimit));
  }

  // ---------------------------------------------------------------------------
  // User management

  /** The message of `updateUserStatus`. */
  function StatusMessage(isActive: bool): string {
    "User " + (if isActive then "activated" else "deactivated") + " successfully"
  }

  /**
   * `updateUserStatus`: 404 for a missing user; otherwise exactly `isActive` changes, to the
   * given value, and the answer names the new state.
   */
  method UpdateUserStatus(db: Db, userId: UserId, isActive: bool) returns (status: int, message: string)
    requires db.Valid()
    modifies db
    ensures db.Valid()
    ensures db.recipes == old(db.recipes) && db.reviews == old(db.reviews)
    ensures userId !in old(db.users) ==> status == NotFound && db.users == old(db.users)
    ensures userId in old(db.users) ==>
      && status == Ok && message == StatusMessage(isActive)
      && db.users == old(db.users)[userId := old(db.users)[userId].(isActive := isActive)]
  {
    if userId !in db.users {
      return NotFound, "User not found";
    }
    var user := db.users[userId];
    user := user.(isActive := isActive);
    ValidAfterUserWrite(db.users, db.recipes, db.reviews, userId, user);
    db.users := db.users[userId := user];
    return Ok, StatusMessage(isActive);
  }

  /** The promotion `makeUserAdmin` applies: `role` becomes `'admin'`. */
  function Promote(u: User): (p: User)
    ensures p.role == Some(AdminRole)
    ensures p.(role := u.role) == u
  {
    u.(role := Some(AdminRole))
  }

  /** Promoting twice is promoting once. */
  lemma PromoteIdempotent(u: User)
    ensures Promote(Promote(u)) == Promote(u)
  {
  }

  /** A promoted user passes the admin check, and nobody else's check changes. */
  lemma PromotedPassesGate(users: map<UserId, User>, id: UserId, other: UserId)
    requires id in users
    ensures RequireAdmin(users[id := Promote(users[id])], id) == Next
    ensures other != id ==> RequireAdmin(users[id := Promote(users[id])], other) == RequireAdmin(users, other)
  {
  }

  /** The admin check does not look at `isActive`: deactivating an admin keeps them an admin. */
  lemma StatusDoesNotAffectGate(users: map<UserId, User>, id: UserId, isActive: bool, other: UserId)
    requires id in users
    ensures RequireAdmin(users[id := users[id].(isActive := isActive)], other) == RequireAdmin(users, other)
  {
  }

  /** `makeUserAdmin`: 404 for a missing user; otherwise exactly `role` changes, to `'admin'`. */
  method MakeUserAdmin(db: Db, userId: UserId) returns (status: int)
    requires db.Valid()
    modifies db
    ensures db.Valid()
    ensures db.recipes == old(db.recipes) && db.reviews == old(db.reviews)
    ensures userId !in old(db.users) ==> status == NotFound && db.users == old(db.users)
    ensures userId in old(db.users) ==>
      status == Ok && db.users == old(db.users)[userId := Promote(old(db.users)[userId])]
  {
    if userId !in db.users {
      return NotFound;
    }
    var user := db.users[userId];
    user := user.(role := Some(AdminRole));
    ValidAfterUserWrite(db.users, db.recipes, db.reviews, userId, user);
    db.users := db.users[userId := user];
    return Ok;
  }

  // ---------------------------------------------------------------------------
  // Recipe and review management

  /** The reviews left after `Review.deleteMany({ recipe: recipeId })`. */
  function WithoutReviewsOf(reviews: map<ReviewId, Review>, recipeId: RecipeId): (r: map<ReviewId, Review>)
    ensures r.Keys == reviews.Keys - ReviewsOf(reviews, recipeId)
    ensures forall k :: k in r ==> r[k] == reviews[k] && r[k].recipe != recipeId
  {
    map k | k in reviews && reviews[k].recipe != recipeId :: reviews[k]
  }

  /** The cascade leaves every other recipe in sync. */
  lemma StoreInSyncAfterCascade(recipes: map<RecipeId, Recipe>, reviews: map<ReviewId, Review>, recipeId: RecipeId)
    requires StoreInSync(recipes, reviews)
    ensures StoreInSync(recipes - {recipeId}, WithoutReviewsOf(reviews, recipeId))
  {
    var reviews' := WithoutReviewsOf(reviews, recipeId);
    forall rid | rid in recipes - {recipeId} ensures SameRatingsFor(reviews, reviews', rid) {
      assert ReviewsOf(reviews', rid) == ReviewsOf(reviews, rid);
    }
    StoreInSyncAfter(recipes, reviews, recipes - {recipeId}, reviews', {});
  }

  /**
   * `deleteRecipe`: 404 with nothing deleted for a missing recipe; otherwise every review of
   * the recipe is deleted, then the recipe itself, and reviews of other recipes stay as they were.
   */
  method DeleteRecipe(db: Db, recipeId: RecipeId) returns (status: int)
    requires db.Valid()
    modifies db
    ensures db.Valid()
    ensures old(db.Synced()) ==> db.Synced()
    ensures db.users == old(db.users)
    ensures recipeId !in old(db.recipes) ==>
      status == NotFound && db.recipes == old(db.recipes) && db.reviews == old(db.reviews)
    ensures recipeId in old(db.recipes) ==>
      && status == Ok
      && db.recipes == old(db.recipes) - {recipeId}
      && db.reviews == WithoutReviewsOf(old(db.reviews), recipeId)
  {
    if recipeId !in db.recipes {
      return NotFound;
    }
    if db.Synced() {
      StoreInSyncAfterCascade(db.recipes, db.reviews, recipeId);
    }
    db.reviews := WithoutReviewsOf(db.reviews, recipeId);
    db.recipes := db.recipes - {recipeId};
    return Ok;
  }

  /** After the cascade no review references the recipe, and every review of another recipe is kept. */
  lemma CascadeRemovesExactlyTheRecipesReviews(reviews: map<ReviewId, Review>, recipeId: RecipeId)
    ensures ReviewsOf(WithoutReviewsOf(reviews, recipeId), recipeId) == {}
    ensures forall k :: k in reviews && reviews[k].recipe != recipeId ==>
      k in WithoutReviewsOf(reviews, recipeId) && WithoutReviewsOf(reviews, recipeId)[k] == reviews[k]
  {
  }

  /**
   * The outcome of `deleteReviewAdmin`, between the collections before and after: 404 with
   * no change for a missing review; otherwise the review is deleted and, when its recipe
   * exists, its id is pulled, `reviewCount` drops by one and the mean and count are
   * recomputed (200); a missing recipe leaves the recipes as they were (500).
   */
  ghost predicate AdminReviewDeleted(
    recipes: map<RecipeId, Recipe>, reviews: map<ReviewId, Review>,
    recipes': map<RecipeId, Recipe>, reviews': map<ReviewId, Review>,
    reviewId: ReviewId, status: int)
  {
    && (reviewId !in reviews ==> status == NotFound && reviews' == reviews && recipes' == recipes)
    && (reviewId in reviews ==>
          var rid := reviews[reviewId].recipe;
          && reviews' == reviews - {reviewId}
          && status == (if rid in recipes then Ok else ServerError)
          && (status == Ok ==>
                var before := recipes[rid];
                recipes' == recipes[rid := before.(
                  reviews := RemoveAll(before.reviews, reviewId),
                  reviewCount := before.reviewCount - 1,
                  averageRating := MeanRating(reviews', rid),
                  ratingCount := |ReviewsOf(reviews', rid)|)])
          && (status != Ok ==> recipes' == recipes))
  }

  /** `deleteReviewAdmin`: the author's delete with no authorship check, as `AdminReviewDeleted` states. */
  method DeleteReviewAdmin(db: Db, reviewId: ReviewId) returns (status: int)
    requires db.Valid()
    modifies db
    ensures db.Valid()
    ensures old(db.Synced()) ==> db.Synced()
    ensures db.users == old(db.users)
    ensures AdminReviewDeleted(old(db.recipes), old(db.reviews), db.recipes, db.reviews, reviewId, status)
  {
    if reviewId !in db.reviews {
      return NotFound;
    }
    status := RemoveReview(db, reviewId);
  }
}
