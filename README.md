# J's Recipe Box backend — a Dafny model

This project models the bookkeeping core of the recipe-box backend: its review, admin and
contact handlers, its three mongoose schemas (Review, Recipe, User), and the maintenance
script that replaces a recipe's picture.

The database is one object, `Database.Db`, holding three collections keyed by id:
`users`, `recipes` and `reviews`. Each handler is a module-level method that takes that
object, changes at most what its `modifies db` allows, and returns the HTTP status it
answers with. Two invariants are proved.

- `Db.Valid()` holds what the schema validators and unique indexes guarantee:
  - every stored review and recipe passes validation;
  - there is at most one review per (user, recipe);
  - there is at most one user per email.
- `Db.Synced()` holds that every recipe's denormalised review aggregates agree with the
  reviews actually stored. The aggregates are `reviews`, `reviewCount`, `ratingCount` and
  `averageRating`. This is the property the handlers exist to maintain:
  - the `reviews` list holds each review of the recipe exactly once;
  - the two counts count those reviews;
  - the average is the exact mean of their ratings, or 0 when there are none.

Every state-changing handler keeps `Valid()`, and keeps `Synced()` whenever it held
before. Each handler's postcondition gives the whole new state, status by status. The
admin router `HandleAdmin` states what each route does once the gate lets the request
through, through the predicate `RouteOutcome`.

Module structure:

- `Listing` holds the pagination shared by the listings: `.sort({ createdAt: -1 })`, then
  `.skip((page - 1) * limit).limit(limit)`, then `Math.ceil(total / limit)`.
- `Text` holds the `trim` and `lowercase` setters, JavaScript's whitespace class, and
  case-insensitive substring search.
- `ContactController` holds the pure logic of the contact form:
  - the required-field check and the email pattern, proved equal to a plain description of
    the accepted addresses;
  - the message summary and the subject and recipient defaults;
  - the classification of transport errors.

Modelling choices:

- Ratings are exact `real`s, and `averageRating` is an exact mean.
- Object ids are strings, because the handlers compare them through `toString()`.
- Some handler steps are not atomic. `addReview`, `updateReview` and both deletes write the
  review before they load the recipe. When that recipe is missing, the model keeps the
  review write and answers 500, as the `TypeError` on `null` does.
- A fresh review id is a parameter. A collision with a stored id answers 500, like a
  duplicate `_id`.
- Query-string values arrive already parsed:
  - `page` and `limit` are `Option<int>`, and `None` takes the defaults 1 and 10;
  - a negative skip is refused by the database, so the listing answers 500;
  - `limit(0)` means no limit, and the page count is then `null`.

Where the code and its documentation disagree, the model follows the code.
Review ratings are said to be integers from 1 to 5. The schema only states `min: 1` and
`max: 5`, so fractional ratings are accepted, and the model accepts them too.

## Model

| member | source | states |
|---|---|---|
| Listing.TotalPages | src/controllers/reviewController.js:72 | `Math.ceil(total / limit)`: with a positive limit, the smallest number of pages that holds every record; for a negative limit, the ceiling of the negative quotient; no count (`Infinity`/`NaN`, sent as null) exactly when the limit is 0 |
| Listing.Paginate | src/controllers/reviewController.js:63-64 | refused exactly when the skip `(page-1)*limit` is negative; otherwise the records from the skip on, at most `|limit|` of them (all of them for limit 0), in order |
| Listing.ItemOnItsPage | src/controllers/reviewController.js:63-64 | with a positive limit, record `i` appears on page `i / limit + 1` at position `i % limit` |
| Listing.NonEmptyPages | src/controllers/reviewController.js:63-72 | for page ≥ 1 and limit > 0, a page is non-empty exactly when its number is at most `totalPages` |
| Listing.InsertPos | src/controllers/reviewController.js:62 | an insertion point that comes after every record at least as new and before the first older one |
| Listing.InsertedAt | src/controllers/reviewController.js:62 | the elements of a list after one insertion, position by position |
| Listing.InsertKeepsOrder | src/controllers/reviewController.js:62 | inserting at `InsertPos` keeps a list ordered newest first |
| Listing.InsertKeepsNoDup | src/controllers/reviewController.js:62 | inserting a new key keeps a list free of duplicates |
| Listing.SortNewestFirst | src/controllers/reviewController.js:58-62 | the result lists exactly the given records, each once, newest first |
| Listing.ListNewestFirst | src/controllers/reviewController.js:60-72 | the answer is one page of some newest-first ordering of the records, and its total is their number; there is a page exactly when the skip is not negative |
| Text.ToLower | src/models/User.js:13 | the `lowercase` setter changes each character to its lower-case form and keeps the length |
| Text.TrimStart | src/models/User.js:14 | removes exactly the leading whitespace: the result is a suffix that does not start with whitespace, and everything removed is whitespace |
| Text.TrimEnd | src/models/User.js:14 | removes exactly the trailing whitespace, symmetrically |
| Text.Trim | src/models/User.js:14 | the `trim` setter yields a contiguous piece of the input with only whitespace around it, and neither end of the piece is whitespace |
| Text.TrimPieces | src/models/User.js:14 | the trimmed piece sits in the input at the offset given by the leading whitespace, with only whitespace after it |
| Text.TrimOfTrimmed | src/models/User.js:7 | a string that already has no whitespace at either end is unchanged by `trim` |
| Text.TrimIdempotent | src/models/User.js:7 | trimming twice gives the same value as trimming once |
| Text.TrimKeepsLower | src/models/User.js:13-14 | trimming a string with no upper-case letters leaves none |
| Text.LowerOfLower | src/models/User.js:13 | a string with no upper-case letters is unchanged by lower-casing |
| Text.ToLowerIdempotent | src/models/User.js:13 | lower-casing twice gives the same value as lower-casing once |
| Text.ContainsItself | src/controllers/adminController.js:143-144 | a string contains itself, ignoring case; `AdminController.SearchForOwnNameOrEmail` uses it |
| Seqs.RemoveAll | src/controllers/reviewController.js:143 | `pull` leaves exactly the members other than the id, and never lengthens the list |
| Seqs.RemoveAbsent | src/controllers/reviewController.js:143 | pulling an absent id changes nothing |
| Seqs.RemoveAppend | src/controllers/reviewController.js:182 | pulling distributes over concatenation |
| Seqs.RemoveFromNoDup | src/controllers/reviewController.js:143-144 | on a duplicate-free list, `pull` keeps it duplicate-free and shortens it by exactly one when the id was present, which is what makes `reviewCount -= 1` right |
| Seqs.NoDupCard | src/controllers/reviewController.js:66 | a duplicate-free list has as many elements as it has distinct members |
| ReviewModel.NewReview | src/models/Review.js:3-33 | definition: `Review.create` with the schema defaults; its properties are in `ReviewModel.NewReviewDefaults` |
| ReviewModel.NewReviewDefaults | src/models/Review.js:3-33 | a new review starts with `helpful == 0`, no voters and the given user and recipe, and it passes validation when the rating is in [1, 5] and the comment has 1 to 1000 characters |
| ReviewModel.ToggleHelpful | src/controllers/reviewController.js:178-188 | a voter already in `helpfulBy` is removed and `helpful` drops by 1; otherwise the voter is appended and `helpful` rises by 1; no other voter's membership and no other field changes |
| ReviewModel.ToggleTwice | src/controllers/reviewController.js:178-188 | two toggles by the same voter restore `helpful` and the set of voters |
| ReviewModel.ToggleTwiceUnmarked | src/controllers/reviewController.js:184-188 | starting unmarked, two toggles restore the review exactly |
| ReviewModel.ToggleKeepsBalance | src/controllers/reviewController.js:178-188 | with no duplicate voters, `helpful - |helpfulBy|` is preserved and `helpfulBy` stays duplicate-free |
| RecipeModel.NewRecipe | src/models/Recipe.js:4-33 | definition: a recipe created from its content with the schema defaults; its properties are in `RecipeModel.NewRecipeDefaults` |
| RecipeModel.NewRecipeDefaults | src/models/Recipe.js:4-33 | a new recipe has likes, views, `averageRating`, `ratingCount` and `reviewCount` at 0 and empty lists; it is valid exactly when the required strings, each ingredient and each instruction are non-empty |
| RecipeModel.AggregatesKeepValid | src/models/Recipe.js:21-33 | validation does not depend on the four review aggregates |
| RecipeModel.RatingOf | src/models/Recipe.js:37-39 | the `rating` virtual `averageRating \|\| 0` always equals `averageRating` |
| RecipeModel.ToJson | src/models/Recipe.js:42-48 | the JSON form replaces the `reviews` id list by `reviewCount`, adds `rating`, and carries every other field over unchanged |
| UserModel.NormalizeEmail | src/models/User.js:9-15 | a stored email has no upper-case letters and no whitespace at either end |
| UserModel.NormalizeEmailIdempotent | src/models/User.js:13-14 | normalising an already normalised email changes nothing |
| UserModel.NewUser | src/models/User.js:3-57 | definition: a user created through the schema, with its setters and defaults; its properties are in `UserModel.NewUserDefaults` |
| UserModel.NewUserDefaults | src/models/User.js:3-57 | a new user has role `'user'`, is active, and has an empty bio and location, no avatar and empty social links; these hold for every input; the user is valid whenever the name, email and password are non-empty after the setters |
| Aggregates.ReviewsOf | src/controllers/reviewController.js:34 | definition: the reviews `Review.find({ recipe })` returns; its properties are in `Aggregates.InsertElsewhere`, `Aggregates.RemoveElsewhere`, `Aggregates.RemoveFromReviewsOf` and `Aggregates.RewriteKeepsMembership` |
| Aggregates.MeanRating | src/controllers/reviewController.js:34-36 | definition: the sum of those reviews' ratings over their number, 0 when there are none; its properties are in `Aggregates.MeanRatingBounds`, `Aggregates.TallyRatings` and `Aggregates.InSyncAverageTimesCount` |
| Aggregates.RatingSumRemove | src/controllers/reviewController.js:35 | any review can be taken out of the rating sum first, so the order of `reduce` does not matter |
| Aggregates.RatingSumFrame | src/controllers/reviewController.js:35 | the sum depends only on the ratings of the reviews it adds up |
| Aggregates.RatingSumBounds | src/models/Review.js:14-19 | with every rating in [1, 5], the sum of n ratings lies between n and 5n |
| Aggregates.MeanRatingBounds | src/controllers/reviewController.js:34-36 | the mean rating of a recipe with at least one valid review lies in [1, 5] |
| Aggregates.TallyRatings | src/controllers/reviewController.js:34-37 | the loop computes the sum of the ratings of all reviews of the recipe and their number; their quotient is the mean, and the mean is 0 when there are none |
| Aggregates.InSyncAverageTimesCount | src/controllers/reviewController.js:36-37 | for a recipe in sync, `averageRating * ratingCount` is the sum of its reviews' ratings, and the average is 0 when the count is 0 |
| Aggregates.InSyncJsonReviews | src/models/Recipe.js:46 | for a recipe in sync, the `reviews` number in its JSON is the number of its stored reviews |
| Aggregates.NewRecipeInSync | src/models/Recipe.js:21-33 | a recipe with default aggregates is in sync exactly when no review of it is stored |
| Aggregates.InSyncFrame | src/controllers/reviewController.js:34 | whether a recipe is in sync depends only on its own reviews and their ratings |
| Aggregates.StoreInSyncAfter | src/controllers/reviewController.js:26-39 | the store stays in sync when untouched recipes keep their reviews and each touched recipe is in sync afterwards |
| Aggregates.StoreInSyncAfterOne | src/controllers/reviewController.js:26-39 | the store stays in sync when one recipe is replaced by one in sync with the new reviews and no other recipe's reviews change |
| Aggregates.InsertElsewhere | src/controllers/reviewController.js:26 | storing a review of another recipe leaves a recipe's reviews unchanged |
| Aggregates.RemoveElsewhere | src/controllers/reviewController.js:139 | deleting a review of another recipe leaves a recipe's reviews unchanged |
| Aggregates.RewriteKeepsMembership | src/controllers/reviewController.js:97-99 | rewriting a review in place keeps every recipe's set of reviews |
| Aggregates.InSyncAfterAdd | src/controllers/reviewController.js:29-37 | after a review is stored: pushing its id, adding 1 to the count and recomputing the mean and count puts the recipe back in sync |
| Aggregates.PullFromListOf | src/controllers/reviewController.js:143 | pulling a member from a duplicate-free list of a set gives a duplicate-free list of the set without it, one shorter |
| Aggregates.RemoveFromReviewsOf | src/controllers/reviewController.js:139-147 | deleting a review of a recipe removes exactly that id from the recipe's reviews |
| Aggregates.InSyncAfterRemove | src/controllers/reviewController.js:142-155 | after a review is deleted: pulling its id, subtracting 1 from the count and recomputing the mean and count puts the recipe back in sync |
| Aggregates.InSyncAfterRewrite | src/controllers/reviewController.js:102-106 | after a rating change, recomputing only the mean puts the recipe back in sync, because `ratingCount` needs no update |
| Aggregates.StoreInSyncAfterOrphanInsert | src/controllers/reviewController.js:26-30 | storing a review whose recipe does not exist leaves the store in sync |
| Aggregates.StoreInSyncAfterAdd | src/controllers/reviewController.js:26-39 | `addReview`'s two writes together keep the whole store in sync |
| Aggregates.StoreInSyncAfterOrphanRewrite | src/controllers/reviewController.js:97-102 | rewriting a review whose recipe does not exist leaves the store in sync |
| Aggregates.StoreInSyncAfterUnratedRewrite | src/controllers/reviewController.js:182-190 | rewriting a review without changing its rating or recipe, as the helpful toggle does, leaves the store in sync |
| Aggregates.StoreInSyncAfterRewrite | src/controllers/reviewController.js:97-106 | `updateReview`'s two writes together keep the whole store in sync |
| Aggregates.StoreInSyncAfterOrphanRemove | src/controllers/reviewController.js:139-143 | deleting a review whose recipe does not exist leaves the store in sync |
| Aggregates.StoreInSyncAfterRemove | src/controllers/reviewController.js:136-157 | a delete handler's two writes together keep the whole store in sync |
| Aggregates.StoreInSyncAfterContentWrite | scripts/update-recipe-image.js:26-35 | rewriting a recipe's content without changing its aggregates keeps the store in sync |
| Database.ValidAfterInsert | src/models/Review.js:36 | storing a valid review under a fresh id, for a (user, recipe) pair with no review yet, keeps the store valid |
| Database.ValidAfterRemove | src/controllers/reviewController.js:139 | deleting a review keeps the store valid |
| Database.ValidAfterRewrite | src/controllers/reviewController.js:97-99 | rewriting a review with a valid one for the same user and recipe keeps the store valid |
| Database.ValidAfterRecipeWrite | src/controllers/reviewController.js:39 | saving a recipe that passes validation keeps the store valid |
| Database.ValidAfterUserWrite | src/controllers/adminController.js:280-281 | saving a user with the same email keeps the store valid |
| ReviewController.AddReview | src/controllers/reviewController.js:13-39 | 400 and nothing written when the user already reviewed the recipe; 500 with nothing written for invalid input or a taken id; 500 after the review write when the recipe is missing; otherwise 201, with the new review stored as created, its id appended to the recipe's list, `reviewCount + 1`, the exact mean and count of all the recipe's reviews, `ratingCount ≥ 1` and the average in [1, 5]; users unchanged; validity and sync kept |
| ReviewController.GetRecipeReviews | src/controllers/reviewController.js:58-72 | one page of the recipe's reviews newest first; the total is their number |
| ReviewController.UpdateReview | src/controllers/reviewController.js:87-106 | 404 when missing and 403 for a non-author, both with no change; 500 with no change for invalid input; otherwise exactly that review's rating and comment change; 200 then sets only the recipe's `averageRating`, to the new mean; 500 when the recipe is missing |
| ReviewController.RemoveReview | src/controllers/reviewController.js:136-157 | the review is deleted; when its recipe exists, its id is pulled, `reviewCount - 1`, and the mean and count are recomputed, both 0 when no review remains; 500 and no recipe change otherwise |
| ReviewController.DeleteReview | src/controllers/reviewController.js:126-157 | 404 when missing and 403 for a non-author, both with no change; otherwise the effect of `RemoveReview` |
| ReviewController.MarkHelpful | src/controllers/reviewController.js:172-196 | 404 with no change when missing; otherwise 200, the review is replaced by its toggle, `helpful` is the new count, and `isMarkedHelpful` is the negation of the prior membership; nothing else changes |
| ReviewController.GetUserReviews | src/controllers/reviewController.js:207-221 | one page of the user's reviews newest first; the total is their number |
| AdminController.RequireAdmin | src/controllers/adminController.js:6-12 | passes exactly when the user exists and has role `'admin'`; otherwise 403 |
| AdminController.BuildUserQuery | src/controllers/adminController.js:139-160 | `role=user` yields the role-or-unset clause and no role condition; any other non-empty role is a role condition; the search clause is present exactly when the search is non-empty and the role is not `'user'` |
| AdminController.RoleUserFilter | src/controllers/adminController.js:148-156 | `role=user` matches a user exactly when its role is `'user'`, absent, null or `''`, whatever the search |
| AdminController.OtherRoleFilter | src/controllers/adminController.js:141-159 | any other role matches exactly the users with that role whose name or email contains the search |
| AdminController.NoRoleFilter | src/controllers/adminController.js:141-146 | with no role, a user matches exactly when the search hits its name or email |
| AdminController.SearchIgnoredForRoleUser | src/controllers/adminController.js:141-159 | with `role=user`, the search changes nothing in the selection |
| AdminController.WithStats | src/controllers/adminController.js:171-181 | each listed user gets its recipe and review counts; the page, its order, the total and the page count are kept |
| AdminController.UserMatches | src/controllers/adminController.js:139-160 | definition: whether a user satisfies the users query built by `AdminController.BuildUserQuery`; its properties are in `AdminController.RoleUserFilter`, `AdminController.OtherRoleFilter` and `AdminController.NoRoleFilter` |
| AdminController.MatchingUsers | src/controllers/adminController.js:162-168 | definition: the ids `User.find(query)` and `User.countDocuments(query)` select; its properties are in `AdminController.SearchIgnoredForRoleUser` and `AdminController.SearchForOwnNameOrEmail` |
| AdminController.RegexLiteral | src/controllers/adminController.js:141-145 | definition: a search term with none of the characters `\ ^ $ \| ? * + ( ) [ ] {`, which `$regex` reads as the literal text; used by `AdminController.SearchForOwnNameOrEmail` |
| AdminController.SearchForOwnNameOrEmail | src/controllers/adminController.js:141-159 | searching for a user's own email, or own full name, that `RegexLiteral` accepts lists that user, with no role filter or with the user's own role other than `'user'` |
| AdminController.GetUsers | src/controllers/adminController.js:137-188 | one page of the users the query selects, newest first, with their counts; the total is the number selected; 500 exactly when the skip is negative |
| AdminController.RecipeMatches | src/controllers/adminController.js:200-211 | definition: the title or description contains the search, ignoring case, and the category is the one asked for; its property is in `AdminController.UnfilteredRecipes` |
| AdminController.MatchingRecipes | src/controllers/adminController.js:213-219 | definition: the ids `Recipe.find(query)` and `Recipe.countDocuments(query)` select |
| AdminController.GetRecipes | src/controllers/adminController.js:198-226 | one page of the recipes matching the search and category, newest first; the total is their number; 500 exactly when the skip is negative |
| AdminController.UnfilteredRecipes | src/controllers/adminController.js:200-211 | with no search and no category, every recipe matches |
| AdminController.ParseInt | src/controllers/adminController.js:245 | definition: `parseInt` with no radix (leading whitespace, one sign, `0x`, the longest digit run, `NaN` as `None`); its properties are in `AdminController.ParseIntOfDecimal`, `AdminController.DecimalRatingFilterCasts` and `AdminController.WordRatingFilterRefused` |
| AdminController.DigitRun | src/controllers/adminController.js:245 | `parseInt` reads the longest prefix that consists of digits |
| AdminController.Decimal | src/controllers/adminController.js:245 | a decimal numeral: digits only, with no leading zero |
| AdminController.DecimalValue | src/controllers/adminController.js:245 | the digits of the numeral of n, read in base 10, are worth n |
| AdminController.DigitRunOfDigits | src/controllers/adminController.js:245 | when every character is a digit, the run is the whole string |
| AdminController.ReadAllDigits | src/controllers/adminController.js:245 | a non-empty string of digits is read whole, as the number its digits spell |
| AdminController.ReadDecimal | src/controllers/adminController.js:245 | reading the numeral of n gives n |
| AdminController.ParseIntOfDecimal | src/controllers/adminController.js:245 | `parseInt` of the numeral of n is n |
| AdminController.ReviewMatches | src/controllers/adminController.js:238-246 | definition: the comment contains the search, ignoring case, and the rating equals `parseInt(rating)` when a filter is given; its properties are in `AdminController.DecimalRatingFilter` |
| AdminController.MatchingReviews | src/controllers/adminController.js:248-255 | definition: the ids `Review.find(query)` and `Review.countDocuments(query)` select |
| AdminController.RatingFilterCasts | src/controllers/adminController.js:244-246 | definition: the query survives mongoose's Number cast exactly when there is no rating filter or `parseInt` reads a number; `{ rating: NaN }` makes `find` throw |
| AdminController.DecimalRatingFilterCasts | src/controllers/adminController.js:244-246 | every decimal numeral is a rating filter that survives the cast |
| AdminController.WordRatingFilterRefused | src/controllers/adminController.js:244-246 | a rating filter that starts with a letter, such as `abc`, is `NaN`, so the cast refuses it |
| AdminController.DecimalRatingFilter | src/controllers/adminController.js:240-246 | `rating=n` matches exactly the reviews rated n whose comment contains the search |
| AdminController.GetReviews | src/controllers/adminController.js:236-265 | 500 (no page) when the rating filter fails its cast; otherwise one page of the reviews matching the comment search and rating, newest first, with their number as the total; a page exists exactly when the cast succeeds and the skip is not negative |
| AdminController.UpdateUserStatus | src/controllers/adminController.js:272-284 | 404 with no change for a missing user; otherwise 200 with the activated/deactivated message, and exactly `isActive` changes |
| AdminController.Promote | src/controllers/adminController.js:371 | promotion sets the role to `'admin'` and changes nothing else |
| AdminController.PromoteIdempotent | src/controllers/adminController.js:366-372 | promoting twice gives the same result as promoting once |
| AdminController.PromotedPassesGate | src/controllers/adminController.js:371 | a promoted user passes the admin gate; no other user's gate result changes |
| AdminController.StatusDoesNotAffectGate | src/controllers/adminController.js:9 | deactivating or activating a user does not change any gate result |
| AdminController.MakeUserAdmin | src/controllers/adminController.js:366-372 | 404 with no change for a missing user; otherwise 200 and the user is replaced by its promotion |
| AdminController.WithoutReviewsOf | src/controllers/adminController.js:309 | `deleteMany({ recipe })` keeps exactly the reviews of other recipes, unchanged |
| AdminController.StoreInSyncAfterCascade | src/controllers/adminController.js:309-312 | deleting a recipe together with its reviews keeps the store in sync |
| AdminController.DeleteRecipe | src/controllers/adminController.js:303-314 | 404 with nothing deleted for a missing recipe; otherwise 200, the recipe is gone and so are exactly its reviews |
| AdminController.CascadeRemovesExactlyTheRecipesReviews | src/controllers/adminController.js:309 | afterwards no review of the recipe remains, and every review of another recipe is still there unchanged |
| AdminController.AdminReviewDeleted | src/controllers/adminController.js:326-354 | definition of the admin delete's outcome: 404 with no change for a missing review; otherwise the review is gone, and with its recipe present the id is pulled, `reviewCount - 1` and the mean and count are recomputed (200), or the recipes stay as they were (500) |
| AdminController.DeleteReviewAdmin | src/controllers/adminController.js:326-354 | the outcome `AdminReviewDeleted` states, with no authorship check; users unchanged; validity and sync kept |
| AdminRoutes.AdminGate | src/routes/admin.js:18-19 | a request reaches a handler exactly when it is authenticated and its user is an admin; a rejected token keeps its own status; an authenticated non-admin gets 403 |
| AdminRoutes.Backfill | src/routes/admin.js:54-63 | definition: `$set: { role: 'user' }` on a user the filter selects, no change otherwise; its properties are in `AdminRoutes.BackfillTargets` and `AdminRoutes.BackfillLeavesOthers` |
| AdminRoutes.Backfilled | src/routes/admin.js:54-63 | definition: the collection after `updateMany`; its properties are in `AdminRoutes.BackfillIdempotent`, `AdminRoutes.BackfillKeepsGate` and `AdminRoutes.BackfillRoleUserListing` |
| AdminRoutes.PartlyBackfilledStep | src/routes/admin.js:54-63 | updating one more pending user advances the partial backfill by one |
| AdminRoutes.PartlyBackfilledSkip | src/routes/admin.js:54-63 | visiting a pending user that already has a role leaves the partial backfill as it is |
| AdminRoutes.PartlyBackfilledEnds | src/routes/admin.js:54-63 | before any update the partial backfill is the original collection; when none are pending it is the full backfill |
| AdminRoutes.VisitedCountStep | src/routes/admin.js:54-63 | visiting one more user raises the count of visited role-less users by one exactly when that user lacks a role |
| AdminRoutes.UpdateRoles | src/routes/admin.js:54-63 | the loop yields exactly the backfilled collection, and `modifiedCount` is the number of users without a role |
| AdminRoutes.FixUserRoles | src/routes/admin.js:43-68 | `usersFound` is the number of users with an absent, null or empty role; the users become their backfill; `usersUpdated` equals `usersFound`; recipes and reviews are unchanged; validity is kept |
| AdminRoutes.ValidAfterBackfill | src/routes/admin.js:54-63 | the backfill changes no email, so the store stays valid |
| AdminRoutes.BackfillTargets | src/routes/admin.js:54-63 | every selected user gets role `'user'`, and nothing else about it changes |
| AdminRoutes.BackfillLeavesOthers | src/routes/admin.js:43-63 | a user with any other role is unchanged |
| AdminRoutes.BackfillIdempotent | src/routes/admin.js:43-63 | after a run no user lacks a role, so a second run finds 0, updates 0 and changes nothing |
| AdminRoutes.BackfillKeepsGate | src/routes/admin.js:54-63 | the backfill grants no admin rights and revokes none |
| AdminRoutes.BackfillRoleUserListing | src/routes/admin.js:54-63 | after the backfill, `role=user` lists exactly the users whose role is `'user'` |
| AdminRoutes.RouteOutcome | src/routes/admin.js:25-74 | definition of each route's outcome past the gate, from its handler: the listings change nothing and answer 200 unless the skip is negative or, for reviews, the rating filter fails its cast (500); user status and promotion as `AdminController.UpdateUserStatus` and `AdminController.MakeUserAdmin`; recipe deletion as `AdminController.DeleteRecipe`; review deletion as `AdminController.AdminReviewDeleted`; `/fix-user-roles` answers 200 with the users backfilled |
| AdminRoutes.HandleAdmin | src/routes/admin.js:17-74 | a request the gate denies gets the gate's status and changes nothing; an admitted request has the outcome `RouteOutcome` gives for its route; every route keeps validity and sync |
| ContactController.StringOr | src/controllers/contactController.js:59 | `s \|\| fallback` for a string field: the field when it is present and non-empty, otherwise the fallback |
| ContactController.EmailPatternMatches | src/controllers/contactController.js:45 | definition: `/^[^\s@]+@[^\s@]+\.[^\s@]+$/` as three non-empty runs of characters that are neither whitespace nor `@`, separated by `@` and `.`; its properties are in `ContactController.EmailPatternIff` |
| ContactController.MatchHasShape | src/controllers/contactController.js:45 | in a match, every character other than the `@` is neither whitespace nor `@` |
| ContactController.PatternHasShape | src/controllers/contactController.js:45 | every string the pattern accepts has exactly one `@`, not in first position, no whitespace, and a `.` in the domain with a character on each side |
| ContactController.ShapeMatchesPattern | src/controllers/contactController.js:45 | every string of that shape is accepted |
| ContactController.EmailPatternIff | src/controllers/contactController.js:45-51 | the pattern accepts exactly the strings of that shape |
| ContactController.Summary | src/controllers/contactController.js:112 | a message of at most 100 characters is quoted verbatim; a longer one as its first 100 characters followed by `...` |
| ContactController.SummaryShape | src/controllers/contactController.js:112 | the summary has at most 103 characters, starts with the message's opening, and is longer than 100 characters exactly when the message is |
| ContactController.Recipient | src/controllers/contactController.js:58 | the notification goes to `ADMIN_EMAIL` when it is set, otherwise to `EMAIL_USER` |
| ContactController.AdminMail | src/controllers/contactController.js:56-87 | definition: the notification to the site owner; its properties are in `ContactController.SubjectDefaults` and `ContactController.MailOnlyForValidForms` |
| ContactController.AutoReply | src/controllers/contactController.js:90-134 | definition: the reply to the sender; its properties are in `ContactController.SubjectDefaults` and `ContactController.MailOnlyForValidForms` |
| ContactController.SubjectDefaults | src/controllers/contactController.js:56-112 | with no subject, the admin subject line says `New Message`, the admin body says `No subject provided` and the auto-reply says `General Inquiry`; with a subject, both bodies show it |
| ContactController.CatchResponse | src/controllers/contactController.js:147-170 | success exactly for `ETIMEDOUT` and `ECONNECTION`, which answer 200; every other error, including one with no code, answers 500 |
| ContactController.SendContactEmail | src/controllers/contactController.js:32-171 | missing name, email or message gives 400 with the required-fields message; an address the pattern refuses gives 400; missing credentials give 500; in those cases no mail is prepared; otherwise both mails are prepared, and the answer is 200 on delivery or the classified error |
| ContactController.SuccessMeansOk | src/controllers/contactController.js:37-170 | `success` is true exactly when the status is 200, and every answer is 200, 400 or 500 |
| ContactController.RequiredCheckedFirst | src/controllers/contactController.js:37-51 | a missing required field is reported as such whatever the email looks like |
| ContactController.MailOnlyForValidForms | src/controllers/contactController.js:37-140 | mail is prepared only for a complete form, a well-shaped address and set credentials: one notification to the owner's address and one reply to the sender quoting the summary |
| ContactController.OtherErrorsFail | src/controllers/contactController.js:147-170 | a delivery failure other than a timeout or connection error answers 500 with `success: false` |
| ContactController.DistinctHeads | src/controllers/contactController.js:185-192 | strings with pairwise different first characters are pairwise different |
| ContactController.GetContactInfo | src/controllers/contactController.js:177-198 | the six subject values are general, recipe, account, business, feedback and other, in that order, and they are distinct |
| UpdateRecipeImage.WithImage | scripts/update-recipe-image.js:26-33 | `image` becomes the url; a non-empty `images` keeps its length and gets the url in first place with the rest unchanged; an empty one becomes `[url]`; afterwards `image == images[0]`; nothing else changes |
| UpdateRecipeImage.WithImageIdempotent | scripts/update-recipe-image.js:26-33 | running the update twice gives the same result as once |
| UpdateRecipeImage.WithImageValid | scripts/update-recipe-image.js:26-35 | the save succeeds on a valid recipe exactly when the url is non-empty |
| UpdateRecipeImage.UpdateImage | scripts/update-recipe-image.js:18-40 | exit code 0 exactly when the recipe exists and the url is non-empty, which is when the save validates; the recipe is then replaced by `WithImage`; otherwise exit code 1 with nothing written; users and reviews unchanged; validity and sync kept |
| UpdateRecipeImage.RunScript | scripts/update-recipe-image.js:7-49 | with the fixed id and path, the script succeeds exactly when that recipe exists, and then its image is the new path |

## Left out

- The database driver: the connection, `populate` joins, `select('-password')` projections,
  driver errors, and the two separate writes of `deleteRecipe`. Each handler is one atomic
  step on the three maps. A failure between the two `deleteRecipe` writes is not modelled.
- Concurrency: the read-then-write races between simultaneous review writes. Each handler
  runs alone.
- Custom `sort` strings in `getRecipeReviews`: only the default `-createdAt` order is
  modelled. Records created at the same instant may come in any order.
- Pagination values that are not integers: `page` and `limit` are whole numbers here. A
  fractional or non-numeric query value, and `currentPage` echoed as a string, are not
  modelled.
- `getDashboardStats`: date arithmetic, locale formatting and aggregation pipelines.
- `$regex` search terms are treated as literal text, matched case-insensitively by
  substring. Regular-expression metacharacters and Unicode case folding are not modelled;
  lower-casing covers ASCII letters only. So a term such as `a+b@x.com` or `Anne (Annie)`
  matches itself in the model, but not under `$regex`, and an unbalanced `(` or `[` makes
  `find` throw and the handler answer 500.
- AdminController.SearchForOwnNameOrEmail: stated only for terms that `RegexLiteral`
  accepts, because other terms are read as patterns by `$regex`.
- Strings are sequences of characters, not of UTF-16 code units. `substring(0, 100)` and
  `.length` on astral characters differ.
- `parseInt` is modelled for decimal and `0x` input with arbitrary precision. The loss of
  precision on very long numerals is not modelled.
- Mail: creating the transport and sending are inputs, not modelled. A `SendOutcome` stands
  for what sending came to. The HTML templates are reduced to the fields they show.
  `dotenv`, environment reads (taken as a `MailEnv` parameter), `console` logging and
  `process.exit` (an exit code is returned instead) are not modelled.
- Request bodies whose fields have the wrong JSON type. A review's `rating` is absent or a
  number (`Option<real>`); every other text field is absent or a string; `isActive` is a
  boolean as sent.
- `RequireAdmin`: the 500 answer of its `catch` block is not modelled, because the lookup
  cannot fail here.
- `authenticateToken` lives in src/middleware/auth.js, which is not part of this model. Its
  outcome is an input, `Auth`.
- Re-validation of users on save: the model does not require stored users to pass
  validation, because legacy records without a role exist. `updateUserStatus` and
  `makeUserAdmin` therefore always succeed on an existing user.
- The users' embedded `ratings` and the recipes' `ratings`, `likes` and `views` are data
  only. No handler in the core updates them, and deleting a review does not touch them.
- `ReviewController.RemoveReview` requires the review to exist. It is the shared tail of
  both delete handlers, and both check for the review first.
- `Aggregates.InSyncAfterRewrite`: `updateReview` does not touch `ratingCount`. This is
  harmless only because a rewrite cannot change the number of a recipe's reviews; the lemma
  states that.
