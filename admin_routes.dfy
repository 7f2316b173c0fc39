/**
 * The admin router: every route first passes `authenticateToken`, then `requireAdmin`,
 * and only then reaches its handler. It also holds the `/fix-user-roles` backfill.
 */
module AdminRoutes {
  import opened Wrappers
  import opened Ids
  import opened Listing
  import opened RecipeModel
  import opened ReviewModel
  import opened UserModel
  import opened Database
  import opened AdminController

  /**
   * The outcome of `authenticateToken`, whose source is not part of this model: the
   * id of the authenticated user, or the status it answered the request with.
   */
  datatype Auth = Authenticated(userId: UserId) | Rejected(status: int)

  /** `router.use(authenticateToken); router.use(requireAdmin)`. */
  function AdminGate(auth: Auth, users: map<UserId, User>): (g: GateResult)
    ensures g.Next? <==> auth.Authenticated? && RequireAdmin(users, auth.userId).Next?
    ensures auth.Rejected? ==> g == Deny(auth.status)
    ensures auth.Authenticated? && g.Deny? ==> g.status == Forbidden
  {
    match auth
    case Rejected(status) => Deny(status)
    case Authenticated(id) => RequireAdmin(users, id)
  }

  // ---------------------------------------------------------------------------
  // /fix-user-roles

  /** The users the backfill's filter `{ $or: [absent, null, ''] }` selects. */
  function UsersWithoutRole(users: map<UserId, User>): set<UserId> {
    set k | k in users && LacksRole(users[k])
  }

  /** One user after `$set: { role: 'user' }` if the filter selects it. */
  function Backfill(u: User): User {
    if LacksRole(u) then u.(role := Some(UserRole)) else u
  }

  /** The user collection after `updateMany(filter, { $set: { role: 'user' } })`. */
  function Backfilled(users: map<UserId, User>): map<UserId, User> {
    map k | k in users :: Backfill(users[k])
  }

  /** The collection part way through the update: the users in `pending` are not yet visited. */
  function PartlyBackfilled(users: map<UserId, User>, pending: set<UserId>): map<UserId, User> {
    map k | k in users :: if k in pending then users[k] else Backfill(users[k])
  }

  lemma PartlyBackfilledStep(users: map<UserId, User>, pending: set<UserId>, k: UserId)
    requires k in pending && k in users
    ensures PartlyBackfilled(users, pending)[k := Backfill(users[k])] == PartlyBackfilled(users, pending - {k})
  {
  }

  lemma PartlyBackfilledSkip(users: map<UserId, User>, pending: set<UserId>, k: UserId)
    requires k in pending && k in users && !LacksRole(users[k])
    ensures PartlyBackfilled(users, pending) == PartlyBackfilled(users, pending - {k})
  {
  }

  lemma PartlyBackfilledEnds(users: map<UserId, User>)
    ensures PartlyBackfilled(users, users.Keys) == users
    ensures PartlyBackfilled(users, {}) == Backfilled(users)
  {
  }

  lemma VisitedCountStep(users: map<UserId, User>, pending: set<UserId>, k: UserId)
    requires k in pending && k in users
    ensures |UsersWithoutRole(users) - (pending - {k})|
         == |UsersWithoutRole(users) - pending| + (if LacksRole(users[k]) then 1 else 0)
  {
    if LacksRole(users[k]) {
      assert UsersWithoutRole(users) - (pending - {k}) == (UsersWithoutRole(users) - pending) + {k};
    } else {
      assert UsersWithoutRole(users) - (pending - {k}) == UsersWithoutRole(users) - pending;
    }
  }

  /**
   * `updateMany(filter, { $set: { role: 'user' } })` carried out one record at a time:
   * every selected user gets role `'user'`, and `modifiedCount` counts them.
   */
  method UpdateRoles(before: map<UserId, User>) returns (users: map<UserId, User>, modifiedCount: nat)
    ensures users == Backfilled(before)
    ensures modifiedCount == |UsersWithoutRole(before)|
  {
    PartlyBackfilledEnds(before);
    users := before;
    var pending := before.Keys;
    modifiedCount := 0;
    while pending != {}
      invariant pending <= before.Keys
      invariant users == PartlyBackfilled(before, pending)
      invariant modifiedCount == |UsersWithoutRole(before) - pending|
      decreases |pending|
    {
      var k :| k in pending;
      VisitedCountStep(before, pending, k);
      if LacksRole(users[k]) {
        PartlyBackfilledStep(before, pending, k);
        users := users[k := users[k].(role := Some(UserRole))];
        modifiedCount := modifiedCount + 1;
      } else {
        PartlyBackfilledSkip(before, pending, k);
      }
      pending := pending - {k};
    }
    assert UsersWithoutRole(before) - pending == UsersWithoutRole(before);
  }

  /**
   * The backfill handler: the number of users the filter finds, then the update, which
   * modifies every one of them.
   */
  method FixUserRoles(db: Db) returns (usersFound: nat, usersUpdated: nat)
    requires db.Valid()
    modifies db
    ensures db.Valid()
    ensures db.recipes == old(db.recipes) && db.reviews == old(db.reviews)
    ensures db.users == Backfilled(old(db.users))
    ensures usersFound == |UsersWithoutRole(old(db.users))|
    ensures usersUpdated == usersFound
  {
    usersFound := |UsersWithoutRole(db.users)|;
    ValidAfterBackfill(db.users, db.recipes, db.reviews);
    var users;
    users, usersUpdated := UpdateRoles(db.users);
    db.users := users;
  }

  /** The backfill changes no email, so the store stays valid. */
  lemma ValidAfterBackfill(users: map<UserId, User>, recipes: map<RecipeId, Recipe>, reviews: map<ReviewId, Review>)
    requires ValidStore(users, recipes, reviews)
    ensures ValidStore(Backfilled(users), recipes, reviews)
  {
    var b := Backfilled(users);
    forall x, y | x in b && y in b && b[x].email == b[y].email ensures x == y {
      assert b[x].email == users[x].email && b[y].email == users[y].email;
    }
  }

  /** Every user the filter selected now has role `'user'`, and nothing else about them changed. */
  lemma BackfillTargets(users: map<UserId, User>, k: UserId)
    requires k in UsersWithoutRole(users)
    ensures k in Backfilled(users) && Backfilled(users)[k].role == Some(UserRole)
    ensures Backfilled(users)[k].(role := users[k].role) == users[k]
  {
  }

  /** Users with any other role are untouched, and no user is added or removed. */
  lemma BackfillLeavesOthers(users: map<UserId, User>, k: UserId)
    requires k in users && k !in UsersWithoutRole(users)
    ensures k in Backfilled(users) && Backfilled(users)[k] == users[k]
  {
  }

  /** A second run finds no user, updates none and changes nothing. */
  lemma BackfillIdempotent(users: map<UserId, User>)
    ensures UsersWithoutRole(Backfilled(users)) == {}
    ensures Backfilled(Backfilled(users)) == Backfilled(users)
  {
  }

  /** The backfill never grants or revokes admin rights. */
  lemma BackfillKeepsGate(users: map<UserId, User>, auth: Auth)
    ensures AdminGate(auth, Backfilled(users)) == AdminGate(auth, users)
  {
  }

  /** After the backfill, `role=user` lists exactly the users whose role is `'user'`. */
  lemma BackfillRoleUserListing(users: map<UserId, User>, search: string)
    ensures MatchingUsers(Backfilled(users), BuildUserQuery(search, UserRole))
         == set k | k in Backfilled(users) && Backfilled(users)[k].role == Some(UserRole)
  {
    var b := Backfilled(users);
    forall k | k in b ensures UserMatches(BuildUserQuery(search, UserRole), b[k]) <==> b[k].role == Some(UserRole) {
      RoleUserFilter(search, b[k]);
    }
  }

  // ---------------------------------------------------------------------------
  // The router

  /** The admin routes, with their path and body parameters (the dashboard is not part of this model). */
  datatype Route =
    | ListUsers(page: Option<int>, limit: Option<int>, search: string, role: string)
    | SetUserStatus(userId: UserId, isActive: bool)
    | PromoteUser(userId: UserId)
    | ListRecipes(page: Option<int>, limit: Option<int>, search: string, category: string)
    | RemoveRecipe(recipeId: RecipeId)
    | ListReviews(page: Option<int>, limit: Option<int>, search: string, rating: string)
    | RemoveReviewAsAdmin(reviewId: ReviewId)
    | FixRoles

  /** Answers of the listing routes: 200 with a page, or 500 when the query fails (a refused skip or cast). */
  function ListingStatus<T>(r: Option<Page<T>>): int {
    if r.Some? then Ok else ServerError
  }

  /**
   * What a route does once the gate lets the request through, as a relation between the
   * collections before and after and the status: each case is its handler's contract.
   */
  ghost predicate RouteOutcome(
    route: Route,
    users: map<UserId, User>, recipes: map<RecipeId, Recipe>, reviews: map<ReviewId, Review>,
    users': map<UserId, User>, recipes': map<RecipeId, Recipe>, reviews': map<ReviewId, Review>,
    status: int)
  {
    match route
    case ListUsers(page, limit, _, _) =>
      && users' == users && recipes' == recipes && reviews' == reviews
      && status == (if Skip(page.GetOr(DefaultPage), limit.GetOr(DefaultLimit)) >= 0 then Ok else ServerError)
    case ListRecipes(page, limit, _, _) =>
      && users' == users && recipes' == recipes && reviews' == reviews
      && status == (if Skip(page.GetOr(DefaultPage), limit.GetOr(DefaultLimit)) >= 0 then Ok else ServerError)
    case ListReviews(page, limit, _, rating) =>
      && users' == users && recipes' == recipes && reviews' == reviews
      && status == (if RatingFilterCasts(rating) && Skip(page.GetOr(DefaultPage), limit.GetOr(DefaultLimit)) >= 0
                    then Ok else ServerError)
    case SetUserStatus(userId, isActive) =>
      && recipes' == recipes && reviews' == reviews
      && (userId !in users ==> status == NotFound && users' == users)
      && (userId in users ==> status == Ok && users' == users[userId := users[userId].(isActive := isActive)])
    case PromoteUser(userId) =>
      && recipes' == recipes && reviews' == reviews
      && (userId !in users ==> status == NotFound && users' == users)
      && (userId in users ==> status == Ok && users' == users[userId := Promote(users[userId])])
    case RemoveRecipe(recipeId) =>
      && users' == users
      && (recipeId !in recipes ==> status == NotFound && recipes' == recipes && reviews' == reviews)
      && (recipeId in recipes ==>
            status == Ok && recipes' == recipes - {recipeId} && reviews' == WithoutReviewsOf(reviews, recipeId))
    case RemoveReviewAsAdmin(reviewId) =>
      users' == users && AdminReviewDeleted(recipes, reviews, recipes', reviews', reviewId, status)
    case FixRoles =>
      status == Ok && users' == Backfilled(users) && recipes' == recipes && reviews' == reviews
  }

  /**
   * One request to the admin router. When the gate denies it the answer is the gate's and
   * nothing changes; otherwise the route's handler runs, with the outcome `RouteOutcome` states.
   */
  method HandleAdmin(db: Db, auth: Auth, route: Route) returns (status: int)
    requires db.Valid()
    modifies db
    ensures db.Valid()
    ensures old(db.Synced()) ==> db.Synced()
    ensures AdminGate(auth, old(db.users)).Deny? ==>
      && status == AdminGate(auth, old(db.users)).status
      && db.users == old(db.users) && db.recipes == old(db.recipes) && db.reviews == old(db.reviews)
    ensures AdminGate(auth, old(db.users)).Next? ==>
      RouteOutcome(route, old(db.users), old(db.recipes), old(db.reviews), db.users, db.recipes, db.reviews, status)
  {
    var gate := AdminGate(auth, db.users);
    if gate.Deny? {
      return gate.status;
    }
    match route
    case ListUsers(page, limit, search, role) =>
      var r := GetUsers(db, page, limit, search, role);
      status := ListingStatus(r);
    case SetUserStatus(userId, isActive) =>
      var message;
      status, message := UpdateUserStatus(db, userId, isActive);
    case PromoteUser(userId) =>
      status := MakeUserAdmin(db, userId);
    case ListRecipes(page, limit, search, category) =>
      var r := GetRecipes(db, page, limit, search, category);
      status := ListingStatus(r);
    case RemoveRecipe(recipeId) =>
      status := DeleteRecipe(db, recipeId);
    case ListReviews(page, limit, search, rating) =>
      var r := GetReviews(db, page, limit, search, rating);
      status := ListingStatus(r);
    case RemoveReviewAsAdmin(reviewId) =>
      status := DeleteReviewAdmin(db, reviewId);
    case FixRoles =>
      var found, updated := FixUserRoles(db);
      status := Ok;
  }
}
