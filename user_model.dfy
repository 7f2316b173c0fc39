/**
 * The User schema: a trimmed full name, a trimmed lower-case unique email, a role
 * from `'user' | 'admin'` defaulting to `'user'`, profile fields with their defaults,
 * and the activity flag.
 */
module UserModel {
  import opened Wrappers
  import opened Ids
  import opened Text

  const MaxBioLength: nat := 500
  const UserRole: string := "user"
  const AdminRole: string := "admin"

  datatype SocialLinks = SocialLinks(website: string, instagram: string, youtube: string)

  /** An entry of the user's `ratings` array; both of its fields are optional. */
  datatype UserRating = UserRating(recipe: Option<RecipeId>, rating: Option<real>)

  /**
   * A stored user. `role` is `None` when the field is absent or null: records written
   * before the field existed have no role, which is what the role backfill repairs.
   */
  datatype User = User(
    fullName: string,
    email: string,
    password: string,
    ratings: seq<UserRating>,
    role: Option<string>,
    avatar: Option<string>,
    bio: string,
    location: string,
    socialLinks: SocialLinks,
    isActive: bool,
    lastLogin: int,
    createdAt: int)

  /** The `lowercase` and `trim` setters of `email` (lower-casing restricted to ASCII letters). */
  function NormalizeEmail(email: string): (e: string)
    ensures forall i :: 0 <= i < |e| ==> !IsUpperAscii(e[i])
    ensures e == [] || (!IsSpace(e[0]) && !IsSpace(e[|e| - 1]))
  {
    var l := ToLower(email);
    assert forall i :: 0 <= i < |l| ==> !IsUpperAscii(l[i]);
    TrimKeepsLower(l);
    Trim(l)
  }

  /** Normalising a normalised email changes nothing. */
  lemma NormalizeEmailIdempotent(email: string)
    ensures NormalizeEmail(NormalizeEmail(email)) == NormalizeEmail(email)
  {
    var e := NormalizeEmail(email);
    LowerOfLower(e);
    TrimOfTrimmed(e);
  }

  predicate ValidRole(role: Option<string>) {
    role.None? || role.value == UserRole || role.value == AdminRole
  }

  /**
   * What mongoose checks and the setters guarantee for a user written through the schema:
   * the name and email are non-empty and already normalised, the password is present,
   * the role is in the enum, the bio has at most 500 characters, and every rating is in range.
   */
  predicate ValidUser(u: User) {
    && u.fullName != "" && Trim(u.fullName) == u.fullName
    && u.email != "" && NormalizeEmail(u.email) == u.email
    && u.password != ""
    && ValidRole(u.role)
    && |u.bio| <= MaxBioLength
    && (forall i :: 0 <= i < |u.ratings| ==> u.ratings[i].rating.None? || 1.0 <= u.ratings[i].rating.value <= 5.0)
  }

  /** A user as created through the schema: setters applied, every other field at its default. */
  function NewUser(fullName: string, email: string, password: string, now: int): User {
    User(Trim(fullName), NormalizeEmail(email), password, [], Some(UserRole), None, "", "",
      SocialLinks("", "", ""), true, now, now)
  }

  /** Defaults: role `'user'`, active, empty bio; and the record is valid once the required fields survive the setters. */
  lemma NewUserDefaults(fullName: string, email: string, password: string, now: int)
    ensures var u := NewUser(fullName, email, password, now);
      && u.role == Some(UserRole) && u.isActive && u.bio == "" && u.avatar.None? && u.location == ""
      && u.socialLinks == SocialLinks("", "", "")
    ensures Trim(fullName) != "" && NormalizeEmail(email) != "" && password != "" ==>
      ValidUser(NewUser(fullName, email, password, now))
  {
    if Trim(fullName) != "" && NormalizeEmail(email) != "" && password != "" {
      TrimIdempotent(fullName);
      NormalizeEmailIdempotent(email);
    }
  }

  /** The unique index on `email`. */
  ghost predicate UniqueEmails(users: map<UserId, User>) {
    forall a, b :: (a in users && b in users && users[a].email == users[b].email) ==> a == b
  }
}
