/** The user record of the `User` schema and the signed-in user that a
    request or a socket carries once authenticated. */
module Users {
  import opened Common
  import opened Roles
  import opened Strings

  /** A stored account. The password is the stored credential; hashing and
      comparison are left to the `matches` oracle of the handlers. */
  datatype User = User(
    name: string,
    email: string,
    password: string,
    role: Role,
    cls: Option<ClassId>,
    isApproved: bool,
    isBlocked: bool,
    lastActive: Time)

  /** The fields a handler reads from `req.user`. */
  datatype Actor = Actor(id: UserId, role: Role, cls: Option<ClassId>)

  function ActorOf(id: UserId, u: User): (a: Actor)
    ensures a.id == id && a.role == u.role && a.cls == u.cls
  {
    Actor(id, u.role, u.cls)
  }

  /** The `lowercase` and `trim` setters of the `email` field, which Mongoose
      applies both when storing and when querying. */
  function NormalizeEmail(e: string): (r: string)
    ensures |r| == |Trim(e)| <= |e|
    ensures forall i :: 0 <= i < |r| ==> r[i] == LowerChar(Trim(e)[i])
    ensures forall i :: 0 <= i < |r| ==> !('A' <= r[i] <= 'Z')
    ensures r == [] || (!IsSpace(r[0]) && !IsSpace(r[|r| - 1]))
    ensures r == [] <==> AllSpace(e)
  {
    TrimEmptyIffAllSpace(e);
    ToLower(Trim(e))
  }

  /** Normalising an address that is already normal changes nothing, so a
      stored address is found again by its own value. */
  lemma NormalizeEmailIdempotent(e: string)
    ensures NormalizeEmail(NormalizeEmail(e)) == NormalizeEmail(e)
  {
    var t := Trim(e);
    var l := ToLower(t);
    if l != [] {
      assert l[0] == LowerChar(t[0]) && l[|l| - 1] == LowerChar(t[|t| - 1]);
    }
    TrimOfTrimmed(l);
    ToLowerIdempotent(t);
  }

  /** Schema validation of a new account: a trimmed name of 1 to 50
      characters, a non-empty trimmed email and a password of at least six
      characters. */
  predicate ValidAccountFields(name: string, email: string, password: string)
  {
    0 < |Trim(name)| <= 50 && Trim(email) != "" && |password| >= 6
  }
}
