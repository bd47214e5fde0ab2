/** The request guards: where the bearer token is read from, the
    authentication chain shared by HTTP requests and socket connections, and
    the role and class guards that follow it. Verifying a token's signature
    is an oracle `verify` that yields the user id it carries, or nothing when
    the token is malformed, forged or expired. */
module Auth {
  import opened Common
  import opened Strings
  import opened Roles
  import opened Users
  import Permissions

  /** The first space of `h` is at `i`, and `w` is the text after it up to the
      next space or the end: `w` is field 1 of `h.split(' ')`. */
  predicate SecondFieldAt(h: string, i: nat, w: string)
  {
    i < |h| && h[i] == ' ' && ' ' !in h[..i]
    && i + 1 + |w| <= |h| && w == h[i + 1..i + 1 + |w|] && ' ' !in w
    && (i + 1 + |w| == |h| || h[i + 1 + |w|] == ' ')
  }

  /** `header.split(' ')[1]`: the text between the first space and the next
      space (or the end); `undefined` when the header has no space. */
  function SecondWord(h: string): (r: Option<string>)
    ensures r.None? <==> ' ' !in h
    ensures r.Some? ==> ' ' !in r.value
    ensures r.Some? ==> exists i :: SecondFieldAt(h, i, r.value)
  {
    match IndexOf(h, ' ')
    case None => None
    case Some(i) =>
      var w := UpTo(h[i + 1..], ' ');
      assert SecondFieldAt(h, i, w);
      Some(w)
  }

  /** An `Authorization: Bearer <token>` header yields its token (section 2.1
      of RFC 6750). */
  lemma BearerHeaderYieldsToken(token: string)
    requires ' ' !in token
    ensures SecondWord("Bearer " + token) == Some(token)
  {
    var h := "Bearer " + token;
    assert h[6] == ' ' && ' ' !in h[..6];
    assert h[7..] == token;
  }

  /** The token of a request: the second word of the Authorization header,
      else the `token` cookie, else the `token` query parameter, each taken only
      when non-empty. */
  function TokenFrom(header: Option<string>, cookie: Option<string>, query: Option<string>): (r: Option<string>)
    ensures r.Some? ==> r.value != ""
    ensures r.None? <==> !Truthy(if header.Some? then SecondWord(header.value) else None) && !Truthy(cookie) && !Truthy(query)
    ensures header.Some? && Truthy(SecondWord(header.value)) ==> r == SecondWord(header.value)
    ensures (header.None? || !Truthy(SecondWord(header.value))) && Truthy(cookie) ==> r == cookie
    ensures r.Some? ==> r == query || r == cookie || (header.Some? && r == SecondWord(header.value))
  {
    var fromHeader := if header.Some? then SecondWord(header.value) else None;
    if Truthy(fromHeader) then fromHeader
    else if Truthy(cookie) then cookie
    else if Truthy(query) then query
    else None
  }

  /** The outcome of the authentication chain, in the order it checks. */
  datatype Admission =
    | NoToken
    | InvalidToken
    | UnknownUser
    | PendingApproval
    | BlockedAccount
    | Admitted(id: UserId)

  /** The token is present and valid and names a stored user. */
  predicate Resolves(users: seq<User>, token: Option<string>, verify: string -> Option<UserId>)
  {
    Truthy(token) && verify(token.value).Some? && verify(token.value).value < |users|
  }

  /** Token present, signature valid, user found, approved, not blocked:
      checked in this order, the first failing check deciding the outcome. */
  function Gate(users: seq<User>, token: Option<string>, verify: string -> Option<UserId>): (r: Admission)
    ensures r.Admitted? <==>
      Resolves(users, token, verify)
      && users[verify(token.value).value].isApproved && !users[verify(token.value).value].isBlocked
    ensures r.Admitted? ==> r.id == verify(token.value).value
    ensures r == NoToken <==> !Truthy(token)
    ensures r == InvalidToken <==> Truthy(token) && verify(token.value).None?
    ensures r == UnknownUser <==> Truthy(token) && verify(token.value).Some? && verify(token.value).value >= |users|
    ensures r == PendingApproval <==> Resolves(users, token, verify) && !users[verify(token.value).value].isApproved
    ensures r == BlockedAccount <==>
      Resolves(users, token, verify) && users[verify(token.value).value].isApproved && users[verify(token.value).value].isBlocked
  {
    if !Truthy(token) then NoToken
    else match verify(token.value)
      case None => InvalidToken
      case Some(id) =>
        if id >= |users| then UnknownUser
        else if !users[id].isApproved then PendingApproval
        else if users[id].isBlocked then BlockedAccount
        else Admitted(id)
  }

  /** The status `authenticate` answers a refused request with: 401 until a
      user is found, 403 for an account that is pending or blocked. */
  function AuthenticateError(a: Admission): (e: HttpError)
    requires !a.Admitted?
    ensures e == Unauthorized <==> a == NoToken || a == InvalidToken || a == UnknownUser
    ensures e == Forbidden <==> a == PendingApproval || a == BlockedAccount
  {
    match a
    case NoToken => Unauthorized
    case InvalidToken => Unauthorized
    case UnknownUser => Unauthorized
    case PendingApproval => Forbidden
    case BlockedAccount => Forbidden
  }

  /** An account that is both unapproved and blocked is reported as pending,
      since approval is checked before blocking. */
  lemma ApprovalCheckedBeforeBlock(users: seq<User>, token: string, verify: string -> Option<UserId>)
    requires token != "" && verify(token).Some? && verify(token).value < |users|
    requires !users[verify(token).value].isApproved && users[verify(token).value].isBlocked
    ensures Gate(users, Some(token), verify) == PendingApproval
  {
  }

  /** `roles.some(role => user.hasPermission(role))`. */
  function SomeRolePermits(r: Role, roles: seq<string>): (b: bool)
    ensures b <==> exists i :: 0 <= i < |roles| && HasPermissionNamed(r, roles[i])
  {
    if roles == [] then false
    else if HasPermissionNamed(r, roles[0]) then true
    else
      var b := SomeRolePermits(r, roles[1..]);
      assert b ==> exists i :: 0 <= i < |roles| && HasPermissionNamed(r, roles[i]) by {
        if b {
          var i :| 0 <= i < |roles[1..]| && HasPermissionNamed(r, roles[1..][i]);
          assert roles[i + 1] == roles[1..][i];
        }
      }
      assert (exists i :: 0 <= i < |roles| && HasPermissionNamed(r, roles[i])) ==> b by {
        if exists i :: 0 <= i < |roles| && HasPermissionNamed(r, roles[i]) {
          var i :| 0 <= i < |roles| && HasPermissionNamed(r, roles[i]);
          assert i != 0;
          assert roles[1..][i - 1] == roles[i];
        }
      }
      b
  }

  /** `authorize(...roles)`: 401 without a signed-in user, 403 unless the user's
      rank reaches one of the named roles. */
  function Authorize(user: Option<Actor>, roles: seq<string>): (s: Status)
    ensures user.None? ==> s == Failed(Unauthorized)
    ensures user.Some? ==>
      (s == Done <==> exists i, q :: 0 <= i < |roles| && roles[i] == RoleName(q) && HasPermission(user.value.role, q))
    ensures user.Some? && s != Done ==> s == Failed(Forbidden)
  {
    if user.None? then Failed(Unauthorized)
    else if SomeRolePermits(user.value.role, roles) then Done
    else Failed(Forbidden)
  }

  /** An empty role list refuses every signed-in user. */
  lemma AuthorizeNothingRefuses(a: Actor)
    ensures Authorize(Some(a), []) == Failed(Forbidden)
  {
  }

  /** `authorize` is monotone in rank: whatever a user passes, a user of equal or
      higher rank passes too. */
  lemma AuthorizeMonotone(a: Actor, b: Actor, roles: seq<string>)
    requires Rank(a.role) >= Rank(b.role)
    requires Authorize(Some(b), roles) == Done
    ensures Authorize(Some(a), roles) == Done
  {
    var i, q :| 0 <= i < |roles| && roles[i] == RoleName(q) && HasPermission(b.role, q);
    assert HasPermission(a.role, q);
  }

  /** The single-purpose guards share one shape: 401 without a user, 403
      unless the role is in the guard's group. */
  function RoleGuard(user: Option<Actor>, allowed: Role -> bool): (s: Status)
    ensures s == Done <==> user.Some? && allowed(user.value.role)
    ensures s == Failed(Unauthorized) <==> user.None?
    ensures s.Failed? ==> s == Failed(Unauthorized) || s == Failed(Forbidden)
  {
    if user.None? then Failed(Unauthorized)
    else if allowed(user.value.role) then Done
    else Failed(Forbidden)
  }

  /** `isSuperAdmin`: only `super_admin`. */
  function RequireSuperAdmin(user: Option<Actor>): (s: Status)
    ensures s == Done <==> user.Some? && user.value.role == SuperAdmin
  {
    RoleGuard(user, r => r == SuperAdmin)
  }

  /** `isAdmin`: exactly `super_admin` and `admin`. */
  function RequireAdmin(user: Option<Actor>): (s: Status)
    ensures s == Done <==> user.Some? && (user.value.role == SuperAdmin || user.value.role == Admin)
  {
    RoleGuard(user, Permissions.HasAdminAccess)
  }

  /** `isTeacher`: the administrators, `teacher` and `class_teacher`. */
  function RequireTeacher(user: Option<Actor>): (s: Status)
    ensures s == Done <==> user.Some? && HasPermission(user.value.role, ClassTeacher)
  {
    RoleGuard(user, Permissions.HasTeacherAccess)
  }

  /** `isClassOfficer`: exactly the four class officer roles. */
  function RequireClassOfficer(user: Option<Actor>): (s: Status)
    ensures s == Done <==> user.Some? && user.value.role in {ClassPresident, VicePresident, Treasurer, Secretary}
  {
    RoleGuard(user, Permissions.IsClassOfficer)
  }

  /** The guards are nested: super admin within admin within teacher, and no
      teacher-level user is a class officer. */
  lemma GuardLadder(user: Option<Actor>)
    ensures RequireSuperAdmin(user) == Done ==> RequireAdmin(user) == Done
    ensures RequireAdmin(user) == Done ==> RequireTeacher(user) == Done
    ensures RequireTeacher(user) == Done ==> RequireClassOfficer(user) == Failed(Forbidden)
  {
  }

  /** `belongsToClass(param)`: the class id comes from the route parameter,
      else the body; 401 without a user, 400 without an id, administrators
      always pass, anyone else must belong to exactly that class. */
  function ClassGuard(user: Option<Actor>, fromParams: Option<ClassId>, fromBody: Option<ClassId>): (s: Status)
    ensures user.None? ==> s == Failed(Unauthorized)
    ensures user.Some? && fromParams.None? && fromBody.None? ==> s == Failed(BadRequest)
    ensures s == Done <==>
      user.Some? && (fromParams.Some? || fromBody.Some?)
      && (Permissions.HasAdminAccess(user.value.role)
          || user.value.cls == (if fromParams.Some? then fromParams else fromBody))
  {
    if user.None? then Failed(Unauthorized)
    else
      var classId := if fromParams.Some? then fromParams else fromBody;
      if classId.None? then Failed(BadRequest)
      else if user.value.role == SuperAdmin || user.value.role == Admin then Done
      else if user.value.cls.None? || user.value.cls.value != classId.value then Failed(Forbidden)
      else Done
  }

  /** A non-administrator passes the class guard exactly when the utility
      predicate `belongsToClass` holds for the requested id. */
  lemma ClassGuardAgreesWithBelongsToClass(a: Actor, classId: ClassId, fromBody: Option<ClassId>)
    requires !Permissions.HasAdminAccess(a.role)
    ensures ClassGuard(Some(a), Some(classId), fromBody) == Done <==> Permissions.BelongsToClass(a.cls, classId)
  {
  }
}
