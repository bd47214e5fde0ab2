/** The nine user roles, their names as stored in the `role` field, and the
    numeric hierarchy behind `User.hasPermission`. */
module Roles {
  import opened Common

  datatype Role =
    | SuperAdmin
    | Admin
    | Teacher
    | ClassTeacher
    | ClassPresident
    | VicePresident
    | Treasurer
    | Secretary
    | Student

  /** The role given to every new account (schema default). */
  const DefaultRole: Role := Student

  function RoleName(r: Role): string
  {
    match r
    case SuperAdmin => "super_admin"
    case Admin => "admin"
    case Teacher => "teacher"
    case ClassTeacher => "class_teacher"
    case ClassPresident => "class_president"
    case VicePresident => "vice_president"
    case Treasurer => "treasurer"
    case Secretary => "secretary"
    case Student => "student"
  }

  /** The `enum` check of the `role` field: a string names a role exactly when it
      is one of the nine names. */
  function ParseRole(s: string): (r: Option<Role>)
    ensures r.Some? ==> RoleName(r.value) == s
    ensures r.None? ==> forall x: Role :: RoleName(x) != s
  {
    if s == "super_admin" then Some(SuperAdmin)
    else if s == "admin" then Some(Admin)
    else if s == "teacher" then Some(Teacher)
    else if s == "class_teacher" then Some(ClassTeacher)
    else if s == "class_president" then Some(ClassPresident)
    else if s == "vice_president" then Some(VicePresident)
    else if s == "treasurer" then Some(Treasurer)
    else if s == "secretary" then Some(Secretary)
    else if s == "student" then Some(Student)
    else None
  }

  lemma RoleNameRoundTrip(r: Role)
    ensures ParseRole(RoleName(r)) == Some(r)
  {
  }

  /** The hierarchy values of `hasPermission`. */
  function Rank(r: Role): (n: int)
    ensures 10 <= n <= 100
    ensures n == 100 <==> r == SuperAdmin
    ensures n == 10 <==> r == Student
  {
    match r
    case SuperAdmin => 100
    case Admin => 90
    case Teacher => 80
    case ClassTeacher => 70
    case ClassPresident => 60
    case VicePresident => 50
    case Treasurer => 40
    case Secretary => 30
    case Student => 10
  }

  /** Distinct roles have distinct ranks, so the hierarchy is a total order. */
  lemma RankInjective(a: Role, b: Role)
    ensures Rank(a) == Rank(b) ==> a == b
  {
  }

  /** `user.hasPermission(required)`: the user's rank is at least the rank of the
      required role. */
  predicate HasPermission(user: Role, required: Role)
  {
    Rank(user) >= Rank(required)
  }

  /** `hasPermission` called with a role name: a name outside the hierarchy looks
      up `undefined`, and a comparison with `undefined` is false. */
  function HasPermissionNamed(user: Role, required: string): (b: bool)
    ensures b <==> exists r: Role :: RoleName(r) == required && HasPermission(user, r)
  {
    match ParseRole(required)
    case None => false
    case Some(r) => RoleNameRoundTrip(r); HasPermission(user, r)
  }

  /** Every role meets its own requirement, and the relation is transitive. */
  lemma PermissionPreorder(a: Role, b: Role, c: Role)
    ensures HasPermission(a, a)
    ensures HasPermission(a, b) && HasPermission(b, c) ==> HasPermission(a, c)
  {
  }

  /** Two roles that each meet the other's requirement are the same role. */
  lemma PermissionAntisymmetric(a: Role, b: Role)
    requires HasPermission(a, b) && HasPermission(b, a)
    ensures a == b
  {
    RankInjective(a, b);
  }

  /** A super administrator meets every requirement; a student meets only the
      student requirement. */
  lemma PermissionExtremes(r: Role)
    ensures HasPermission(SuperAdmin, r)
    ensures HasPermission(Student, r) <==> r == Student
    ensures HasPermission(r, Student)
  {
  }
}
