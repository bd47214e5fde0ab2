/** The role predicates of the permission helpers: who may manage a class's
    structure, finances and tasks, who may see its finances, and who may add
    members to a group chat. */
module Permissions {
  import opened Common
  import opened Roles

  predicate HasAdminAccess(r: Role)
  {
    r == SuperAdmin || r == Admin
  }

  predicate HasTeacherAccess(r: Role)
  {
    r == SuperAdmin || r == Admin || r == Teacher || r == ClassTeacher
  }

  predicate IsClassOfficer(r: Role)
  {
    r == ClassPresident || r == VicePresident || r == Treasurer || r == Secretary
  }

  /** `userClassId && userClassId === classId`: a user without a class belongs
      to none. */
  predicate BelongsToClass(userClass: Option<ClassId>, classId: ClassId)
  {
    userClass.Some? && userClass.value == classId
  }

  predicate CanManageClassStructure(r: Role, userClass: Option<ClassId>, classId: ClassId)
  {
    HasAdminAccess(r) || (r == ClassTeacher && BelongsToClass(userClass, classId))
  }

  predicate CanManageFinances(r: Role, userClass: Option<ClassId>, classId: ClassId)
  {
    HasAdminAccess(r)
    || (r == ClassTeacher && BelongsToClass(userClass, classId))
    || (r == Treasurer && BelongsToClass(userClass, classId))
  }

  predicate CanViewFinances(r: Role, userClass: Option<ClassId>, classId: ClassId, financeVisibility: Visibility)
  {
    var member := BelongsToClass(userClass, classId);
    HasAdminAccess(r)
    || (r == ClassTeacher && member)
    || (r == Treasurer && member)
    || (member && financeVisibility == ClassOnly)
    || financeVisibility == School
    || financeVisibility == Public
  }

  predicate CanManageTasks(r: Role, userClass: Option<ClassId>, classId: ClassId)
  {
    HasTeacherAccess(r) || (r == Secretary && BelongsToClass(userClass, classId))
  }

  predicate CanAddGroupMembers(r: Role, userClass: Option<ClassId>, classId: ClassId, isGroupAdmin: bool)
  {
    HasAdminAccess(r)
    || isGroupAdmin
    || (r == ClassPresident && BelongsToClass(userClass, classId))
    || (r == VicePresident && BelongsToClass(userClass, classId))
  }

  /** The vice-president approval hook answers "no approval needed" for every
      action. */
  function VicePresidentNeedsApproval<A>(action: A): (b: bool)
    ensures !b
  {
    false
  }

  /** Administrator access is teacher access, and the two role groups of the
      helpers are disjoint from the class officers. */
  lemma AccessGroups(r: Role)
    ensures HasAdminAccess(r) ==> HasTeacherAccess(r)
    ensures HasTeacherAccess(r) ==> !IsClassOfficer(r)
  {
  }

  /** Teacher access is exactly a rank at or above the class teacher's, and
      administrator access exactly a rank at or above the administrator's. */
  lemma AccessByRank(r: Role)
    ensures HasTeacherAccess(r) <==> HasPermission(r, ClassTeacher)
    ensures HasAdminAccess(r) <==> HasPermission(r, Admin)
  {
  }

  /** Anyone who may manage a class's structure may manage its finances, and
      anyone who may manage its finances may view them, whatever the finance
      visibility. */
  lemma ManagementImpliesView(r: Role, userClass: Option<ClassId>, classId: ClassId, v: Visibility)
    ensures CanManageClassStructure(r, userClass, classId) ==> CanManageFinances(r, userClass, classId)
    ensures CanManageFinances(r, userClass, classId) ==> CanViewFinances(r, userClass, classId, v)
  {
  }

  /** Outside the administrators, nobody manages a class's finances or
      structure unless they belong to it. */
  lemma NonMembersCannotManage(r: Role, userClass: Option<ClassId>, classId: ClassId)
    requires !HasAdminAccess(r) && !BelongsToClass(userClass, classId)
    ensures !CanManageFinances(r, userClass, classId)
    ensures !CanManageClassStructure(r, userClass, classId)
    ensures !CanAddGroupMembers(r, userClass, classId, false)
  {
  }

  /** With `class_only` finance visibility, a non-administrator outside the
      class cannot see its finances; with `school` or `public` anyone can. */
  lemma FinanceVisibilityCases(r: Role, userClass: Option<ClassId>, classId: ClassId, v: Visibility)
    ensures v != ClassOnly ==> CanViewFinances(r, userClass, classId, v)
    ensures v == ClassOnly && !HasAdminAccess(r) ==>
      (CanViewFinances(r, userClass, classId, v) <==> BelongsToClass(userClass, classId))
  {
  }
}
