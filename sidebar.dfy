/** The dashboard sidebar: the home path of each role and the navigation
    links offered to the signed-in user (by their keys). */
module Sidebar {
  import opened Common
  import opened Roles
  import opened Users
  import opened Permissions

  // ---- Dashboard path ----

  /** `getRoleDashboardPath`: the generic dashboard when nobody is signed in,
      otherwise the dashboard of the user's role group. */
  function DashboardPath(user: Option<Actor>): (r: string)
    ensures user.None? ==> r == "/dashboard"
  {
    if user.None? then "/dashboard"
    else match user.value.role
      case SuperAdmin => "/dashboard/admin"
      case Admin => "/dashboard/admin"
      case Teacher => "/dashboard/teacher"
      case ClassTeacher => "/dashboard/teacher"
      case ClassPresident => "/dashboard/president"
      case VicePresident => "/dashboard/vice-president"
      case Treasurer => "/dashboard/treasurer"
      case Secretary => "/dashboard/secretary"
      case Student => "/dashboard/student"
  }

  /** Each dashboard belongs to exactly one group of users: the admin one to
      the users with admin access, the teacher one to the teachers without
      it, each officer's to that officer, the student one to students, and
      the bare one to nobody signed in. */
  lemma DashboardPathGroups(user: Option<Actor>)
    ensures DashboardPath(user) == "/dashboard" <==> user.None?
    ensures DashboardPath(user) == "/dashboard/admin" <==> user.Some? && HasAdminAccess(user.value.role)
    ensures DashboardPath(user) == "/dashboard/teacher" <==>
      user.Some? && HasTeacherAccess(user.value.role) && !HasAdminAccess(user.value.role)
    ensures DashboardPath(user) == "/dashboard/president" <==> user.Some? && user.value.role == ClassPresident
    ensures DashboardPath(user) == "/dashboard/vice-president" <==> user.Some? && user.value.role == VicePresident
    ensures DashboardPath(user) == "/dashboard/treasurer" <==> user.Some? && user.value.role == Treasurer
    ensures DashboardPath(user) == "/dashboard/secretary" <==> user.Some? && user.value.role == Secretary
    ensures DashboardPath(user) == "/dashboard/student" <==> user.Some? && user.value.role == Student
  {
  }

  // ---- Navigation links ----

  datatype LinkKey =
    | DashboardKey | ChatKey
    | UsersKey | ClassesKey | SettingsKey
    | StudentsKey | ScheduleKey
    | ClassKey | GalleryKey | FinanceKey

  /** `user?.role === 'super_admin' || user?.role === 'admin'`. */
  predicate ShowsAdminLinks(user: Option<Actor>)
  {
    user.Some? && (user.value.role == SuperAdmin || user.value.role == Admin)
  }

  /** `user?.role === 'teacher' || user?.role === 'class_teacher'`. */
  predicate ShowsTeacherLinks(user: Option<Actor>)
  {
    user.Some? && (user.value.role == Teacher || user.value.role == ClassTeacher)
  }

  /** `user?.class`. */
  predicate ShowsClassLinks(user: Option<Actor>)
  {
    user.Some? && user.value.cls.Some?
  }

  /** A class, and a role among treasurer, class teacher, super admin and admin. */
  predicate ShowsFinanceLink(user: Option<Actor>)
  {
    ShowsClassLinks(user)
    && user.value.role in {Treasurer, ClassTeacher, SuperAdmin, Admin}
  }

  /** The links the sidebar offers `user`, in order: the dashboard and chat
      links, then each group of links whose condition holds. */
  function Offered(user: Option<Actor>): seq<LinkKey>
  {
    [DashboardKey, ChatKey]
    + (if ShowsAdminLinks(user) then [UsersKey, ClassesKey, SettingsKey] else [])
    + (if ShowsTeacherLinks(user) then [StudentsKey, ScheduleKey] else [])
    + (if ShowsClassLinks(user) then [ClassKey, ScheduleKey, GalleryKey] else [])
    + (if ShowsFinanceLink(user) then [FinanceKey] else [])
  }

  /** `getNavLinks`: starts from the dashboard and chat links and pushes each
      group of links whose condition holds. */
  method NavLinks(user: Option<Actor>) returns (links: seq<LinkKey>)
    ensures links == Offered(user)
  {
    links := [DashboardKey, ChatKey];
    if ShowsAdminLinks(user) {
      links := links + [UsersKey, ClassesKey, SettingsKey];
    }
    if ShowsTeacherLinks(user) {
      links := links + [StudentsKey, ScheduleKey];
    }
    if ShowsClassLinks(user) {
      links := links + [ClassKey, ScheduleKey, GalleryKey];
      if ShowsFinanceLink(user) {
        links := links + [FinanceKey];
      }
    }
  }

  /** What the offer means: it always starts with the dashboard and chat
      links; the admin links appear exactly for admins, the students link
      exactly for teachers, the class and gallery links exactly with a
      class, and the finance link exactly under its own condition. */
  lemma OfferedLinks(user: Option<Actor>)
    ensures |Offered(user)| >= 2 && Offered(user)[..2] == [DashboardKey, ChatKey]
    ensures UsersKey in Offered(user) <==> ShowsAdminLinks(user)
    ensures SettingsKey in Offered(user) <==> ShowsAdminLinks(user)
    ensures StudentsKey in Offered(user) <==> ShowsTeacherLinks(user)
    ensures ClassKey in Offered(user) <==> ShowsClassLinks(user)
    ensures GalleryKey in Offered(user) <==> ShowsClassLinks(user)
    ensures FinanceKey in Offered(user) <==> ShowsFinanceLink(user)
  {
  }

  /** A class teacher with a class is offered two schedule links, the
      teacher one and the class one. */
  lemma ClassTeacherSeesScheduleTwice(id: UserId, c: ClassId)
    ensures Offered(Some(Actor(id, ClassTeacher, Some(c))))
      == [DashboardKey, ChatKey, StudentsKey, ScheduleKey, ClassKey, ScheduleKey, GalleryKey, FinanceKey]
  {
  }

  /** The finance link is offered exactly to the users who may manage the
      finances of their own class. */
  lemma FinanceLinkMatchesManagers(user: Option<Actor>)
    requires ShowsClassLinks(user)
    ensures ShowsFinanceLink(user) <==>
      CanManageFinances(user.value.role, user.value.cls, user.value.cls.value)
  {
  }

  /** The admin links are offered exactly to the users with admin access, and
      the teacher links only to teachers without it. */
  lemma RoleLinksMatchAccess(user: Option<Actor>)
    requires user.Some?
    ensures ShowsAdminLinks(user) <==> HasAdminAccess(user.value.role)
    ensures ShowsTeacherLinks(user) <==> HasTeacherAccess(user.value.role) && !HasAdminAccess(user.value.role)
  {
  }
}
