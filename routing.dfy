/** The two role gates of the front end: the route guard
    (`ProtectedRoute.jsx`) and the dashboard switch (`Dashboard.jsx`). */
module Routing {
  import opened Wrappers
  import opened AuthClient
  import opened Navbar

  const HomePath: string := "/"

  /** What the guard renders: a spinner, a redirect, or the guarded page. */
  datatype Access = Spinner | Redirect(to: string) | Children

  /** The `loading` flag the auth context provides: it provides none, so the
      flag is always falsy. */
  const ContextLoading: bool := false

  /** `ProtectedRoute`: loading first, then the missing user, then the role
      check, which applies only when an allow-list is given (an empty list
      is given, and then admits nobody). */
  function Guard(loading: bool, user: Option<Session>, allowedRoles: Option<seq<string>>): (a: Access)
    ensures a == Spinner <==> loading
    ensures a == Redirect(LoginPath) <==> !loading && user.None?
    ensures a == Redirect(HomePath) <==>
      !loading && user.Some? && allowedRoles.Some? && user.value.role !in allowedRoles.value
    ensures a == Children <==>
      !loading && user.Some? && (allowedRoles.None? || user.value.role in allowedRoles.value)
  {
    if loading then Spinner
    else if user.None? then Redirect(LoginPath)
    else if allowedRoles.Some? && user.value.role !in allowedRoles.value then Redirect(HomePath)
    else Children
  }

  /** With the auth context as it is, the spinner never shows, and without an
      allow-list every signed-in user gets through. */
  lemma GuardWithContext(user: Option<Session>)
    ensures Guard(ContextLoading, user, None) != Spinner
    ensures Guard(ContextLoading, user, None) == Children <==> user.Some?
  {
  }

  /** An empty allow-list turns every signed-in user away to the home page. */
  lemma EmptyAllowListAdmitsNobody(loading: bool, user: Option<Session>)
    requires !loading && user.Some?
    ensures Guard(loading, user, Some([])) == Redirect(HomePath)
  {
  }

  /** Widening the allow-list never turns away someone it admitted. */
  lemma WiderListAdmitsMore(loading: bool, user: Option<Session>, roles: seq<string>, more: seq<string>)
    requires Guard(loading, user, Some(roles)) == Children
    ensures Guard(loading, user, Some(roles + more)) == Children
  {
    assert user.value.role in roles + more;
  }

  /** What the dashboard page renders. */
  datatype DashboardView = StudentDashboard | TeacherDashboard | AdminDashboard | GoTo(path: string)

  /** `Dashboard`: the login page without a user or for an unknown role, and
      the role's own dashboard otherwise. */
  function Dashboard(user: Option<Session>): (view: DashboardView)
    ensures view == StudentDashboard <==> user.Some? && user.value.role == "student"
    ensures view == TeacherDashboard <==> user.Some? && user.value.role == "teacher"
    ensures view == AdminDashboard <==> user.Some? && user.value.role == "admin"
    ensures view.GoTo? ==> view.path == LoginPath
  {
    if user.None? then GoTo(LoginPath)
    else if user.value.role == "student" then StudentDashboard
    else if user.value.role == "teacher" then TeacherDashboard
    else if user.value.role == "admin" then AdminDashboard
    else GoTo(LoginPath)
  }

  /** The route each dashboard is mounted at. */
  function ViewPath(view: DashboardView): (path: string)
    ensures view.GoTo? ==> path == view.path
    ensures !view.GoTo? ==>
      && (path == StudentPath <==> view == StudentDashboard)
      && (path == TeacherPath <==> view == TeacherDashboard)
      && (path == AdminPath <==> view == AdminDashboard)
  {
    match view
    case StudentDashboard => StudentPath
    case TeacherDashboard => TeacherPath
    case AdminDashboard => AdminPath
    case GoTo(path) => path
  }

  /** The dashboard switch and the bar's `getDashboardPath` agree on every
      user, signed in or not. */
  lemma DashboardAgreesWithNavbar(user: Option<Session>)
    ensures ViewPath(Dashboard(user)) == DashboardPath(user)
  {
  }

  /** The landing page after login agrees with the dashboard path for
      students and teachers, but sends an admin to the course list rather
      than the admin dashboard, and any other role to the course list rather
      than the login page. */
  lemma LoginLandingVersusDashboard(session: Session)
    ensures session.role == "student" || session.role == "teacher" ==>
      RoleHome(session.role) == DashboardPath(Some(session))
    ensures session.role == "admin" ==> RoleHome(session.role) != DashboardPath(Some(session))
    ensures session.role != "student" && session.role != "teacher" ==>
      DashboardPath(Some(session)) != RoleHome(session.role)
  {
  }
}
