/** The top bar (`Navbar.jsx`): the live course search, the dashboard path
    of the signed-in user, the role-dependent menu links, the unread dot and
    the three drop-down flags. The signed-in user is the `lms_session` the
    login page stores. */
module Navbar {
  import opened Wrappers
  import opened Text
  import opened Seqs
  import opened Catalog
  import opened AuthClient

  const LoginPath: string := "/login"
  const StudentPath: string := "/student"
  const TeacherPath: string := "/teacher"
  const AdminPath: string := "/admin"
  const CoursesPath: string := "/courses"
  const CategoriesPath: string := "/categories"

  // ---------------------------------------------------------------------
  // Search

  /** A course matches when its title or its author contains the query,
      ignoring case. */
  predicate CourseMatches(query: string, course: Course) {
    Contains(ToLower(course.title), ToLower(query)) || Contains(ToLower(course.author), ToLower(query))
  }

  function MatchesQuery(query: string): Course -> bool {
    (course: Course) => CourseMatches(query, course)
  }

  /** `handleSearch`'s result list: nothing for a query of at most one
      character, otherwise the matching catalog courses in catalog order. */
  function SearchResults(catalog: seq<Course>, query: string): (r: seq<Course>)
    ensures |query| <= 1 ==> r == []
    ensures |query| > 1 ==> forall c :: c in r <==> c in catalog && CourseMatches(query, c)
    ensures Subsequence(r, catalog)
  {
    if |query| > 1 then
      FilterKeepsOrder(catalog, MatchesQuery(query));
      Filter(catalog, MatchesQuery(query))
    else
      SubsequenceOfEmpty(catalog);
      []
  }

  lemma {:induction false} SubsequenceOfEmpty(s: seq<Course>)
    ensures Subsequence([], s)
  {
    if s != [] {
      SubsequenceOfEmpty(s[1..]);
    }
  }

  /** Typing more of a query can only narrow the results (once the query is
      long enough to search at all). */
  lemma LongerQueryNarrows(catalog: seq<Course>, query: string, more: string)
    requires |query| > 1
    ensures forall c :: c in SearchResults(catalog, query + more) ==> c in SearchResults(catalog, query)
  {
    forall c | c in SearchResults(catalog, query + more)
      ensures CourseMatches(query, c)
    {
      LowerOfConcat(query, more);
      if Contains(ToLower(c.title), ToLower(query + more)) {
        ContainsPrefixOfQuery(ToLower(c.title), ToLower(query), ToLower(more));
      } else {
        ContainsPrefixOfQuery(ToLower(c.author), ToLower(query), ToLower(more));
      }
    }
  }

  lemma LowerOfConcat(a: string, b: string)
    ensures ToLower(a + b) == ToLower(a) + ToLower(b)
  {
  }

  lemma ContainsPrefixOfQuery(s: string, q: string, more: string)
    requires Contains(s, q + more)
    ensures Contains(s, q)
  {
    ContainsShorter(s, q + more);
  }

  // ---------------------------------------------------------------------
  // Dashboard path and menu links

  /** `getDashboardPath`: the login page without a user, the role's own
      dashboard for the three known roles, and the login page otherwise. */
  function DashboardPath(user: Option<Session>): (path: string)
    ensures user.None? ==> path == LoginPath
    ensures path == StudentPath <==> user.Some? && user.value.role == "student"
    ensures path == TeacherPath <==> user.Some? && user.value.role == "teacher"
    ensures path == AdminPath <==> user.Some? && user.value.role == "admin"
    ensures path == LoginPath || path == StudentPath || path == TeacherPath || path == AdminPath
  {
    if user.None? then LoginPath
    else if user.value.role == "student" then StudentPath
    else if user.value.role == "teacher" then TeacherPath
    else if user.value.role == "admin" then AdminPath
    else LoginPath
  }

  /** The menu tabs, in order: Courses and Categories for everyone, then the
      "Dashboard" tab (which always leads to the student dashboard) for any
      signed-in user, the instructor tab for teachers and admins, and the
      admin tab for admins. */
  function MenuLinks(user: Option<Session>): (links: seq<string>)
    ensures |links| >= 2 && links[0] == CoursesPath && links[1] == CategoriesPath
    ensures StudentPath in links <==> user.Some?
    ensures TeacherPath in links <==> user.Some? && (user.value.role == "teacher" || user.value.role == "admin")
    ensures AdminPath in links <==> user.Some? && user.value.role == "admin"
    ensures NoDuplicates(links)
  {
    var role := if user.Some? then user.value.role else "";
    [CoursesPath, CategoriesPath]
      + (if user.Some? then [StudentPath] else [])
      + (if user.Some? && (role == "teacher" || role == "admin") then [TeacherPath] else [])
      + (if user.Some? && role == "admin" then [AdminPath] else [])
  }

  /** Every tab of a signed-in user leads to a page that user may open by
      role, except the "Dashboard" tab of a teacher or an admin, which leads
      to the student dashboard instead of `DashboardPath`. */
  lemma DashboardTabIgnoresRole(user: Session)
    requires user.role == "teacher" || user.role == "admin"
    ensures StudentPath in MenuLinks(Some(user))
    ensures DashboardPath(Some(user)) != StudentPath
    ensures DashboardPath(Some(user)) in MenuLinks(Some(user))
  {
  }

  // ---------------------------------------------------------------------
  // Notifications

  /** The unread dot: shown iff some notification has `read == 0`. */
  function HasUnread(ns: seq<Notification>): (shown: bool)
    ensures shown <==> exists i :: 0 <= i < |ns| && ns[i].read == 0
  {
    if ns == [] then false
    else if ns[0].read == 0 then true
    else
      var rest := HasUnread(ns[1..]);
      assert rest ==> exists i :: 0 <= i < |ns| && ns[i].read == 0 by {
        if rest {
          var i :| 0 <= i < |ns[1..]| && ns[1..][i].read == 0;
          assert ns[i + 1].read == 0;
        }
      }
      rest
  }

  /** Marking notifications read (`read` set to any non-zero value) can only
      hide the dot. */
  lemma AllReadHidesDot(ns: seq<Notification>)
    requires forall i :: 0 <= i < |ns| ==> ns[i].read != 0
    ensures !HasUnread(ns)
  {
  }

  // ---------------------------------------------------------------------
  // The bar's state

  class NavbarState {
    var searchQuery: string
    var searchResults: seq<Course>
    var menuOpen: bool
    var notificationOpen: bool
    var profileOpen: bool

    constructor ()
      ensures searchQuery == "" && searchResults == []
      ensures !menuOpen && !notificationOpen && !profileOpen
    {
      searchQuery, searchResults := "", [];
      menuOpen, notificationOpen, profileOpen := false, false, false;
    }

    /** `handleSearch`: the query is kept as typed and the results recomputed. */
    method Search(catalog: seq<Course>, query: string)
      modifies this
      ensures searchQuery == query && searchResults == SearchResults(catalog, query)
      ensures menuOpen == old(menuOpen) && notificationOpen == old(notificationOpen) && profileOpen == old(profileOpen)
    {
      searchQuery := query;
      if |query| > 1 {
        searchResults := Filter(catalog, MatchesQuery(query));
      } else {
        searchResults := [];
      }
    }

    /** Following a result clears the query and the results. */
    method ClickResult()
      modifies this
      ensures searchQuery == "" && searchResults == []
      ensures menuOpen == old(menuOpen) && notificationOpen == old(notificationOpen) && profileOpen == old(profileOpen)
    {
      searchQuery, searchResults := "", [];
    }

    /** The mobile menu button. */
    method ToggleMenu()
      modifies this
      ensures menuOpen == !old(menuOpen)
      ensures searchQuery == old(searchQuery) && searchResults == old(searchResults)
      ensures notificationOpen == old(notificationOpen) && profileOpen == old(profileOpen)
    {
      menuOpen := !menuOpen;
    }

    /** A link of the open mobile menu: following it closes the menu. */
    method CloseMenu()
      modifies this
      ensures !menuOpen
      ensures searchQuery == old(searchQuery) && searchResults == old(searchResults)
      ensures notificationOpen == old(notificationOpen) && profileOpen == old(profileOpen)
    {
      menuOpen := false;
    }

    /** The bell button. */
    method ToggleNotifications()
      modifies this
      ensures notificationOpen == !old(notificationOpen)
      ensures searchQuery == old(searchQuery) && searchResults == old(searchResults)
      ensures menuOpen == old(menuOpen) && profileOpen == old(profileOpen)
    {
      notificationOpen := !notificationOpen;
    }

    /** The avatar button. */
    method ToggleProfile()
      modifies this
      ensures profileOpen == !old(profileOpen)
      ensures searchQuery == old(searchQuery) && searchResults == old(searchResults)
      ensures menuOpen == old(menuOpen) && notificationOpen == old(notificationOpen)
    {
      profileOpen := !profileOpen;
    }

    /** A click outside the notification panel closes it. */
    method ClickOutsideNotifications()
      modifies this
      ensures !notificationOpen
      ensures searchQuery == old(searchQuery) && searchResults == old(searchResults)
      ensures menuOpen == old(menuOpen) && profileOpen == old(profileOpen)
    {
      notificationOpen := false;
    }

    /** A click outside the profile menu, or on one of its links, closes it. */
    method CloseProfile()
      modifies this
      ensures !profileOpen
      ensures searchQuery == old(searchQuery) && searchResults == old(searchResults)
      ensures menuOpen == old(menuOpen) && notificationOpen == old(notificationOpen)
    {
      profileOpen := false;
    }
  }
}
