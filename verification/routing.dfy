/** The single-page app's session handling and route guards, and the admin
    dashboard's tab selection. */
module Routing {
  import opened Wrappers
  import opened Text

  /** The logged-in user as the app keeps it. */
  datatype SessionUser = SessionUser(id: nat, name: string, role: string)

  /** `localStorage`'s two keys; the user is kept as the object it serialises. */
  datatype Storage = Storage(token: Option<string>, user: Option<SessionUser>)

  /** The app's `user` state together with the storage behind it. */
  datatype Session = Session(user: Option<SessionUser>, storage: Storage)

  /** The start-up effect: the user is restored only when a non-empty token and the
      user data are both stored. */
  function Restore(storage: Storage): (r: Session)
    ensures r.storage == storage
    ensures r.user.Some? <==> OrEmpty(storage.token) != "" && storage.user.Some?
    ensures r.user.Some? ==> r.user == storage.user
  {
    Session(if OrEmpty(storage.token) != "" && storage.user.Some? then storage.user else None, storage)
  }

  /** `handleLogin`: both keys are written and the user is set. */
  function Login(s: Session, user: SessionUser, token: string): (r: Session)
    ensures r.user == Some(user)
    ensures r.storage == Storage(Some(token), Some(user))
  {
    Session(Some(user), Storage(Some(token), Some(user)))
  }

  /** `handleLogout`: both keys are removed and the user is cleared. */
  function Logout(s: Session): (r: Session)
    ensures r.user.None? && r.storage == Storage(None, None)
  {
    Session(None, Storage(None, None))
  }

  /** A reload after logging in with a token brings the same user back; a reload
      after logging out brings nobody back. */
  lemma ReloadKeepsSession(s: Session, user: SessionUser, token: string)
    requires token != ""
    ensures Restore(Login(s, user, token).storage) == Login(s, user, token)
    ensures Restore(Logout(s).storage) == Logout(s)
  {
  }

  /** The app's route patterns; `Admin` is every path under /admin. */
  datatype Route = LoginRoute | Admin | Caller | Custom | Tasks | Root

  /** What a route renders. */
  datatype Screen = LoginForm | AdminDashboard | CallerDashboard | CustomDashboard | TaskManager | Redirect(to: Route)

  /** Where a logged-in user belongs: admins and callers have their own dashboards,
      every other role the custom one. */
  function HomeRoute(role: string): (r: Route)
    ensures r == Admin <==> role == "admin"
    ensures r == Caller <==> role == "caller"
    ensures r == Custom <==> role != "admin" && role != "caller"
  {
    if role == "admin" then Admin else if role == "caller" then Caller else Custom
  }

  /** The element each `<Route>` renders for the current user. */
  function Resolve(user: Option<SessionUser>, route: Route): (r: Screen)
    ensures user.None? ==> r == (if route == LoginRoute then LoginForm else Redirect(LoginRoute))
    ensures r == AdminDashboard <==> route == Admin && user.Some? && user.value.role == "admin"
    ensures r == CallerDashboard <==> route == Caller && user.Some? && user.value.role == "caller"
    ensures r == CustomDashboard <==>
      route == Custom && user.Some? && user.value.role != "admin" && user.value.role != "caller"
    ensures r == TaskManager <==> route == Tasks && user.Some?
    ensures user.Some? && (route == LoginRoute || route == Root) ==> r == Redirect(HomeRoute(user.value.role))
  {
    match route
    case LoginRoute => if user.Some? then Redirect(HomeRoute(user.value.role)) else LoginForm
    case Admin => if user.Some? && user.value.role == "admin" then AdminDashboard else Redirect(LoginRoute)
    case Caller => if user.Some? && user.value.role == "caller" then CallerDashboard else Redirect(LoginRoute)
    case Custom =>
      if user.Some? && !(user.value.role in ["admin", "caller"]) then CustomDashboard else Redirect(LoginRoute)
    case Tasks => if user.Some? then TaskManager else Redirect(LoginRoute)
    case Root => if user.Some? then Redirect(HomeRoute(user.value.role)) else Redirect(LoginRoute)
  }

  /** A logged-in user sent home lands on a dashboard, never on another redirect,
      and each user can open exactly one of the three dashboards. */
  lemma HomeRouteRenders(user: SessionUser)
    ensures !Resolve(Some(user), HomeRoute(user.role)).Redirect?
    ensures var opens := (r: Route) => !Resolve(Some(user), r).Redirect?;
      (opens(Admin) && !opens(Caller) && !opens(Custom))
      || (!opens(Admin) && opens(Caller) && !opens(Custom))
      || (!opens(Admin) && !opens(Caller) && opens(Custom))
  {
  }

  // ---------------------------------------------------------------------------
  // Admin dashboard tabs
  // ---------------------------------------------------------------------------

  const TabOrder: seq<string> := ["upload", "progress", "visits", "users", "reports"]
  const DefaultTab: string := "dashboard"

  /** The first tab name of `tabs` contained in the path, if any. */
  function FirstTabIn(tabs: seq<string>, path: string): (r: Option<nat>)
    ensures r.None? <==> forall i :: 0 <= i < |tabs| ==> !IsSubstring(tabs[i], path)
    ensures r.Some? ==> r.value < |tabs| && IsSubstring(tabs[r.value], path)
    ensures r.Some? ==> forall i :: 0 <= i < r.value ==> !IsSubstring(tabs[i], path)
  {
    if |tabs| == 0 then None
    else if IsSubstring(tabs[0], path) then Some(0)
    else match FirstTabIn(tabs[1..], path)
      case None => None
      case Some(k) => Some(k + 1)
  }

  /** `getActiveTab`: the first of upload, progress, visits, users, reports that the
      path contains, else 'dashboard'. */
  function ActiveTab(path: string): (r: string)
    ensures r == DefaultTab || r in TabOrder
    ensures r == DefaultTab <==> forall i :: 0 <= i < |TabOrder| ==> !IsSubstring(TabOrder[i], path)
    ensures r != DefaultTab ==> IsSubstring(r, path)
    ensures forall i, j :: 0 <= i < j < |TabOrder| && TabOrder[j] == r ==> !IsSubstring(TabOrder[i], path)
  {
    match FirstTabIn(TabOrder, path)
    case None => DefaultTab
    case Some(k) => TabOrder[k]
  }

  /** The tab names in the order the navigation lists them. */
  const NavItems: seq<string> := [DefaultTab] + TabOrder

  /** The nav item marked active for each position. */
  function ActiveFlags(path: string): (r: seq<bool>)
    ensures |r| == |NavItems|
    ensures forall i :: 0 <= i < |NavItems| ==> (r[i] <==> NavItems[i] == ActiveTab(path))
  {
    seq(|NavItems|, i requires 0 <= i < |NavItems| => NavItems[i] == ActiveTab(path))
  }

  /** Exactly one nav item is marked active, whatever the path. */
  lemma ExactlyOneActive(path: string)
    ensures exists i :: 0 <= i < |NavItems| && ActiveFlags(path)[i]
    ensures forall i, j :: 0 <= i < j < |NavItems| && ActiveFlags(path)[i] ==> !ActiveFlags(path)[j]
  {
    var t := ActiveTab(path);
    var flags := ActiveFlags(path);
    assert NavItems == ["dashboard", "upload", "progress", "visits", "users", "reports"];
    if t == DefaultTab {
      assert flags[0];
    } else {
      var k :| 0 <= k < |TabOrder| && TabOrder[k] == t;
      assert NavItems[k + 1] == t;
      assert flags[k + 1];
    }
  }
}
