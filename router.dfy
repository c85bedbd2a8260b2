/**
 * `frontend/src/router/index.js`: the route table and the `beforeEach` guard.
 * A path is its sequence of segments (`/profile/7` is `["profile", "7"]`, `/`
 * is `[]`); the store's `isAuthenticated` is the parameter `authenticated`.
 */
module Router {
  import opened Wrappers

  /** A segment of a route's path: a fixed word, or a `:param` that takes any non-empty segment. */
  datatype Segment = Static(text: string) | Param(name: string)

  /** A route record: its path pattern, its name, its `redirect`, and `meta.requiresAuth` (absent is false). */
  datatype Record = Record(pattern: seq<Segment>, name: Option<string>, redirect: Option<seq<string>>, requiresAuth: bool)

  /** The outcome of the guard: `next()` or `next(path)`. */
  datatype Decision = Next | NextTo(path: seq<string>)

  /** The route being entered: its path, its name and the records it matched. */
  datatype Location = Location(path: seq<string>, name: Option<string>, matched: seq<Record>)

  const LoginPath: seq<string> := ["login"]
  const DashboardPath: seq<string> := ["dashboard"]

  function Named(pattern: seq<Segment>, name: string, requiresAuth: bool): Record {
    Record(pattern, Some(name), None, requiresAuth)
  }

  /** The table, in its order. */
  function Routes(): seq<Record> {
    [ Record([], None, Some(DashboardPath), false),
      Named([Static("login")], "Login", false),
      Named([Static("register")], "Register", false),
      Named([Static("dashboard")], "Dashboard", true),
      Named([Static("chat")], "Chat", true),
      Named([Static("profile"), Static("me")], "MyProfile", true),
      Named([Static("profile"), Static("edit")], "ProfileEdit", true),
      Named([Static("profile"), Param("userId")], "ProfileView", true),
      Named([Static("publications")], "PublicationList", true),
      Named([Static("publications"), Static("new")], "CreatePublication", true),
      Named([Static("publications"), Param("publicationId")], "PublicationDetail", true),
      Named([Static("publications"), Param("publicationId"), Static("edit")], "EditPublication", true),
      Named([Static("search")], "Search", true) ]
  }

  predicate SegmentMatches(s: Segment, piece: string) {
    match s
    case Static(text) => piece == text
    case Param(_) => piece != []
  }

  predicate Matches(pattern: seq<Segment>, path: seq<string>) {
    |pattern| == |path| && forall k | 0 <= k < |path| :: SegmentMatches(pattern[k], path[k])
  }

  /** The first record whose pattern matches the path; none when no record does. */
  function FirstMatch(rs: seq<Record>, path: seq<string>): (r: Option<Record>)
    ensures r.Some? ==> r.value in rs && Matches(r.value.pattern, path)
    ensures r.None? <==> forall q | q in rs :: !Matches(q.pattern, path)
  {
    if rs == [] then None
    else if Matches(rs[0].pattern, path) then Some(rs[0])
    else FirstMatch(rs[1..], path)
  }

  /**
   * The location a path resolves to: the matched record, or the record its
   * redirect target matches; an unknown path matches nothing.
   */
  function Resolve(path: seq<string>): (l: Location)
    ensures l.matched == [] || (|l.matched| == 1 && l.matched[0] in Routes() && l.name == l.matched[0].name)
  {
    match FirstMatch(Routes(), path)
    case None => Location(path, None, [])
    case Some(r) =>
      if r.redirect.None? then Location(path, r.name, [r])
      else
        var target := r.redirect.value;
        match FirstMatch(Routes(), target)
        case None => Location(target, None, [])
        case Some(t) => Location(target, t.name, [t])
  }

  /** `to.matched.some(record => record.meta.requiresAuth)`. */
  function RequiresAuth(matched: seq<Record>): (b: bool)
    ensures b <==> exists r | r in matched :: r.requiresAuth
  {
    if matched == [] then false
    else matched[0].requiresAuth || RequiresAuth(matched[1..])
  }

  predicate IsLoginOrRegister(to: Location) {
    to.name == Some("Login") || to.name == Some("Register")
  }

  /**
   * The guard: a protected route without a session goes to `/login`; Login or
   * Register with a session go to `/dashboard`; everything else proceeds.
   */
  function Guard(to: Location, authenticated: bool): (d: Decision)
    ensures d == NextTo(LoginPath) <==> RequiresAuth(to.matched) && !authenticated
    ensures d == NextTo(DashboardPath) <==> !(RequiresAuth(to.matched) && !authenticated) && IsLoginOrRegister(to) && authenticated
    ensures d == Next <==> !(RequiresAuth(to.matched) && !authenticated) && !(IsLoginOrRegister(to) && authenticated)
  {
    if RequiresAuth(to.matched) && !authenticated then NextTo(LoginPath)
    else if IsLoginOrRegister(to) && authenticated then NextTo(DashboardPath)
    else Next
  }

  function Navigate(path: seq<string>, authenticated: bool): Decision {
    Guard(Resolve(path), authenticated)
  }

  /** The record at `i` is the one found when it matches and none before it does. */
  lemma {:induction false} FirstMatchAt(rs: seq<Record>, path: seq<string>, i: nat)
    requires i < |rs| && Matches(rs[i].pattern, path)
    requires forall j | 0 <= j < i :: !Matches(rs[j].pattern, path)
    ensures FirstMatch(rs, path) == Some(rs[i])
  {
    if i > 0 {
      FirstMatchAt(rs[1..], path, i - 1);
    }
  }

  lemma Mismatch(pattern: seq<Segment>, path: seq<string>, k: nat)
    requires k < |pattern| && k < |path| && !SegmentMatches(pattern[k], path[k])
    ensures !Matches(pattern, path)
  {
  }

  lemma DashboardMatch()
    ensures FirstMatch(Routes(), DashboardPath) == Some(Routes()[3])
  {
    var rs := Routes();
    assert "dashboard"[0] != "login"[0] && "dashboard"[0] != "register"[0];
    Mismatch(rs[1].pattern, DashboardPath, 0);
    Mismatch(rs[2].pattern, DashboardPath, 0);
    assert Matches(rs[3].pattern, DashboardPath);
    FirstMatchAt(rs, DashboardPath, 3);
  }

  /** `/` lands on the dashboard. */
  lemma RootIsDashboard()
    ensures Resolve([]) == Location(DashboardPath, Some("Dashboard"), [Routes()[3]])
    ensures RequiresAuth(Resolve([]).matched)
  {
    var root := Routes()[0];
    var r := Routes()[3];
    assert root.redirect == Some(DashboardPath) && Matches(root.pattern, []);
    assert r.name == Some("Dashboard") && r.requiresAuth;
    FirstMatchAt(Routes(), [], 0);
    DashboardMatch();
    ResolveFollowsRedirect([], root, r);
    assert RequiresAuth([r]);
  }

  /** A path whose record redirects resolves to the record its target matches. */
  lemma ResolveFollowsRedirect(path: seq<string>, r: Record, t: Record)
    requires FirstMatch(Routes(), path) == Some(r) && r.redirect.Some?
    requires FirstMatch(Routes(), r.redirect.value) == Some(t)
    ensures Resolve(path) == Location(r.redirect.value, t.name, [t])
  {
  }

  /** A path whose record does not redirect resolves to that record. */
  lemma ResolveDirect(path: seq<string>, r: Record)
    requires FirstMatch(Routes(), path) == Some(r) && r.redirect.None?
    ensures Resolve(path) == Location(path, r.name, [r])
  {
  }

  lemma LoginResolves()
    ensures Resolve(LoginPath) == Location(LoginPath, Some("Login"), [Routes()[1]])
  {
    var r := Routes()[1];
    assert r.name == Some("Login") && r.redirect.None?;
    FirstMatchAt(Routes(), LoginPath, 1);
    ResolveDirect(LoginPath, r);
  }

  lemma DashboardResolves()
    ensures Resolve(DashboardPath) == Location(DashboardPath, Some("Dashboard"), [Routes()[3]])
  {
    var r := Routes()[3];
    assert r.name == Some("Dashboard") && r.redirect.None?;
    DashboardMatch();
    ResolveDirect(DashboardPath, r);
  }

  /** Without a session `/login` is let through. */
  lemma LoginIsOpen()
    ensures Navigate(LoginPath, false) == Next
  {
    LoginResolves();
    assert !RequiresAuth([Routes()[1]]);
  }

  /** With a session `/dashboard` is let through. */
  lemma DashboardProceedsWithSession()
    ensures Navigate(DashboardPath, true) == Next
  {
    DashboardResolves();
    assert Some("Dashboard") != Some("Login") && Some("Dashboard") != Some("Register");
  }

  /**
   * No redirect loop: wherever the guard sends the user, the guard lets them
   * through there, signed in or not (`/login` is open, `/dashboard` is
   * protected and is neither Login nor Register).
   */
  lemma RedirectTargetsProceed(path: seq<string>, authenticated: bool)
    requires Navigate(path, authenticated).NextTo?
    ensures Navigate(Navigate(path, authenticated).path, authenticated) == Next
  {
    if Navigate(path, authenticated) == NextTo(LoginPath) {
      LoginIsOpen();
    } else {
      DashboardProceedsWithSession();
    }
  }

  /** Every named route is protected except Login and Register. */
  lemma OnlyLoginAndRegisterAreOpen()
    ensures forall r | r in Routes() && r.name.Some? :: r.requiresAuth <==> r.name.value != "Login" && r.name.value != "Register"
  {
  }

  /** `/profile/me` is the own profile, not the parameterised profile route listed after it. */
  lemma OwnProfileWins()
    ensures Resolve(["profile", "me"]).name == Some("MyProfile")
  {
    var rs := Routes();
    assert Matches(rs[5].pattern, ["profile", "me"]);
    FirstMatchAt(rs, ["profile", "me"], 5);
  }

  /** `/publications/new` is the editor, not the parameterised publication route listed after it. */
  lemma NewPublicationWins()
    ensures Resolve(["publications", "new"]).name == Some("CreatePublication")
  {
    var rs := Routes();
    var p := ["publications", "new"];
    assert "publications"[1] != "profile"[1];
    Mismatch(rs[5].pattern, p, 0);
    Mismatch(rs[6].pattern, p, 0);
    Mismatch(rs[7].pattern, p, 0);
    assert Matches(rs[9].pattern, p);
    FirstMatchAt(rs, p, 9);
  }

  /** Any other profile id is somebody's profile page, which needs a session. */
  lemma ProfileOfUserIsProtected(id: string)
    requires id != [] && id != "me" && id != "edit"
    ensures Resolve(["profile", id]).name == Some("ProfileView")
    ensures Navigate(["profile", id], false) == NextTo(LoginPath)
  {
    var rs := Routes();
    var p := ["profile", id];
    Mismatch(rs[5].pattern, p, 1);
    Mismatch(rs[6].pattern, p, 1);
    assert Matches(rs[7].pattern, p);
    FirstMatchAt(rs, p, 7);
  }

  /** A path no record matches is let through, with or without a session. */
  lemma UnknownPathProceeds(path: seq<string>, authenticated: bool)
    requires forall r | r in Routes() :: !Matches(r.pattern, path)
    ensures Navigate(path, authenticated) == Next
  {
  }
}
