/**
 * The application shell (App.tsx): the session state its handlers update,
 * and the routes, with their authentication and memorial gates.
 *
 * Each handler is a method of `Session` that moves the state the way `Apply`
 * says for the matching event; the lemmas about `Run` are about whole
 * sequences of handler calls.
 */
module App {
  import opened Types

  /** The session state: authentication, the two modal flags, the project being worked on. */
  datatype State = State(
    isAuthenticated: bool,
    isServiceModalOpen: bool,
    isProjectModalOpen: bool,
    services: seq<ServiceItem>,
    projectDetails: Option<ProjectDetails>,
    memorialGenerated: bool)

  const Initial := State(false, false, false, [], None, false)

  /** What a user can do, one event per handler or inline callback. */
  datatype Event =
    | Login                                  // handleLogin
    | Logout                                 // handleLogout
    | StartNewProject                        // startNewProject
    | SubmitProjectDetails(details: ProjectDetails)  // handleProjectDetailsSubmit
    | AddService(item: ServiceItem)          // handleAddService
    | MemorialComplete                       // handleMemorialComplete
    | OpenServiceModal                       // the dashboard's add-service button
    | CloseServiceModal                      // the service modal's onClose
    | CloseProjectModal                      // the project modal's onClose

  /** The state after one event. */
  function Apply(s: State, e: Event): State
  {
    match e
    case Login => s.(isAuthenticated := true)
    case Logout => s.(isAuthenticated := false, services := [], projectDetails := None, memorialGenerated := false)
    case StartNewProject => s.(services := [], memorialGenerated := false, projectDetails := None, isProjectModalOpen := true)
    case SubmitProjectDetails(d) => s.(projectDetails := Some(d), isProjectModalOpen := false, isServiceModalOpen := true)
    case AddService(item) => s.(services := s.services + [item], isServiceModalOpen := false, memorialGenerated := false)
    case MemorialComplete => s.(memorialGenerated := true)
    case OpenServiceModal => s.(isServiceModalOpen := true)
    case CloseServiceModal => s.(isServiceModalOpen := false)
    case CloseProjectModal => s.(isProjectModalOpen := false)
  }

  /** The state after a sequence of events, first to last. */
  function Run(s: State, trace: seq<Event>): State
  {
    if |trace| == 0 then s else Apply(Run(s, trace[..|trace| - 1]), trace[|trace| - 1])
  }

  /** Events that empty the service list and withdraw the memorial. */
  predicate Resets(e: Event)
  {
    e.Logout? || e.StartNewProject?
  }

  /** Events that withdraw a generated memorial. */
  predicate Invalidates(e: Event)
  {
    Resets(e) || e.AddService?
  }

  // ---------------------------------------------------------------- the handlers

  class Session {
    var isAuthenticated: bool
    var isServiceModalOpen: bool
    var isProjectModalOpen: bool
    var services: seq<ServiceItem>
    var projectDetails: Option<ProjectDetails>
    var memorialGenerated: bool

    function Current(): State
      reads this
    {
      State(isAuthenticated, isServiceModalOpen, isProjectModalOpen, services, projectDetails, memorialGenerated)
    }

    constructor()
      ensures Current() == Initial
    {
      isAuthenticated, isServiceModalOpen, isProjectModalOpen := false, false, false;
      services, projectDetails, memorialGenerated := [], None, false;
    }

    method HandleLogin()
      modifies this
      ensures Current() == Apply(old(Current()), Login)
      ensures isAuthenticated
    {
      isAuthenticated := true;
    }

    method HandleLogout()
      modifies this
      ensures Current() == Apply(old(Current()), Logout)
      ensures !isAuthenticated && services == [] && projectDetails.None? && !memorialGenerated
    {
      isAuthenticated := false;
      services := [];
      projectDetails := None;
      memorialGenerated := false;
    }

    method StartNewProject()
      modifies this
      ensures Current() == Apply(old(Current()), Event.StartNewProject)
      ensures services == [] && !memorialGenerated && projectDetails.None? && isProjectModalOpen
    {
      services := [];
      memorialGenerated := false;
      projectDetails := None;
      isProjectModalOpen := true;
    }

    method HandleProjectDetailsSubmit(details: ProjectDetails)
      modifies this
      ensures Current() == Apply(old(Current()), SubmitProjectDetails(details))
      ensures projectDetails == Some(details) && !isProjectModalOpen && isServiceModalOpen
      ensures services == old(services)
    {
      projectDetails := Some(details);
      isProjectModalOpen := false;
      isServiceModalOpen := true;
    }

    method HandleAddService(item: ServiceItem)
      modifies this
      ensures Current() == Apply(old(Current()), AddService(item))
      ensures |services| == |old(services)| + 1 && services[..|old(services)|] == old(services)
      ensures services[|services| - 1] == item
      ensures !isServiceModalOpen && !memorialGenerated
    {
      services := services + [item];
      isServiceModalOpen := false;
      memorialGenerated := false;
    }

    method HandleMemorialComplete()
      modifies this
      ensures Current() == Apply(old(Current()), MemorialComplete)
      ensures memorialGenerated
    {
      memorialGenerated := true;
    }

    method OpenServiceModal()
      modifies this
      ensures Current() == Apply(old(Current()), Event.OpenServiceModal)
    {
      isServiceModalOpen := true;
    }

    method CloseServiceModal()
      modifies this
      ensures Current() == Apply(old(Current()), Event.CloseServiceModal)
    {
      isServiceModalOpen := false;
    }

    method CloseProjectModal()
      modifies this
      ensures Current() == Apply(old(Current()), Event.CloseProjectModal)
    {
      isProjectModalOpen := false;
    }
  }

  // ---------------------------------------------------------------- properties of runs

  /** Nothing but the memorial completion sets the flag; of all events only the three invalidating ones clear it. */
  lemma ApplyMemorialFlag(s: State, e: Event)
    ensures Apply(s, e).memorialGenerated ==> s.memorialGenerated || e.MemorialComplete?
    ensures Invalidates(e) ==> !Apply(s, e).memorialGenerated
    ensures !Invalidates(e) && s.memorialGenerated ==> Apply(s, e).memorialGenerated
  {
  }

  /**
   * After any run, the memorial counts as generated exactly when the memorial
   * was completed at some point and neither a service was added nor the
   * project reset since (or the flag was already set and nothing
   * invalidated it).
   */
  lemma {:induction false} MemorialFlagOfRun(s: State, trace: seq<Event>)
    ensures Run(s, trace).memorialGenerated <==>
      (|| (exists k | 0 <= k < |trace| :: trace[k].MemorialComplete? && NoInvalidationAfter(trace, k + 1))
       || (s.memorialGenerated && NoInvalidationAfter(trace, 0)))
  {
    if |trace| > 0 {
      var n := |trace| - 1;
      var init := trace[..n];
      var e := trace[n];
      MemorialFlagOfRun(s, init);
      ApplyMemorialFlag(Run(s, init), e);
      forall k | 0 <= k <= n ensures NoInvalidationAfter(trace, k) <==> NoInvalidationAfter(init, k) && !Invalidates(e) {
        assert forall j | k <= j < n :: trace[j] == init[j];
      }
      if Run(s, trace).memorialGenerated && !e.MemorialComplete? {
        if s.memorialGenerated && NoInvalidationAfter(init, 0) {
        } else {
          var k :| 0 <= k < n && init[k].MemorialComplete? && NoInvalidationAfter(init, k + 1);
          assert trace[k].MemorialComplete?;
        }
      }
      if e.MemorialComplete? {
        assert NoInvalidationAfter(trace, n + 1);
      }
    }
  }

  /** No invalidating event from position `k` on. */
  predicate NoInvalidationAfter(trace: seq<Event>, k: nat)
  {
    forall j | k <= j < |trace| :: !Invalidates(trace[j])
  }

  /** The items of the `AddService` events of a trace, in order. */
  function AddedItems(trace: seq<Event>): seq<ServiceItem>
  {
    if |trace| == 0 then []
    else
      var e := trace[|trace| - 1];
      AddedItems(trace[..|trace| - 1]) + (if e.AddService? then [e.item] else [])
  }

  /**
   * While the project is not reset, the service list grows by the added
   * items, in the order they were added, and nothing already in it changes.
   */
  lemma {:induction false} ServicesOfRun(s: State, trace: seq<Event>)
    requires forall j | 0 <= j < |trace| :: !Resets(trace[j])
    ensures Run(s, trace).services == s.services + AddedItems(trace)
  {
    if |trace| > 0 {
      var n := |trace| - 1;
      ServicesOfRun(s, trace[..n]);
      var e := trace[n];
      if e.AddService? {
        assert s.services + AddedItems(trace) == (s.services + AddedItems(trace[..n])) + [e.item];
      } else {
        assert AddedItems(trace) == AddedItems(trace[..n]);
      }
    }
  }

  /** After a reset, the service list holds exactly the items added since. */
  lemma ServicesAfterReset(s: State, before: seq<Event>, reset: Event, after: seq<Event>)
    requires Resets(reset)
    requires forall j | 0 <= j < |after| :: !Resets(after[j])
    ensures Run(s, before + [reset] + after).services == AddedItems(after)
  {
    RunAppend(s, before + [reset], after);
    assert (before + [reset])[..|before|] == before;
    ServicesOfRun(Run(s, before + [reset]), after);
  }

  lemma {:induction false} RunAppend(s: State, a: seq<Event>, b: seq<Event>)
    ensures Run(s, a + b) == Run(Run(s, a), b)
  {
    if |b| == 0 {
      assert a + b == a;
    } else {
      var n := |b| - 1;
      RunAppend(s, a, b[..n]);
      assert (a + b)[..|a + b| - 1] == a + b[..n];
    }
  }

  // ---------------------------------------------------------------- routes

  /** The paths the router knows; `Unknown` stands for every other path (`*`). */
  datatype Path = LoginPath | RegisterPath | DashboardPath | MemorialPath | BudgetPath
    | ArtifactsPath | CdhuUpdatePath | HelpPath | Unknown

  /** What a path shows. */
  datatype Page = LoginPage | RegisterPage | DashboardPage | MemorialPage | BudgetPage
    | ArtifactsPage | CdhuUpdatePage | HelpPage

  /** One route's element: a page, or a `Navigate` to another path. */
  datatype Element = Show(page: Page) | Navigate(to: Path)

  /** The element of each route, given the two flags it depends on. */
  function RouteElement(path: Path, authenticated: bool, memorialGenerated: bool): Element
  {
    match path
    case LoginPath => if authenticated then Navigate(DashboardPath) else Show(LoginPage)
    case RegisterPath => if authenticated then Navigate(DashboardPath) else Show(RegisterPage)
    case Unknown => Navigate(LoginPath)
    case _ =>
      // every other route is wrapped in PrivateRoute
      if !authenticated then Navigate(LoginPath)
      else match path
        case DashboardPath => Show(DashboardPage)
        case MemorialPath => Show(MemorialPage)
        case BudgetPath => if memorialGenerated then Show(BudgetPage) else Navigate(MemorialPath)
        case ArtifactsPath => if memorialGenerated then Show(ArtifactsPage) else Navigate(MemorialPath)
        case CdhuUpdatePath => Show(CdhuUpdatePage)
        case HelpPath => Show(HelpPage)
  }

  /** Following at most `fuel` redirects from `path`. */
  function Follow(path: Path, authenticated: bool, memorialGenerated: bool, fuel: nat): Option<Page>
    decreases fuel
  {
    match RouteElement(path, authenticated, memorialGenerated)
    case Show(page) => Some(page)
    case Navigate(to) => if fuel == 0 then None else Follow(to, authenticated, memorialGenerated, fuel - 1)
  }

  /** The page a path finally shows; two redirects always suffice. */
  function Resolve(path: Path, authenticated: bool, memorialGenerated: bool): (page: Page)
    ensures Follow(path, authenticated, memorialGenerated, 2) == Some(page)
  {
    var r := Follow(path, authenticated, memorialGenerated, 2);
    assert r.Some?;
    r.value
  }

  /**
   * Signed out, only the sign-in and registration pages show, and a path
   * shows the registration page only when asked for; signed in, those two
   * never show.
   */
  lemma AuthenticationGate(path: Path, authenticated: bool, memorialGenerated: bool)
    ensures var page := Resolve(path, authenticated, memorialGenerated);
      && (!authenticated ==> (page == RegisterPage <==> path == RegisterPath) && (page == LoginPage <==> path != RegisterPath))
      && (authenticated ==> page != LoginPage && page != RegisterPage)
  {
  }

  /**
   * The budget and the artifacts show only after the memorial was generated;
   * before, they send the signed-in user to the memorial.
   */
  lemma MemorialGate(path: Path, authenticated: bool, memorialGenerated: bool)
    ensures var page := Resolve(path, authenticated, memorialGenerated);
      && ((page == BudgetPage || page == ArtifactsPage) ==> authenticated && memorialGenerated)
      && (authenticated && !memorialGenerated && (path == BudgetPath || path == ArtifactsPath) ==> page == MemorialPage)
      && (authenticated && memorialGenerated && path == BudgetPath ==> page == BudgetPage)
      && (authenticated && memorialGenerated && path == ArtifactsPath ==> page == ArtifactsPage)
  {
  }

  /** A signed-in user asking for an unknown path, the sign-in or the registration page lands on the dashboard. */
  lemma SignedInFallback(path: Path, memorialGenerated: bool)
    requires path == Unknown || path == LoginPath || path == RegisterPath
    ensures Resolve(path, true, memorialGenerated) == DashboardPage
  {
  }

  /**
   * On a session, the budget page is reachable after a run only if the memorial
   * was completed after the last added service and the last reset.
   */
  lemma BudgetNeedsFreshMemorial(trace: seq<Event>)
    requires Resolve(BudgetPath, Run(Initial, trace).isAuthenticated, Run(Initial, trace).memorialGenerated) == BudgetPage
    ensures exists k | 0 <= k < |trace| :: trace[k].MemorialComplete? && NoInvalidationAfter(trace, k + 1)
  {
    MemorialGate(BudgetPath, Run(Initial, trace).isAuthenticated, Run(Initial, trace).memorialGenerated);
    MemorialFlagOfRun(Initial, trace);
  }
}
