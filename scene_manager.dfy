/**
 * SceneManagerImpl's browser-style navigation history: a back stack, a forward stack
 * and the current route. Stacks are sequences whose last element is the top.
 * Loading FXML, stage sizing and listeners are not modelled; whether an FXML load
 * succeeds is a parameter.
 */
module SceneManager {

  /** Routes.LOGIN, where the program starts. */
  const LoginRoute: string := "areas/login/login_view.fxml"

  /** The scene name the one-argument switchToScene passes on. */
  const DefaultSceneName: string := "SoundLink"

  datatype History = History(back: seq<string>, forward: seq<string>, current: string)

  /** navigate(newRoute). */
  function NavigateTo(h: History, newRoute: string): History {
    if newRoute == h.current then h
    else History(h.back + [h.current], [], newRoute)
  }

  /** navigateBack(). */
  function Back(h: History): History {
    if h.back == [] then h
    else History(h.back[..|h.back| - 1], h.forward + [h.current], h.back[|h.back| - 1])
  }

  /** navigateForward(). */
  function Forward(h: History): History {
    if h.forward == [] then h
    else History(h.back + [h.current], h.forward[..|h.forward| - 1], h.forward[|h.forward| - 1])
  }

  /** switchToScene: on a successful load the scene name becomes current and both stacks are emptied. */
  function SwitchScene(h: History, sceneName: string, loaded: bool): History {
    if loaded then History([], [], sceneName) else h
  }

  /** switchToOutletScene: on a successful load the FXML path becomes current; the stacks are kept. */
  function SwitchOutlet(h: History, fxmlFileName: string, loaded: bool): History {
    if loaded then h.(current := fxmlFileName) else h
  }

  function Reverse(s: seq<string>): (r: seq<string>)
    ensures |r| == |s|
    ensures forall i :: 0 <= i < |s| ==> r[i] == s[|s| - 1 - i]
  {
    if s == [] then [] else [s[|s| - 1]] + Reverse(s[..|s| - 1])
  }

  /**
   * The whole visited line of routes, oldest first: the back stack bottom to top, the
   * current route, then the forward stack top to bottom. The current route sits at
   * position |back|.
   */
  function Timeline(h: History): (t: seq<string>)
    ensures |t| == |h.back| + 1 + |h.forward|
    ensures t[|h.back|] == h.current
  {
    h.back + [h.current] + Reverse(h.forward)
  }

  /** Navigating to the route already shown changes nothing. */
  lemma NavigateSameRoute(h: History)
    ensures NavigateTo(h, h.current) == h
  {
  }

  /**
   * Navigating elsewhere keeps every route visited up to now, appends the new one,
   * and throws the forward part away: afterwards there is history and no future.
   */
  lemma NavigateNewRoute(h: History, newRoute: string)
    requires newRoute != h.current
    ensures Timeline(NavigateTo(h, newRoute)) == h.back + [h.current, newRoute]
    ensures NavigateTo(h, newRoute).back != [] && NavigateTo(h, newRoute).forward == []
    ensures NavigateTo(h, newRoute).current == newRoute
  {
    assert Reverse([]) == [];
  }

  lemma {:induction false} ReverseSnoc(s: seq<string>, x: string)
    ensures Reverse(s + [x]) == [x] + Reverse(s)
  {
    assert (s + [x])[..|s|] == s;
  }

  /** Going back moves one step left along the same timeline. */
  lemma BackKeepsTimeline(h: History)
    requires h.back != []
    ensures Timeline(Back(h)) == Timeline(h)
    ensures |Back(h).back| == |h.back| - 1
  {
    var b := h.back[..|h.back| - 1];
    ReverseSnoc(h.forward, h.current);
    assert h.back == b + [h.back[|h.back| - 1]];
  }

  /** Going forward moves one step right along the same timeline. */
  lemma ForwardKeepsTimeline(h: History)
    requires h.forward != []
    ensures Timeline(Forward(h)) == Timeline(h)
    ensures |Forward(h).back| == |h.back| + 1
  {
    var f := h.forward[..|h.forward| - 1];
    assert h.forward == f + [h.forward[|h.forward| - 1]];
    ReverseSnoc(f, h.forward[|h.forward| - 1]);
  }

  /** Back then forward restores the route and both stacks exactly. */
  lemma BackThenForward(h: History)
    requires h.back != []
    ensures Forward(Back(h)) == h
  {
    assert h.back[..|h.back| - 1] + [h.back[|h.back| - 1]] == h.back;
  }

  /** Forward then back restores the route and both stacks exactly. */
  lemma ForwardThenBack(h: History)
    requires h.forward != []
    ensures Back(Forward(h)) == h
  {
    assert h.forward[..|h.forward| - 1] + [h.forward[|h.forward| - 1]] == h.forward;
  }

  /** Back and forward moves, and their no-op cases, keep |back| + |forward|. */
  lemma MovesKeepSize(h: History)
    ensures |Back(h).back| + |Back(h).forward| == |h.back| + |h.forward|
    ensures |Forward(h).back| + |Forward(h).forward| == |h.back| + |h.forward|
  {
  }

  /** With an empty stack the matching move is a no-op. */
  lemma EmptyStackNoOp(h: History)
    ensures h.back == [] ==> Back(h) == h
    ensures h.forward == [] ==> Forward(h) == h
  {
  }

  /** After a successful switchToScene only the new scene is left in the history. */
  lemma SwitchSceneResets(h: History, sceneName: string)
    ensures Timeline(SwitchScene(h, sceneName, true)) == [sceneName]
    ensures SwitchScene(h, sceneName, true).back == [] && SwitchScene(h, sceneName, true).forward == []
  {
    assert Reverse([]) == [];
  }

  /** A direct outlet switch replaces only the current route: the stacks and |back| stay. */
  lemma SwitchOutletKeepsStacks(h: History, fxmlFileName: string, loaded: bool)
    ensures SwitchOutlet(h, fxmlFileName, loaded).back == h.back
    ensures SwitchOutlet(h, fxmlFileName, loaded).forward == h.forward
    ensures SwitchOutlet(h, fxmlFileName, loaded).current == if loaded then fxmlFileName else h.current
  {
  }

  class SceneManagerImpl {

    var backStack: seq<string>
    var forwardStack: seq<string>
    var currentRoute: string

    function State(): History
      reads this
    {
      History(backStack, forwardStack, currentRoute)
    }

    /** The program starts at the login route with no history and no future. */
    constructor ()
      ensures State() == History([], [], LoginRoute)
      ensures !HasHistory() && !HasFuture()
    {
      backStack := [];
      forwardStack := [];
      currentRoute := LoginRoute;
    }

    /** hasHistory: the back stack is non-empty. */
    predicate HasHistory()
      reads this
    {
      backStack != []
    }

    /** hasFuture: the forward stack is non-empty. */
    predicate HasFuture()
      reads this
    {
      forwardStack != []
    }

    method SwitchToScene(fxmlFileName: string, sceneName: string, loaded: bool)
      modifies this
      ensures State() == SwitchScene(old(State()), sceneName, loaded)
    {
      if loaded {
        currentRoute := sceneName;
        backStack := [];
        forwardStack := [];
      }
    }

    /** The one-argument switchToScene, which names every such scene "SoundLink". */
    method SwitchToDefaultScene(fxmlFileName: string, loaded: bool)
      modifies this
      ensures State() == SwitchScene(old(State()), DefaultSceneName, loaded)
    {
      SwitchToScene(fxmlFileName, DefaultSceneName, loaded);
    }

    method SwitchToOutletScene(fxmlFileName: string, loaded: bool)
      modifies this
      ensures State() == SwitchOutlet(old(State()), fxmlFileName, loaded)
    {
      if loaded {
        currentRoute := fxmlFileName;
      }
    }

    /**
     * navigate: the outlet switch it makes re-assigns the route it has just made current,
     * so whether that load succeeds does not matter.
     */
    method Navigate(newRoute: string, loaded: bool)
      modifies this
      ensures State() == NavigateTo(old(State()), newRoute)
    {
      if newRoute != currentRoute {
        backStack := backStack + [currentRoute];
        forwardStack := [];
        currentRoute := newRoute;
        SwitchToOutletScene(currentRoute, loaded);
      }
    }

    method NavigateBack(loaded: bool)
      modifies this
      ensures State() == Back(old(State()))
    {
      if backStack != [] {
        forwardStack := forwardStack + [currentRoute];
        currentRoute := backStack[|backStack| - 1];
        backStack := backStack[..|backStack| - 1];
        SwitchToOutletScene(currentRoute, loaded);
      }
    }

    method NavigateForward(loaded: bool)
      modifies this
      ensures State() == Forward(old(State()))
    {
      if forwardStack != [] {
        backStack := backStack + [currentRoute];
        currentRoute := forwardStack[|forwardStack| - 1];
        forwardStack := forwardStack[..|forwardStack| - 1];
        SwitchToOutletScene(currentRoute, loaded);
      }
    }
  }
}
