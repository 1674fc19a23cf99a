/**
 * The entry point and the loop (src/renderer.ts): `render` mounts or
 * reuses the root fiber and requests a pass; `workLoop` performs units of
 * work until there are none left or the idle deadline has passed, then
 * commits a finished pass or asks for another idle callback.
 */
module Renderer {
  import opened Values
  import opened Vdom
  import opened Host
  import opened Fibers
  import opened Schedule
  import opened Work
  import opened Commit
  import opened Events

  /** `{ children: [vnode] }` */
  function RootProps(v: VNode): Props {
    Props(map[], [Node(v)])
  }

  /** The root's description: a "div" with the same children and no key. */
  function RootVNode(v: VNode): VNode {
    VNode(Tag("div"), RootProps(v), Undefined)
  }

  /** `createFiber("ROOT")` with the container as its host node. */
  function RootFiber(c: NodeId): FiberRec {
    CreateFiber(Tag("ROOT"), Null).(stateNode := Some(c))
  }

  /**
   * The first call's set-up: a fresh root fiber becomes the current root,
   * and the container listens for the supported events.
   */
  function MountRoot(w: World, c: NodeId): (r: (World, FiberId))
    requires Valid(w) && c in w.dom
    ensures Valid(r.0) && r.1 !in w.fibers && r.0.currentRoot == Some(r.1)
    ensures r.0.fibers == w.fibers[r.1 := RootFiber(c)]
    ensures r.0.dom == w.dom[c := w.dom[c].(listeners := Register(w.dom[c].listeners, SupportedEvents))]
    ensures r.0 == w.(fibers := r.0.fibers, rank := r.0.rank, nextFiberId := r.0.nextFiberId,
                      currentRoot := r.0.currentRoot, dom := r.0.dom)
  {
    var step := AllocFiber(w, RootFiber(c), 0);
    var w1 := step.0.(currentRoot := Some(step.1));
    StateChangeKeepsValid(step.0, w1);
    (SetupEventSystem(w1, c), step.1)
  }

  /**
   * `render(vnode, container)`: on the first call the root is mounted on
   * `container`; on every call the root's props and description are set
   * to hold `vnode` as the only child, and an update is scheduled on the
   * root. Later calls ignore `container`.
   */
  function Render(w: World, v: VNode, c: NodeId): (r: World)
    requires Valid(w) && c in w.dom
  {
    var m := if w.currentRoot.None? then MountRoot(w, c) else (w, w.currentRoot.value);
    var w1 := m.0;
    var root := m.1;
    assert FiberOk(w1, root);
    var w2 := SetFiber(w1, root, w1.fibers[root].(pendingProps := RootProps(v), vnode := Some(RootVNode(v))));
    ScheduleUpdate(w2, root)
  }

  /** The first call mounts a root on the container and starts a pass that renders `vnode` into it. */
  lemma FirstRenderMounts(w: World, v: VNode, c: NodeId)
    requires Valid(w) && c in w.dom && w.currentRoot.None? && !w.isRendering
    ensures var r := Render(w, v, c);
      Valid(r) && r.currentRoot == Some(w.nextFiberId) && w.nextFiberId in r.fibers &&
      r.fibers[w.nextFiberId].stateNode == Some(c) &&
      (forall t :: t in SupportedEvents ==> t in r.dom[c].listeners) &&
      r.isRendering && r.wipRoot.Some? && r.nextUnit == r.wipRoot &&
      r.fibers[r.wipRoot.value].alternate == Some(w.nextFiberId) &&
      r.fibers[r.wipRoot.value].pendingProps == RootProps(v) &&
      r.fibers[r.wipRoot.value].vnode == Some(RootVNode(v)) &&
      r.fibers[r.wipRoot.value].stateNode == Some(c)
  {
    var m := MountRoot(w, c);
    var root := m.1;
    assert FiberOk(m.0, root);
    var w2 := SetFiber(m.0, root, m.0.fibers[root].(pendingProps := RootProps(v), vnode := Some(RootVNode(v))));
    assert FindRoot(w2, root) == root;
  }

  /**
   * A later call with no pass in flight starts one on the twin of the
   * current root (of its root, should it have a parent) and mounts nothing.
   */
  lemma LaterRenderReusesRoot(w: World, v: VNode, c: NodeId)
    requires Valid(w) && c in w.dom && w.currentRoot.Some? && !w.isRendering
    ensures var r := Render(w, v, c); var root := w.currentRoot.value;
      Valid(r) && r.currentRoot == w.currentRoot && r.dom == w.dom &&
      r.isRendering && r.wipRoot.Some? && r.nextUnit == r.wipRoot &&
      (w.fibers[root].parent.None? ==>
        r.fibers[r.wipRoot.value].alternate == Some(root) &&
        r.fibers[r.wipRoot.value].pendingProps == RootProps(v) &&
        r.fibers[r.wipRoot.value].vnode == Some(RootVNode(v)))
  {
    var root := w.currentRoot.value;
    assert FiberOk(w, root);
    var w2 := SetFiber(w, root, w.fibers[root].(pendingProps := RootProps(v), vnode := Some(RootVNode(v))));
    if w.fibers[root].parent.None? {
      assert FindRoot(w2, root) == root;
    }
  }

  /** Once a root exists, the container argument makes no difference. */
  lemma LaterRenderIgnoresContainer(w: World, v: VNode, c: NodeId, c': NodeId)
    requires Valid(w) && c in w.dom && c' in w.dom && w.currentRoot.Some?
    ensures Render(w, v, c) == Render(w, v, c')
  {
  }

  /**
   * While a pass is in flight, `render` only rewrites the current root's
   * props: no pass starts, and the new `vnode` waits for the next request.
   */
  lemma RenderWhileRendering(w: World, v: VNode, c: NodeId)
    requires Valid(w) && c in w.dom && w.currentRoot.Some? && w.isRendering
    ensures var r := Render(w, v, c); var root := w.currentRoot.value;
      r.wipRoot == w.wipRoot && r.nextUnit == w.nextUnit && r.timers == w.timers &&
      r.fibers == w.fibers[root := w.fibers[root].(pendingProps := RootProps(v), vnode := Some(RootVNode(v)))]
  {
    assert FiberOk(w, w.currentRoot.value);
  }

  // ---------------------------------------------------------------------
  // workLoop

  /** What the loop leaves alone besides the units' own work. */
  predicate LoopFrame(w: World, w': World) {
    w'.wipRoot == w.wipRoot && w'.currentRoot == w.currentRoot &&
    w'.isRendering == w.isRendering && w'.scheduledCallback == w.scheduledCallback &&
    w'.timers == w.timers && w'.nextHandle == w.nextHandle
  }

  /** One turn of the loop: `nextUnitOfWork = performUnitOfWork(nextUnitOfWork)`. */
  function Step(w: World, code: UserCode): (r: World)
    requires Valid(w) && w.nextUnit.Some?
    ensures Valid(r) && LoopFrame(w, r) && w.fibers.Keys <= r.fibers.Keys
    ensures var s := PerformUnitOfWork(w, code, w.nextUnit.value); r == s.0.(nextUnit := s.1)
  {
    var step := PerformUnitOfWork(w, code, w.nextUnit.value);
    SetNextUnit(step.0, step.1)
  }

  /**
   * The `while` loop of `workLoop`: one unit after another, while there is
   * a next unit and the deadline has not passed. `budget` stands for the
   * deadline: `timeRemaining()` drops below 1 once `budget` units have
   * run (and at least one unit always runs). Also yields how many units ran.
   */
  function RunUnits(w: World, code: UserCode, budget: nat): (r: (World, nat))
    requires Valid(w)
    ensures Valid(r.0) && LoopFrame(w, r.0) && w.fibers.Keys <= r.0.fibers.Keys
    // nothing to do: nothing runs; otherwise between one unit and the budget
    ensures w.nextUnit.None? ==> r == (w, 0)
    ensures w.nextUnit.Some? ==> 1 <= r.1 && (r.1 <= budget || r.1 == 1)
    // the loop leaves work undone only when the deadline has passed
    ensures r.0.nextUnit.Some? ==> r.1 == if budget == 0 then 1 else budget
    decreases budget
  {
    if w.nextUnit.None? then (w, 0)
    else
      var w1 := Step(w, code);
      if budget <= 1 then (w1, 1)
      else
        var rest := RunUnits(w1, code, budget - 1);
        (rest.0, rest.1 + 1)
  }

  /** `requestIdleCallback(workLoop)`: the handle is not stored. */
  function RequestCallback(w: World): (r: World)
    requires Valid(w)
    ensures Valid(r)
    ensures r == w.(timers := w.timers + [RequestIdle(w.nextHandle)], nextHandle := w.nextHandle + 1)
  {
    var r := w.(timers := w.timers + [RequestIdle(w.nextHandle)], nextHandle := w.nextHandle + 1);
    StateChangeKeepsValid(w, r);
    r
  }

  /**
   * After the loop of `workLoop`: a pass with no unit left is committed;
   * a pass with units left asks for another idle callback.
   */
  function AfterLoop(w: World, code: UserCode): (r: World)
    requires Valid(w)
    ensures Valid(r)
  {
    if w.nextUnit.None? && w.wipRoot.Some? then CommitRoot(w, code)
    else if w.nextUnit.Some? then RequestCallback(w)
    else w
  }

  /** `workLoop(deadline)`: the loop, then the commit or the request for more time. */
  function WorkLoop(w: World, code: UserCode, budget: nat): (r: World)
    requires Valid(w)
    ensures Valid(r)
  {
    AfterLoop(RunUnits(w, code, budget).0, code)
  }

  /**
   * A pass is committed exactly when no unit is left after the loop:
   * the work-in-progress root becomes the current root and the engine is
   * idle again. Before that, neither root changes.
   */
  lemma CommitExactlyWhenPassDone(w: World, code: UserCode, budget: nat)
    requires Valid(w) && w.wipRoot.Some?
    ensures var u := RunUnits(w, code, budget).0; var r := WorkLoop(w, code, budget);
      (u.nextUnit.None? ==>
        r.currentRoot == w.wipRoot && r.wipRoot.None? && !r.isRendering &&
        r.scheduledCallback == w.scheduledCallback && r.timers == w.timers) &&
      (u.nextUnit.Some? ==>
        r.currentRoot == w.currentRoot && r.wipRoot == w.wipRoot && r.isRendering == w.isRendering &&
        r.scheduledCallback == w.scheduledCallback &&
        r.timers == w.timers + [RequestIdle(w.nextHandle)] && r.nextHandle == w.nextHandle + 1)
  {
  }

  /** Work left over at the deadline is never committed: the loop yields and asks to be called again. */
  lemma NoCommitMidPass(w: World, code: UserCode, budget: nat)
    requires Valid(w) && w.wipRoot.Some? && RunUnits(w, code, budget).0.nextUnit.Some?
    ensures WorkLoop(w, code, budget).wipRoot == w.wipRoot
    ensures RunUnits(w, code, budget).1 == if budget == 0 then 1 else budget
  {
  }

  /** With no pass in flight and no unit queued, the loop changes nothing. */
  lemma IdleLoopIsNoOp(w: World, code: UserCode, budget: nat)
    requires Valid(w) && w.nextUnit.None? && w.wipRoot.None?
    ensures WorkLoop(w, code, budget) == w
  {
  }
}
