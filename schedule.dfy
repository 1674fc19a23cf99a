/**
 * `scheduleUpdate(fiber)` (src/renderer.ts:41-63): the guarded,
 * coalescing start of a render pass.
 */
module Schedule {
  import opened Values
  import opened Vdom
  import opened Host
  import opened Fibers

  /** The fiber `k` steps up the `return` chain from `f`, if there is one. */
  function Ancestor(w: World, f: FiberId, k: nat): (r: Option<FiberId>)
    requires Valid(w) && f in w.fibers
    ensures r.Some? ==> r.value in w.fibers && r.value <= f
    decreases k
  {
    assert FiberOk(w, f);
    if k == 0 then Some(f)
    else if w.fibers[f].parent.None? then None
    else Ancestor(w, w.fibers[f].parent.value, k - 1)
  }

  /** The root of `f`: following `return` links until there is none. */
  function FindRoot(w: World, f: FiberId): (r: FiberId)
    requires Valid(w) && f in w.fibers
    ensures r in w.fibers && w.fibers[r].parent.None? && r <= f
    ensures exists k: nat :: Ancestor(w, f, k) == Some(r)
    decreases f
  {
    assert FiberOk(w, f);
    if w.fibers[f].parent.Some? then
      var p := w.fibers[f].parent.value;
      var r := FindRoot(w, p);
      var k: nat :| Ancestor(w, p, k) == Some(r);
      assert Ancestor(w, f, k + 1) == Some(r);
      r
    else
      assert Ancestor(w, f, 0) == Some(f);
      f
  }

  /** `cancelIdleCallback(fiberState.scheduledCallback)` when one is set. */
  function CancelScheduled(w: World): (r: World)
    requires Valid(w)
    ensures Valid(r) && r.scheduledCallback.None?
    ensures r == w.(scheduledCallback := None,
                    timers := w.timers + if w.scheduledCallback.Some? then [CancelIdle(w.scheduledCallback.value)] else [])
  {
    var r := w.(scheduledCallback := None,
                timers := w.timers + if w.scheduledCallback.Some? then [CancelIdle(w.scheduledCallback.value)] else []);
    StateChangeKeepsValid(w, r);
    r
  }

  /**
   * The second half of a request: the pass starts on the twin of `root`,
   * and a callback is requested.
   */
  /** The pass starts on `wip`, and the idle callback that will run it is requested and remembered. */
  function RequestPass(w: World, wip: FiberId): (r: World) {
    w.(wipRoot := Some(wip), nextUnit := Some(wip),
       scheduledCallback := Some(w.nextHandle), nextHandle := w.nextHandle + 1,
       timers := w.timers + [RequestIdle(w.nextHandle)])
  }

  function StartPass(w: World, root: FiberId): (r: World)
    requires Valid(w) && root in w.fibers
    ensures Valid(r)
    ensures w.fibers.Keys <= r.fibers.Keys
    ensures r.isRendering && r.wipRoot.Some? && r.nextUnit == r.wipRoot
    ensures r.fibers[r.wipRoot.value].alternate == Some(root) && r.fibers[r.wipRoot.value].child.None?
    ensures var t := r.fibers[r.wipRoot.value];
      t.pendingProps == w.fibers[root].pendingProps && t.vnode == w.fibers[root].vnode &&
      t.stateNode == w.fibers[root].stateNode
    ensures r.wipRoot.value in w.fibers ==> r.fibers[r.wipRoot.value].dirty == w.fibers[r.wipRoot.value].dirty
    ensures forall g :: g in w.fibers && Some(g) != r.wipRoot ==> r.fibers[g] == w.fibers[g]
    ensures r.scheduledCallback == Some(w.nextHandle) && r.timers == w.timers + [RequestIdle(w.nextHandle)]
    ensures r.currentRoot == w.currentRoot && r.currentFiber == w.currentFiber
    ensures r.pendingEffects == w.pendingEffects && r.deletions == w.deletions
    ensures r.hookLists == w.hookLists && r.dom == w.dom && r.calls == w.calls
  {
    StateChangeKeepsValid(w, w.(isRendering := true));
    var step := CreateWorkInProgress(w.(isRendering := true), root);
    var w1 := step.0;
    var wip := step.1;
    var r := RequestPass(w1, wip);
    StateChangeKeepsValid(w1, r);
    r
  }

  /**
   * `scheduleUpdate(fiber)`: ignored while a pass is in flight; otherwise
   * any scheduled callback is cancelled, `fiber` is marked dirty, and a
   * pass starts on the twin of its root with a new callback requested.
   */
  function ScheduleUpdate(w: World, f: FiberId): (r: World)
    requires Valid(w) && f in w.fibers
    ensures Valid(r)
    ensures w.fibers.Keys <= r.fibers.Keys
    ensures w.isRendering ==> r == w
    ensures !w.isRendering ==>
      r.isRendering && r.fibers[f].dirty &&
      r.wipRoot.Some? && r.nextUnit == r.wipRoot &&
      r.fibers[r.wipRoot.value].child.None? &&
      r.fibers[r.wipRoot.value].alternate == Some(FindRoot(w, f))
    // the twin starts from the root's props, description and host node
    ensures !w.isRendering ==>
      var t := r.fibers[r.wipRoot.value]; var src := w.fibers[FindRoot(w, f)];
      t.pendingProps == src.pendingProps && t.vnode == src.vnode && t.stateNode == src.stateNode
    ensures !w.isRendering ==>
      r.timers == w.timers +
        (if w.scheduledCallback.Some? then [CancelIdle(w.scheduledCallback.value)] else []) +
        [RequestIdle(w.nextHandle)] &&
      r.scheduledCallback == Some(w.nextHandle)
    ensures !w.isRendering ==>
      r.currentRoot == w.currentRoot && r.currentFiber == w.currentFiber &&
      r.pendingEffects == w.pendingEffects && r.deletions == w.deletions &&
      r.hookLists == w.hookLists && r.dom == w.dom && r.calls == w.calls
  {
    if w.isRendering then w
    else
      var w1 := CancelScheduled(w);
      assert FiberOk(w1, f);
      var w2 := SetFiber(w1, f, w1.fibers[f].(dirty := true));
      RootUnchanged(w, w2, f);
      var r := StartPass(w2, FindRoot(w2, f));
      assert r.fibers[f].dirty by {
        if r.wipRoot.value != f {
          assert r.fibers[f] == w2.fibers[f];
        }
      }
      r
  }

  /**
   * Outside a pass, `scheduleUpdate` changes no fiber but `fiber` and the
   * twin, and `fiber` only in `dirty` unless it is itself reused as the twin.
   */
  lemma ScheduleUpdateFrame(w: World, f: FiberId)
    requires Valid(w) && f in w.fibers && !w.isRendering
    ensures var r := ScheduleUpdate(w, f);
      (forall g :: g in w.fibers && g != f && Some(g) != r.wipRoot ==> r.fibers[g] == w.fibers[g]) &&
      (Some(f) != r.wipRoot ==> r.fibers[f] == w.fibers[f].(dirty := true))
  {
    var w1 := CancelScheduled(w);
    assert FiberOk(w1, f);
    var w2 := SetFiber(w1, f, w1.fibers[f].(dirty := true));
    assert w2.fibers == w.fibers[f := w.fibers[f].(dirty := true)];
    RootUnchanged(w, w2, f);
    assert ScheduleUpdate(w, f) == StartPass(w2, FindRoot(w2, f));
  }

  /** While a pass is in flight a request changes nothing: requests coalesce. */
  lemma ScheduleWhileRenderingIsNoOp(w: World, f: FiberId, g: FiberId)
    requires Valid(w) && f in w.fibers && g in w.fibers
    ensures w.isRendering ==> ScheduleUpdate(w, f) == w
    ensures ScheduleUpdate(ScheduleUpdate(w, f), g) == ScheduleUpdate(w, f)
  {
  }

  /** The new callback handle differs from every handle used before. */
  lemma ScheduleUsesFreshHandle(w: World, f: FiberId)
    requires Valid(w) && f in w.fibers && !w.isRendering
    ensures var r := ScheduleUpdate(w, f);
      (forall i :: 0 <= i < |w.timers| ==> w.timers[i].handle != r.scheduledCallback.value) &&
      (w.scheduledCallback.Some? ==> w.scheduledCallback.value != r.scheduledCallback.value)
  {
  }

  /** Changing fibers without touching `return` links keeps every root. */
  lemma RootUnchanged(w: World, w': World, f: FiberId)
    requires Valid(w) && Valid(w') && f in w.fibers && w.fibers.Keys <= w'.fibers.Keys
    requires forall g :: g in w.fibers ==> w'.fibers[g].parent == w.fibers[g].parent
    ensures FindRoot(w', f) == FindRoot(w, f)
    decreases f
  {
    assert FiberOk(w, f);
    if w.fibers[f].parent.Some? {
      RootUnchanged(w, w', w.fibers[f].parent.value);
    }
  }
}
