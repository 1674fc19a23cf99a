/**
 * The engine as the source runs it: one mutable `fiberState` record over
 * the fiber, hook and host heaps, updated in place by the loops of
 * `scheduleUpdate`, `reconcileChildren`, `performUnitOfWork`, `workLoop`
 * and `handleEvent`. Each method is proved to leave `World()` where the
 * corresponding function of the value model puts it.
 */
module Engine {
  import opened Values
  import opened Vdom
  import opened Host
  import opened Fibers
  import Schedule

  class Runtime {
    // the heaps
    var fibers: map<FiberId, FiberRec>
    var hookLists: map<ListId, seq<Option<Hook>>>
    var dom: Dom
    // `fiberState`
    var currentFiber: Option<FiberId>
    var wipRoot: Option<FiberId>
    var currentRoot: Option<FiberId>
    var nextUnit: Option<FiberId>
    var isRendering: bool
    var pendingEffects: seq<FiberId>
    var deletions: seq<FiberId>
    var scheduledCallback: Option<nat>
    // allocation counters, rank bookkeeping and the logs of outside calls
    var nextFiberId: nat
    var nextListId: nat
    var nextNodeId: nat
    var nextHandle: nat
    var rank: map<FiberId, nat>
    var rankCeil: nat
    var calls: seq<Call>
    var timers: seq<TimerOp>

    /** The state as a value. */
    function World(): World
      reads this
    {
      Fibers.World(fibers, hookLists, dom, currentFiber, wipRoot, currentRoot, nextUnit, isRendering,
                   pendingEffects, deletions, scheduledCallback, nextFiberId, nextListId, nextNodeId,
                   nextHandle, rank, rankCeil, calls, timers)
    }

    /** The engine over a host document it has not touched yet. */
    constructor (d: Dom, nodeIds: nat)
      requires forall n :: n in d ==> n < nodeIds && d[n].fiberRef.None?
      ensures World() == InitialWorld(d, nodeIds)
    {
      fibers, hookLists, dom := map[], map[], d;
      currentFiber, wipRoot, currentRoot, nextUnit := None, None, None, None;
      isRendering, pendingEffects, deletions, scheduledCallback := false, [], [], None;
      nextFiberId, nextListId, nextNodeId, nextHandle := 0, 0, nodeIds, 1;
      rank, rankCeil, calls, timers := map[], 1, [], [];
    }

    /**
     * Takes on a state computed on values (the parts of the engine
     * modelled as functions), a few fields at a time.
     */
    method Assign(w: World)
      modifies this
      ensures World() == w
    {
      AssignHeaps(w);
      AssignRoots(w);
      AssignCursor(w);
      AssignQueues(w);
      AssignIds(w);
      AssignRanks(w);
      AssignTimers(w);
      AssignCalls(w);
    }

    /** Takes on the heaps of `w`. */
    method AssignHeaps(w: World)
      modifies this`fibers, this`hookLists, this`dom
      ensures World() == old(World()).(fibers := w.fibers, hookLists := w.hookLists, dom := w.dom)
    {
      fibers, hookLists, dom := w.fibers, w.hookLists, w.dom;
    }

    /** Takes on the roots of the two trees of `w`. */
    method AssignRoots(w: World)
      modifies this`wipRoot, this`currentRoot
      ensures World() == old(World()).(wipRoot := w.wipRoot, currentRoot := w.currentRoot)
    {
      wipRoot, currentRoot := w.wipRoot, w.currentRoot;
    }

    /** Takes on the cursor of the pass of `w`. */
    method AssignCursor(w: World)
      modifies this`currentFiber, this`nextUnit, this`isRendering
      ensures World() == old(World()).(currentFiber := w.currentFiber, nextUnit := w.nextUnit, isRendering := w.isRendering)
    {
      currentFiber, nextUnit, isRendering := w.currentFiber, w.nextUnit, w.isRendering;
    }

    /** Takes on the queues the commit drains of `w`. */
    method AssignQueues(w: World)
      modifies this`pendingEffects, this`deletions
      ensures World() == old(World()).(pendingEffects := w.pendingEffects, deletions := w.deletions)
    {
      pendingEffects, deletions := w.pendingEffects, w.deletions;
    }

    /** Takes on the allocation counters of `w`. */
    method AssignIds(w: World)
      modifies this`nextFiberId, this`nextListId, this`nextNodeId
      ensures World() == old(World()).(nextFiberId := w.nextFiberId, nextListId := w.nextListId, nextNodeId := w.nextNodeId)
    {
      nextFiberId, nextListId, nextNodeId := w.nextFiberId, w.nextListId, w.nextNodeId;
    }

    /** Takes on the rank bookkeeping of `w`. */
    method AssignRanks(w: World)
      modifies this`rank, this`rankCeil
      ensures World() == old(World()).(rank := w.rank, rankCeil := w.rankCeil)
    {
      rank, rankCeil := w.rank, w.rankCeil;
    }

    /** Takes on the idle-callback state of `w`. */
    method AssignTimers(w: World)
      modifies this`scheduledCallback, this`nextHandle, this`timers
      ensures World() == old(World()).(scheduledCallback := w.scheduledCallback, nextHandle := w.nextHandle, timers := w.timers)
    {
      scheduledCallback, nextHandle, timers := w.scheduledCallback, w.nextHandle, w.timers;
    }

    /** Takes on the log of outside calls of `w`. */
    method AssignCalls(w: World)
      modifies this`calls
      ensures World() == old(World()).(calls := w.calls)
    {
      calls := w.calls;
    }

    /** The state satisfies the invariant of the value model. */
    predicate Ok()
      reads this
    {
      Valid(World())
    }

    // -------------------------------------------------------------------
    // scheduleUpdate

    /** `let root = fiber; while (root.return) root = root.return;` */
    method FindRoot(f: FiberId) returns (root: FiberId)
      requires Ok() && f in fibers
      ensures root == Schedule.FindRoot(World(), f)
    {
      root := f;
      while fibers[root].parent.Some?
        invariant root in fibers && Schedule.FindRoot(World(), root) == Schedule.FindRoot(World(), f)
        decreases root
      {
        assert FiberOk(World(), root);
        root := fibers[root].parent.value;
      }
    }

    /** `createWorkInProgress(fiber)`: the alternate is overwritten in place, or a new fiber made. */
    method CreateWorkInProgress(f: FiberId) returns (wip: FiberId)
      requires Ok() && f in fibers
      modifies this
      ensures (World(), wip) == Fibers.CreateWorkInProgress(old(World()), f)
    {
      assert FiberOk(World(), f);
      var src := fibers[f];
      // `fiber.alternate || createFiber(fiber.type, fiber.key)`
      if src.alternate.Some? {
        wip := src.alternate.value;
        assert FiberOk(World(), wip);
        StoreFiber(wip, Twin(src, f, fibers[wip]));
      } else {
        wip := NewFiberId(0);
        StoreFiber(wip, Twin(src, f, CreateFiber(src.nodeType, src.key)));
      }
    }

    /** The record of fiber `id` becomes `rec`. */
    method StoreFiber(id: FiberId, rec: FiberRec)
      modifies this
      ensures World() == old(World()).(fibers := old(fibers)[id := rec])
    {
      fibers := fibers[id := rec];
    }

    /** `fiberState.deletions.push(f)` */
    method PushDeletion(f: FiberId)
      modifies this
      ensures World() == old(World()).(deletions := old(deletions) + [f])
    {
      deletions := deletions + [f];
    }

    /** Reserves the sibling ranks up to `c` (bookkeeping with no counterpart in the source). */
    method SetRankCeil(c: nat)
      modifies this
      ensures World() == old(World()).(rankCeil := c)
    {
      rankCeil := c;
    }

    /** A fresh fiber id, with its rank among the siblings. */
    method NewFiberId(k: nat) returns (id: FiberId)
      modifies this
      ensures id == old(nextFiberId)
      ensures World() == old(World()).(rank := old(rank)[id := k], nextFiberId := id + 1)
    {
      id := nextFiberId;
      rank := rank[id := k];
      nextFiberId := nextFiberId + 1;
    }

    /** `if (fiberState.scheduledCallback) { cancelIdleCallback(...); fiberState.scheduledCallback = null }` */
    method CancelScheduled()
      requires Ok()
      modifies this
      ensures World() == Schedule.CancelScheduled(old(World()))
    {
      if scheduledCallback.Some? {
        timers := timers + [CancelIdle(scheduledCallback.value)];
        scheduledCallback := None;
      } else {
        assert timers + [] == timers;
      }
    }

    /** `fiber.dirty = true` */
    method MarkDirty(f: FiberId)
      requires Ok() && f in fibers
      modifies this
      ensures FiberOk(old(World()), f)
      ensures World() == SetFiber(old(World()), f, old(fibers[f]).(dirty := true))
    {
      assert FiberOk(World(), f);
      fibers := fibers[f := fibers[f].(dirty := true)];
    }

    /** The pass starts on `wip`. */
    method BeginPass(wip: FiberId)
      modifies this`wipRoot, this`nextUnit
      ensures World() == old(World()).(wipRoot := Some(wip), nextUnit := Some(wip))
    {
      wipRoot, nextUnit := Some(wip), Some(wip);
    }

    /** `requestIdleCallback(workLoop)`: the request is logged under a fresh handle, which is returned. */
    method RequestIdleCallback() returns (handle: nat)
      modifies this`timers, this`nextHandle
      ensures handle == old(nextHandle)
      ensures World() == old(World()).(timers := old(timers) + [RequestIdle(handle)], nextHandle := handle + 1)
    {
      handle := nextHandle;
      timers := timers + [RequestIdle(handle)];
      nextHandle := nextHandle + 1;
    }

    /** `fiberState.nextUnitOfWork = u` */
    method SetNextUnit(u: Option<FiberId>)
      modifies this`nextUnit
      ensures World() == old(World()).(nextUnit := u)
    {
      nextUnit := u;
    }

    /** The host tree becomes `d`: the effect of the host's own DOM operations. */
    method SetDomTree(d: Dom)
      modifies this`dom
      ensures World() == old(World()).(dom := d)
    {
      dom := d;
    }

    /** Slot `i` of the hook array `l` becomes `o`: the hook object there is updated in place. */
    method SetSlot(l: ListId, i: nat, o: Option<Hook>)
      requires l in hookLists && i < |hookLists[l]|
      modifies this`hookLists
      ensures World() == old(World()).(hookLists := old(hookLists)[l := old(hookLists)[l][i := o]])
    {
      hookLists := hookLists[l := hookLists[l][i := o]];
    }

    /** A call into user code is made. */
    method LogCall(c: Call)
      modifies this`calls
      ensures World() == old(World()).(calls := old(calls) + [c])
    {
      calls := calls + [c];
    }

    /** The end of `commitRoot`: the work-in-progress tree becomes the current one and the pass is over. */
    method FinishCommit()
      modifies this`pendingEffects, this`currentRoot, this`wipRoot, this`deletions, this`isRendering
      ensures World() == old(World()).(pendingEffects := [], currentRoot := old(wipRoot), wipRoot := None,
                                       deletions := [], isRendering := false)
    {
      pendingEffects := [];
      currentRoot, wipRoot := wipRoot, None;
      deletions := [];
      isRendering := false;
    }

    /** `fiberState.scheduledCallback = handle` */
    method SetScheduled(handle: Option<nat>)
      modifies this`scheduledCallback
      ensures World() == old(World()).(scheduledCallback := handle)
    {
      scheduledCallback := handle;
    }

    /** The pass starts on `wip`; the idle callback is requested and its handle kept. */
    method RequestPass(wip: FiberId)
      modifies this`wipRoot, this`nextUnit, this`scheduledCallback, this`timers, this`nextHandle
      ensures World() == Schedule.RequestPass(old(World()), wip)
    {
      BeginPass(wip);
      var handle := RequestIdleCallback();
      SetScheduled(Some(handle));
    }

    /** The second half of `scheduleUpdate`: the pass starts on the twin of `root`. */
    method StartPass(root: FiberId)
      requires Ok() && root in fibers
      modifies this
      ensures World() == Schedule.StartPass(old(World()), root)
    {
      ghost var w0 := World();
      ghost var w1 := SetRendering(w0, true);
      isRendering := true;
      assert World() == w1;
      ghost var step := Fibers.CreateWorkInProgress(w0.(isRendering := true), root);
      var wip := CreateWorkInProgress(root);
      assert World() == step.0 && wip == step.1;
      RequestPass(wip);
    }

    /**
     * `scheduleUpdate(fiber)`: nothing while a pass is in flight;
     * otherwise the scheduled callback is cancelled, the fiber marked
     * dirty, and a pass started on the twin of its root.
     */
    method ScheduleUpdate(f: FiberId)
      requires Ok() && f in fibers
      modifies this
      ensures World() == Schedule.ScheduleUpdate(old(World()), f)
    {
      if isRendering {
        return;
      }
      CancelScheduled();
      MarkDirty(f);
      var root := FindRoot(f);
      StartPass(root);
    }
  }
}
