/**
 * Fibers, hook slots and the global render state (src/fiber.ts, the
 * records of src/hooks.ts), as one value: the `World`. Objects that the
 * source links by reference live in arenas indexed by ids: fibers, hook
 * arrays and host nodes. A hook object is the slot `(list, index)` that
 * holds it: a filled slot is never replaced, so that pair names one object.
 */
module Fibers {
  import opened Values
  import opened Vdom
  import opened Host

  type FiberId = nat
  type ListId = nat

  datatype HookKind = StateKind | CallbackKind | EffectKind

  /**
   * A hook object. All three kinds share one record: the hooks of
   * src/hooks.ts write fields by name, whatever kind the slot holds, so a
   * slot reached by a call of another kind gains that call's fields. An
   * absent `queue` or `deps` is `undefined`.
   */
  datatype Hook = Hook(
    kind: HookKind,
    value: Value,
    queue: Option<seq<Value>>,
    deps: Option<seq<Value>>,
    cleanup: Value,
    shouldRun: bool)

  datatype FiberRec = FiberRec(
    nodeType: NodeType,
    stateNode: Option<NodeId>,
    parent: Option<FiberId>,     // `return`
    child: Option<FiberId>,
    sibling: Option<FiberId>,
    alternate: Option<FiberId>,
    pendingProps: Props,
    memoizedProps: Props,
    vnode: Option<VNode>,
    key: Value,
    hooks: Option<ListId>,
    hookIndex: nat,
    isComponent: bool,
    dirty: bool)

  /** A call into user code, in the order the engine makes them. */
  datatype Call =
    | InitCall(fn: nat)      // a `useState` initializer
    | RenderCall(fn: nat)    // a function component
    | EffectCall(fn: nat)
    | CleanupCall(fn: nat)
    | HandlerCall(fn: nat)   // an event handler

  /** A call into the host's idle-callback scheduler. */
  datatype TimerOp = RequestIdle(handle: nat) | CancelIdle(handle: nat)

  /**
   * `fiberState` together with the heap it points into. `rank` and
   * `rankCeil` are proof bookkeeping: every sibling link goes to a fiber of
   * smaller rank, so sibling chains are finite.
   */
  datatype World = World(
    fibers: map<FiberId, FiberRec>,
    hookLists: map<ListId, seq<Option<Hook>>>,
    dom: Dom,
    currentFiber: Option<FiberId>,
    wipRoot: Option<FiberId>,
    currentRoot: Option<FiberId>,
    nextUnit: Option<FiberId>,
    isRendering: bool,
    pendingEffects: seq<FiberId>,
    deletions: seq<FiberId>,
    scheduledCallback: Option<nat>,
    nextFiberId: nat,
    nextListId: nat,
    nextNodeId: nat,
    nextHandle: nat,
    rank: map<FiberId, nat>,
    rankCeil: nat,
    calls: seq<Call>,
    timers: seq<TimerOp>)

  predicate InFibers(w: World, p: Option<FiberId>) {
    p.Some? ==> p.value in w.fibers
  }

  /** What every fiber record must satisfy where it stands. */
  predicate RecOk(w: World, id: FiberId, r: FiberRec) {
    (r.parent.Some? ==> r.parent.value in w.fibers && r.parent.value < id) &&
    InFibers(w, r.child) &&
    InFibers(w, r.alternate) &&
    (r.sibling.Some? ==>
       r.sibling.value in w.fibers && r.sibling.value in w.rank && id in w.rank &&
       w.rank[r.sibling.value] < w.rank[id]) &&
    (r.stateNode.Some? ==> r.stateNode.value in w.dom) &&
    (r.hooks.Some? ==> r.hooks.value in w.hookLists) &&
    r.isComponent == r.nodeType.Component?
  }

  /**
   * What the hook functions keep true of every hook object: an effect
   * slot holds a function and has no queue, and a cleanup is a function
   * or `undefined`.
   */
  predicate HookOk(h: Hook) {
    (h.kind == EffectKind ==> h.value.Fn? && h.queue.None?) &&
    (h.cleanup.Undefined? || h.cleanup.Fn?)
  }

  predicate SlotOk(s: seq<Option<Hook>>, i: int) {
    0 <= i < |s| && (s[i].Some? ==> HookOk(s[i].value))
  }

  predicate SlotsOk(s: seq<Option<Hook>>) {
    forall i {:trigger SlotOk(s, i)} :: 0 <= i < |s| ==> SlotOk(s, i)
  }

  /** The fiber `id` exists, has a rank, and its record is well linked. */
  predicate FiberOk(w: World, id: FiberId) {
    id in w.fibers && id < w.nextFiberId && id in w.rank && w.rank[id] < w.rankCeil &&
    RecOk(w, id, w.fibers[id])
  }

  predicate FibersOk(w: World) {
    w.fibers.Keys <= w.rank.Keys &&
    forall id {:trigger FiberOk(w, id)} :: id in w.fibers ==> FiberOk(w, id)
  }

  /** The host node `n` exists, and its back-reference names an existing fiber. */
  predicate NodeOk(w: World, n: NodeId) {
    n in w.dom && n < w.nextNodeId && (w.dom[n].fiberRef.Some? ==> w.dom[n].fiberRef.value in w.fibers)
  }

  predicate DomOk(w: World) {
    forall n {:trigger NodeOk(w, n)} :: n in w.dom ==> NodeOk(w, n)
  }

  predicate ListOk(w: World, l: ListId) {
    l in w.hookLists && l < w.nextListId && SlotsOk(w.hookLists[l])
  }

  predicate ListsOk(w: World) {
    forall l {:trigger ListOk(w, l)} :: l in w.hookLists ==> ListOk(w, l)
  }

  predicate StateOk(w: World) {
    InFibers(w, w.currentFiber) && InFibers(w, w.wipRoot) &&
    InFibers(w, w.currentRoot) && InFibers(w, w.nextUnit) &&
    (forall i :: 0 <= i < |w.pendingEffects| ==> w.pendingEffects[i] in w.fibers) &&
    (forall i :: 0 <= i < |w.deletions| ==> w.deletions[i] in w.fibers) &&
    (w.scheduledCallback.Some? ==> 1 <= w.scheduledCallback.value < w.nextHandle) &&
    (forall i :: 0 <= i < |w.timers| ==> 1 <= w.timers[i].handle < w.nextHandle) &&
    w.nextHandle >= 1 && w.rankCeil >= 1
  }

  predicate Valid(w: World) {
    FibersOk(w) && DomOk(w) && ListsOk(w) && StateOk(w)
  }

  /** The initial `fiberState`, over a host document `d` the engine has not touched. */
  function InitialWorld(d: Dom, nextNodeId: nat): (w: World)
    requires forall n :: n in d ==> n < nextNodeId && d[n].fiberRef.None?
    ensures Valid(w)
    ensures w.currentFiber.None? && w.wipRoot.None? && w.currentRoot.None? && w.nextUnit.None?
    ensures w.scheduledCallback.None? && !w.isRendering
    ensures w.pendingEffects == [] && w.deletions == []
    ensures w.fibers == map[] && w.dom == d
  {
    World(map[], map[], d, None, None, None, None, false, [], [], None,
          0, 0, nextNodeId, 1, map[], 1, [], [])
  }

  /**
   * `createFiber(type, key)`: a detached fiber with no host node, no
   * alternate, no hooks and empty props.
   */
  function CreateFiber(t: NodeType, key: Value): (r: FiberRec)
    ensures r.nodeType == t && r.key == key
    ensures r.parent.None? && r.child.None? && r.sibling.None? && r.alternate.None?
    ensures r.stateNode.None? && r.vnode.None? && r.hooks.None?
    ensures r.pendingProps == EmptyProps && r.memoizedProps == EmptyProps
    ensures r.hookIndex == 0 && !r.dirty
    ensures r.isComponent <==> IsFunctionType(t)
  {
    FiberRec(t, None, None, None, None, None, EmptyProps, EmptyProps, None, key, None, 0, IsFunctionType(t), false)
  }

  // ---------------------------------------------------------------------
  // Writes into the arenas. Each keeps the invariant.

  /** The fiber records stay well linked while the arenas they point into only grow. */
  lemma FibersStayOk(w: World, w': World)
    requires FibersOk(w)
    requires w'.fibers == w.fibers && w'.rank == w.rank && w'.rankCeil == w.rankCeil
    requires w'.nextFiberId == w.nextFiberId
    requires w.dom.Keys <= w'.dom.Keys && w.hookLists.Keys <= w'.hookLists.Keys
    ensures FibersOk(w')
  {
    forall id | id in w'.fibers ensures FiberOk(w', id) {
      assert FiberOk(w, id);
    }
  }

  /** The host nodes stay valid while the fiber arena only grows. */
  lemma DomStaysOk(w: World, w': World)
    requires DomOk(w)
    requires w'.dom == w.dom && w'.nextNodeId == w.nextNodeId && w.fibers.Keys <= w'.fibers.Keys
    ensures DomOk(w')
  {
    forall n | n in w'.dom ensures NodeOk(w', n) {
      assert NodeOk(w, n);
    }
  }

  lemma ListsStayOk(w: World, w': World)
    requires ListsOk(w)
    requires w'.hookLists == w.hookLists && w'.nextListId == w.nextListId
    ensures ListsOk(w')
  {
    forall l | l in w'.hookLists ensures ListOk(w', l) {
      assert ListOk(w, l);
    }
  }

  /** A change of the render-state fields alone keeps the arenas valid. */
  lemma StateChangeKeepsValid(w: World, w': World)
    requires Valid(w) && StateOk(w')
    requires w'.fibers == w.fibers && w'.hookLists == w.hookLists && w'.dom == w.dom
    requires w'.rank == w.rank && w'.rankCeil == w.rankCeil
    requires w'.nextFiberId == w.nextFiberId && w'.nextListId == w.nextListId && w'.nextNodeId == w.nextNodeId
    ensures Valid(w')
  {
    FibersStayOk(w, w');
    DomStaysOk(w, w');
    ListsStayOk(w, w');
  }

  /** `nextUnitOfWork = u` */
  function SetNextUnit(w: World, u: Option<FiberId>): (r: World)
    requires Valid(w) && InFibers(w, u)
    ensures Valid(r) && r == w.(nextUnit := u)
  {
    StateChangeKeepsValid(w, w.(nextUnit := u));
    w.(nextUnit := u)
  }

  /** `fiberState.isRendering = b` */
  function SetRendering(w: World, b: bool): (r: World)
    requires Valid(w)
    ensures Valid(r) && r == w.(isRendering := b)
  {
    StateChangeKeepsValid(w, w.(isRendering := b));
    w.(isRendering := b)
  }

  /** Reserving ranks (raising the ceiling) keeps the arenas valid. */
  function RaiseCeil(w: World, c: nat): (w': World)
    requires Valid(w) && w.rankCeil <= c
    ensures Valid(w') && w'.rankCeil == c
    ensures w' == w.(rankCeil := c)
  {
    var w' := w.(rankCeil := c);
    assert FibersOk(w') by {
      forall id | id in w'.fibers ensures FiberOk(w', id) {
        assert FiberOk(w, id);
      }
    }
    DomStaysOk(w, w');
    ListsStayOk(w, w');
    w'
  }

  /** Overwrites the fiber `id`, keeping its rank. */
  function SetFiber(w: World, id: FiberId, r: FiberRec): (w': World)
    requires Valid(w) && id in w.fibers && RecOk(w, id, r)
    ensures Valid(w')
    ensures w' == w.(fibers := w.fibers[id := r])
  {
    var w' := w.(fibers := w.fibers[id := r]);
    assert FibersOk(w') by {
      forall i | i in w'.fibers ensures FiberOk(w', i) {
        assert FiberOk(w, i);
        assert RecOk(w, i, w'.fibers[i]);
      }
    }
    DomStaysOk(w, w');
    ListsStayOk(w, w');
    w'
  }

  /** Links a new fiber record `r` under the next fresh id, with rank `rk`. */
  function AllocFiber(w: World, r: FiberRec, rk: nat): (res: (World, FiberId))
    requires Valid(w) && rk < w.rankCeil
    requires r.parent.Some? ==> r.parent.value in w.fibers
    requires InFibers(w, r.child) && InFibers(w, r.alternate)
    requires r.sibling.Some? ==> r.sibling.value in w.fibers && w.rank[r.sibling.value] < rk
    requires r.stateNode.Some? ==> r.stateNode.value in w.dom
    requires r.hooks.Some? ==> r.hooks.value in w.hookLists
    requires r.isComponent == r.nodeType.Component?
    ensures Valid(res.0)
    ensures res.1 == w.nextFiberId && res.1 !in w.fibers
    ensures res.0 == w.(fibers := w.fibers[res.1 := r], rank := w.rank[res.1 := rk],
                        nextFiberId := w.nextFiberId + 1)
  {
    var id := w.nextFiberId;
    var w' := w.(fibers := w.fibers[id := r], rank := w.rank[id := rk], nextFiberId := id + 1);
    assert id in w.fibers ==> FiberOk(w, id);
    NewFiberOk(w, w', id, r, rk);
    DomStaysOk(w, w');
    ListsStayOk(w, w');
    assert StateOk(w');
    (w', id)
  }

  /** A new fiber under a fresh id and a rank below the ceiling keeps every fiber well linked. */
  lemma NewFiberOk(w: World, w': World, id: FiberId, r: FiberRec, rk: nat)
    requires FibersOk(w) && id == w.nextFiberId && rk < w.rankCeil
    requires w' == w.(fibers := w.fibers[id := r], rank := w.rank[id := rk], nextFiberId := id + 1)
    requires r.parent.Some? ==> r.parent.value in w.fibers
    requires InFibers(w, r.child) && InFibers(w, r.alternate)
    requires r.sibling.Some? ==> r.sibling.value in w.fibers && w.rank[r.sibling.value] < rk
    requires r.stateNode.Some? ==> r.stateNode.value in w.dom
    requires r.hooks.Some? ==> r.hooks.value in w.hookLists
    requires r.isComponent == r.nodeType.Component?
    ensures FibersOk(w')
  {
    assert id in w.fibers ==> FiberOk(w, id);
    assert r.parent.Some? ==> FiberOk(w, r.parent.value);
    forall i | i in w'.fibers ensures FiberOk(w', i) {
      if i != id {
        assert FiberOk(w, i);
      }
    }
  }

  /** Overwrites the host node `n`. */
  function SetNode(w: World, n: NodeId, node: HostNode): (w': World)
    requires Valid(w) && n in w.dom
    requires node.fiberRef.Some? ==> node.fiberRef.value in w.fibers
    ensures Valid(w')
    ensures w' == w.(dom := w.dom[n := node])
  {
    var w' := w.(dom := w.dom[n := node]);
    FibersStayOk(w, w');
    ListsStayOk(w, w');
    assert DomOk(w') by {
      forall m | m in w'.dom ensures NodeOk(w', m) {
        assert NodeOk(w, m);
      }
    }
    w'
  }

  /** Replaces the host tree by one with the same nodes and back-references. */
  function SetDom(w: World, d: Dom): (w': World)
    requires Valid(w) && d.Keys == w.dom.Keys
    // a node keeps its back-reference, drops it, or points at a fiber
    requires forall n :: n in d && d[n].fiberRef.Some? ==> d[n].fiberRef == w.dom[n].fiberRef || d[n].fiberRef.value in w.fibers
    ensures Valid(w')
    ensures w' == w.(dom := d)
  {
    var w' := w.(dom := d);
    FibersStayOk(w, w');
    ListsStayOk(w, w');
    assert DomOk(w') by {
      forall m | m in w'.dom ensures NodeOk(w', m) {
        assert NodeOk(w, m);
      }
    }
    w'
  }

  /** Adds a new host node under the next fresh id. */
  function AllocNode(w: World, node: HostNode): (res: (World, NodeId))
    requires Valid(w) && (node.fiberRef.Some? ==> node.fiberRef.value in w.fibers)
    ensures Valid(res.0)
    ensures res.1 == w.nextNodeId && res.1 !in w.dom
    ensures res.0 == w.(dom := w.dom[res.1 := node], nextNodeId := w.nextNodeId + 1)
  {
    var n := w.nextNodeId;
    var w' := w.(dom := w.dom[n := node], nextNodeId := n + 1);
    assert n in w.dom ==> NodeOk(w, n);
    FibersStayOk(w, w');
    ListsStayOk(w, w');
    assert DomOk(w') by {
      forall m | m in w'.dom ensures NodeOk(w', m) {
        if m != n {
          assert NodeOk(w, m);
        }
      }
    }
    (w', n)
  }

  /** `hooks[i] = h` on a JS array: writing past the end leaves holes. */
  function PutSlot(s: seq<Option<Hook>>, i: nat, h: Hook): (r: seq<Option<Hook>>)
    ensures |r| == if i < |s| then |s| else i + 1
    ensures r[i] == Some(h)
    ensures forall j :: 0 <= j < |s| && j != i ==> r[j] == s[j]
    ensures forall j :: |s| <= j < |r| && j != i ==> r[j].None?
  {
    if i < |s| then s[i := Some(h)]
    else s + seq(i - |s|, _ => None) + [Some(h)]
  }

  /** Stores the hook object `h` in slot `i` of list `l`. */
  function SetSlot(w: World, l: ListId, i: nat, h: Hook): (w': World)
    requires Valid(w) && l in w.hookLists && HookOk(h)
    ensures Valid(w')
    ensures w' == w.(hookLists := w.hookLists[l := PutSlot(w.hookLists[l], i, h)])
  {
    var w' := w.(hookLists := w.hookLists[l := PutSlot(w.hookLists[l], i, h)]);
    FibersStayOk(w, w');
    DomStaysOk(w, w');
    assert ListsOk(w') by {
      forall k | k in w'.hookLists ensures ListOk(w', k) {
        assert ListOk(w, k);
        if k == l {
          var s0 := w.hookLists[l];
          var s := PutSlot(s0, i, h);
          forall j | 0 <= j < |s| ensures SlotOk(s, j) {
            if j != i && j < |s0| {
              assert SlotOk(s0, j);
            }
          }
        }
      }
    }
    w'
  }

  /** `fiber.hooks = []`: a new empty hook array. */
  function AllocList(w: World): (res: (World, ListId))
    requires Valid(w)
    ensures Valid(res.0)
    ensures res.1 == w.nextListId && res.1 !in w.hookLists
    ensures res.0 == w.(hookLists := w.hookLists[res.1 := []], nextListId := w.nextListId + 1)
  {
    var l := w.nextListId;
    var w' := w.(hookLists := w.hookLists[l := []], nextListId := l + 1);
    assert l in w.hookLists ==> ListOk(w, l);
    FibersStayOk(w, w');
    DomStaysOk(w, w');
    assert ListsOk(w') by {
      forall k | k in w'.hookLists ensures ListOk(w', k) {
        if k != l {
          assert ListOk(w, k);
        }
      }
    }
    (w', l)
  }

  // ---------------------------------------------------------------------

  /**
   * `createWorkInProgress(fiber)`: the work-in-progress twin of `f`. The
   * alternate of `f` is reused in place when there is one; otherwise a new
   * fiber with the type and key of `f` is allocated.
   */
  function CreateWorkInProgress(w: World, f: FiberId): (res: (World, FiberId))
    requires Valid(w) && f in w.fibers
    ensures Valid(res.0)
    ensures res.1 in res.0.fibers && w.fibers.Keys <= res.0.fibers.Keys
    // the alternate is reused when present, otherwise the fiber is new
    ensures w.fibers[f].alternate.Some? ==> res.1 == w.fibers[f].alternate.value && res.1 in w.fibers
    ensures w.fibers[f].alternate.None? ==> res.1 == w.nextFiberId && res.1 !in w.fibers
    // the seven copied fields, and the fixed links
    ensures var r := res.0.fibers[res.1]; var src := w.fibers[f];
      r.nodeType == src.nodeType && r.stateNode == src.stateNode && r.vnode == src.vnode &&
      r.pendingProps == src.pendingProps && r.key == src.key && r.hooks == src.hooks &&
      r.isComponent == src.isComponent &&
      r.alternate == Some(f) && r.child.None? && r.sibling.None?
    // a reused fiber keeps its `return`, `memoizedProps`, `hookIndex` and `dirty`
    ensures w.fibers[f].alternate.Some? ==>
      var r := res.0.fibers[res.1]; var prev := w.fibers[res.1];
      r.parent == prev.parent && r.memoizedProps == prev.memoizedProps &&
      r.hookIndex == prev.hookIndex && r.dirty == prev.dirty
    // a new fiber is detached, with empty committed props
    ensures w.fibers[f].alternate.None? ==>
      var r := res.0.fibers[res.1];
      r.parent.None? && r.memoizedProps == EmptyProps && r.hookIndex == 0 && !r.dirty
    // nothing else changes
    ensures forall id :: id in w.fibers && id != res.1 ==> res.0.fibers[id] == w.fibers[id]
    ensures res.0.(fibers := w.fibers, rank := w.rank, nextFiberId := w.nextFiberId) == w
  {
    if w.fibers[f].alternate.Some? then ReuseAlternate(w, f) else AllocTwin(w, f)
  }

  function ReuseAlternate(w: World, f: FiberId): (res: (World, FiberId))
    requires Valid(w) && f in w.fibers && w.fibers[f].alternate.Some?
    ensures Valid(res.0)
    ensures res.1 == w.fibers[f].alternate.value && res.1 in w.fibers
    ensures res.0 == w.(fibers := w.fibers[res.1 := Twin(w.fibers[f], f, w.fibers[res.1])])
  {
    var src := w.fibers[f];
    var a := src.alternate.value;
    assert FiberOk(w, f);
    assert FiberOk(w, a);
    (SetFiber(w, a, Twin(src, f, w.fibers[a])), a)
  }

  function AllocTwin(w: World, f: FiberId): (res: (World, FiberId))
    requires Valid(w) && f in w.fibers
    ensures Valid(res.0)
    ensures res.1 == w.nextFiberId && res.1 !in w.fibers
    ensures res.0 == w.(fibers := w.fibers[res.1 := Twin(w.fibers[f], f, CreateFiber(w.fibers[f].nodeType, w.fibers[f].key))],
                        rank := w.rank[res.1 := 0], nextFiberId := w.nextFiberId + 1)
  {
    var src := w.fibers[f];
    assert FiberOk(w, f);
    AllocFiber(w, Twin(src, f, CreateFiber(src.nodeType, src.key)), 0)
  }

  /** The assignments of `createWorkInProgress` applied to the record `target`. */
  function Twin(src: FiberRec, f: FiberId, target: FiberRec): FiberRec {
    target.(nodeType := src.nodeType, stateNode := src.stateNode, alternate := Some(f),
            vnode := src.vnode, pendingProps := src.pendingProps, key := src.key,
            hooks := src.hooks, isComponent := src.isComponent,
            child := None, sibling := None)
  }
}
