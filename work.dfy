/**
 * The render phase: `performUnitOfWork` and the two kinds of unit it runs
 * (src/reconciler.ts:14-115, 195-205). A host fiber gets its host node
 * created or brought up to date; a component fiber has its body run with
 * the hooks; either way its children are reconciled, and the next unit is
 * chosen in depth-first pre-order. Host nodes are created here but no
 * node is attached to, or detached from, any parent.
 */
module Work {
  import opened Values
  import opened Vdom
  import opened Host
  import opened Fibers
  import opened DomProps
  import opened Reconciler
  import opened ReconcileFacts
  import opened ReconcileSpec
  import opened Hooks
  import opened Schedule

  // ---------------------------------------------------------------------
  // Host nodes: isTextContent, createDOMNode, updateExistingNode

  /** `fiber.vnode?.props?.nodeValue` */
  function NodeValue(r: FiberRec): Value {
    if r.vnode.Some? then Lookup(r.vnode.value.props.attrs, "nodeValue") else Undefined
  }

  /**
   * `isTextContent(fiber)`: a defined `nodeValue` under a falsy type.
   * Descriptions are always objects here, so the `typeof` tests for string
   * and number descriptions never hold.
   */
  predicate IsTextContent(r: FiberRec) {
    !NodeValue(r).Undefined? && !TypeTruthy(r.nodeType)
  }

  /** The text of a new text node: `nodeValue ?? String(vnode)`, the latter an object. */
  function CreatedText(r: FiberRec): string {
    if NodeValue(r).Null? then "[object Object]" else ToStr(NodeValue(r))
  }

  /**
   * `updateDOMProperties(element, oldProps, newProps)`: the prop diff, and
   * the `_fiberNode` back-reference set to the fiber being rendered (the
   * last component whose body ran, not necessarily the element's own).
   */
  function UpdatedElement(node: HostNode, oldProps: Props, newProps: Props, current: Option<FiberId>): (r: HostNode)
    ensures r.kind == node.kind && r.text == node.text && r.listeners == node.listeners
    ensures r.children == node.children && r.parent == node.parent
    ensures current.Some? ==> r.fiberRef == current
    ensures current.None? ==> r.fiberRef == node.fiberRef
    ensures r.(fiberRef := node.fiberRef) == DiffProps(node, oldProps, newProps)
  {
    var d := DiffProps(node, oldProps, newProps);
    if current.Some? then d.(fiberRef := current) else d
  }

  /** The node `createDOMNode(fiber)` creates. */
  function NewHostNode(r: FiberRec, current: Option<FiberId>): (n: HostNode)
    // a fresh node is attached nowhere and has no children
    ensures n.parent.None? && n.children == [] && n.listeners == []
    ensures IsTextContent(r) ==> n.kind == TextNode && n.text == CreatedText(r) && n.fiberRef.None?
    ensures !IsTextContent(r) && r.nodeType.Tag? ==>
      n.kind == Element(r.nodeType.name) &&
      n == UpdatedElement(NewElement(r.nodeType.name), EmptyProps, r.pendingProps, current)
    ensures !IsTextContent(r) && !r.nodeType.Tag? ==> n == NewComment("Empty node")
  {
    if IsTextContent(r) then NewText(CreatedText(r))
    else if r.nodeType.Tag? then UpdatedElement(NewElement(r.nodeType.name), EmptyProps, r.pendingProps, current)
    else NewComment("Empty node")
  }

  /**
   * `createDOMNode(fiber)`: a new host node under a fresh id, in no parent.
   * Only its `_fiberNode` reference can name a fiber.
   */
  function CreateDOMNode(w: World, f: FiberId): (res: (World, NodeId))
    requires Valid(w) && f in w.fibers
    ensures Valid(res.0)
    ensures res.1 == w.nextNodeId && res.1 !in w.dom
    ensures res.0 == w.(dom := w.dom[res.1 := NewHostNode(w.fibers[f], w.currentFiber)],
                        nextNodeId := w.nextNodeId + 1)
  {
    AllocNode(w, NewHostNode(w.fibers[f], w.currentFiber))
  }

  /** `fiber.alternate?.memoizedProps || {}` */
  function OldProps(w: World, r: FiberRec): Props {
    if r.alternate.Some? && r.alternate.value in w.fibers then w.fibers[r.alternate.value].memoizedProps else EmptyProps
  }

  /**
   * `updateExistingNode` on the node `node` of the fiber record `r`: a text
   * node takes the new `nodeValue ?? ""`, an element has its props diffed
   * against those of the alternate, a comment stays as it is.
   */
  function UpdatedNode(w: World, r: FiberRec, node: HostNode): (n: HostNode)
    ensures n.kind == node.kind && n.children == node.children && n.parent == node.parent
    ensures n.listeners == node.listeners
    ensures node.kind.TextNode? ==> n == node.(text := ToStr(Coalesce(NodeValue(r), Str(""))))
    ensures node.kind.Element? ==> n == UpdatedElement(node, OldProps(w, r), r.pendingProps, w.currentFiber)
    ensures node.kind.CommentNode? ==> n == node
  {
    match node.kind
    case TextNode => node.(text := ToStr(Coalesce(NodeValue(r), Str(""))))
    case Element(_) => UpdatedElement(node, OldProps(w, r), r.pendingProps, w.currentFiber)
    case CommentNode => node
  }

  /** `updateExistingNode(fiber)` */
  function UpdateExistingNode(w: World, f: FiberId): (r: World)
    requires Valid(w) && f in w.fibers && w.fibers[f].stateNode.Some?
    ensures Valid(r)
    ensures w.fibers[f].stateNode.value in w.dom
    ensures r == w.(dom := w.dom[w.fibers[f].stateNode.value :=
                                 UpdatedNode(w, w.fibers[f], w.dom[w.fibers[f].stateNode.value])])
  {
    assert FiberOk(w, f);
    var n := w.fibers[f].stateNode.value;
    assert NodeOk(w, n);
    SetNode(w, n, UpdatedNode(w, w.fibers[f], w.dom[n]))
  }

  /**
   * The host structure is untouched from `w` to `w'`: every node keeps its
   * parent and its children, and every new node is detached and childless.
   */
  predicate SameAttachments(w: World, w': World) {
    w.dom.Keys <= w'.dom.Keys &&
    (forall n :: n in w.dom ==> w'.dom[n].parent == w.dom[n].parent && w'.dom[n].children == w.dom[n].children) &&
    (forall n :: n in w'.dom && n !in w.dom ==> w'.dom[n].parent.None? && w'.dom[n].children == [])
  }

  /**
   * The host-node half of `updateHostComponent`: a fiber without a node
   * gets a new one, a fiber with one has it updated. Afterwards the fiber
   * has a node, and no node has moved.
   */
  function PrepareHostNode(w: World, f: FiberId): (r: World)
    requires Valid(w) && f in w.fibers
    ensures Valid(r) && r.fibers.Keys == w.fibers.Keys
    ensures r.fibers[f].stateNode.Some? && r.fibers[f].stateNode.value in r.dom
    ensures w.fibers[f].stateNode.Some? ==> r.fibers == w.fibers && r.dom.Keys == w.dom.Keys
    ensures w.fibers[f].stateNode.None? ==>
      r.fibers == w.fibers[f := w.fibers[f].(stateNode := Some(w.nextNodeId))] &&
      r.dom == w.dom[w.nextNodeId := NewHostNode(w.fibers[f], w.currentFiber)]
    ensures SameAttachments(w, r)
    ensures r == w.(fibers := r.fibers, dom := r.dom, nextNodeId := r.nextNodeId)
  {
    if w.fibers[f].stateNode.None? then
      NewNodeAttachesNothing(w, f);
      NewNodeFor(w, f)
    else
      UpdateAttachesNothing(w, f);
      UpdateExistingNode(w, f)
  }

  lemma NewNodeAttachesNothing(w: World, f: FiberId)
    requires Valid(w) && f in w.fibers
    ensures SameAttachments(w, NewNodeFor(w, f))
  {
  }

  lemma UpdateAttachesNothing(w: World, f: FiberId)
    requires Valid(w) && f in w.fibers && w.fibers[f].stateNode.Some?
    ensures SameAttachments(w, UpdateExistingNode(w, f))
  {
  }

  /** `fiber.stateNode = createDOMNode(fiber)` */
  function NewNodeFor(w: World, f: FiberId): (r: World)
    requires Valid(w) && f in w.fibers
    ensures Valid(r)
    ensures r == w.(fibers := w.fibers[f := w.fibers[f].(stateNode := Some(w.nextNodeId))],
                    dom := w.dom[w.nextNodeId := NewHostNode(w.fibers[f], w.currentFiber)],
                    nextNodeId := w.nextNodeId + 1)
  {
    var step := CreateDOMNode(w, f);
    assert FiberOk(w, f);
    assert RecOk(step.0, f, w.fibers[f].(stateNode := Some(step.1)));
    SetFiber(step.0, f, w.fibers[f].(stateNode := Some(step.1)))
  }

  /** `fiber.vnode?.props.children || []` */
  function HostChildren(r: FiberRec): seq<Child> {
    if r.vnode.Some? then r.vnode.value.props.children else []
  }

  /** What a unit of work leaves alone: the pass it belongs to, the next unit and the scheduler. */
  predicate SamePass(w: World, w': World) {
    w'.wipRoot == w.wipRoot && w'.currentRoot == w.currentRoot && w'.nextUnit == w.nextUnit &&
    w'.isRendering == w.isRendering && w'.scheduledCallback == w.scheduledCallback &&
    w'.timers == w.timers && w'.nextHandle == w.nextHandle
  }

  /** `updateHostComponent(fiber)` */
  function UpdateHostComponent(w: World, f: FiberId): (r: World)
    requires Valid(w) && f in w.fibers
    ensures Valid(r) && w.fibers.Keys <= r.fibers.Keys
    ensures r.nextFiberId == w.nextFiberId + |HostChildren(w.fibers[f])|
    ensures SamePass(w, r)
    // the fiber's node is made or updated first, then its props' children reconciled as written
    ensures r == ReconcileChildrenAsWritten(PrepareHostNode(w, f), f, HostChildren(w.fibers[f]))
  {
    var w1 := PrepareHostNode(w, f);
    ReconcileChildrenAsWritten(w1, f, HostChildren(w1.fibers[f]))
  }

  // ---------------------------------------------------------------------
  // Function components: updateFunctionComponent

  /** `[Component(props)].filter(Boolean)` */
  function Rendered(v: Option<VNode>): seq<Child> {
    if v.Some? then [Node(v.value)] else []
  }

  /**
   * What running a body that made `n` hook calls did, from `w` to `w'`:
   * the hook index of `f` moved on by `n`, `f` has a hook array once a
   * hook was called, only the slots the calls addressed and no other fiber
   * or array changed, and beyond the hooks only the call log (which only
   * grows) and the pending effects did.
   */
  ghost predicate BodyFrame(w: World, w': World, f: FiberId, n: nat)
    requires f in w.fibers
  {
    w'.fibers.Keys == w.fibers.Keys &&
    w'.fibers[f].hookIndex == w.fibers[f].hookIndex + n &&
    (n > 0 ==> w'.fibers[f].hooks.Some? && w'.fibers[f].hooks.value in w'.hookLists) &&
    (w.fibers[f].hooks.Some? ==> w'.fibers[f].hooks == w.fibers[f].hooks) &&
    w'.fibers[f] == w.fibers[f].(hooks := w'.fibers[f].hooks, hookIndex := w'.fibers[f].hookIndex) &&
    (forall g :: g in w.fibers && g != f ==> w'.fibers[g] == w.fibers[g]) &&
    (forall j: nat :: !(w.fibers[f].hookIndex <= j < w'.fibers[f].hookIndex) ==> FiberSlot(w', f, j) == FiberSlot(w, f, j)) &&
    w.hookLists.Keys <= w'.hookLists.Keys &&
    (forall l :: l in w.hookLists && Some(l) != w'.fibers[f].hooks ==> w'.hookLists[l] == w.hookLists[l]) &&
    w.calls <= w'.calls &&
    w'.(fibers := w.fibers, hookLists := w.hookLists, nextListId := w.nextListId,
        calls := w.calls, pendingEffects := w.pendingEffects) == w
  }

  lemma BodyFrameNone(w: World, f: FiberId)
    requires f in w.fibers
    ensures BodyFrame(w, w, f, 0)
  {
  }

  lemma BodyFrameStep(w: World, w1: World, w2: World, f: FiberId, n: nat)
    requires f in w.fibers && HookFrame(w, w1, f) && BodyFrame(w1, w2, f, n)
    ensures BodyFrame(w, w2, f, n + 1)
  {
    forall j: nat | !(w.fibers[f].hookIndex <= j < w2.fibers[f].hookIndex)
      ensures FiberSlot(w2, f, j) == FiberSlot(w, f, j)
    {
      assert FiberSlot(w2, f, j) == FiberSlot(w1, f, j);
    }
  }

  /**
   * The body of component `fn` run on `props` to its end, every hook call
   * it makes served in `w` by `CallHook`; `results` are the results of the
   * calls made so far. Yields the new world, the description returned, and
   * the number of hook calls made. A body that asks for more than `fuel`
   * further hook calls is cut off, rendering nothing.
   */
  function RunBody(w: World, code: UserCode, f: FiberId, fn: nat, props: Props, results: seq<HookResult>, fuel: nat)
    : (r: (World, Option<VNode>, nat))
    requires Valid(w) && w.currentFiber == Some(f) && f in w.fibers
    ensures Valid(r.0) && r.2 <= fuel
    ensures BodyFrame(w, r.0, f, r.2)
    decreases fuel
  {
    match code.body(fn, props, results)
    case Return(v) =>
      BodyFrameNone(w, f);
      (w, v, 0)
    case CallHook(c) =>
      if fuel == 0 then
        BodyFrameNone(w, f);
        (w, None, 0)
      else
        var res := Hooks.CallHook(w, code, c);
        var out := RunBody(res.value.0, code, f, fn, props, results + [res.value.1], fuel - 1);
        BodyFrameStep(w, res.value.0, out.0, f, out.2);
        (out.0, out.1, out.2 + 1)
  }

  /**
   * The first half of `updateFunctionComponent(fiber)`: `f` becomes the
   * fiber being rendered, its hook index restarts at 0, the component is
   * called (and logged) and its body runs.
   */
  function RenderComponent(w: World, code: UserCode, f: FiberId): (r: (World, Option<VNode>, nat))
    requires Valid(w) && f in w.fibers && w.fibers[f].nodeType.Component?
    ensures Valid(r.0) && r.0.currentFiber == Some(f) && r.0.fibers.Keys == w.fibers.Keys
    // the n-th hook call of the render used slot n: the index ends at the number of calls
    ensures r.0.fibers[f].hookIndex == r.2 && r.2 <= code.hookBound
    ensures forall j :: r.2 <= j ==> FiberSlot(r.0, f, j) == FiberSlot(w, f, j)
    ensures forall g :: g in w.fibers && g != f ==> r.0.fibers[g] == w.fibers[g]
    // the component call is logged before any call its hooks make
    ensures |r.0.calls| > |w.calls| && r.0.calls[..|w.calls| + 1] == w.calls + [RenderCall(w.fibers[f].nodeType.fn)]
    ensures r.0.dom == w.dom && r.0.deletions == w.deletions && r.0.nextFiberId == w.nextFiberId
    ensures SamePass(w, r.0)
  {
    var w1 := StartRender(w, f);
    var out := RunBody(w1, code, f, w.fibers[f].nodeType.fn, w.fibers[f].pendingProps, [], code.hookBound);
    RenderFrame(w, w1, out.0, f, out.2);
    out
  }

  /** What `RenderComponent` promises, from the start of the render and the run of the body. */
  lemma RenderFrame(w: World, w1: World, w2: World, f: FiberId, n: nat)
    requires f in w.fibers && w.fibers[f].nodeType.Component?
    requires w1 == w.(fibers := w.fibers[f := w.fibers[f].(hookIndex := 0)], currentFiber := Some(f),
                      calls := w.calls + [RenderCall(w.fibers[f].nodeType.fn)])
    requires forall j :: FiberSlot(w1, f, j) == FiberSlot(w, f, j)
    requires BodyFrame(w1, w2, f, n)
    ensures w2.currentFiber == Some(f) && w2.fibers.Keys == w.fibers.Keys
    ensures w2.fibers[f].hookIndex == n
    ensures forall j :: n <= j ==> FiberSlot(w2, f, j) == FiberSlot(w, f, j)
    ensures forall g :: g in w.fibers && g != f ==> w2.fibers[g] == w.fibers[g]
    ensures |w2.calls| > |w.calls| && w2.calls[..|w.calls| + 1] == w.calls + [RenderCall(w.fibers[f].nodeType.fn)]
    ensures w2.dom == w.dom && w2.deletions == w.deletions && w2.nextFiberId == w.nextFiberId
    ensures SamePass(w, w2)
  {
    assert w2.calls[..|w.calls| + 1] == w1.calls by {
      assert w2.calls[..|w1.calls|] == w1.calls;
    }
  }

  /** `fiberState.currentFiber = fiber; fiber.hookIndex = 0;` and the call of the component. */
  function StartRender(w: World, f: FiberId): (r: World)
    requires Valid(w) && f in w.fibers && w.fibers[f].nodeType.Component?
    ensures Valid(r)
    ensures r == w.(fibers := w.fibers[f := w.fibers[f].(hookIndex := 0)], currentFiber := Some(f),
                    calls := w.calls + [RenderCall(w.fibers[f].nodeType.fn)])
    ensures forall j :: FiberSlot(r, f, j) == FiberSlot(w, f, j)
  {
    assert FiberOk(w, f);
    var w0 := w.(currentFiber := Some(f), calls := w.calls + [RenderCall(w.fibers[f].nodeType.fn)]);
    StateChangeKeepsValid(w, w0);
    SetFiber(w0, f, w.fibers[f].(hookIndex := 0))
  }

  /** `updateFunctionComponent(fiber)` */
  function UpdateFunctionComponent(w: World, code: UserCode, f: FiberId): (r: World)
    requires Valid(w) && f in w.fibers && w.fibers[f].nodeType.Component?
    ensures Valid(r) && w.fibers.Keys <= r.fibers.Keys
    ensures r.currentFiber == Some(f) && r.dom == w.dom
    ensures var out := RenderComponent(w, code, f);
      r.nextFiberId == w.nextFiberId + |Rendered(out.1)|
    ensures SamePass(w, r)
    // the component is rendered first, then its output reconciled as written
    ensures var out := RenderComponent(w, code, f);
      r == ReconcileChildrenAsWritten(out.0, f, Rendered(out.1))
  {
    var out := RenderComponent(w, code, f);
    ReconcileChildrenAsWritten(out.0, f, Rendered(out.1))
  }

  // ---------------------------------------------------------------------
  // performUnitOfWork

  /** The sibling of the `k`-th fiber up the `return` chain from `f`, if both exist. */
  function SiblingAt(w: World, f: FiberId, k: nat): Option<FiberId>
    requires Valid(w) && f in w.fibers
  {
    var a := Ancestor(w, f, k);
    if a.Some? then w.fibers[a.value].sibling else None
  }

  /** The `k`-th fiber up from `f` is the nearest of `f` and its ancestors with a sibling. */
  predicate NearestWithSibling(w: World, f: FiberId, k: nat)
    requires Valid(w) && f in w.fibers
  {
    SiblingAt(w, f, k).Some? && forall i :: 0 <= i < k ==> SiblingAt(w, f, i).None?
  }

  /** `while (nextFiber) { if (nextFiber.sibling) return nextFiber.sibling; nextFiber = nextFiber.return; }` */
  function Climb(w: World, x: FiberId): Option<FiberId>
    requires Valid(w) && x in w.fibers
    decreases x
  {
    assert FiberOk(w, x);
    if w.fibers[x].sibling.Some? then w.fibers[x].sibling
    else if w.fibers[x].parent.None? then None
    else Climb(w, w.fibers[x].parent.value)
  }

  /** The unit after `f`: its child, else what the climb finds. */
  function NextUnit(w: World, f: FiberId): Option<FiberId>
    requires Valid(w) && f in w.fibers
  {
    if w.fibers[f].child.Some? then w.fibers[f].child else Climb(w, f)
  }

  lemma AncestorStep(w: World, x: FiberId, k: nat)
    requires Valid(w) && x in w.fibers && w.fibers[x].parent.Some?
    ensures w.fibers[x].parent.value in w.fibers
    ensures Ancestor(w, x, k + 1) == Ancestor(w, w.fibers[x].parent.value, k)
    ensures SiblingAt(w, x, k + 1) == SiblingAt(w, w.fibers[x].parent.value, k)
  {
    assert FiberOk(w, x);
  }

  /** The climb returns the sibling of the nearest of `x` and its ancestors that has one. */
  lemma {:induction false} ClimbFindsNearestSibling(w: World, x: FiberId)
    requires Valid(w) && x in w.fibers
    ensures Climb(w, x).Some? ==> exists k: nat :: NearestWithSibling(w, x, k) && Climb(w, x) == SiblingAt(w, x, k)
    ensures Climb(w, x).None? ==> forall k: nat :: SiblingAt(w, x, k).None?
    decreases x
  {
    assert FiberOk(w, x);
    if w.fibers[x].sibling.Some? {
      assert NearestWithSibling(w, x, 0);
    } else if w.fibers[x].parent.None? {
      forall k: nat ensures SiblingAt(w, x, k).None? {
        if k > 0 {
          assert Ancestor(w, x, k).None?;
        }
      }
    } else {
      var p := w.fibers[x].parent.value;
      ClimbFindsNearestSibling(w, p);
      assert Climb(w, x) == Climb(w, p);
      if Climb(w, p).Some? {
        var k: nat :| NearestWithSibling(w, p, k) && Climb(w, p) == SiblingAt(w, p, k);
        AncestorStep(w, x, k);
        forall i | 0 <= i < k + 1 ensures SiblingAt(w, x, i).None? {
          if i > 0 {
            AncestorStep(w, x, i - 1);
          }
        }
        assert NearestWithSibling(w, x, k + 1);
      } else {
        forall k: nat ensures SiblingAt(w, x, k).None? {
          if k > 0 {
            AncestorStep(w, x, k - 1);
          }
        }
      }
    }
  }

  /**
   * The step of `performUnitOfWork` is depth-first pre-order: the child if
   * there is one; otherwise the sibling of the nearest of the fiber and its
   * ancestors that has one; otherwise nothing, exactly when no such
   * sibling exists.
   */
  lemma NextUnitIsPreOrder(w: World, f: FiberId)
    requires Valid(w) && f in w.fibers
    ensures w.fibers[f].child.Some? ==> NextUnit(w, f) == w.fibers[f].child
    ensures w.fibers[f].child.None? && NextUnit(w, f).Some? ==>
      exists k: nat :: NearestWithSibling(w, f, k) && NextUnit(w, f) == SiblingAt(w, f, k)
    ensures w.fibers[f].child.None? ==> (NextUnit(w, f).None? <==> forall k: nat :: SiblingAt(w, f, k).None?)
  {
    ClimbFindsNearestSibling(w, f);
    if w.fibers[f].child.None? && NextUnit(w, f).Some? {
      var k: nat :| NearestWithSibling(w, f, k) && NextUnit(w, f) == SiblingAt(w, f, k);
      assert SiblingAt(w, f, k).Some?;
    }
  }

  /** `performUnitOfWork(fiber)`: the unit of work on `f`, and the next unit. */
  function PerformUnitOfWork(w: World, code: UserCode, f: FiberId): (r: (World, Option<FiberId>))
    requires Valid(w) && f in w.fibers
    ensures Valid(r.0) && f in r.0.fibers && w.fibers.Keys <= r.0.fibers.Keys
    ensures r.1 == NextUnit(r.0, f)
    ensures InFibers(r.0, r.1)
    ensures SamePass(w, r.0)
  {
    assert FiberOk(w, f);
    var w1 := if w.fibers[f].isComponent then UpdateFunctionComponent(w, code, f) else UpdateHostComponent(w, f);
    NextUnitIn(w1, f);
    (w1, NextUnit(w1, f))
  }

  /**
   * A host fiber with children: the unit makes the `j`-th new fiber for
   * the `j`-th child of its description, and the next unit is the first
   * of them.
   */
  lemma HostUnitDescends(w: World, code: UserCode, f: FiberId, j: nat)
    requires Valid(w) && f in w.fibers && !w.fibers[f].isComponent && j < |HostChildren(w.fibers[f])|
    ensures var r := PerformUnitOfWork(w, code, f);
      HoldsChild(r.0.fibers, f, NormalizeChildren(HostChildren(w.fibers[f])), w.nextFiberId, j) &&
      r.1 == Some(w.nextFiberId)
  {
    var w1 := PrepareHostNode(w, f);
    var cs := HostChildren(w.fibers[f]);
    assert HostChildren(w1.fibers[f]) == cs;
    ReconcileNewFiber(w1, f, cs, true, j);
    ReconcileOldFiber(w1, f, cs, true, f);
  }

  /**
   * A component that renders a node: the unit makes one new fiber for it,
   * and the next unit is that fiber.
   */
  lemma ComponentUnitDescends(w: World, code: UserCode, f: FiberId)
    requires Valid(w) && f in w.fibers && w.fibers[f].isComponent
    requires w.fibers[f].nodeType.Component? && RenderComponent(w, code, f).1.Some?
    ensures var r := PerformUnitOfWork(w, code, f);
      HoldsChild(r.0.fibers, f, [RenderComponent(w, code, f).1.value], w.nextFiberId, 0) &&
      r.1 == Some(w.nextFiberId)
  {
    var out := RenderComponent(w, code, f);
    var cs := Rendered(out.1);
    assert NormalizeChildren(cs) == [out.1.value];
    ReconcileNewFiber(out.0, f, cs, true, 0);
    ReconcileOldFiber(out.0, f, cs, true, f);
  }

  lemma NextUnitIn(w: World, f: FiberId)
    requires Valid(w) && f in w.fibers
    ensures InFibers(w, NextUnit(w, f))
  {
    assert FiberOk(w, f);
    ClimbIn(w, f);
  }

  lemma {:induction false} ClimbIn(w: World, x: FiberId)
    requires Valid(w) && x in w.fibers
    ensures InFibers(w, Climb(w, x))
    decreases x
  {
    assert FiberOk(w, x);
    if w.fibers[x].sibling.None? && w.fibers[x].parent.Some? {
      ClimbIn(w, w.fibers[x].parent.value);
    }
  }
}
