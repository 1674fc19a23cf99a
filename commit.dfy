/**
 * The commit phase (src/reconciler.ts:337-442): the fibers queued for
 * deletion are walked first, then the work-in-progress tree, and only
 * then the effects of the fibers that asked for them. `commitWork` is the
 * only place where host nodes are attached to or detached from a parent.
 */
module Commit {
  import opened Values
  import opened Vdom
  import opened Host
  import opened Fibers
  import opened Hooks
  import opened Schedule
  import opened Work

  // ---------------------------------------------------------------------
  // findParentDOMNode

  /** An ancestor `findParentDOMNode` walks past: a component without a host node. */
  predicate Skipped(r: FiberRec) {
    r.stateNode.None? && r.isComponent
  }

  /** The loop of `findParentDOMNode`, started at the fiber `p`. */
  function HostParentFrom(w: World, p: Option<FiberId>): (r: Option<NodeId>)
    requires Valid(w) && InFibers(w, p)
    ensures r.Some? ==> r.value in w.dom
    decreases if p.Some? then p.value + 1 else 0
  {
    if p.None? then None
    else
      assert FiberOk(w, p.value);
      var rec := w.fibers[p.value];
      if Skipped(rec) then HostParentFrom(w, rec.parent) else rec.stateNode
  }

  /** `findParentDOMNode(fiber)`: the walk starts at `fiber.return`. */
  function FindParentDOMNode(w: World, f: FiberId): (r: Option<NodeId>)
    requires Valid(w) && f in w.fibers
    ensures r.Some? ==> r.value in w.dom
    ensures r == HostParentFrom(w, w.fibers[f].parent)
  {
    assert FiberOk(w, f);
    HostParentFrom(w, w.fibers[f].parent)
  }

  /**
   * The walk from `p` answers the host node of the first fiber on the
   * `return` chain of `p`, `p` included, that it does not skip, and null
   * when it runs off the root having skipped them all.
   */
  lemma {:induction false} HostParentIsNearest(w: World, p: FiberId, k: nat)
    requires Valid(w) && p in w.fibers
    requires forall j: nat :: j < k ==> Ancestor(w, p, j).Some? && Skipped(w.fibers[Ancestor(w, p, j).value])
    ensures Ancestor(w, p, k).None? ==> HostParentFrom(w, Some(p)).None?
    ensures Ancestor(w, p, k).Some? && !Skipped(w.fibers[Ancestor(w, p, k).value]) ==>
      HostParentFrom(w, Some(p)) == w.fibers[Ancestor(w, p, k).value].stateNode
    decreases k
  {
    assert FiberOk(w, p);
    if k > 0 {
      assert Ancestor(w, p, 0) == Some(p);
      var q := w.fibers[p].parent;
      if q.Some? {
        forall j: nat | j < k - 1
          ensures Ancestor(w, q.value, j).Some? && Skipped(w.fibers[Ancestor(w, q.value, j).value])
        {
          assert Ancestor(w, p, j + 1) == Ancestor(w, q.value, j);
        }
        HostParentIsNearest(w, q.value, k - 1);
        assert Ancestor(w, p, k) == Ancestor(w, q.value, k - 1);
      }
    }
  }

  // ---------------------------------------------------------------------
  // removeDOMNode and updateDOMNode

  /** `node instanceof HTMLElement || node instanceof Text`: the nodes that carry `_fiberNode`. */
  predicate IsHostObject(node: HostNode) {
    node.kind.Element? || node.kind.TextNode?
  }

  /** The guard of `removeDOMNode`: the fiber has a node and the parent contains it. */
  predicate RemoveGuard(w: World, f: FiberId, parentNode: Option<NodeId>)
    requires f in w.fibers
  {
    w.fibers[f].stateNode.Some? && parentNode.Some? &&
    Contains(w.dom, parentNode.value, w.fibers[f].stateNode.value)
  }

  /**
   * `removeDOMNode(fiber, parentNode)`: a node the parent contains is
   * removed from it, and loses its `_fiberNode`. `removeChild` throws when
   * the node is a deeper descendant; the model then leaves the tree as it is.
   */
  function RemoveDOMNode(w: World, f: FiberId, parentNode: Option<NodeId>): (r: World)
    requires Valid(w) && f in w.fibers && (parentNode.Some? ==> parentNode.value in w.dom)
    ensures Valid(r) && r == w.(dom := r.dom) && r.dom.Keys == w.dom.Keys
    ensures !RemoveGuard(w, f, parentNode) ==> r == w
    ensures RemoveGuard(w, f, parentNode) ==>
      var p := parentNode.value; var n := w.fibers[f].stateNode.value;
      if w.dom[n].parent == Some(p) && p != n then
        // the node is out of the parent, detached, and without back-reference
        n !in r.dom[p].children && r.dom[n].parent.None? &&
        (forall y :: y in r.dom[p].children <==> y in w.dom[p].children && y != n) &&
        r.dom[n] == w.dom[n].(parent := None, fiberRef := if IsHostObject(w.dom[n]) then None else w.dom[n].fiberRef) &&
        (forall m :: m in w.dom && m != p && m != n ==> r.dom[m] == w.dom[m])
      else r == w
  {
    if RemoveGuard(w, f, parentNode) then
      var p := parentNode.value;
      assert FiberOk(w, f);
      var n := w.fibers[f].stateNode.value;
      if w.dom[n].parent == Some(p) && p != n then SetDom(w, Unlinked(w.dom, p, n))
      else w
    else w
  }

  /** The host side of `removeDOMNode`: `n` leaves its parent `p` and a host object loses its `_fiberNode`. */
  function Unlinked(d: Dom, p: NodeId, n: NodeId): (r: Dom)
    requires p in d && n in d && d[n].parent == Some(p) && p != n
    ensures r.Keys == d.Keys
    ensures n !in r[p].children && r[n].parent.None? && (forall y :: y in r[p].children <==> y in d[p].children && y != n)
    ensures r[n] == d[n].(parent := None, fiberRef := if IsHostObject(d[n]) then None else d[n].fiberRef)
    ensures forall m :: m in d && m != p && m != n ==> r[m] == d[m]
    ensures forall m :: m in d && r[m].fiberRef.Some? ==> r[m].fiberRef == d[m].fiberRef
  {
    var d1 := RemoveChild(d, p, n);
    d1[n := if IsHostObject(d1[n]) then d1[n].(fiberRef := None) else d1[n]]
  }

  /** Once removed, the node is no longer inside its old parent. */
  lemma RemovedNotContained(w: World, f: FiberId, parentNode: Option<NodeId>)
    requires Valid(w) && f in w.fibers && (parentNode.Some? ==> parentNode.value in w.dom)
    requires RemoveGuard(w, f, parentNode)
    requires w.dom[w.fibers[f].stateNode.value].parent == parentNode && parentNode != w.fibers[f].stateNode
    ensures !Contains(RemoveDOMNode(w, f, parentNode).dom, parentNode.value, w.fibers[f].stateNode.value)
  {
    var r := RemoveDOMNode(w, f, parentNode);
    DetachedNotContained(r.dom, parentNode.value, w.fibers[f].stateNode.value, |r.dom|);
  }

  /**
   * The text `updateDOMNode` gives a text node, as written:
   * `String(nodeValue || "")`. A falsy `nodeValue` such as the number 0
   * becomes the empty string.
   */
  function CommitTextAsWritten(r: FiberRec): string {
    ToStr(Or(NodeValue(r), Str("")))
  }

  /**
   * The text as evidently intended, `String(nodeValue ?? "")`: the text
   * `createDOMNode` and `updateExistingNode` give the same node.
   */
  function CommitText(r: FiberRec): string {
    ToStr(Coalesce(NodeValue(r), Str("")))
  }

  /** The number 0 as a text child: created as "0", committed as "". */
  lemma ZeroTextErasedAsWritten(r: FiberRec)
    requires NodeValue(r) == Num(0)
    ensures CreatedText(r) == "0" && CommitTextAsWritten(r) == ""
  {
  }

  /**
   * The intended commit text agrees with the text the render phase wrote,
   * and with the text of a newly created node whenever there is a value.
   */
  lemma CommitTextAgreesWithRender(w: World, r: FiberRec, node: HostNode)
    requires node.kind.TextNode?
    ensures UpdatedNode(w, r, node).text == CommitText(r)
    ensures !NodeValue(r).Undefined? && !NodeValue(r).Null? ==> CreatedText(r) == CommitText(r)
  {
  }

  /** The node with the commit text and, for elements and text, the back-reference to `f`. */
  function CommittedNode(node: HostNode, r: FiberRec, f: FiberId): (n: HostNode)
    ensures n.kind == node.kind && n.attrs == node.attrs && n.style == node.style && n.listeners == node.listeners
    ensures n.parent == node.parent && n.children == node.children
    ensures n.text == if node.kind.TextNode? && r.vnode.Some? then CommitTextAsWritten(r) else node.text
    ensures n.fiberRef == if IsHostObject(node) then Some(f) else node.fiberRef
  {
    var n1 := if node.kind.TextNode? && r.vnode.Some? then node.(text := CommitTextAsWritten(r)) else node;
    if IsHostObject(n1) then n1.(fiberRef := Some(f)) else n1
  }

  /** The host tree `updateDOMNode` starts from once the node is inside `p`. */
  function AttachUnder(d: Dom, p: NodeId, n: NodeId): (r: Dom)
    requires p in d && n in d
    ensures Relinked(d, r)
    ensures !Contains(d, n, p) ==> Contains(r, p, n)
  {
    if Contains(d, p, n) then d
    else
      var r := AppendChild(d, p, n);
      assert !Contains(d, n, p) ==> Contains(r, p, n) by {
        if !Contains(d, n, p) {
          ContainsChild(r, p, n);
        }
      }
      r
  }

  /**
   * `updateDOMNode(fiber, parentNode)`: without a parent nothing happens.
   * Otherwise the node is appended to the parent unless already inside
   * it, a text node takes its text, and an element or text node points
   * back at `f`. Appending an ancestor of the parent throws in the DOM;
   * the model leaves the tree shape as it is then.
   */
  function UpdateDOMNode(w: World, f: FiberId, parentNode: Option<NodeId>): (r: World)
    requires Valid(w) && f in w.fibers && w.fibers[f].stateNode.Some?
    requires parentNode.Some? ==> parentNode.value in w.dom
    ensures Valid(r) && r == w.(dom := r.dom) && r.dom.Keys == w.dom.Keys
    ensures parentNode.None? ==> r == w
    // the node, brought up to date, is put inside the parent
    ensures parentNode.Some? ==>
      var n := w.fibers[f].stateNode.value;
      n in w.dom && r.dom == Attached(w.dom, parentNode.value, n, CommittedNode(w.dom[n], w.fibers[f], f))
  {
    if parentNode.None? then w
    else
      var p := parentNode.value;
      assert FiberOk(w, f);
      var n := w.fibers[f].stateNode.value;
      SetDom(w, Attached(w.dom, p, n, CommittedNode(w.dom[n], w.fibers[f], f)))
  }

  /** The host side of `updateDOMNode`: `n` is put inside `p` and then takes the value `node`, links aside. */
  function Attached(d: Dom, p: NodeId, n: NodeId, node: HostNode): (r: Dom)
    requires p in d && n in d
    ensures Relinked(d[n := node], r)
    ensures forall m :: m in r ==> r[m].fiberRef == if m == n then node.fiberRef else d[m].fiberRef
    ensures !Contains(d, n, p) ==> Contains(r, p, n)
  {
    var d1 := AttachUnder(d, p, n);
    var r := d1[n := node.(parent := d1[n].parent, children := d1[n].children)];
    SameParentsSameContains(d1, r, p, n);
    assert Relinked(d[n := node], r) by {
      assert r.Keys == d1.Keys == d.Keys == d[n := node].Keys;
      forall m | m in d[n := node]
        ensures r[m] == d[n := node][m].(parent := r[m].parent, children := r[m].children)
      {
        if m != n {
          assert r[m] == d1[m];
        }
      }
    }
    r
  }

  // ---------------------------------------------------------------------
  // commitWork

  /** A fiber record after `commitWork` has visited it. */
  function Committed(r: FiberRec): (c: FiberRec)
    ensures c.memoizedProps == r.pendingProps && !c.dirty
    ensures c.(memoizedProps := r.memoizedProps, dirty := r.dirty) == r
  {
    r.(memoizedProps := r.pendingProps, dirty := false)
  }

  /** The child and sibling links, and the component flags, are the same. */
  predicate SameLinks(a: map<FiberId, FiberRec>, b: map<FiberId, FiberRec>) {
    b.Keys == a.Keys &&
    forall g :: g in a ==> b[g].child == a[g].child && b[g].sibling == a[g].sibling &&
                           b[g].isComponent == a[g].isComponent
  }

  /**
   * The fibers `commitWork(fiber)` visits: the fiber, then every fiber
   * reached from it by `child` and `sibling` links, within `fuel` levels.
   */
  function Visited(fs: map<FiberId, FiberRec>, f: Option<FiberId>, fuel: nat): set<FiberId>
    decreases fuel
  {
    if f.None? || fuel == 0 || f.value !in fs then {}
    else {f.value} + Visited(fs, fs[f.value].child, fuel - 1) + Visited(fs, fs[f.value].sibling, fuel - 1)
  }

  lemma {:induction false} VisitedSameLinks(a: map<FiberId, FiberRec>, b: map<FiberId, FiberRec>, f: Option<FiberId>, fuel: nat)
    requires SameLinks(a, b)
    ensures Visited(a, f, fuel) == Visited(b, f, fuel)
    decreases fuel
  {
    if f.Some? && fuel > 0 && f.value in a {
      VisitedSameLinks(a, b, a[f.value].child, fuel - 1);
      VisitedSameLinks(a, b, a[f.value].sibling, fuel - 1);
    }
  }

  /**
   * `r` is `fs` after visits of the fibers `s`: each host fiber of `s` is
   * committed, every other fiber is as it was.
   */
  predicate CommittedOn(fs: map<FiberId, FiberRec>, r: map<FiberId, FiberRec>, s: set<FiberId>) {
    r.Keys == fs.Keys &&
    forall g {:trigger r[g]} :: g in fs ==> r[g] == if g in s && !fs[g].isComponent then Committed(fs[g]) else fs[g]
  }

  lemma CommittedSameLinks(fs: map<FiberId, FiberRec>, r: map<FiberId, FiberRec>, s: set<FiberId>)
    requires CommittedOn(fs, r, s)
    ensures SameLinks(fs, r)
  {
  }

  /** Visiting twice is visiting once: the visits of `a` and then `b` are those of `a + b`. */
  lemma CommittedUnion(fs: map<FiberId, FiberRec>, r1: map<FiberId, FiberRec>, r2: map<FiberId, FiberRec>,
                       a: set<FiberId>, b: set<FiberId>)
    requires CommittedOn(fs, r1, a) && CommittedOn(r1, r2, b)
    ensures CommittedOn(fs, r2, a + b)
  {
    forall g | g in fs
      ensures r2[g] == if g in a + b && !fs[g].isComponent then Committed(fs[g]) else fs[g]
    {
      assert r1[g].isComponent == fs[g].isComponent;
    }
  }

  /**
   * `w'` is `w` after visits of the fibers `s`: only fibers and host nodes
   * have changed, the host fibers of `s` are committed, and no node was
   * created or destroyed.
   */
  predicate Walked(w: World, w': World, s: set<FiberId>) {
    Valid(w') && w'.dom.Keys == w.dom.Keys &&
    w' == w.(fibers := w'.fibers, dom := w'.dom) &&
    CommittedOn(w.fibers, w'.fibers, s)
  }

  /**
   * The visit of a host fiber: a dirty fiber has its node removed, any
   * other fiber with a node has it updated; then it takes its pending
   * props and is clean.
   */
  function CommitHost(w: World, x: FiberId): (r: World)
    requires Valid(w) && x in w.fibers && !w.fibers[x].isComponent
    ensures Walked(w, r, {x})
  {
    MarkCommitted(HostStep(w, x), x)
  }

  /** The host side of a visit: a dirty fiber's node is removed, any other node is updated. */
  function HostStep(w: World, x: FiberId): (r: World)
    requires Valid(w) && x in w.fibers
    ensures Valid(r) && r == w.(dom := r.dom) && r.dom.Keys == w.dom.Keys
  {
    var p := FindParentDOMNode(w, x);
    if w.fibers[x].dirty then RemoveDOMNode(w, x, p)
    else if w.fibers[x].stateNode.Some? then UpdateDOMNode(w, x, p)
    else w
  }

  /** The fiber side of a visit: the props become the committed ones and the fiber is clean. */
  function MarkCommitted(w: World, x: FiberId): (r: World)
    requires Valid(w) && x in w.fibers && !w.fibers[x].isComponent
    ensures Walked(w, r, {x})
  {
    assert FiberOk(w, x);
    SetFiber(w, x, Committed(w.fibers[x]))
  }

  /** The visit of `x` itself: a component only passes the walk on. */
  function VisitOne(w: World, x: FiberId): (r: World)
    requires Valid(w) && x in w.fibers
    ensures Walked(w, r, {x})
  {
    if w.fibers[x].isComponent then w else CommitHost(w, x)
  }

  /**
   * `commitWork(fiber)`: the fibers reached from `fiber` by child and
   * sibling links are visited in pre-order; a component only passes the
   * walk on. `fuel` bounds the depth of the walk.
   */
  function CommitWork(w: World, f: Option<FiberId>, fuel: nat): (r: World)
    requires Valid(w) && InFibers(w, f)
    ensures Walked(w, r, Visited(w.fibers, f, fuel))
    decreases fuel
  {
    if f.None? || fuel == 0 then w
    else
      var x := f.value;
      assert FiberOk(w, x);
      var w1 := VisitOne(w, x);
      var w2 := CommitWork(w1, w.fibers[x].child, fuel - 1);
      var w3 := CommitWork(w2, w.fibers[x].sibling, fuel - 1);
      WalkStep(w, x, fuel, w1, w2, w3);
      w3
  }

  /** Visits in sequence add up to the pre-order walk from `x`. */
  lemma WalkStep(w: World, x: FiberId, fuel: nat, w1: World, w2: World, w3: World)
    requires x in w.fibers && fuel > 0
    requires Walked(w, w1, {x})
    requires Walked(w1, w2, Visited(w1.fibers, w.fibers[x].child, fuel - 1))
    requires Walked(w2, w3, Visited(w2.fibers, w.fibers[x].sibling, fuel - 1))
    ensures Walked(w, w3, Visited(w.fibers, Some(x), fuel))
  {
    FibersStep(w.fibers, w1.fibers, w2.fibers, w3.fibers, x, fuel);
  }

  lemma {:induction false} FibersStep(fs: map<FiberId, FiberRec>, f1: map<FiberId, FiberRec>, f2: map<FiberId, FiberRec>,
                   f3: map<FiberId, FiberRec>, x: FiberId, fuel: nat)
    requires x in fs && fuel > 0
    requires CommittedOn(fs, f1, {x})
    requires CommittedOn(f1, f2, Visited(f1, fs[x].child, fuel - 1))
    requires CommittedOn(f2, f3, Visited(f2, fs[x].sibling, fuel - 1))
    ensures CommittedOn(fs, f3, Visited(fs, Some(x), fuel))
  {
    var a := Visited(fs, fs[x].child, fuel - 1);
    var b := Visited(fs, fs[x].sibling, fuel - 1);
    assert CommittedOn(fs, f2, {x} + a) by {
      ThenVisit(fs, f1, f2, {x}, fs[x].child, fuel - 1);
    }
    assert CommittedOn(fs, f3, {x} + a + b) by {
      ThenVisit(fs, f2, f3, {x} + a, fs[x].sibling, fuel - 1);
    }
    VisitedUnfold(fs, x, fuel);
    CommittedOnSame(fs, f3, {x} + a + b, Visited(fs, Some(x), fuel));
  }

  lemma CommittedOnSame(fs: map<FiberId, FiberRec>, r: map<FiberId, FiberRec>, s: set<FiberId>, t: set<FiberId>)
    requires CommittedOn(fs, r, s) && s == t
    ensures CommittedOn(fs, r, t)
  {
  }

  /** Visits of `s` then a walk from `f` are the visits of `s` and of what the walk reaches. */
  lemma ThenVisit(fs: map<FiberId, FiberRec>, g: map<FiberId, FiberRec>, h: map<FiberId, FiberRec>,
                  s: set<FiberId>, f: Option<FiberId>, fuel: nat)
    requires CommittedOn(fs, g, s) && CommittedOn(g, h, Visited(g, f, fuel))
    ensures CommittedOn(fs, h, s + Visited(fs, f, fuel))
  {
    CommittedSameLinks(fs, g, s);
    VisitedSameLinks(fs, g, f, fuel);
    CommittedUnion(fs, g, h, s, Visited(fs, f, fuel));
  }

  lemma VisitedUnfold(fs: map<FiberId, FiberRec>, x: FiberId, fuel: nat)
    requires x in fs && fuel > 0
    ensures Visited(fs, Some(x), fuel) == {x} + Visited(fs, fs[x].child, fuel - 1) + Visited(fs, fs[x].sibling, fuel - 1)
  {
  }


  /**
   * The walk reaches what a pre-order walk reaches: the fiber itself, and,
   * with fuel to spare, every fiber its child and sibling walks reach.
   */
  lemma {:induction false} VisitedIsReach(fs: map<FiberId, FiberRec>, x: FiberId, fuel: nat)
    requires x in fs && fuel > 0
    ensures x in Visited(fs, Some(x), fuel)
    ensures Visited(fs, fs[x].child, fuel - 1) <= Visited(fs, Some(x), fuel)
    ensures Visited(fs, fs[x].sibling, fuel - 1) <= Visited(fs, Some(x), fuel)
    ensures forall g :: g in Visited(fs, Some(x), fuel) ==>
      g == x || g in Visited(fs, fs[x].child, fuel - 1) || g in Visited(fs, fs[x].sibling, fuel - 1)
  {
  }

  /** More fuel reaches at least as far. */
  lemma {:induction false} VisitedMonotone(fs: map<FiberId, FiberRec>, f: Option<FiberId>, fuel: nat, more: nat)
    requires fuel <= more
    ensures Visited(fs, f, fuel) <= Visited(fs, f, more)
    decreases fuel
  {
    if f.Some? && fuel > 0 && f.value in fs {
      VisitedMonotone(fs, fs[f.value].child, fuel - 1, more - 1);
      VisitedMonotone(fs, fs[f.value].sibling, fuel - 1, more - 1);
    }
  }

  // ---------------------------------------------------------------------
  // commitEffects

  /** A hook `commitEffects` runs: an effect whose `shouldRun` is set. */
  predicate Pending(h: Hook) {
    h.kind == EffectKind && h.shouldRun
  }

  /**
   * One hook of `commitEffects`: the hook afterwards and the calls made.
   * A pending effect has its cleanup called first, if there is one, then
   * the effect; a function it returns becomes the new cleanup, anything
   * else leaves the old cleanup in place; `shouldRun` is cleared.
   */
  function RunEffect(code: UserCode, h: Hook): (res: (Hook, seq<Call>))
    requires HookOk(h)
    ensures HookOk(res.0) && !Pending(res.0)
    ensures !Pending(h) ==> res == (h, [])
    ensures Pending(h) ==>
      var out := code.call(h.value.fn);
      res.0 == h.(cleanup := if out.Fn? then out else h.cleanup, shouldRun := false) &&
      res.1 == (if h.cleanup.Fn? then [CleanupCall(h.cleanup.fn)] else []) + [EffectCall(h.value.fn)]
  {
    if Pending(h) then
      var pre := if Truthy(h.cleanup) then [CleanupCall(h.cleanup.fn)] else [];
      var out := code.call(h.value.fn);
      (h.(cleanup := if out.Fn? then out else h.cleanup, shouldRun := false), pre + [EffectCall(h.value.fn)])
    else (h, [])
  }

  /** Every filled slot holds a well-formed hook. */
  predicate HooksOk(s: seq<Option<Hook>>) {
    forall i :: 0 <= i < |s| && s[i].Some? ==> HookOk(s[i].value)
  }

  lemma SlotsAreHooksOk(s: seq<Option<Hook>>)
    requires SlotsOk(s)
    ensures HooksOk(s)
  {
    forall i | 0 <= i < |s| && s[i].Some? ensures HookOk(s[i].value) {
      assert SlotOk(s, i);
    }
  }

  /** A slot after `commitEffects`. */
  function RanSlot(code: UserCode, o: Option<Hook>): Option<Hook>
    requires o.Some? ==> HookOk(o.value)
  {
    if o.Some? then Some(RunEffect(code, o.value).0) else None
  }

  /**
   * `fiber.hooks.forEach(...)` over the slots `s`: each filled slot in
   * order, holes skipped. The result is the new slots and the calls made.
   */
  function RunEffects(code: UserCode, s: seq<Option<Hook>>): (res: (seq<Option<Hook>>, seq<Call>))
    requires HooksOk(s)
    ensures |res.0| == |s|
    ensures forall i :: 0 <= i < |s| ==> res.0[i] == RanSlot(code, s[i])
    decreases |s|
  {
    if s == [] then ([], [])
    else
      var rest := RunEffects(code, s[1..]);
      var head := if s[0].Some? then RunEffect(code, s[0].value).1 else [];
      ([RanSlot(code, s[0])] + rest.0, head + rest.1)
  }

  /** No slot of `s` holds a pending effect. */
  predicate NonePending(s: seq<Option<Hook>>) {
    forall i :: 0 <= i < |s| && s[i].Some? ==> !Pending(s[i].value)
  }

  /** `commitEffects` leaves nothing to run; a slot list with nothing to run is left alone, without a call. */
  lemma {:induction false} RunEffectsSettles(code: UserCode, s: seq<Option<Hook>>)
    requires HooksOk(s)
    ensures HooksOk(RunEffects(code, s).0) && NonePending(RunEffects(code, s).0)
    ensures NonePending(s) ==> RunEffects(code, s) == (s, [])
    decreases |s|
  {
    var once := RunEffects(code, s).0;
    forall i | 0 <= i < |once| && once[i].Some? ensures HookOk(once[i].value) && !Pending(once[i].value) {
      assert once[i] == RanSlot(code, s[i]);
    }
    if s != [] {
      RunEffectsSettles(code, s[1..]);
      if NonePending(s) {
        assert s[0].Some? ==> !Pending(s[0].value) && RunEffect(code, s[0].value) == (s[0].value, []);
        assert RanSlot(code, s[0]) == s[0];
        assert NonePending(s[1..]) by {
          forall i | 0 <= i < |s[1..]| && s[1..][i].Some? ensures !Pending(s[1..][i].value) {
            assert s[1..][i] == s[i + 1];
          }
        }
        var head := if s[0].Some? then RunEffect(code, s[0].value).1 else [];
        assert head == [];
        assert RunEffects(code, s) == ([RanSlot(code, s[0])] + s[1..], head + []);
        assert [RanSlot(code, s[0])] + s[1..] == s;
        assert head + [] == [];
      }
    }
  }

  /** A second `commitEffects` right after the first runs nothing and changes nothing. */
  lemma RunEffectsIdempotent(code: UserCode, s: seq<Option<Hook>>)
    requires HooksOk(s)
    ensures var once := RunEffects(code, s).0;
      HooksOk(once) && RunEffects(code, once) == (once, [])
  {
    RunEffectsSettles(code, s);
    RunEffectsSettles(code, RunEffects(code, s).0);
  }

  /** The calls of `commitEffects` are cleanups and effects only, and there is one effect call per pending slot. */
  lemma {:induction false} RunEffectsCalls(code: UserCode, s: seq<Option<Hook>>)
    requires HooksOk(s)
    ensures forall c :: c in RunEffects(code, s).1 ==> c.EffectCall? || c.CleanupCall?
    ensures EffectCalls(RunEffects(code, s).1) == PendingCount(s)
    decreases |s|
  {
    if s != [] {
      RunEffectsCalls(code, s[1..]);
      var head := if s[0].Some? then RunEffect(code, s[0].value).1 else [];
      EffectCallsAppend(head, RunEffects(code, s[1..]).1);
      if s[0].Some? && Pending(s[0].value) {
        EffectCallsAppend(if s[0].value.cleanup.Fn? then [CleanupCall(s[0].value.cleanup.fn)] else [],
                          [EffectCall(s[0].value.value.fn)]);
      }
    }
  }

  /** The number of effect calls in a call log. */
  function EffectCalls(cs: seq<Call>): nat {
    if cs == [] then 0 else (if cs[0].EffectCall? then 1 else 0) + EffectCalls(cs[1..])
  }

  lemma {:induction false} EffectCallsAppend(a: seq<Call>, b: seq<Call>)
    ensures EffectCalls(a + b) == EffectCalls(a) + EffectCalls(b)
    decreases |a|
  {
    if a != [] {
      assert a + b != [];
      assert (a + b)[0] == a[0];
      assert (a + b)[1..] == a[1..] + b;
      EffectCallsAppend(a[1..], b);
    } else {
      assert a + b == b;
    }
  }

  /** The number of pending effects in a slot list. */
  function PendingCount(s: seq<Option<Hook>>): nat {
    if s == [] then 0 else (if s[0].Some? && Pending(s[0].value) then 1 else 0) + PendingCount(s[1..])
  }

  /** Replaces the hook array `l` by slots that are well formed. */
  function SetList(w: World, l: ListId, s: seq<Option<Hook>>): (w': World)
    requires Valid(w) && l in w.hookLists && HooksOk(s)
    ensures Valid(w')
    ensures w' == w.(hookLists := w.hookLists[l := s])
  {
    var w' := w.(hookLists := w.hookLists[l := s]);
    FibersStayOk(w, w');
    DomStaysOk(w, w');
    assert ListsOk(w') by {
      forall k | k in w'.hookLists ensures ListOk(w', k) {
        assert ListOk(w, k);
        if k == l {
          forall j | 0 <= j < |s| ensures SlotOk(s, j) {
          }
        }
      }
    }
    w'
  }

  /** `commitEffects(fiber)`: the effects in the hook array of `f`, in slot order. */
  function CommitEffects(w: World, code: UserCode, f: FiberId): (r: World)
    requires Valid(w) && f in w.fibers
    ensures Valid(r)
    ensures w.fibers[f].hooks.None? ==> r == w
    ensures w.fibers[f].hooks.Some? ==>
      var l := w.fibers[f].hooks.value;
      l in w.hookLists && HooksOk(w.hookLists[l]) &&
      r == w.(hookLists := w.hookLists[l := RunEffects(code, w.hookLists[l]).0],
              calls := w.calls + RunEffects(code, w.hookLists[l]).1)
  {
    if w.fibers[f].hooks.None? then w
    else
      assert FiberOk(w, f);
      var l := w.fibers[f].hooks.value;
      assert ListOk(w, l);
      SlotsAreHooksOk(w.hookLists[l]);
      var res := RunEffects(code, w.hookLists[l]);
      var w1 := SetList(w, l, res.0);
      var r := w1.(calls := w.calls + res.1);
      StateChangeKeepsValid(w1, r);
      r
  }

  // ---------------------------------------------------------------------
  // commitRoot

  /** The hook arrays of the fibers in `ps`. */
  function ListsOf(fs: map<FiberId, FiberRec>, ps: seq<FiberId>): set<ListId> {
    if ps == [] then {}
    else (if ps[0] in fs && fs[ps[0]].hooks.Some? then {fs[ps[0]].hooks.value} else {}) + ListsOf(fs, ps[1..])
  }

  /**
   * `r` is the hook arrays `hl` after `commitEffects` has run on those in
   * `ls`; the other arrays are as they were.
   */
  predicate RanOn(code: UserCode, hl: map<ListId, seq<Option<Hook>>>, r: map<ListId, seq<Option<Hook>>>, ls: set<ListId>) {
    r.Keys == hl.Keys &&
    forall l :: l in hl ==> HooksOk(hl[l]) && r[l] == if l in ls then RunEffects(code, hl[l]).0 else hl[l]
  }

  /** Running the arrays of `a` and then of `b` is running those of `a + b`, since a run settles. */
  lemma RanOnUnion(code: UserCode, hl: map<ListId, seq<Option<Hook>>>, r1: map<ListId, seq<Option<Hook>>>,
                   r2: map<ListId, seq<Option<Hook>>>, a: set<ListId>, b: set<ListId>)
    requires RanOn(code, hl, r1, a) && RanOn(code, r1, r2, b)
    ensures RanOn(code, hl, r2, a + b)
  {
    forall l | l in hl && l in a {
      RunEffectsIdempotent(code, hl[l]);
    }
  }

  /** `c1` is the call log `c0` followed by cleanup and effect calls only. */
  predicate EffectsLogged(c0: seq<Call>, c1: seq<Call>) {
    |c1| >= |c0| && c1[..|c0|] == c0 &&
    forall i :: |c0| <= i < |c1| ==> c1[i].EffectCall? || c1[i].CleanupCall?
  }

  lemma EffectsLoggedTrans(c0: seq<Call>, c1: seq<Call>, c2: seq<Call>)
    requires EffectsLogged(c0, c1) && EffectsLogged(c1, c2)
    ensures EffectsLogged(c0, c2)
  {
    assert c2[..|c0|] == c1[..|c0|];
  }

  /**
   * `w'` is `w` after the effects of the hook arrays `ls` have run: only
   * the hook arrays and the call log have changed.
   */
  predicate EffectsRan(code: UserCode, w: World, w': World, ls: set<ListId>) {
    Valid(w') && w' == w.(hookLists := w'.hookLists, calls := w'.calls) &&
    RanOn(code, w.hookLists, w'.hookLists, ls) && EffectsLogged(w.calls, w'.calls)
  }

  lemma ValidListsHooksOk(w: World)
    requires Valid(w)
    ensures forall l :: l in w.hookLists ==> HooksOk(w.hookLists[l])
  {
    forall l | l in w.hookLists ensures HooksOk(w.hookLists[l]) {
      assert ListOk(w, l);
      SlotsAreHooksOk(w.hookLists[l]);
    }
  }

  /** `commitEffects(fiber)` runs the effects of the hook array of `f`, if it has one. */
  lemma CommitEffectsRan(w: World, code: UserCode, f: FiberId)
    requires Valid(w) && f in w.fibers
    ensures EffectsRan(code, w, CommitEffects(w, code, f), ListsOf(w.fibers, [f]))
  {
    ValidListsHooksOk(w);
    var r := CommitEffects(w, code, f);
    assert ListsOf(w.fibers, [f]) == (if w.fibers[f].hooks.Some? then {w.fibers[f].hooks.value} else {});
    if w.fibers[f].hooks.Some? {
      RunEffectsCalls(code, w.hookLists[w.fibers[f].hooks.value]);
    }
  }

  /** `pendingEffects.forEach(commitEffects)` */
  function RunPendingEffects(w: World, code: UserCode, ps: seq<FiberId>): (r: World)
    requires Valid(w) && forall i :: 0 <= i < |ps| ==> ps[i] in w.fibers
    ensures EffectsRan(code, w, r, ListsOf(w.fibers, ps))
    decreases |ps|
  {
    ValidListsHooksOk(w);
    if ps == [] then w
    else
      var w1 := CommitEffects(w, code, ps[0]);
      CommitEffectsRan(w, code, ps[0]);
      var r := RunPendingEffects(w1, code, ps[1..]);
      PendingStep(w, code, ps, w1, r);
      r
  }

  /** The bookkeeping of one step of `RunPendingEffects`. */
  lemma PendingStep(w: World, code: UserCode, ps: seq<FiberId>, w1: World, r: World)
    requires ps != []
    requires EffectsRan(code, w, w1, ListsOf(w.fibers, [ps[0]]))
    requires EffectsRan(code, w1, r, ListsOf(w1.fibers, ps[1..]))
    ensures EffectsRan(code, w, r, ListsOf(w.fibers, ps))
  {
    RanOnUnion(code, w.hookLists, w1.hookLists, r.hookLists, ListsOf(w.fibers, [ps[0]]), ListsOf(w.fibers, ps[1..]));
    EffectsLoggedTrans(w.calls, w1.calls, r.calls);
    assert ListsOf(w.fibers, ps) == ListsOf(w.fibers, [ps[0]]) + ListsOf(w.fibers, ps[1..]);
  }

  /** Visits of `a` and then of `b` are visits of `a + b`. */
  lemma WalkedTrans(w: World, w1: World, w2: World, a: set<FiberId>, b: set<FiberId>)
    requires Walked(w, w1, a) && Walked(w1, w2, b)
    ensures Walked(w, w2, a + b)
  {
    CommittedUnion(w.fibers, w1.fibers, w2.fibers, a, b);
  }

  /** The fibers the walks from each of `ds` visit. */
  function VisitedAll(fs: map<FiberId, FiberRec>, ds: seq<FiberId>, fuel: nat): set<FiberId> {
    if ds == [] then {} else Visited(fs, Some(ds[0]), fuel) + VisitedAll(fs, ds[1..], fuel)
  }

  lemma {:induction false} VisitedAllSameLinks(a: map<FiberId, FiberRec>, b: map<FiberId, FiberRec>, ds: seq<FiberId>, fuel: nat)
    requires SameLinks(a, b)
    ensures VisitedAll(a, ds, fuel) == VisitedAll(b, ds, fuel)
    decreases |ds|
  {
    if ds != [] {
      VisitedSameLinks(a, b, Some(ds[0]), fuel);
      VisitedAllSameLinks(a, b, ds[1..], fuel);
    }
  }

  /** `fiberState.deletions.forEach(commitWork)` */
  function CommitDeletions(w: World, ds: seq<FiberId>, fuel: nat): (r: World)
    requires Valid(w) && forall i :: 0 <= i < |ds| ==> ds[i] in w.fibers
    ensures Walked(w, r, VisitedAll(w.fibers, ds, fuel))
    decreases |ds|
  {
    if ds == [] then w
    else
      var w1 := CommitWork(w, Some(ds[0]), fuel);
      var r := CommitDeletions(w1, ds[1..], fuel);
      CommittedSameLinks(w.fibers, w1.fibers, Visited(w.fibers, Some(ds[0]), fuel));
      VisitedAllSameLinks(w.fibers, w1.fibers, ds[1..], fuel);
      WalkedTrans(w, w1, r, Visited(w.fibers, Some(ds[0]), fuel), VisitedAll(w.fibers, ds[1..], fuel));
      r
  }

  /** The depth bound of the commit walks: one more than the number of fibers. */
  function WalkFuel(w: World): nat {
    |w.fibers| + 1
  }

  /** The fibers the commit walks visit: the deletions', then those of the work-in-progress tree. */
  function CommitVisits(w: World): set<FiberId>
    requires Valid(w)
  {
    VisitedAll(w.fibers, w.deletions, WalkFuel(w)) +
    (if w.wipRoot.Some? then Visited(w.fibers, w.fibers[w.wipRoot.value].child, WalkFuel(w)) else {})
  }

  /** The two walks of `commitRoot`: the deletions first, then the child of the work-in-progress root. */
  function CommitTree(w: World): (r: World)
    requires Valid(w)
    ensures Walked(w, r, CommitVisits(w))
  {
    var fuel := WalkFuel(w);
    var w1 := CommitDeletions(w, w.deletions, fuel);
    CommittedSameLinks(w.fibers, w1.fibers, VisitedAll(w.fibers, w.deletions, fuel));
    if w.wipRoot.Some? && w1.fibers[w.wipRoot.value].child.Some? then
      assert FiberOk(w1, w.wipRoot.value);
      var c := w.fibers[w.wipRoot.value].child;
      var r := CommitWork(w1, c, fuel);
      VisitedSameLinks(w.fibers, w1.fibers, c, fuel);
      WalkedTrans(w, w1, r, VisitedAll(w.fibers, w.deletions, fuel), Visited(w.fibers, c, fuel));
      r
    else
      assert VisitedAll(w.fibers, w.deletions, fuel) == CommitVisits(w);
      w1
  }

  /**
   * `commitRoot()`: the walks, then the effects of `pendingEffects`; the
   * work-in-progress tree becomes the current tree and the pass is over.
   * The fiber being rendered and the scheduled callback are not reset.
   */
  function CommitRoot(w: World, code: UserCode): (r: World)
    requires Valid(w)
    ensures Valid(r)
    ensures r.currentRoot == w.wipRoot && r.wipRoot.None? && r.deletions == [] && r.pendingEffects == []
    ensures !r.isRendering
    ensures r.currentFiber == w.currentFiber && r.scheduledCallback == w.scheduledCallback
    ensures r.nextUnit == w.nextUnit && r.timers == w.timers && r.nextHandle == w.nextHandle
    // every host fiber the walks visit is committed, every other fiber is as it was
    ensures CommittedOn(w.fibers, r.fibers, CommitVisits(w))
    // no node is created or destroyed
    ensures r.dom.Keys == w.dom.Keys
    // the effects of the pending fibers have run, and nothing else has
    ensures RanOn(code, w.hookLists, r.hookLists, ListsOf(w.fibers, w.pendingEffects))
    // the only calls made are cleanups and effects
    ensures EffectsLogged(w.calls, r.calls)
  {
    var w1 := CommitTree(w);
    var w2 := RunPendingEffects(w1, code, w.pendingEffects);
    var r := w2.(pendingEffects := [], currentRoot := w2.wipRoot, wipRoot := None, deletions := [], isRendering := false);
    StateChangeKeepsValid(w2, r);
    CommitRootSteps(w, code, CommitVisits(w), w1, w2, r);
    r
  }

  /** How the steps of `commitRoot` add up to its contract. */
  lemma CommitRootSteps(w: World, code: UserCode, visits: set<FiberId>, w1: World, w2: World, r: World)
    requires w1 == w.(fibers := w1.fibers, dom := w1.dom) && w1.dom.Keys == w.dom.Keys
    requires CommittedOn(w.fibers, w1.fibers, visits)
    requires w2 == w1.(hookLists := w2.hookLists, calls := w2.calls)
    requires RanOn(code, w1.hookLists, w2.hookLists, ListsOf(w1.fibers, w.pendingEffects))
    requires EffectsLogged(w1.calls, w2.calls)
    requires r == w2.(pendingEffects := [], currentRoot := w2.wipRoot, wipRoot := None, deletions := [], isRendering := false)
    ensures r.currentRoot == w.wipRoot && r.wipRoot.None? && r.deletions == [] && r.pendingEffects == []
    ensures !r.isRendering
    ensures r.currentFiber == w.currentFiber && r.scheduledCallback == w.scheduledCallback
    ensures r.nextUnit == w.nextUnit && r.timers == w.timers && r.nextHandle == w.nextHandle
    ensures CommittedOn(w.fibers, r.fibers, visits)
    ensures r.dom.Keys == w.dom.Keys
    ensures RanOn(code, w.hookLists, r.hookLists, ListsOf(w.fibers, w.pendingEffects))
    ensures EffectsLogged(w.calls, r.calls)
  {
    CommittedSameLinks(w.fibers, w1.fibers, visits);
    ListsOfSameKeys(w.fibers, w1.fibers, w.pendingEffects);
  }

  lemma {:induction false} ListsOfSameKeys(a: map<FiberId, FiberRec>, b: map<FiberId, FiberRec>, ps: seq<FiberId>)
    requires a.Keys == b.Keys && forall g :: g in a ==> b[g].hooks == a[g].hooks
    ensures ListsOf(a, ps) == ListsOf(b, ps)
    decreases |ps|
  {
    if ps != [] {
      ListsOfSameKeys(a, b, ps[1..]);
    }
  }

  /** After a commit every pending fiber's effects have run: a hook array of theirs has nothing left to run. */
  lemma CommitRootSettlesEffects(w: World, code: UserCode, i: nat)
    requires Valid(w) && i < |w.pendingEffects| && w.fibers[w.pendingEffects[i]].hooks.Some?
    ensures var l := w.fibers[w.pendingEffects[i]].hooks.value;
      l in CommitRoot(w, code).hookLists && NonePending(CommitRoot(w, code).hookLists[l])
  {
    assert FiberOk(w, w.pendingEffects[i]);
    var l := w.fibers[w.pendingEffects[i]].hooks.value;
    ListsOfMember(w.fibers, w.pendingEffects, i);
    ValidListsHooksOk(w);
    RunEffectsSettles(code, w.hookLists[l]);
  }

  lemma {:induction false} ListsOfMember(fs: map<FiberId, FiberRec>, ps: seq<FiberId>, i: nat)
    requires i < |ps| && ps[i] in fs && fs[ps[i]].hooks.Some?
    ensures fs[ps[i]].hooks.value in ListsOf(fs, ps)
    decreases i
  {
    if i > 0 {
      ListsOfMember(fs, ps[1..], i - 1);
    }
  }
}
