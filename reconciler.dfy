/**
 * The render phase of src/reconciler.ts: positional child diffing
 * (`reconcileChildren` and its helpers) over the `World`.
 */
module Reconciler {
  import opened Values
  import opened Vdom
  import opened Host
  import opened Fibers

  function Min(a: nat, b: nat): nat { if a <= b then a else b }
  function Max(a: nat, b: nat): nat { if a <= b then b else a }

  /** `s[k..]`, empty when `k` is past the end. */
  function From(s: seq<FiberId>, k: nat): seq<FiberId> {
    if k <= |s| then s[k..] else []
  }

  // ---------------------------------------------------------------------
  // normalizeChildren, isSameType, createUpdatedFiber, createNewFiber

  /** The description node a string or number child becomes. */
  function TextVNode(v: Value): VNode {
    VNode(Tag(""), Props(map["nodeValue" := v], []), Null)
  }

  function NormalizeChild(c: Child): VNode {
    match c
    case Node(v) => v
    case Text(s) => TextVNode(Str(s))
    case Number(n) => TextVNode(Num(n))
  }

  /**
   * `normalizeChildren(children)`: `children.map(...)`, keeping the length
   * and the order; a string or number becomes a node of type `""` with no
   * children whose `nodeValue` is that child, and a description node is
   * kept as it is.
   */
  function NormalizeChildren(cs: seq<Child>): (r: seq<VNode>)
    ensures |r| == |cs|
    ensures forall i :: 0 <= i < |cs| && cs[i].Node? ==> r[i] == cs[i].vnode
    ensures forall i :: 0 <= i < |cs| && cs[i].Text? ==>
      r[i] == VNode(Tag(""), Props(map["nodeValue" := Str(cs[i].text)], []), Null)
    ensures forall i :: 0 <= i < |cs| && cs[i].Number? ==>
      r[i] == VNode(Tag(""), Props(map["nodeValue" := Num(cs[i].num)], []), Null)
  {
    seq(|cs|, i requires 0 <= i < |cs| => NormalizeChild(cs[i]))
  }

  /** `isSameType(oldFiber, child)` */
  predicate IsSameType(prior: Option<FiberRec>, child: Option<VNode>) {
    prior.Some? && child.Some? &&
    ((child.value.nodeType == NullType && prior.value.nodeType == NullType) ||
     (child.value.nodeType == prior.value.nodeType && Same(child.value.key, prior.value.key)))
  }

  /**
   * Both sides must exist; two null types match whatever their keys, any
   * other pair needs equal types and equal keys.
   */
  lemma SameTypeCases(prior: Option<FiberRec>, child: Option<VNode>)
    ensures prior.None? || child.None? ==> !IsSameType(prior, child)
    ensures prior.Some? && child.Some? && prior.value.nodeType == NullType && child.value.nodeType == NullType ==>
      IsSameType(prior, child)
    ensures prior.Some? && child.Some? && prior.value.nodeType != child.value.nodeType ==> !IsSameType(prior, child)
    ensures prior.Some? && child.Some? && child.value.nodeType != NullType ==>
      (IsSameType(prior, child) <==> prior.value.nodeType == child.value.nodeType && Same(child.value.key, prior.value.key))
  {
  }

  /**
   * `createUpdatedFiber(oldFiber, child, parent)` as written: a new object
   * spread from the old fiber `oldId`, with five fields overridden. The
   * old fiber's `child` and `sibling` links come along.
   */
  function CreateUpdatedFiberAsWritten(prior: FiberRec, oldId: FiberId, child: VNode, parent: FiberId): (r: FiberRec)
    ensures r.pendingProps == child.props && r.vnode == Some(child)
    ensures r.parent == Some(parent) && r.alternate == Some(oldId) && !r.dirty
    // every other field, host node, hook array and tree links included, is the old fiber's
    ensures r.nodeType == prior.nodeType && r.key == prior.key && r.stateNode == prior.stateNode
    ensures r.hooks == prior.hooks && r.hookIndex == prior.hookIndex && r.isComponent == prior.isComponent
    ensures r.memoizedProps == prior.memoizedProps && r.child == prior.child && r.sibling == prior.sibling
  {
    prior.(pendingProps := child.props, vnode := Some(child), parent := Some(parent),
         alternate := Some(oldId), dirty := false)
  }

  /**
   * `createUpdatedFiber` as evidently intended: the clone keeps the old
   * fiber's host node, hooks and memoized props but starts with no tree
   * links of its own, as `createWorkInProgress` does (src/fiber.ts:82-83).
   */
  function CreateUpdatedFiber(prior: FiberRec, oldId: FiberId, child: VNode, parent: FiberId): (r: FiberRec)
    ensures r.pendingProps == child.props && r.vnode == Some(child)
    ensures r.parent == Some(parent) && r.alternate == Some(oldId) && !r.dirty
    ensures r.child.None? && r.sibling.None?
    ensures r.nodeType == prior.nodeType && r.key == prior.key && r.stateNode == prior.stateNode
    ensures r.hooks == prior.hooks && r.hookIndex == prior.hookIndex && r.isComponent == prior.isComponent
    ensures r.memoizedProps == prior.memoizedProps
  {
    CreateUpdatedFiberAsWritten(prior, oldId, child, parent).(child := None, sibling := None)
  }

  /** `createNewFiber(child, parent)` */
  function CreateNewFiber(child: VNode, parent: FiberId): (r: FiberRec)
    ensures r.nodeType == child.nodeType && r.key == Coalesce(child.key, Null)
    ensures r.parent == Some(parent) && r.child.None? && r.sibling.None?
    ensures r.alternate.None? && r.stateNode.None? && r.hooks.None? && r.hookIndex == 0
    ensures r.pendingProps == child.props && r.memoizedProps == EmptyProps && r.vnode == Some(child)
    ensures r.isComponent <==> IsFunctionType(child.nodeType)
    ensures !r.dirty
  {
    FiberRec(child.nodeType, None, Some(parent), None, None, None, child.props, EmptyProps,
             Some(child), Coalesce(child.key, Null), None, 0, IsFunctionType(child.nodeType), false)
  }

  /** A fresh fiber is `createFiber(type, key ?? null)` linked under the parent with the child's props. */
  lemma NewFiberIsCreatedFiber(child: VNode, parent: FiberId)
    ensures CreateNewFiber(child, parent) ==
      CreateFiber(child.nodeType, Coalesce(child.key, Null)).(parent := Some(parent), pendingProps := child.props,
                                                             vnode := Some(child))
  {
  }

  // ---------------------------------------------------------------------
  // markForDeletion, attachFiberToTree

  /** `markForDeletion(fiber)` */
  function MarkForDeletion(w: World, f: FiberId): (w': World)
    requires Valid(w) && f in w.fibers
    ensures Valid(w')
    ensures w'.fibers == w.fibers[f := w.fibers[f].(dirty := true)]
    ensures w'.deletions == w.deletions + [f]
    ensures w' == w.(fibers := w'.fibers, deletions := w'.deletions)
  {
    assert FiberOk(w, f);
    var w1 := SetFiber(w, f, w.fibers[f].(dirty := true));
    var w2 := w1.(deletions := w1.deletions + [f]);
    StateChangeKeepsValid(w1, w2);
    w2
  }

  /** What `attachFiberToTree(newFiber, parent, index, prevSibling)` does to the fiber records. */
  function Attached(fibers: map<FiberId, FiberRec>, parent: FiberId, index: nat, prev: Option<FiberId>,
                    nf: FiberId): (r: map<FiberId, FiberRec>)
    requires parent in fibers && (prev.Some? ==> prev.value in fibers)
    ensures r.Keys == fibers.Keys
  {
    if index == 0 then fibers[parent := fibers[parent].(child := Some(nf))]
    else if prev.Some? then fibers[prev.value := fibers[prev.value].(sibling := Some(nf))]
    else fibers
  }

  /**
   * Attaching links exactly one record: the parent's `child` for the first
   * new fiber, the previous sibling's `sibling` for a later one.
   */
  lemma AttachedLinks(fibers: map<FiberId, FiberRec>, parent: FiberId, index: nat, prev: Option<FiberId>, nf: FiberId)
    requires parent in fibers && (prev.Some? ==> prev.value in fibers)
    ensures var r := Attached(fibers, parent, index, prev, nf);
      (index == 0 ==> r[parent] == fibers[parent].(child := Some(nf))) &&
      (index != 0 && prev.Some? ==> r[prev.value] == fibers[prev.value].(sibling := Some(nf))) &&
      (forall g :: g in fibers && !(index == 0 && g == parent) && !(index != 0 && prev == Some(g)) ==>
         r[g] == fibers[g])
  {
  }

  /**
   * `attachFiberToTree(newFiber, parent, index, prevSibling)`: the first
   * new fiber becomes `parent.child`, a later one the sibling of the
   * previous one. It needs the previous fiber to rank above the new one.
   */
  function AttachFiberToTree(w: World, nf: FiberId, parent: FiberId, index: nat, prev: Option<FiberId>): (w': World)
    requires Valid(w) && nf in w.fibers && parent in w.fibers
    requires prev.Some? ==> prev.value in w.fibers && w.rank[nf] < w.rank[prev.value]
    ensures Valid(w')
    ensures w' == w.(fibers := Attached(w.fibers, parent, index, prev, nf))
  {
    if index == 0 then
      assert FiberOk(w, parent);
      SetFiber(w, parent, w.fibers[parent].(child := Some(nf)))
    else if prev.Some? then
      assert FiberOk(w, prev.value);
      assert FiberOk(w, nf);
      SetFiber(w, prev.value, w.fibers[prev.value].(sibling := Some(nf)))
    else w
  }

  // ---------------------------------------------------------------------
  // The old fibers

  /** A fiber and its `sibling` successors, in order. */
  function Chain(w: World, start: Option<FiberId>): (r: seq<FiberId>)
    requires Valid(w) && InFibers(w, start)
    ensures forall k :: 0 <= k < |r| ==> r[k] in w.fibers
    ensures start.None? <==> r == []
    ensures start.Some? ==> r[0] == start.value
    ensures forall k :: 0 <= k < |r| - 1 ==> w.fibers[r[k]].sibling == Some(r[k + 1])
    ensures r != [] ==> w.fibers[r[|r| - 1]].sibling.None?
    ensures forall k :: 0 <= k < |r| - 1 ==> w.rank[r[k + 1]] < w.rank[r[k]]
    decreases if start.Some? && start.value in w.rank then w.rank[start.value] + 1 else 0
  {
    if start.None? then []
    else
      assert FiberOk(w, start.value);
      var rest := Chain(w, w.fibers[start.value].sibling);
      assert rest != [] ==> FiberOk(w, rest[0]);
      [start.value] + rest
  }

  /** Ranks fall strictly along a chain, so no fiber occurs in it twice. */
  lemma {:induction false} RanksFall(rank: map<FiberId, nat>, r: seq<FiberId>)
    requires forall k :: 0 <= k < |r| ==> r[k] in rank
    requires forall k :: 0 <= k < |r| - 1 ==> rank[r[k + 1]] < rank[r[k]]
    ensures forall a, b :: 0 <= a < b < |r| ==> rank[r[b]] < rank[r[a]] && r[a] != r[b]
  {
    if |r| > 1 {
      var init := r[..|r| - 1];
      RanksFall(rank, init);
      forall a, b | 0 <= a < b < |r| ensures rank[r[b]] < rank[r[a]] {
        if b < |r| - 1 {
          assert r[a] == init[a] && r[b] == init[b];
        } else if a < |r| - 2 {
          assert r[a] == init[a] && r[b - 1] == init[b - 1];
        }
      }
    }
  }

  /** `fiber.alternate?.child`, followed along `sibling` links. */
  function OldChildren(w: World, parent: FiberId): seq<FiberId>
    requires Valid(w) && parent in w.fibers
  {
    assert FiberOk(w, parent);
    var alt := w.fibers[parent].alternate;
    if alt.None? then [] else
      assert FiberOk(w, alt.value);
      Chain(w, w.fibers[alt.value].child)
  }

  // ---------------------------------------------------------------------
  // reconcileChildren

  /**
   * What one call of `reconcileChildren` works with: the fiber being
   * reconciled, its old children (the `sibling` chain from
   * `alternate.child`), the normalized new children, the first rank
   * reserved for the new fibers and the id the first new fiber gets;
   * `asWritten` selects `createUpdatedFiber` as written rather than as
   * intended.
   */
  datatype Plan = Plan(parent: FiberId, olds: seq<FiberId>, norm: seq<VNode>, base: nat, mark: nat,
                       asWritten: bool)

  /** How many times the loop body runs: `index < children.length || oldFiber`. */
  function Steps(p: Plan): nat {
    Max(|p.norm|, |p.olds|)
  }

  /** How many new fibers exist after `k` steps. */
  function Created(p: Plan, k: nat): nat {
    Min(k, |p.norm|)
  }

  /**
   * Whether the loop body at index `i` marks the old fiber there for
   * deletion: past the last child, and, as intended, also when the child
   * at `i` is of another type. As written, a mismatch with a child present
   * creates the new fiber and leaves the old one alone.
   */
  predicate Deletes(w: World, p: Plan, i: nat)
    requires p.parent in w.fibers && forall k :: 0 <= k < |p.olds| ==> p.olds[k] in w.fibers
  {
    i < |p.olds| &&
    (|p.norm| <= i || (!p.asWritten && !IsSameType(OldRecAt(w, p, i), Some(p.norm[i]))))
  }

  /** What step `i` appends to `deletions`. */
  function Marked(w: World, p: Plan, i: nat): seq<FiberId>
    requires p.parent in w.fibers && forall k :: 0 <= k < |p.olds| ==> p.olds[k] in w.fibers
  {
    if Deletes(w, p, i) then [p.olds[i]] else []
  }

  /** The old fibers that the first `k` steps have marked for deletion, in order. */
  function Doomed(w: World, p: Plan, k: nat): (r: seq<FiberId>)
    requires p.parent in w.fibers && forall k :: 0 <= k < |p.olds| ==> p.olds[k] in w.fibers
    ensures forall i :: 0 <= i < |r| ==> r[i] in w.fibers
  {
    if k == 0 then [] else Doomed(w, p, k - 1) + Marked(w, p, k - 1)
  }

  predicate RankedBelow(w: World, base: nat, x: FiberId) {
    x in w.fibers ==> x in w.rank && w.rank[x] < base
  }

  /**
   * The plan fits the world: the old children are a `sibling` chain of
   * existing fibers, every existing fiber ranks below `base`, the ranks
   * from `base` to `base + |norm|` are free, and `mark` is the next id.
   */
  ghost predicate PlanOk(w: World, p: Plan) {
    Valid(w) && p.mark == w.nextFiberId && PlanShape(w, p) &&
    p.base + |p.norm| < w.rankCeil &&
    (forall x {:trigger RankedBelow(w, p.base, x)} :: RankedBelow(w, p.base, x))
  }

  /** The old fiber at `k` links to the one after it, and the last one to none. */
  predicate LinkedAt(w: World, p: Plan, k: nat) {
    k < |p.olds| ==>
      p.olds[k] in w.fibers &&
      w.fibers[p.olds[k]].sibling == if k + 1 < |p.olds| then Some(p.olds[k + 1]) else None
  }

  /** The part of `PlanOk` that the loop steps rely on. */
  ghost predicate PlanShape(w: World, p: Plan) {
    p.parent in w.fibers &&
    (forall x :: x in w.fibers ==> x < p.mark) &&
    (forall k :: 0 <= k < |p.olds| ==> p.olds[k] in w.fibers) &&
    (forall k {:trigger LinkedAt(w, p, k)} :: LinkedAt(w, p, k)) &&
    (forall a, b :: 0 <= a < b < |p.olds| ==> p.olds[a] != p.olds[b])
  }

  /**
   * The old fiber at position `j` as the loop finds it: only `parent.child`
   * can have changed by then, and only once the first new fiber is attached.
   */
  function OldRecAt(w: World, p: Plan, j: nat): Option<FiberRec>
    requires p.parent in w.fibers && forall k :: 0 <= k < |p.olds| ==> p.olds[k] in w.fibers
  {
    if j >= |p.olds| then None
    else if 0 < j && p.olds[j] == p.parent then Some(w.fibers[p.parent].(child := Some(p.mark)))
    else Some(w.fibers[p.olds[j]])
  }

  /** The fiber made for child `j`: a clone of the old fiber of the same type, or a fresh one. */
  function NewRec(w: World, p: Plan, j: nat): FiberRec
    requires p.parent in w.fibers && forall k :: 0 <= k < |p.olds| ==> p.olds[k] in w.fibers
    requires j < |p.norm|
  {
    var o := OldRecAt(w, p, j);
    if !IsSameType(o, Some(p.norm[j])) then CreateNewFiber(p.norm[j], p.parent)
    else if p.asWritten then CreateUpdatedFiberAsWritten(o.value, p.olds[j], p.norm[j], p.parent)
    else CreateUpdatedFiber(o.value, p.olds[j], p.norm[j], p.parent)
  }

  /** An existing fiber after `k` steps: the parent may have its first child, doomed ones are dirty. */
  function OldAfter(w: World, p: Plan, k: nat, x: FiberId): FiberRec
    requires p.parent in w.fibers && forall k :: 0 <= k < |p.olds| ==> p.olds[k] in w.fibers
    requires x in w.fibers
  {
    w.fibers[x].(child := if x == p.parent && 0 < Created(p, k) then Some(p.mark) else w.fibers[x].child,
                 dirty := w.fibers[x].dirty || x in Doomed(w, p, k))
  }

  /**
   * The new fiber for child `j` after `k` steps: the next new fiber, once
   * made, is its sibling; until then it keeps the sibling it was made with.
   */
  function NewAfter(w: World, p: Plan, k: nat, j: nat): FiberRec
    requires p.parent in w.fibers && forall k :: 0 <= k < |p.olds| ==> p.olds[k] in w.fibers
    requires j < |p.norm|
  {
    NewRec(w, p, j).(sibling := if j + 1 < Created(p, k) then Some(p.mark + j + 1) else NewRec(w, p, j).sibling)
  }

  /** The ids from `lo` up to, not including, `hi`. */
  function Range(lo: nat, hi: nat): (r: set<FiberId>)
    ensures forall x :: x in r <==> lo <= x < hi
    decreases hi - lo
  {
    if hi <= lo then {} else {lo} + Range(lo + 1, hi)
  }

  /** The ids of the new fibers after `k` steps. */
  function NewIds(p: Plan, k: nat): set<FiberId> {
    Range(p.mark, p.mark + Created(p, k))
  }

  function FibersAfter(w: World, p: Plan, k: nat): map<FiberId, FiberRec>
    requires p.parent in w.fibers && forall k :: 0 <= k < |p.olds| ==> p.olds[k] in w.fibers
  {
    map x | x in w.fibers.Keys + NewIds(p, k) ::
      if x in w.fibers then OldAfter(w, p, k, x) else NewAfter(w, p, k, x - p.mark)
  }

  /** The new fiber for child `j` gets rank `base + |norm| - j`: ranks fall along the new chain. */
  function RankAfter(w: World, p: Plan, k: nat): map<FiberId, nat> {
    map x | x in w.rank.Keys + NewIds(p, k) ::
      if x in NewIds(p, k) then (p.base + |p.norm| - (x - p.mark)) as nat else w.rank[x]
  }

  /** The world after `k` passes of the loop body of `reconcileChildren`. */
  function AfterSteps(w: World, p: Plan, k: nat): World
    requires p.parent in w.fibers && forall k :: 0 <= k < |p.olds| ==> p.olds[k] in w.fibers
  {
    w.(fibers := FibersAfter(w, p, k), rank := RankAfter(w, p, k),
       nextFiberId := p.mark + Created(p, k), deletions := w.deletions + Doomed(w, p, k))
  }

  /**
   * The record made for child `j` links to fibers that exist before the
   * loop, or to the first new fiber; its sibling, if any, is an old fiber.
   */
  lemma NewRecLinks(w: World, p: Plan, j: nat)
    requires PlanOk(w, p) && j < |p.norm|
    ensures var r := NewRec(w, p, j);
      r.parent == Some(p.parent) &&
      (r.child.Some? ==> r.child.value in w.fibers || r.child.value == p.mark) &&
      InFibers(w, r.alternate) &&
      (r.sibling.Some? ==> r.sibling.value in w.fibers) &&
      (r.stateNode.Some? ==> r.stateNode.value in w.dom) &&
      (r.hooks.Some? ==> r.hooks.value in w.hookLists) &&
      r.isComponent == r.nodeType.Component?
  {
    assert FiberOk(w, p.parent);
    assert j < |p.olds| ==> FiberOk(w, p.olds[j]);
  }

  /** An old fiber stays well linked after `k` steps. */
  lemma OldStaysOk(w: World, p: Plan, k: nat, x: FiberId)
    requires PlanOk(w, p) && k <= Steps(p) && x in w.fibers
    ensures FiberOk(AfterSteps(w, p, k), x)
  {
    var a := AfterSteps(w, p, k);
    assert FiberOk(w, x) && RankedBelow(w, p.base, x);
    var s := w.fibers[x].sibling;
    assert s.Some? ==> RankedBelow(w, p.base, s.value) && FiberOk(w, s.value);
    assert w.fibers[x].parent.Some? ==> w.fibers[x].parent.value in a.fibers;
    assert 0 < Created(p, k) ==> p.mark in NewIds(p, k);
  }

  /** The new fiber for child `j` is well linked after `k` steps. */
  lemma NewIsOk(w: World, p: Plan, k: nat, j: nat)
    requires PlanOk(w, p) && k <= Steps(p) && j < Created(p, k)
    ensures FiberOk(AfterSteps(w, p, k), p.mark + j)
  {
    var a := AfterSteps(w, p, k);
    var id := p.mark + j;
    var r := NewRec(w, p, j);
    NewRecLinks(w, p, j);
    assert id !in w.fibers;
    assert id in NewIds(p, k) && p.mark in NewIds(p, k);
    assert a.fibers[id] == NewAfter(w, p, k, j);
    assert a.rank[id] == p.base + |p.norm| - j;
    var s := a.fibers[id].sibling;
    if j + 1 < Created(p, k) {
      assert s == Some(id + 1) && id + 1 in NewIds(p, k);
      assert a.rank[id + 1] == p.base + |p.norm| - (j + 1);
    } else {
      assert s == r.sibling;
      assert s.Some? ==> RankedBelow(w, p.base, s.value) && FiberOk(w, s.value);
      assert s.Some? ==> s.value !in NewIds(p, k) && s.value in a.fibers && a.rank[s.value] == w.rank[s.value];
    }
    assert FiberOk(w, p.parent);
    assert a.fibers[id].parent == Some(p.parent) && p.parent in a.fibers && p.parent < id;
    assert InFibers(a, a.fibers[id].child);
    assert InFibers(a, a.fibers[id].alternate);
    assert a.fibers[id].stateNode.Some? ==> a.fibers[id].stateNode.value in a.dom;
    assert a.fibers[id].hooks.Some? ==> a.fibers[id].hooks.value in a.hookLists;
    assert a.fibers[id].isComponent == a.fibers[id].nodeType.Component?;
    assert id in a.rank;
    assert s.Some? ==> s.value in a.fibers && s.value in a.rank && a.rank[s.value] < a.rank[id];
    assert RecOk(a, id, a.fibers[id]);
  }

  lemma AfterStepsFibersOk(w: World, p: Plan, k: nat)
    requires PlanOk(w, p) && k <= Steps(p)
    ensures FibersOk(AfterSteps(w, p, k))
  {
    var a := AfterSteps(w, p, k);
    forall x | x in a.fibers ensures FiberOk(a, x) {
      if x in w.fibers {
        OldStaysOk(w, p, k, x);
      } else {
        NewIsOk(w, p, k, x - p.mark);
      }
    }
  }

  /** Every pass of the loop body keeps the world valid. */
  lemma AfterStepsValid(w: World, p: Plan, k: nat)
    requires PlanOk(w, p) && k <= Steps(p)
    ensures Valid(AfterSteps(w, p, k))
  {
    var a := AfterSteps(w, p, k);
    AfterStepsFibersOk(w, p, k);
    DomStaysOk(w, a);
    ListsStayOk(w, a);
    AfterStepsStateOk(w, p, k);
  }

  lemma AfterStepsStateOk(w: World, p: Plan, k: nat)
    requires PlanOk(w, p) && k <= Steps(p)
    ensures StateOk(AfterSteps(w, p, k))
  {
  }

  /** Before the first step nothing has changed. */
  lemma NoSteps(w: World, p: Plan)
    requires PlanShape(w, p) && p.mark == w.nextFiberId
    ensures AfterSteps(w, p, 0) == w
  {
    assert NewIds(p, 0) == {};
    assert FibersAfter(w, p, 0) == w.fibers by {
      forall x | x in w.fibers ensures FibersAfter(w, p, 0)[x] == w.fibers[x] {
        assert OldAfter(w, p, 0, x) == w.fibers[x];
      }
      SameFibers(FibersAfter(w, p, 0), w.fibers);
    }
    assert RankAfter(w, p, 0) == w.rank;
    assert w.deletions + Doomed(w, p, 0) == w.deletions;
  }

  /** `prevSibling` after `k` steps: the newest fiber, if any. */
  function Prev(p: Plan, k: nat): Option<FiberId> {
    if Created(p, k) == 0 then None else Some(p.mark + Created(p, k) - 1)
  }

  /** Each step with a child makes the newest fiber `prevSibling`; a step past the last child leaves it. */
  lemma PrevAfterCreate(p: Plan, k: nat)
    requires k < |p.norm|
    ensures Prev(p, k + 1) == Some(p.mark + k)
  {
  }

  lemma PrevAfterDelete(p: Plan, k: nat)
    requires |p.norm| <= k
    ensures Prev(p, k + 1) == Prev(p, k)
  {
  }

  /** The old fibers at and after position `k` are not yet marked. */
  lemma {:induction false} DoomedOnlyEarlier(w: World, p: Plan, k: nat)
    requires PlanShape(w, p)
    ensures forall i :: k <= i < |p.olds| ==> p.olds[i] !in Doomed(w, p, k)
  {
    if k > 0 {
      DoomedOnlyEarlier(w, p, k - 1);
    }
  }

  /** After `k` steps exactly the old fibers at earlier positions that were deleted there are marked. */
  lemma {:induction false} DoomedIff(w: World, p: Plan, k: nat)
    requires PlanShape(w, p)
    ensures forall i :: 0 <= i < |p.olds| ==> (p.olds[i] in Doomed(w, p, k) <==> i < k && Deletes(w, p, i))
    ensures forall x :: x in Doomed(w, p, k) ==> x in p.olds
  {
    if k > 0 {
      DoomedIff(w, p, k - 1);
      forall i | 0 <= i < |p.olds|
        ensures p.olds[i] in Marked(w, p, k - 1) <==> i == k - 1 && Deletes(w, p, i)
      {
        if i != k - 1 && k - 1 < |p.olds| {
          assert p.olds[i] != p.olds[k - 1];
        }
      }
    }
  }

  /** As written, only the old fibers past the last child are ever marked, in their order. */
  lemma {:induction false} DoomedAsWritten(w: World, p: Plan, k: nat)
    requires PlanShape(w, p) && p.asWritten && k <= Steps(p)
    ensures Doomed(w, p, k) == if k <= |p.norm| then [] else p.olds[|p.norm|..k]
  {
    if k > 0 {
      DoomedAsWritten(w, p, k - 1);
      if k - 1 >= |p.norm| {
        assert Marked(w, p, k - 1) == [p.olds[k - 1]];
        assert p.olds[|p.norm|..k] == p.olds[|p.norm|..k - 1] + [p.olds[k - 1]];
      } else {
        assert Marked(w, p, k - 1) == [];
      }
    }
  }

  /** The record the loop reads at position `j` differs from the old fiber at most in `child`. */
  lemma OldRecAtIs(w: World, p: Plan, j: nat)
    requires p.parent in w.fibers && (forall k :: 0 <= k < |p.olds| ==> p.olds[k] in w.fibers) && j < |p.olds|
    ensures OldRecAt(w, p, j).Some? && OldRecAt(w, p, j).value.(child := w.fibers[p.olds[j]].child) == w.fibers[p.olds[j]]
    ensures forall c :: IsSameType(OldRecAt(w, p, j), c) == IsSameType(Some(w.fibers[p.olds[j]]), c)
  {
  }

  /**
   * What the loop reads at step `k`: every old fiber is still there with
   * its `sibling` link, and the old fiber at position `k` is the record
   * the new fiber is cloned from.
   */
  lemma StepReads(w: World, p: Plan, k: nat)
    requires PlanShape(w, p) && k < Steps(p)
    ensures var a := AfterSteps(w, p, k);
      p.parent in a.fibers && a.nextFiberId == p.mark + Created(p, k) &&
      (k < |p.olds| ==>
         p.olds[k] in a.fibers &&
         a.fibers[p.olds[k]].sibling == (if k + 1 < |p.olds| then Some(p.olds[k + 1]) else None)) &&
      (k < |p.olds| && k < |p.norm| ==> OldRecAt(w, p, k) == Some(a.fibers[p.olds[k]])) &&
      (Prev(p, k).Some? ==> Prev(p, k).value in a.fibers)
  {
    var a := AfterSteps(w, p, k);
    if k < |p.olds| {
      var x := p.olds[k];
      assert LinkedAt(w, p, k);
      assert a.fibers[x] == OldAfter(w, p, k, x);
      DoomedOnlyEarlier(w, p, k);
    }
    assert Prev(p, k).Some? ==> Prev(p, k).value in NewIds(p, k);
  }

  /** The marking half of step `k`: the old fiber there is made dirty when it is deleted. */
  function MarkAt(w: World, p: Plan, fibers: map<FiberId, FiberRec>, k: nat): map<FiberId, FiberRec>
    requires p.parent in w.fibers && forall k :: 0 <= k < |p.olds| ==> p.olds[k] in w.fibers
    requires k < |p.olds| ==> p.olds[k] in fibers
  {
    if Deletes(w, p, k) then fibers[p.olds[k] := fibers[p.olds[k]].(dirty := true)] else fibers
  }

  /** Marking touches the old fiber at `k` only, and only its `dirty` flag. */
  lemma MarkAtIs(w: World, p: Plan, fibers: map<FiberId, FiberRec>, k: nat, y: FiberId)
    requires p.parent in w.fibers && forall k :: 0 <= k < |p.olds| ==> p.olds[k] in w.fibers
    requires k < |p.olds| ==> p.olds[k] in fibers
    ensures y in MarkAt(w, p, fibers, k) <==> y in fibers
    ensures y in fibers ==>
      MarkAt(w, p, fibers, k)[y] == if Deletes(w, p, k) && y == p.olds[k] then fibers[y].(dirty := true) else fibers[y]
  {
  }

  /** The fiber records after the creating step `k`, from those before it. */
  function StepFibers(w: World, p: Plan, fibers: map<FiberId, FiberRec>, k: nat): map<FiberId, FiberRec>
    requires p.parent in w.fibers && (forall i :: 0 <= i < |p.olds| ==> p.olds[i] in w.fibers) && k < |p.norm|
    requires p.parent in fibers && (k < |p.olds| ==> p.olds[k] in fibers)
    requires Prev(p, k).Some? ==> Prev(p, k).value in fibers
  {
    Attached(MarkAt(w, p, fibers, k)[p.mark + k := NewRec(w, p, k)], p.parent, k, Prev(p, k), p.mark + k)
  }

  /** The world after the creating step `k`, from the world `a` before it. */
  function CreateStepWorld(w: World, p: Plan, a: World, k: nat): World
    requires p.parent in w.fibers && (forall i :: 0 <= i < |p.olds| ==> p.olds[i] in w.fibers) && k < |p.norm|
    requires p.parent in a.fibers && (k < |p.olds| ==> p.olds[k] in a.fibers)
    requires Prev(p, k).Some? ==> Prev(p, k).value in a.fibers
  {
    a.(fibers := StepFibers(w, p, a.fibers, k),
       rank := a.rank[p.mark + k := p.base + |p.norm| - k], nextFiberId := p.mark + k + 1,
       deletions := a.deletions + Marked(w, p, k))
  }

  /** `CreateStepWorld` field by field. */
  lemma CreateStepWorldIs(w: World, p: Plan, a: World, k: nat)
    requires p.parent in w.fibers && (forall i :: 0 <= i < |p.olds| ==> p.olds[i] in w.fibers) && k < |p.norm|
    requires p.parent in a.fibers && (k < |p.olds| ==> p.olds[k] in a.fibers)
    requires Prev(p, k).Some? ==> Prev(p, k).value in a.fibers
    ensures CreateStepWorld(w, p, a, k) ==
      a.(fibers := StepFibers(w, p, a.fibers, k), rank := a.rank[p.mark + k := p.base + |p.norm| - k],
         nextFiberId := p.mark + k + 1, deletions := a.deletions + Marked(w, p, k))
  {
  }

  /**
   * The creating step `k` in the order the loop body runs it: the old
   * fiber is marked (giving `m`), the new record `rec` is allocated, and
   * then attached.
   */
  lemma CreateStepInOrder(w: World, p: Plan, a: World, k: nat, m: World, rec: FiberRec, x: World)
    requires p.parent in w.fibers && (forall i :: 0 <= i < |p.olds| ==> p.olds[i] in w.fibers) && k < |p.norm|
    requires p.parent in a.fibers && (k < |p.olds| ==> p.olds[k] in a.fibers)
    requires Prev(p, k).Some? ==> Prev(p, k).value in a.fibers
    requires m == a.(fibers := MarkAt(w, p, a.fibers, k), deletions := a.deletions + Marked(w, p, k))
    requires rec == NewRec(w, p, k) && a.nextFiberId == p.mark + k
    requires var f := m.fibers[p.mark + k := rec];
      p.parent in f && (Prev(p, k).Some? ==> Prev(p, k).value in f) &&
      x == m.(rank := m.rank[p.mark + k := p.base + |p.norm| - k], nextFiberId := p.mark + k + 1,
              fibers := Attached(f, p.parent, k, Prev(p, k), p.mark + k))
    ensures x == CreateStepWorld(w, p, a, k)
  {
  }

  /** Marking keeps the parent and `prevSibling`, which the attaching step writes to. */
  lemma MarkKeepsLinks(w: World, p: Plan, fibers: map<FiberId, FiberRec>, k: nat)
    requires p.parent in w.fibers && (forall i :: 0 <= i < |p.olds| ==> p.olds[i] in w.fibers)
    requires p.parent in fibers && (k < |p.olds| ==> p.olds[k] in fibers)
    requires Prev(p, k).Some? ==> Prev(p, k).value in fibers
    ensures p.parent in MarkAt(w, p, fibers, k)
    ensures Prev(p, k).Some? ==> Prev(p, k).value in MarkAt(w, p, fibers, k)
  {
    MarkAtIs(w, p, fibers, k, p.parent);
    if Prev(p, k).Some? {
      MarkAtIs(w, p, fibers, k, Prev(p, k).value);
    }
  }

  /**
   * A step with a child at index `k`: the new fiber is allocated and
   * attached, and the old fiber there is marked when it is deleted.
   */
  lemma CreateStep(w: World, p: Plan, k: nat)
    requires PlanShape(w, p) && k < |p.norm|
    ensures var a := AfterSteps(w, p, k);
      p.mark + k !in a.fibers && p.parent in a.fibers && (Prev(p, k).Some? ==> Prev(p, k).value in a.fibers) &&
      (k < |p.olds| ==> p.olds[k] in a.fibers) &&
      AfterSteps(w, p, k + 1) == CreateStepWorld(w, p, a, k)
  {
    CreateStepIds(w, p, k);
    CreateStepFibers(w, p, k);
    CreateStepRank(w, p, k);
    SeqAssoc(w.deletions, Doomed(w, p, k), Marked(w, p, k));
    CreateStepWorldIs(w, p, AfterSteps(w, p, k), k);
  }

  lemma SeqAssoc(a: seq<FiberId>, b: seq<FiberId>, c: seq<FiberId>)
    ensures a + (b + c) == (a + b) + c
  {
  }

  /** What step `k` reads is there before it, and it leaves the fibers of those after it. */
  lemma CreateStepIn(w: World, p: Plan, k: nat)
    requires PlanShape(w, p) && k < |p.norm|
    ensures var a := FibersAfter(w, p, k);
      p.mark + k !in a && p.parent in a && (Prev(p, k).Some? ==> Prev(p, k).value in a) &&
      (k < |p.olds| ==> p.olds[k] in a) &&
      FibersAfter(w, p, k + 1).Keys == StepFibers(w, p, a, k).Keys
  {
    CreateStepIds(w, p, k);
    assert Prev(p, k).Some? ==> Prev(p, k).value in NewIds(p, k);
    StepFibersKeys(w, p, FibersAfter(w, p, k), k);
  }

  /** Step `k` adds the new fiber and no other. */
  lemma StepFibersKeys(w: World, p: Plan, a: map<FiberId, FiberRec>, k: nat)
    requires p.parent in w.fibers && (forall i :: 0 <= i < |p.olds| ==> p.olds[i] in w.fibers) && k < |p.norm|
    requires p.parent in a && (k < |p.olds| ==> p.olds[k] in a) && (Prev(p, k).Some? ==> Prev(p, k).value in a)
    ensures StepFibers(w, p, a, k).Keys == a.Keys + {p.mark + k}
  {
    forall x ensures x in MarkAt(w, p, a, k) <==> x in a {
      MarkAtIs(w, p, a, k, x);
    }
  }

  /** Step `k` at one record: the new one, the one marked, the parent and the previous sibling. */
  lemma StepFibersAt(w: World, p: Plan, a: map<FiberId, FiberRec>, k: nat, x: FiberId)
    requires p.parent in w.fibers && (forall i :: 0 <= i < |p.olds| ==> p.olds[i] in w.fibers) && k < |p.norm|
    requires p.parent in a && (k < |p.olds| ==> p.olds[k] in a) && (Prev(p, k).Some? ==> Prev(p, k).value in a)
    requires x in a || x == p.mark + k
    ensures x in StepFibers(w, p, a, k)
    ensures StepFibers(w, p, a, k)[x] ==
      var r := if x == p.mark + k then NewRec(w, p, k)
               else if Deletes(w, p, k) && x == p.olds[k] then a[x].(dirty := true)
               else a[x];
      if k == 0 && x == p.parent then r.(child := Some(p.mark + k))
      else if k != 0 && Prev(p, k) == Some(x) then r.(sibling := Some(p.mark + k))
      else r
  {
    if x in a {
      MarkAtIs(w, p, a, k, x);
    }
    var g := MarkAt(w, p, a, k)[p.mark + k := NewRec(w, p, k)];
    AttachedAt(g, p.parent, k, Prev(p, k), p.mark + k, x);
  }

  lemma CreateStepFibers(w: World, p: Plan, k: nat)
    requires PlanShape(w, p) && k < |p.norm|
    ensures var a := FibersAfter(w, p, k);
      p.mark + k !in a && p.parent in a && (Prev(p, k).Some? ==> Prev(p, k).value in a) &&
      (k < |p.olds| ==> p.olds[k] in a) &&
      FibersAfter(w, p, k + 1) == StepFibers(w, p, a, k)
  {
    CreateStepIn(w, p, k);
    var m := FibersAfter(w, p, k + 1);
    var n := StepFibers(w, p, FibersAfter(w, p, k), k);
    forall x | x in m ensures m[x] == n[x] {
      CreateStepAt(w, p, k, x);
    }
    SameFibers(m, n);
  }

  /** Two fiber maps with the same keys and the same records are equal. */
  lemma SameFibers(m: map<FiberId, FiberRec>, n: map<FiberId, FiberRec>)
    requires m.Keys == n.Keys
    requires forall x :: x in m ==> m[x] == n[x]
    ensures m == n
  {
  }

  lemma CreateStepRank(w: World, p: Plan, k: nat)
    requires PlanShape(w, p) && k < |p.norm|
    ensures RankAfter(w, p, k + 1) == RankAfter(w, p, k)[p.mark + k := p.base + |p.norm| - k]
  {
    CreateStepIds(w, p, k);
    var m := RankAfter(w, p, k + 1);
    var n := RankAfter(w, p, k)[p.mark + k := p.base + |p.norm| - k];
    assert m.Keys == n.Keys;
    forall x | x in n ensures m[x] == n[x] {
    }
  }

  lemma CreateStepIds(w: World, p: Plan, k: nat)
    requires PlanShape(w, p) && k < |p.norm|
    ensures p.mark + k !in w.fibers && p.mark + k !in NewIds(p, k)
    ensures NewIds(p, k + 1) == NewIds(p, k) + {p.mark + k}
    ensures Created(p, k) == k && Created(p, k + 1) == k + 1
    ensures Doomed(w, p, k + 1) == Doomed(w, p, k) + Marked(w, p, k)
  {
  }

  /** One record after the creating step `k`. */
  lemma CreateStepAt(w: World, p: Plan, k: nat, x: FiberId)
    requires PlanShape(w, p) && k < |p.norm| && x in FibersAfter(w, p, k + 1)
    ensures var a := FibersAfter(w, p, k);
      p.parent in a && (Prev(p, k).Some? ==> Prev(p, k).value in a) && (k < |p.olds| ==> p.olds[k] in a) &&
      x in StepFibers(w, p, a, k) && FibersAfter(w, p, k + 1)[x] == StepFibers(w, p, a, k)[x]
  {
    CreateStepIn(w, p, k);
    if x in w.fibers {
      CreateStepOld(w, p, k, x);
    } else {
      CreateStepIds(w, p, k);
      assert x in NewIds(p, k + 1);
      CreateStepNew(w, p, k, x);
    }
  }

  lemma CreateStepNew(w: World, p: Plan, k: nat, x: FiberId)
    requires PlanShape(w, p) && k < |p.norm| && p.mark <= x <= p.mark + k
    requires var a := FibersAfter(w, p, k);
      p.parent in a && (Prev(p, k).Some? ==> Prev(p, k).value in a && Prev(p, k).value < p.mark + k) &&
      (k < |p.olds| ==> p.olds[k] in a)
    ensures x in StepFibers(w, p, FibersAfter(w, p, k), k) &&
      FibersAfter(w, p, k + 1)[x] == StepFibers(w, p, FibersAfter(w, p, k), k)[x]
  {
    assert Created(p, k) == k && Created(p, k + 1) == k + 1;
    if x < p.mark + k {
      assert Prev(p, k) == Some(p.mark + k - 1);
      CreateStepEarlier(w, p, k, x);
    } else {
      CreateStepLatest(w, p, k, x);
    }
    FibersAfterNew(w, p, k + 1, x);
  }

  lemma CreateStepOld(w: World, p: Plan, k: nat, x: FiberId)
    requires PlanShape(w, p) && k < |p.norm| && x in w.fibers
    requires var a := FibersAfter(w, p, k);
      p.parent in a && (Prev(p, k).Some? ==> Prev(p, k).value in a) && (k < |p.olds| ==> p.olds[k] in a)
    ensures x in StepFibers(w, p, FibersAfter(w, p, k), k) &&
      FibersAfter(w, p, k + 1)[x] == StepFibers(w, p, FibersAfter(w, p, k), k)[x]
  {
    CreateStepIds(w, p, k);
    FibersAfterOld(w, p, k, x);
    FibersAfterOld(w, p, k + 1, x);
    assert x != p.mark + k && Prev(p, k) != Some(x);
    StepFibersAt(w, p, FibersAfter(w, p, k), k, x);
    OldAfterStep(w, p, k, x);
  }

  /** An old record in the creating step `k`: marked when it is deleted, and the parent gets its first child. */
  lemma OldAfterStep(w: World, p: Plan, k: nat, x: FiberId)
    requires PlanShape(w, p) && k < |p.norm| && x in w.fibers
    ensures var r := if Deletes(w, p, k) && x == p.olds[k] then OldAfter(w, p, k, x).(dirty := true)
                     else OldAfter(w, p, k, x);
      OldAfter(w, p, k + 1, x) == if k == 0 && x == p.parent then r.(child := Some(p.mark + k)) else r
  {
    CreateStepIds(w, p, k);
    assert x in Doomed(w, p, k + 1) <==> x in Doomed(w, p, k) || (Deletes(w, p, k) && x == p.olds[k]);
  }

  lemma CreateStepEarlier(w: World, p: Plan, k: nat, x: FiberId)
    requires PlanShape(w, p) && k < |p.norm| && p.mark <= x < p.mark + k
    requires k < |p.olds| ==> p.olds[k] in FibersAfter(w, p, k)
    requires Prev(p, k) == Some(p.mark + k - 1) && p.mark + k - 1 in FibersAfter(w, p, k)
    ensures x in StepFibers(w, p, FibersAfter(w, p, k), k)
    ensures StepFibers(w, p, FibersAfter(w, p, k), k)[x] == NewAfter(w, p, k + 1, x - p.mark)
  {
    CreateStepIds(w, p, k);
    FibersAfterNew(w, p, k, x);
    assert x !in w.fibers && x != p.parent && x != p.mark + k;
    assert (Prev(p, k) == Some(x)) == (x - p.mark + 1 == k);
    StepFibersAt(w, p, FibersAfter(w, p, k), k, x);
    NewAfterStep(w, p, k, x - p.mark);
  }

  lemma CreateStepLatest(w: World, p: Plan, k: nat, x: FiberId)
    requires PlanShape(w, p) && k < |p.norm| && x == p.mark + k
    requires k < |p.olds| ==> p.olds[k] in FibersAfter(w, p, k)
    requires Prev(p, k).Some? ==> Prev(p, k).value in FibersAfter(w, p, k) && Prev(p, k).value < p.mark + k
    ensures x in StepFibers(w, p, FibersAfter(w, p, k), k)
    ensures StepFibers(w, p, FibersAfter(w, p, k), k)[x] == NewAfter(w, p, k + 1, x - p.mark)
  {
    assert x !in w.fibers && x != p.parent;
    StepFibersAt(w, p, FibersAfter(w, p, k), k, x);
    assert Created(p, k + 1) == k + 1 && x - p.mark == k;
  }

  /** The record of an old fiber after `k` steps. */
  lemma FibersAfterOld(w: World, p: Plan, k: nat, x: FiberId)
    requires p.parent in w.fibers && (forall k :: 0 <= k < |p.olds| ==> p.olds[k] in w.fibers) && x in w.fibers
    ensures x in FibersAfter(w, p, k) && FibersAfter(w, p, k)[x] == OldAfter(w, p, k, x)
  {
  }

  /** The record of the new fiber made for child `x - mark` after `k` steps. */
  lemma FibersAfterNew(w: World, p: Plan, k: nat, x: FiberId)
    requires PlanShape(w, p) && p.mark <= x < p.mark + Created(p, k)
    ensures x in FibersAfter(w, p, k) && FibersAfter(w, p, k)[x] == NewAfter(w, p, k, x - p.mark)
  {
    assert x in NewIds(p, k) && x !in w.fibers;
  }

  /** The records of the fibers made so far change only in the sibling of the newest one. */
  lemma NewAfterStep(w: World, p: Plan, k: nat, j: nat)
    requires PlanShape(w, p) && j < k < |p.norm|
    ensures NewAfter(w, p, k + 1, j) ==
      if j + 1 == k then NewAfter(w, p, k, j).(sibling := Some(p.mark + k)) else NewAfter(w, p, k, j)
  {
    assert Created(p, k) == k && Created(p, k + 1) == k + 1;
  }

  /** What `attachFiberToTree` does to the record of `x`. */
  lemma AttachedAt(fibers: map<FiberId, FiberRec>, parent: FiberId, index: nat, prev: Option<FiberId>,
                   nf: FiberId, x: FiberId)
    requires parent in fibers && (prev.Some? ==> prev.value in fibers) && x in fibers
    ensures x in Attached(fibers, parent, index, prev, nf)
    ensures Attached(fibers, parent, index, prev, nf)[x] ==
      if index == 0 && x == parent then fibers[x].(child := Some(nf))
      else if index != 0 && prev == Some(x) then fibers[x].(sibling := Some(nf))
      else fibers[x]
  {
  }

  /** The world after the step `k` past the last child, from the world `a` before it. */
  function DeleteStepWorld(w: World, p: Plan, a: World, k: nat): World
    requires p.parent in w.fibers && (forall i :: 0 <= i < |p.olds| ==> p.olds[i] in w.fibers) && k < |p.olds|
    requires p.olds[k] in a.fibers
  {
    a.(fibers := MarkAt(w, p, a.fibers, k), deletions := a.deletions + Marked(w, p, k))
  }

  /** A step past the last child: the old fiber at index `k` is marked for deletion. */
  lemma DeleteStep(w: World, p: Plan, k: nat)
    requires PlanShape(w, p) && |p.norm| <= k < |p.olds|
    ensures var a := AfterSteps(w, p, k);
      var x := p.olds[k];
      x in a.fibers && Deletes(w, p, k) &&
      AfterSteps(w, p, k + 1) == DeleteStepWorld(w, p, a, k)
  {
    DeleteStepIds(w, p, k);
    DeleteStepFibers(w, p, k);
    DeleteStepWorldIs(w, p, AfterSteps(w, p, k), k);
  }

  /** `DeleteStepWorld` field by field. */
  lemma DeleteStepWorldIs(w: World, p: Plan, a: World, k: nat)
    requires p.parent in w.fibers && (forall i :: 0 <= i < |p.olds| ==> p.olds[i] in w.fibers) && k < |p.olds|
    requires p.olds[k] in a.fibers
    ensures DeleteStepWorld(w, p, a, k) == a.(fibers := MarkAt(w, p, a.fibers, k), deletions := a.deletions + Marked(w, p, k))
  {
  }

  lemma DeleteStepFibers(w: World, p: Plan, k: nat)
    requires PlanShape(w, p) && |p.norm| <= k < |p.olds|
    ensures var a := FibersAfter(w, p, k);
      p.olds[k] in a && FibersAfter(w, p, k + 1) == MarkAt(w, p, a, k)
  {
    var a := FibersAfter(w, p, k);
    var x := p.olds[k];
    DeleteStepIds(w, p, k);
    var f := MarkAt(w, p, a, k);
    assert f == a[x := a[x].(dirty := true)];
    forall y | y in f ensures y in FibersAfter(w, p, k + 1) && FibersAfter(w, p, k + 1)[y] == f[y] {
      if y in w.fibers {
        DeleteStepOld(w, p, k, y);
      } else {
        DeleteStepNew(w, p, k, y);
      }
    }
    SameFibers(FibersAfter(w, p, k + 1), f);
  }

  lemma DeleteStepIds(w: World, p: Plan, k: nat)
    requires PlanShape(w, p) && |p.norm| <= k < |p.olds|
    ensures p.olds[k] in w.fibers && Deletes(w, p, k)
    ensures Created(p, k) == Created(p, k + 1) && NewIds(p, k) == NewIds(p, k + 1)
    ensures Doomed(w, p, k + 1) == Doomed(w, p, k) + [p.olds[k]]
  {
  }

  lemma DeleteStepOld(w: World, p: Plan, k: nat, y: FiberId)
    requires PlanShape(w, p) && |p.norm| <= k < |p.olds| && y in w.fibers
    ensures var a := FibersAfter(w, p, k);
      y in FibersAfter(w, p, k + 1) &&
      FibersAfter(w, p, k + 1)[y] == if y == p.olds[k] then a[y].(dirty := true) else a[y]
  {
    DeleteStepIds(w, p, k);
    assert y in Doomed(w, p, k + 1) <==> y in Doomed(w, p, k) || y == p.olds[k];
  }

  lemma DeleteStepNew(w: World, p: Plan, k: nat, y: FiberId)
    requires PlanShape(w, p) && |p.norm| <= k < |p.olds| && y in FibersAfter(w, p, k) && y !in w.fibers
    ensures y in FibersAfter(w, p, k + 1) && y != p.olds[k] &&
      FibersAfter(w, p, k + 1)[y] == FibersAfter(w, p, k)[y]
  {
    DeleteStepIds(w, p, k);
  }

  /** The record made for child `j` once the loop is done. */
  lemma FinalNew(w: World, p: Plan, j: nat)
    requires PlanShape(w, p) && j < |p.norm|
    ensures var a := FibersAfter(w, p, Steps(p));
      p.mark + j in a && p.mark + j !in w.fibers &&
      a[p.mark + j] == NewRec(w, p, j).(sibling := if j + 1 < |p.norm| then Some(p.mark + j + 1) else NewRec(w, p, j).sibling)
  {
    FibersAfterNew(w, p, Steps(p), p.mark + j);
    assert p.mark + j - p.mark == j && Created(p, Steps(p)) == |p.norm|;
  }

  // ---------------------------------------------------------------------
  // The whole of reconcileChildren

  /** The plan of `reconcileChildren(fiber, children)` in `w`. */
  function PlanFor(w: World, parent: FiberId, children: seq<Child>, asWritten: bool): Plan
    requires Valid(w) && parent in w.fibers
  {
    Plan(parent, OldChildren(w, parent), NormalizeChildren(children), w.rankCeil, w.nextFiberId, asWritten)
  }

  lemma PlanForOk(w: World, parent: FiberId, children: seq<Child>, asWritten: bool)
    requires Valid(w) && parent in w.fibers
    ensures var p := PlanFor(w, parent, children, asWritten);
      PlanOk(RaiseCeil(w, w.rankCeil + |children| + 1), p)
  {
    var p := PlanFor(w, parent, children, asWritten);
    var w1 := RaiseCeil(w, w.rankCeil + |children| + 1);
    RanksFall(w.rank, p.olds);
    assert FiberOk(w, parent);
    assert w.fibers[parent].alternate.Some? ==> FiberOk(w, w.fibers[parent].alternate.value);
    forall x ensures RankedBelow(w1, p.base, x) {
      assert x in w.fibers ==> FiberOk(w, x);
    }
    forall x | x in w1.fibers ensures x < p.mark {
      assert FiberOk(w, x);
    }
  }

  /** `reconcileChildren` with `createUpdatedFiber` as written or as intended. */
  function ReconcileWith(w: World, parent: FiberId, children: seq<Child>, asWritten: bool): (r: World)
    requires Valid(w) && parent in w.fibers
    ensures Valid(r)
  {
    var p := PlanFor(w, parent, children, asWritten);
    var w1 := RaiseCeil(w, w.rankCeil + |children| + 1);
    PlanForOk(w, parent, children, asWritten);
    AfterStepsValid(w1, p, Steps(p));
    AfterSteps(w1, p, Steps(p))
  }

  /** The state the loop of `reconcileChildren` starts from: the sibling ranks reserved. */
  function LoopStart(w: World, children: seq<Child>): World {
    w.(rankCeil := w.rankCeil + |children| + 1)
  }

  /**
   * What the loop of `reconcileChildren` starts from: the plan of the
   * call, the state with the sibling ranks reserved, and the first old
   * fiber, `fiber.alternate?.child`.
   */
  lemma PlanStart(w: World, parent: FiberId, children: seq<Child>, asWritten: bool)
    requires Valid(w) && parent in w.fibers
    ensures var p := PlanFor(w, parent, children, asWritten);
      var w1 := LoopStart(w, children);
      var alt := w.fibers[parent].alternate;
      PlanShape(w1, p) && p.mark == w1.nextFiberId && p.asWritten == asWritten && p.parent == parent &&
      p.norm == NormalizeChildren(children) && p.base == w.rankCeil &&
      (alt.Some? ==> alt.value in w.fibers &&
                     w.fibers[alt.value].child == if 0 < |p.olds| then Some(p.olds[0]) else None) &&
      (alt.None? ==> p.olds == [])
  {
    var p := PlanFor(w, parent, children, asWritten);
    var w1 := RaiseCeil(w, w.rankCeil + |children| + 1);
    PlanForOk(w, parent, children, asWritten);
    assert FiberOk(w, parent);
    if w.fibers[parent].alternate.Some? {
      assert FiberOk(w, w.fibers[parent].alternate.value);
    }
  }

  /** Run step by step from `LoopStart`, either loop ends where its closed form `ReconcileWith` does. */
  lemma LoopEndsAtReconcileChildren(w: World, parent: FiberId, children: seq<Child>, asWritten: bool)
    requires Valid(w) && parent in w.fibers
    ensures var p := PlanFor(w, parent, children, asWritten);
      AfterSteps(LoopStart(w, children), p, Steps(p)) == ReconcileWith(w, parent, children, asWritten)
  {
    PlanForOk(w, parent, children, asWritten);
  }

  /**
   * `reconcileChildren(fiber, children)` as evidently intended: one new
   * fiber per child, under fresh consecutive ids; an old child with no
   * child at its position or one of another type is queued for deletion,
   * and a clone starts with no links. Nothing but the fiber arena and the
   * deletion queue changes.
   */
  function ReconcileChildren(w: World, parent: FiberId, children: seq<Child>): (r: World)
    requires Valid(w) && parent in w.fibers
    ensures Valid(r) && w.fibers.Keys <= r.fibers.Keys
    ensures r.nextFiberId == w.nextFiberId + |children|
    ensures r == w.(fibers := r.fibers, rank := r.rank, rankCeil := r.rankCeil,
                    nextFiberId := r.nextFiberId, deletions := r.deletions)
  {
    ReconcileWith(w, parent, children, false)
  }

  /**
   * `reconcileChildren(fiber, children)` exactly as written, the version
   * the work loop runs: one new fiber per child, under fresh consecutive
   * ids; only the old children past the last new child are queued for
   * deletion, and a clone keeps the old fiber's links. Nothing but the
   * fiber arena and the deletion queue changes.
   */
  function ReconcileChildrenAsWritten(w: World, parent: FiberId, children: seq<Child>): (r: World)
    requires Valid(w) && parent in w.fibers
    ensures Valid(r) && w.fibers.Keys <= r.fibers.Keys
    ensures r.nextFiberId == w.nextFiberId + |children|
    ensures r == w.(fibers := r.fibers, rank := r.rank, rankCeil := r.rankCeil,
                    nextFiberId := r.nextFiberId, deletions := r.deletions)
  {
    ReconcileWith(w, parent, children, true)
  }
}
