/**
 * The facts that `ReconcileSpec` states about one call of `reconcileChildren`
 * (src/reconciler.ts:227-260), each a predicate on the arena and queue
 * before and after the call.
 */
module ReconcileFacts {
  import opened Values
  import opened Vdom
  import opened Host
  import opened Fibers
  import opened Reconciler

  /** The deletions one call appends to the queue. */
  function Queued(w: World, r: World): seq<FiberId> {
    if |w.deletions| <= |r.deletions| then r.deletions[|w.deletions|..] else []
  }

  /**
   * A record made for a child `c` under `parent`: it holds the child's
   * props and node and is clean.
   */
  predicate ChildRecord(f: FiberRec, parent: FiberId, c: VNode) {
    f.parent == Some(parent) && f.vnode == Some(c) && f.pendingProps == c.props && !f.dirty
  }

  /**
   * A record cloned from the old fiber `oldId` with record `o`: it points
   * back at it and keeps its type, key, host node, hooks and memoized props.
   */
  predicate ClonedFrom(f: FiberRec, oldId: FiberId, o: FiberRec) {
    f.alternate == Some(oldId) && f.nodeType == o.nodeType && f.key == o.key &&
    f.stateNode == o.stateNode && f.hooks == o.hooks && f.hookIndex == o.hookIndex &&
    f.memoizedProps == o.memoizedProps && f.isComponent == o.isComponent
  }

  /** A record with no children yet, whose next sibling is `next`. */
  predicate Leaf(f: FiberRec, next: Option<FiberId>) {
    f.child.None? && f.sibling == next
  }

  /** Whether child `j` finds an old fiber of its type at its position. */
  predicate Reuses(fs: map<FiberId, FiberRec>, olds: seq<FiberId>, norm: seq<VNode>, j: nat)
    requires forall i :: 0 <= i < |olds| ==> olds[i] in fs
  {
    j < |olds| && j < |norm| && IsSameType(Some(fs[olds[j]]), Some(norm[j]))
  }

  /**
   * `q` holds exactly the old fibers that have no child at their
   * position or a child of another type.
   */
  predicate QueuesMismatches(fs: map<FiberId, FiberRec>, olds: seq<FiberId>, norm: seq<VNode>, q: seq<FiberId>)
    requires forall i :: 0 <= i < |olds| ==> olds[i] in fs
  {
    (forall x :: x in q ==> x in olds) &&
    (forall i :: 0 <= i < |olds| ==> (olds[i] in q <==> !Reuses(fs, olds, norm, i)))
  }

  /** The old children all exist. */
  predicate OldChildrenIn(w: World, parent: FiberId)
    requires Valid(w) && parent in w.fibers
  {
    forall i :: 0 <= i < |OldChildren(w, parent)| ==> OldChildren(w, parent)[i] in w.fibers
  }

  // The properties below are stated on an arena `a` after the call, the
  // arena `fs` before it, the old children `olds`, the normalized children
  // `norm`, and `mark`, the id of the first new fiber.

  /** `a` keeps every fiber of `fs` and adds the ids `mark` to `mark + n`. */
  predicate Grows(a: map<FiberId, FiberRec>, fs: map<FiberId, FiberRec>, mark: nat, n: nat) {
    a.Keys == fs.Keys + Range(mark, mark + n)
  }

  /** The fiber `mark + j` is a record made for child `j` under `parent`. */
  predicate HoldsChild(a: map<FiberId, FiberRec>, parent: FiberId, norm: seq<VNode>, mark: nat, j: nat)
    requires j < |norm|
  {
    mark + j in a && ChildRecord(a[mark + j], parent, norm[j])
  }

  /**
   * The fiber `mark + j` has no children yet and links to `mark + j + 1`,
   * or to none when it is the last of `n`.
   */
  predicate LinksNext(a: map<FiberId, FiberRec>, mark: nat, n: nat, j: nat) {
    mark + j in a && Leaf(a[mark + j], if j + 1 < n then Some(mark + j + 1) else None)
  }

  /**
   * The fiber `mark + j` is a clone of the old fiber at `j` when that one
   * has the child's type, and a fresh `createNewFiber` record otherwise.
   */
  predicate ReusesOrCreates(a: map<FiberId, FiberRec>, fs: map<FiberId, FiberRec>, olds: seq<FiberId>,
                            norm: seq<VNode>, parent: FiberId, mark: nat, j: nat)
    requires (forall i :: 0 <= i < |olds| ==> olds[i] in fs) && j < |norm|
  {
    mark + j in a &&
    if Reuses(fs, olds, norm, j) then ClonedFrom(a[mark + j], olds[j], fs[olds[j]])
    else a[mark + j] == CreateNewFiber(norm[j], parent).(sibling := a[mark + j].sibling)
  }

  /**
   * The old fiber `x` changes in two fields at most: `parent` gets `mark`
   * as its `child` when there are children, and a fiber in `q` is dirty.
   */
  predicate OldUpdated(a: map<FiberId, FiberRec>, fs: map<FiberId, FiberRec>, parent: FiberId, mark: nat, n: nat,
                       q: seq<FiberId>, x: FiberId)
    requires x in fs
  {
    x in a &&
    a[x] == fs[x].(child := if x == parent && 0 < n then Some(mark) else fs[x].child,
                   dirty := fs[x].dirty || x in q)
  }

  /** The fiber `mark + j` is fresh and the old fiber at `j` is not in `q`. */
  predicate FreshButKept(a: map<FiberId, FiberRec>, olds: seq<FiberId>, q: seq<FiberId>, mark: nat, j: nat)
    requires j < |olds|
  {
    mark + j in a && a[mark + j].alternate.None? && olds[j] !in q
  }

  /**
   * The last of `n` new fibers links on to the old fiber at `n`, which is
   * in `q`.
   */
  predicate RunsIntoQueued(a: map<FiberId, FiberRec>, olds: seq<FiberId>, q: seq<FiberId>, mark: nat, n: nat)
    requires 0 < n < |olds|
  {
    mark + n - 1 in a && a[mark + n - 1].sibling == Some(olds[n]) && olds[n] in q
  }

  /** The fiber `mark + j` starts with the `child` of the old fiber at `j`. */
  predicate KeepsOldChild(a: map<FiberId, FiberRec>, fs: map<FiberId, FiberRec>, olds: seq<FiberId>, mark: nat, j: nat)
    requires j < |olds| && olds[j] in fs
  {
    mark + j in a && a[mark + j].child == fs[olds[j]].child
  }
}

/**
 * What one call of `reconcileChildren(fiber, children)` (src/reconciler.ts:227-260)
 * leaves behind, stated on the whole world: which fibers exist, what each
 * new and each old record holds and what is queued for deletion. The
 * last part contrasts the loop as written with the corrected one.
 *
 * The statements come in three layers: about the loop's closed form
 * `FibersAfter`/`Doomed` for a plan, about the final arena and queue of a
 * call, and about the world `ReconcileChildren` returns.
 */
module ReconcileSpec {
  import opened Values
  import opened Vdom
  import opened Host
  import opened Fibers
  import opened Reconciler
  import opened ReconcileFacts

  // ---------------------------------------------------------------------
  // The loop's closed form, once all steps are done

  lemma FinalKeys(w: World, p: Plan)
    requires PlanShape(w, p)
    ensures Grows(FibersAfter(w, p, Steps(p)), w.fibers, p.mark, |p.norm|)
  {
    assert Created(p, Steps(p)) == |p.norm|;
  }

  lemma FinalChild(w: World, p: Plan, j: nat)
    requires PlanShape(w, p) && j < |p.norm|
    ensures HoldsChild(FibersAfter(w, p, Steps(p)), p.parent, p.norm, p.mark, j)
  {
    FinalNew(w, p, j);
  }

  lemma FinalChildLinks(w: World, p: Plan, j: nat)
    requires PlanShape(w, p) && !p.asWritten && j < |p.norm|
    ensures LinksNext(FibersAfter(w, p, Steps(p)), p.mark, |p.norm|, j)
  {
    FinalNew(w, p, j);
  }

  lemma FinalReuse(w: World, p: Plan, j: nat)
    requires PlanShape(w, p) && j < |p.norm|
    ensures ReusesOrCreates(FibersAfter(w, p, Steps(p)), w.fibers, p.olds, p.norm, p.parent, p.mark, j)
  {
    FinalNew(w, p, j);
    if j < |p.olds| {
      OldRecAtIs(w, p, j);
    }
  }

  lemma FinalOld(w: World, p: Plan, x: FiberId)
    requires PlanShape(w, p) && x in w.fibers
    ensures OldUpdated(FibersAfter(w, p, Steps(p)), w.fibers, p.parent, p.mark, |p.norm|, Doomed(w, p, Steps(p)), x)
  {
    FibersAfterOld(w, p, Steps(p), x);
  }

  lemma FinalDoomed(w: World, p: Plan)
    requires PlanShape(w, p) && !p.asWritten
    ensures QueuesMismatches(w.fibers, p.olds, p.norm, Doomed(w, p, Steps(p)))
  {
    DoomedIff(w, p, Steps(p));
    forall i | 0 <= i < |p.olds| && i < |p.norm|
      ensures IsSameType(OldRecAt(w, p, i), Some(p.norm[i])) == IsSameType(Some(w.fibers[p.olds[i]]), Some(p.norm[i]))
    {
      OldRecAtIs(w, p, i);
    }
  }

  lemma FinalDoomedAsWritten(w: World, p: Plan)
    requires PlanShape(w, p) && p.asWritten
    ensures Doomed(w, p, Steps(p)) == From(p.olds, |p.norm|)
  {
    DoomedAsWritten(w, p, Steps(p));
  }

  lemma FinalMismatchKept(w: World, p: Plan, j: nat)
    requires PlanShape(w, p) && p.asWritten && j < |p.norm| && j < |p.olds|
    requires !Reuses(w.fibers, p.olds, p.norm, j)
    ensures FreshButKept(FibersAfter(w, p, Steps(p)), p.olds, Doomed(w, p, Steps(p)), p.mark, j)
  {
    FinalNew(w, p, j);
    OldRecAtIs(w, p, j);
    DoomedIff(w, p, Steps(p));
  }

  lemma FinalLastCloneAsWritten(w: World, p: Plan)
    requires PlanShape(w, p) && p.asWritten && 0 < |p.norm| < |p.olds|
    requires Reuses(w.fibers, p.olds, p.norm, |p.norm| - 1)
    ensures RunsIntoQueued(FibersAfter(w, p, Steps(p)), p.olds, Doomed(w, p, Steps(p)), p.mark, |p.norm|)
  {
    var j := |p.norm| - 1;
    FinalNew(w, p, j);
    OldRecAtIs(w, p, j);
    assert LinkedAt(w, p, j);
    DoomedIff(w, p, Steps(p));
  }

  lemma FinalCloneChildAsWritten(w: World, p: Plan, j: nat)
    requires PlanShape(w, p) && p.asWritten && j < |p.norm| && j < |p.olds| && p.olds[j] != p.parent
    requires Reuses(w.fibers, p.olds, p.norm, j)
    ensures KeepsOldChild(FibersAfter(w, p, Steps(p)), w.fibers, p.olds, p.mark, j)
  {
    FinalNew(w, p, j);
    OldRecAtIs(w, p, j);
  }

  // ---------------------------------------------------------------------
  // The final arena and queue of one call

  /** The part of `PlanForOk` that the closed form needs. */
  lemma PlanForShape(w: World, parent: FiberId, children: seq<Child>, asWritten: bool)
    requires Valid(w) && parent in w.fibers
    ensures PlanShape(w.(rankCeil := w.rankCeil + |children| + 1), PlanFor(w, parent, children, asWritten))
  {
    PlanForOk(w, parent, children, asWritten);
    assert RaiseCeil(w, w.rankCeil + |children| + 1) == w.(rankCeil := w.rankCeil + |children| + 1);
  }

  /** The fiber arena one call of `reconcileChildren` leaves, in closed form. */
  function FinalFibers(w: World, parent: FiberId, children: seq<Child>, asWritten: bool): map<FiberId, FiberRec>
    requires Valid(w) && parent in w.fibers
  {
    PlanForShape(w, parent, children, asWritten);
    var p := PlanFor(w, parent, children, asWritten);
    FibersAfter(w.(rankCeil := w.rankCeil + |children| + 1), p, Steps(p))
  }

  /** The fibers one call of `reconcileChildren` queues for deletion, in closed form. */
  function FinalQueue(w: World, parent: FiberId, children: seq<Child>, asWritten: bool): seq<FiberId>
    requires Valid(w) && parent in w.fibers
  {
    PlanForShape(w, parent, children, asWritten);
    var p := PlanFor(w, parent, children, asWritten);
    Doomed(w.(rankCeil := w.rankCeil + |children| + 1), p, Steps(p))
  }

  lemma FibersOf(w: World, parent: FiberId, children: seq<Child>, asWritten: bool)
    requires Valid(w) && parent in w.fibers
    ensures ReconcileWith(w, parent, children, asWritten).fibers == FinalFibers(w, parent, children, asWritten)
  {
  }

  lemma QueueOf(w: World, parent: FiberId, children: seq<Child>, asWritten: bool)
    requires Valid(w) && parent in w.fibers
    ensures var r := ReconcileWith(w, parent, children, asWritten);
      r.deletions == w.deletions + FinalQueue(w, parent, children, asWritten) &&
      Queued(w, r) == FinalQueue(w, parent, children, asWritten)
  {
  }

  lemma KeysClosed(w: World, parent: FiberId, children: seq<Child>, asWritten: bool)
    requires Valid(w) && parent in w.fibers
    ensures Grows(FinalFibers(w, parent, children, asWritten), w.fibers, w.nextFiberId, |children|)
  {
    PlanForShape(w, parent, children, asWritten);
    FinalKeys(w.(rankCeil := w.rankCeil + |children| + 1), PlanFor(w, parent, children, asWritten));
  }

  lemma NewFiberClosed(w: World, parent: FiberId, children: seq<Child>, asWritten: bool, j: nat)
    requires Valid(w) && parent in w.fibers && j < |children|
    ensures HoldsChild(FinalFibers(w, parent, children, asWritten), parent, NormalizeChildren(children), w.nextFiberId, j)
  {
    PlanForShape(w, parent, children, asWritten);
    FinalChild(w.(rankCeil := w.rankCeil + |children| + 1), PlanFor(w, parent, children, asWritten), j);
  }

  lemma NewLinksClosed(w: World, parent: FiberId, children: seq<Child>, j: nat)
    requires Valid(w) && parent in w.fibers && j < |children|
    ensures LinksNext(FinalFibers(w, parent, children, false), w.nextFiberId, |children|, j)
  {
    PlanForShape(w, parent, children, false);
    FinalChildLinks(w.(rankCeil := w.rankCeil + |children| + 1), PlanFor(w, parent, children, false), j);
  }

  lemma ReuseClosed(w: World, parent: FiberId, children: seq<Child>, asWritten: bool, j: nat)
    requires Valid(w) && parent in w.fibers && OldChildrenIn(w, parent) && j < |children|
    ensures ReusesOrCreates(FinalFibers(w, parent, children, asWritten), w.fibers, OldChildren(w, parent),
                            NormalizeChildren(children), parent, w.nextFiberId, j)
  {
    PlanForShape(w, parent, children, asWritten);
    var p := PlanFor(w, parent, children, asWritten);
    var w1 := w.(rankCeil := w.rankCeil + |children| + 1);
    assert FinalFibers(w, parent, children, asWritten) == FibersAfter(w1, p, Steps(p));
    assert p.olds == OldChildren(w, parent) && p.norm == NormalizeChildren(children);
    FinalReuse(w1, p, j);
  }

  lemma OldFiberClosed(w: World, parent: FiberId, children: seq<Child>, asWritten: bool, x: FiberId)
    requires Valid(w) && parent in w.fibers && x in w.fibers
    ensures OldUpdated(FinalFibers(w, parent, children, asWritten), w.fibers, parent, w.nextFiberId, |children|,
                       FinalQueue(w, parent, children, asWritten), x)
  {
    PlanForShape(w, parent, children, asWritten);
    FinalOld(w.(rankCeil := w.rankCeil + |children| + 1), PlanFor(w, parent, children, asWritten), x);
  }

  lemma QueueClosed(w: World, parent: FiberId, children: seq<Child>)
    requires Valid(w) && parent in w.fibers && OldChildrenIn(w, parent)
    ensures QueuesMismatches(w.fibers, OldChildren(w, parent), NormalizeChildren(children),
                             FinalQueue(w, parent, children, false))
  {
    PlanForShape(w, parent, children, false);
    FinalDoomed(w.(rankCeil := w.rankCeil + |children| + 1), PlanFor(w, parent, children, false));
  }

  lemma QueueAsWrittenClosed(w: World, parent: FiberId, children: seq<Child>)
    requires Valid(w) && parent in w.fibers
    ensures FinalQueue(w, parent, children, true) == From(OldChildren(w, parent), |children|)
  {
    PlanForShape(w, parent, children, true);
    FinalDoomedAsWritten(w.(rankCeil := w.rankCeil + |children| + 1), PlanFor(w, parent, children, true));
  }

  lemma MismatchKeptClosed(w: World, parent: FiberId, children: seq<Child>, j: nat)
    requires Valid(w) && parent in w.fibers && OldChildrenIn(w, parent)
    requires j < |children| && j < |OldChildren(w, parent)|
    requires !Reuses(w.fibers, OldChildren(w, parent), NormalizeChildren(children), j)
    ensures FreshButKept(FinalFibers(w, parent, children, true), OldChildren(w, parent),
                         FinalQueue(w, parent, children, true), w.nextFiberId, j)
  {
    PlanForShape(w, parent, children, true);
    var p := PlanFor(w, parent, children, true);
    var w1 := w.(rankCeil := w.rankCeil + |children| + 1);
    assert FinalFibers(w, parent, children, true) == FibersAfter(w1, p, Steps(p));
    assert FinalQueue(w, parent, children, true) == Doomed(w1, p, Steps(p));
    assert p.olds == OldChildren(w, parent) && p.norm == NormalizeChildren(children);
    FinalMismatchKept(w1, p, j);
  }

  lemma LastCloneClosed(w: World, parent: FiberId, children: seq<Child>)
    requires Valid(w) && parent in w.fibers && OldChildrenIn(w, parent)
    requires 0 < |children| < |OldChildren(w, parent)|
    requires Reuses(w.fibers, OldChildren(w, parent), NormalizeChildren(children), |children| - 1)
    ensures RunsIntoQueued(FinalFibers(w, parent, children, true), OldChildren(w, parent),
                           FinalQueue(w, parent, children, true), w.nextFiberId, |children|)
  {
    PlanForShape(w, parent, children, true);
    FinalLastCloneAsWritten(w.(rankCeil := w.rankCeil + |children| + 1), PlanFor(w, parent, children, true));
  }

  lemma CloneChildClosed(w: World, parent: FiberId, children: seq<Child>, j: nat)
    requires Valid(w) && parent in w.fibers && OldChildrenIn(w, parent)
    requires j < |children| && j < |OldChildren(w, parent)| && OldChildren(w, parent)[j] != parent
    requires Reuses(w.fibers, OldChildren(w, parent), NormalizeChildren(children), j)
    ensures KeepsOldChild(FinalFibers(w, parent, children, true), w.fibers, OldChildren(w, parent), w.nextFiberId, j)
  {
    PlanForShape(w, parent, children, true);
    FinalCloneChildAsWritten(w.(rankCeil := w.rankCeil + |children| + 1), PlanFor(w, parent, children, true), j);
  }

  // ---------------------------------------------------------------------
  // The world the call returns

  /** The old children of a valid world all exist. */
  lemma OldChildrenExist(w: World, parent: FiberId)
    requires Valid(w) && parent in w.fibers
    ensures OldChildrenIn(w, parent)
  {
    PlanForOk(w, parent, [], false);
  }

  /**
   * The fibers after the call, as written or corrected, are the old ones
   * and one new id per child, from `nextFiberId` on.
   */
  lemma ReconcileKeys(w: World, parent: FiberId, children: seq<Child>, asWritten: bool)
    requires Valid(w) && parent in w.fibers
    ensures Grows(ReconcileWith(w, parent, children, asWritten).fibers, w.fibers, w.nextFiberId, |children|)
  {
    FibersOf(w, parent, children, asWritten);
    KeysClosed(w, parent, children, asWritten);
  }

  /**
   * In either loop, the record made for child `j` sits under the parent,
   * holds the child's props and node, and is clean.
   */
  lemma ReconcileNewFiber(w: World, parent: FiberId, children: seq<Child>, asWritten: bool, j: nat)
    requires Valid(w) && parent in w.fibers && j < |children|
    ensures HoldsChild(ReconcileWith(w, parent, children, asWritten).fibers, parent, NormalizeChildren(children), w.nextFiberId, j)
  {
    FibersOf(w, parent, children, asWritten);
    NewFiberClosed(w, parent, children, asWritten, j);
  }

  /**
   * As intended (the corrected loop): the record made for child `j` has
   * no children yet and links to the record made for child `j + 1`; the
   * last one links to none. As written this fails for clones
   * (`LastCloneKeepsDeletedSibling`, `CloneKeepsOldChildAsWritten`).
   */
  lemma ReconcileNewLinks(w: World, parent: FiberId, children: seq<Child>, j: nat)
    requires Valid(w) && parent in w.fibers && j < |children|
    ensures LinksNext(ReconcileChildren(w, parent, children).fibers, w.nextFiberId, |children|, j)
  {
    FibersOf(w, parent, children, false);
    NewLinksClosed(w, parent, children, j);
  }

  /**
   * In either loop, the record for child `j` is a clone of the old fiber
   * at position `j` exactly when that one has the same type, and a fresh
   * `createNewFiber` otherwise.
   */
  lemma ReconcileReuse(w: World, parent: FiberId, children: seq<Child>, asWritten: bool, j: nat)
    requires Valid(w) && parent in w.fibers && OldChildrenIn(w, parent) && j < |children|
    ensures ReusesOrCreates(ReconcileWith(w, parent, children, asWritten).fibers, w.fibers, OldChildren(w, parent),
                            NormalizeChildren(children), parent, w.nextFiberId, j)
  {
    FibersOf(w, parent, children, asWritten);
    ReuseClosed(w, parent, children, asWritten, j);
  }

  /**
   * In either loop, an old fiber changes in two fields at most: the parent
   * gets the first new fiber as `child` (and keeps its old one when there
   * are no children), and a fiber queued for deletion is made dirty.
   */
  lemma ReconcileOldFiber(w: World, parent: FiberId, children: seq<Child>, asWritten: bool, x: FiberId)
    requires Valid(w) && parent in w.fibers && x in w.fibers
    ensures var r := ReconcileWith(w, parent, children, asWritten);
      OldUpdated(r.fibers, w.fibers, parent, w.nextFiberId, |children|, Queued(w, r), x)
  {
    FibersOf(w, parent, children, asWritten);
    QueueOf(w, parent, children, asWritten);
    OldFiberClosed(w, parent, children, asWritten, x);
  }

  /**
   * As intended (the corrected loop): the call appends to the deletion
   * queue exactly the old fibers that have no child at their position, or
   * a child of another type. As written only the first kind is queued
   * (`ReconcileDeletionsAsWritten`).
   */
  lemma ReconcileDeletions(w: World, parent: FiberId, children: seq<Child>)
    requires Valid(w) && parent in w.fibers && OldChildrenIn(w, parent)
    ensures var r := ReconcileChildren(w, parent, children);
      r.deletions == w.deletions + Queued(w, r) &&
      QueuesMismatches(w.fibers, OldChildren(w, parent), NormalizeChildren(children), Queued(w, r))
  {
    QueueOf(w, parent, children, false);
    QueueClosed(w, parent, children);
  }

  /**
   * As written, `reconcileChildren` appends to the deletion queue exactly
   * the old fibers from position `|children|` on, in order: an old fiber
   * at an occupied position is never queued, whatever its type.
   */
  lemma ReconcileDeletionsAsWritten(w: World, parent: FiberId, children: seq<Child>)
    requires Valid(w) && parent in w.fibers
    ensures ReconcileChildrenAsWritten(w, parent, children).deletions ==
      w.deletions + From(OldChildren(w, parent), |children|)
  {
    QueueOf(w, parent, children, true);
    QueueAsWrittenClosed(w, parent, children);
  }

  /**
   * As written, an old fiber whose position holds a child of another type
   * is replaced by a fresh fiber and yet not queued for deletion, so its
   * host node is never removed. The corrected loop queues it
   * (`ReconcileDeletions`).
   */
  lemma MismatchKeptAsWritten(w: World, parent: FiberId, children: seq<Child>, j: nat)
    requires Valid(w) && parent in w.fibers && OldChildrenIn(w, parent)
    requires j < |children| && j < |OldChildren(w, parent)|
    requires !Reuses(w.fibers, OldChildren(w, parent), NormalizeChildren(children), j)
    ensures var r := ReconcileChildrenAsWritten(w, parent, children);
      FreshButKept(r.fibers, OldChildren(w, parent), Queued(w, r), w.nextFiberId, j)
  {
    FibersOf(w, parent, children, true);
    QueueOf(w, parent, children, true);
    MismatchKeptClosed(w, parent, children, j);
  }

  /**
   * As written, when the last child reuses its old fiber and old fibers
   * remain after it, the last new fiber's `sibling` is the next old fiber,
   * which the call queues for deletion: the new child list runs on into
   * deleted fibers. The corrected loop ends the list there
   * (`ReconcileNewLinks`).
   */
  lemma LastCloneKeepsDeletedSibling(w: World, parent: FiberId, children: seq<Child>)
    requires Valid(w) && parent in w.fibers && OldChildrenIn(w, parent)
    requires 0 < |children| < |OldChildren(w, parent)|
    requires Reuses(w.fibers, OldChildren(w, parent), NormalizeChildren(children), |children| - 1)
    ensures var r := ReconcileChildrenAsWritten(w, parent, children);
      RunsIntoQueued(r.fibers, OldChildren(w, parent), Queued(w, r), w.nextFiberId, |children|)
  {
    FibersOf(w, parent, children, true);
    QueueOf(w, parent, children, true);
    LastCloneClosed(w, parent, children);
  }

  /**
   * As written, the clone made for child `j` starts with the old fiber's
   * `child`, a fiber of the old tree; the corrected clone starts with none
   * (`ReconcileNewLinks`).
   */
  lemma CloneKeepsOldChildAsWritten(w: World, parent: FiberId, children: seq<Child>, j: nat)
    requires Valid(w) && parent in w.fibers && OldChildrenIn(w, parent)
    requires j < |children| && j < |OldChildren(w, parent)| && OldChildren(w, parent)[j] != parent
    requires Reuses(w.fibers, OldChildren(w, parent), NormalizeChildren(children), j)
    ensures KeepsOldChild(ReconcileChildrenAsWritten(w, parent, children).fibers, w.fibers, OldChildren(w, parent),
                          w.nextFiberId, j)
  {
    FibersOf(w, parent, children, true);
    CloneChildClosed(w, parent, children, j);
  }
}
