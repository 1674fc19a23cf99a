/**
 * `reconcileChildren` and its two mutating helpers exactly as written: a
 * `while` loop over the normalized children and the old fibers' `sibling`
 * chain, writing the new fibers into the engine's fiber heap. Each method
 * ends where the value model's as-written loop
 * (`Reconciler.ReconcileChildrenAsWritten`) does.
 */
module RuntimeReconcile {
  import opened Values
  import opened Vdom
  import opened Fibers
  import Reconciler
  import opened Engine

  /** `markForDeletion(fiber)`: the fiber is flagged dirty and queued. */
  method MarkForDeletion(rt: Runtime, f: FiberId)
    requires f in rt.fibers
    modifies rt
    ensures rt.World() == old(rt.World()).(fibers := old(rt.fibers)[f := old(rt.fibers[f]).(dirty := true)],
                                           deletions := old(rt.deletions) + [f])
    ensures old(rt.Ok()) ==> rt.World() == Reconciler.MarkForDeletion(old(rt.World()), f)
  {
    rt.StoreFiber(f, rt.fibers[f].(dirty := true));
    rt.PushDeletion(f);
  }

  /** `attachFiberToTree(newFiber, parent, index, prevSibling)` */
  method AttachFiberToTree(rt: Runtime, nf: FiberId, parent: FiberId, index: nat, prev: Option<FiberId>)
    requires parent in rt.fibers && (prev.Some? ==> prev.value in rt.fibers)
    modifies rt
    ensures rt.World() == old(rt.World()).(fibers := Reconciler.Attached(old(rt.fibers), parent, index, prev, nf))
  {
    if index == 0 {
      rt.StoreFiber(parent, rt.fibers[parent].(child := Some(nf)));
    } else if prev.Some? {
      rt.StoreFiber(prev.value, rt.fibers[prev.value].(sibling := Some(nf)));
    }
  }

  /**
   * One pass of the loop body of `reconcileChildren` with a child at
   * `index`: the new fiber is cloned from the old one of the same type or
   * made afresh, and it is attached after `prevSibling`, which it then
   * becomes.
   */
  method CreateAt(rt: Runtime, fiber: FiberId, norm: seq<VNode>, index: nat, oldFiber: Option<FiberId>,
                  prevSibling: Option<FiberId>, base: nat, ghost w1: World, ghost p: Reconciler.Plan, ghost a: World)
    returns (newFiber: FiberId)
    requires p.parent in w1.fibers && (forall k :: 0 <= k < |p.olds| ==> p.olds[k] in w1.fibers)
    requires index < |p.norm| && base == p.base && fiber == p.parent && norm == p.norm && p.asWritten
    requires oldFiber == if index < |p.olds| then Some(p.olds[index]) else None
    requires prevSibling == Reconciler.Prev(p, index)
    // what the loop finds at this step
    requires rt.World() == a && a.nextFiberId == p.mark + index
    requires fiber in a.fibers && (prevSibling.Some? ==> prevSibling.value in a.fibers)
    requires oldFiber.Some? ==> oldFiber.value in a.fibers && Reconciler.OldRecAt(w1, p, index) == Some(a.fibers[oldFiber.value])
    modifies rt
    ensures newFiber == p.mark + index
    ensures rt.World() == Reconciler.CreateStepWorld(w1, p, a, index)
  {
    var rec := Replace(rt, fiber, norm[index], index, oldFiber, w1, p, a);
    ghost var m := rt.World();
    Reconciler.MarkKeepsLinks(w1, p, a.fibers, index);
    newFiber := Allocate(rt, rec, fiber, index, prevSibling, base + |norm| - index, m);
    Reconciler.CreateStepInOrder(w1, p, a, index, m, rec, rt.World());
  }

  /**
   * The second half of that pass: `rec` is stored under a fresh id with
   * rank `k`, and attached after `prevSibling`.
   */
  method Allocate(rt: Runtime, rec: FiberRec, fiber: FiberId, index: nat, prevSibling: Option<FiberId>, k: nat,
                  ghost m: World)
    returns (newFiber: FiberId)
    requires rt.World() == m
    requires var f := m.fibers[m.nextFiberId := rec];
      fiber in f && (prevSibling.Some? ==> prevSibling.value in f)
    modifies rt
    ensures newFiber == m.nextFiberId
    ensures var f := m.fibers[newFiber := rec];
      fiber in f && (prevSibling.Some? ==> prevSibling.value in f) &&
      rt.World() == m.(rank := m.rank[newFiber := k], nextFiberId := newFiber + 1,
                       fibers := Reconciler.Attached(f, fiber, index, prevSibling, newFiber))
  {
    newFiber := rt.NewFiberId(k);
    rt.StoreFiber(newFiber, rec);
    AttachFiberToTree(rt, newFiber, fiber, index, prevSibling);
  }

  /**
   * The first half of that pass: the new record, cloned from the old fiber
   * of the same type or made afresh. Nothing is marked, because the source
   * marks an old fiber only when no child is left at its position.
   */
  method Replace(rt: Runtime, fiber: FiberId, child: VNode, index: nat, oldFiber: Option<FiberId>,
                 ghost w1: World, ghost p: Reconciler.Plan, ghost a: World)
    returns (rec: FiberRec)
    requires p.parent in w1.fibers && (forall k :: 0 <= k < |p.olds| ==> p.olds[k] in w1.fibers)
    requires index < |p.norm| && fiber == p.parent && child == p.norm[index] && p.asWritten
    requires oldFiber == if index < |p.olds| then Some(p.olds[index]) else None
    requires rt.World() == a
    requires oldFiber.Some? ==> oldFiber.value in a.fibers && Reconciler.OldRecAt(w1, p, index) == Some(a.fibers[oldFiber.value])
    modifies rt
    ensures rec == Reconciler.NewRec(w1, p, index)
    ensures rt.World() == a.(fibers := Reconciler.MarkAt(w1, p, a.fibers, index),
                             deletions := a.deletions + Reconciler.Marked(w1, p, index))
  {
    var prior: Option<FiberRec> := if oldFiber.Some? then Some(rt.fibers[oldFiber.value]) else None;
    var sameType := Reconciler.IsSameType(prior, Some(child));
    if sameType {
      rec := Reconciler.CreateUpdatedFiberAsWritten(prior.value, oldFiber.value, child, fiber);
    } else {
      // with a child at `index`, an old fiber of another type is not marked
      rec := Reconciler.CreateNewFiber(child, fiber);
    }
  }

  /**
   * `reconcileChildren(fiber, children)`: each pass of the loop handles
   * the child and the old fiber at `index`; the engine ends where the
   * value model of `reconcileChildren` as written puts it.
   */
  method ReconcileChildren(rt: Runtime, fiber: FiberId, children: seq<Child>)
    requires rt.Ok() && fiber in rt.fibers
    modifies rt
    ensures rt.World() == Reconciler.ReconcileChildrenAsWritten(old(rt.World()), fiber, children)
  {
    ghost var w0 := rt.World();
    ghost var p := Reconciler.PlanFor(w0, fiber, children, true);
    Reconciler.PlanStart(w0, fiber, children, true);
    var base := rt.rankCeil;
    rt.SetRankCeil(rt.rankCeil + |children| + 1);
    ghost var w1 := Reconciler.LoopStart(w0, children);
    assert rt.World() == w1;
    // `let oldFiber = fiber.alternate?.child || null`
    var alt := rt.fibers[fiber].alternate;
    var oldFiber: Option<FiberId> := None;
    if alt.Some? {
      oldFiber := rt.fibers[alt.value].child;
    }
    var norm := Reconciler.NormalizeChildren(children);
    ghost var ws := seq(Reconciler.Steps(p) + 1, i requires 0 <= i => Reconciler.AfterSteps(w1, p, i));
    Reconciler.NoSteps(w1, p);
    ReconcileLoop(rt, fiber, norm, oldFiber, base, w1, p, ws);
    assert ws[|ws| - 1] == Reconciler.AfterSteps(w1, p, Reconciler.Steps(p));
    Reconciler.LoopEndsAtReconcileChildren(w0, fiber, children, true);
  }

  /** `ws[i]` is the value model's state after `i` steps of the loop. */
  ghost predicate StagesOk(w1: World, p: Reconciler.Plan, ws: seq<World>) {
    Reconciler.PlanShape(w1, p) && |ws| == Reconciler.Steps(p) + 1 &&
    forall i {:trigger Stage(ws, i)} :: 0 <= i < |ws| ==> Stage(ws, i) == Reconciler.AfterSteps(w1, p, i)
  }

  /** The state after `i` steps, looked up. */
  ghost function Stage(ws: seq<World>, i: nat): World
    requires i < |ws|
  {
    ws[i]
  }

  /**
   * Where the loop of `reconcileChildren` stands before the pass at
   * `index`: the engine holds the state after `index` steps, `oldFiber`
   * is the old fiber at `index` and `prevSibling` the newest new fiber.
   */
  ghost predicate At(p: Reconciler.Plan, ws: seq<World>, index: nat, oldFiber: Option<FiberId>,
                     prevSibling: Option<FiberId>, world: World) {
    index < |ws| && world == ws[index] &&
    oldFiber == (if index < |p.olds| then Some(p.olds[index]) else None) &&
    prevSibling == Reconciler.Prev(p, index)
  }

  /** The `while` loop of `reconcileChildren`, from `index = 0` and `prevSibling = null`. */
  method ReconcileLoop(rt: Runtime, fiber: FiberId, norm: seq<VNode>, oldFiber0: Option<FiberId>, base: nat,
                       ghost w1: World, ghost p: Reconciler.Plan, ghost ws: seq<World>)
    requires StagesOk(w1, p, ws) && p.asWritten
    requires fiber == p.parent && norm == p.norm && base == p.base
    requires rt.World() == ws[0]
    requires oldFiber0 == if 0 < |p.olds| then Some(p.olds[0]) else None
    modifies rt
    ensures rt.World() == ws[|ws| - 1]
  {
    var oldFiber := oldFiber0;
    var prevSibling: Option<FiberId> := None;
    var index := 0;
    while index < |norm| || oldFiber.Some?
      invariant At(p, ws, index, oldFiber, prevSibling, rt.World())
      decreases |ws| - index
    {
      oldFiber, prevSibling := Turn(rt, fiber, norm, base, index, oldFiber, prevSibling, w1, p, ws);
      index := index + 1;
    }
    LoopExit(p, ws, w1, index, oldFiber, prevSibling);
  }

  /** The loop stops after the last step: no child and no old fiber are left. */
  lemma LoopExit(p: Reconciler.Plan, ws: seq<World>, w1: World, index: nat, oldFiber: Option<FiberId>,
                 prevSibling: Option<FiberId>)
    requires StagesOk(w1, p, ws) && index < |ws| && index >= |p.norm|
    requires oldFiber == (if index < |p.olds| then Some(p.olds[index]) else None) && oldFiber.None?
    ensures index == |ws| - 1
  {
  }

  /** One pass of the loop body: the step at `index`, then `oldFiber = oldFiber.sibling`. */
  method Turn(rt: Runtime, fiber: FiberId, norm: seq<VNode>, base: nat, index: nat,
              oldFiber: Option<FiberId>, prevSibling: Option<FiberId>,
              ghost w1: World, ghost p: Reconciler.Plan, ghost ws: seq<World>)
    returns (oldFiber': Option<FiberId>, prevSibling': Option<FiberId>)
    requires StagesOk(w1, p, ws) && At(p, ws, index, oldFiber, prevSibling, rt.World())
    requires index < |norm| || oldFiber.Some?
    requires p.asWritten && fiber == p.parent && norm == p.norm && base == p.base
    modifies rt
    ensures index + 1 < |ws| && At(p, ws, index + 1, oldFiber', prevSibling', rt.World())
  {
    oldFiber' := NextOld(rt, oldFiber, index, w1, p, ws);
    if index < |norm| {
      var nf := CreateTurn(rt, fiber, norm, index, oldFiber, prevSibling, base, w1, p, ws);
      prevSibling' := Some(nf);
    } else {
      DeleteTurn(rt, oldFiber, index, w1, p, ws);
      prevSibling' := prevSibling;
    }
  }

  /** `oldFiber = oldFiber.sibling`, read before the pass changes anything. */
  method NextOld(rt: Runtime, oldFiber: Option<FiberId>, index: nat,
                 ghost w1: World, ghost p: Reconciler.Plan, ghost ws: seq<World>)
    returns (next: Option<FiberId>)
    requires StagesOk(w1, p, ws) && index + 1 < |ws| && rt.World() == ws[index]
    requires oldFiber == if index < |p.olds| then Some(p.olds[index]) else None
    ensures next == if index + 1 < |p.olds| then Some(p.olds[index + 1]) else None
  {
    ReadStage(w1, p, ws, index);
    next := None;
    if oldFiber.Some? {
      next := rt.fibers[oldFiber.value].sibling;
    }
  }

  /** What the pass at `k` reads of the state before it. */
  lemma ReadStage(w1: World, p: Reconciler.Plan, ws: seq<World>, k: nat)
    requires StagesOk(w1, p, ws) && k + 1 < |ws|
    ensures var a := ws[k];
      p.parent in a.fibers && a.nextFiberId == p.mark + Reconciler.Created(p, k) &&
      (Reconciler.Prev(p, k).Some? ==> Reconciler.Prev(p, k).value in a.fibers) &&
      (k < |p.olds| ==>
         p.olds[k] in a.fibers &&
         a.fibers[p.olds[k]].sibling == (if k + 1 < |p.olds| then Some(p.olds[k + 1]) else None)) &&
      (k < |p.olds| && k < |p.norm| ==> Reconciler.OldRecAt(w1, p, k) == Some(a.fibers[p.olds[k]]))
  {
    assert Stage(ws, k) == ws[k];
    Reconciler.StepReads(w1, p, k);
  }

  /** The pass at `k` with a child there is one creating step. */
  lemma CreateStage(w1: World, p: Reconciler.Plan, ws: seq<World>, k: nat)
    requires StagesOk(w1, p, ws) && k < |p.norm|
    ensures k + 1 < |ws| && ws[k].nextFiberId == p.mark + k
    ensures var a := ws[k];
      p.parent in a.fibers && (k < |p.olds| ==> p.olds[k] in a.fibers) &&
      (Reconciler.Prev(p, k).Some? ==> Reconciler.Prev(p, k).value in a.fibers) &&
      ws[k + 1] == Reconciler.CreateStepWorld(w1, p, a, k)
  {
    assert Stage(ws, k) == ws[k];
    assert Stage(ws, k + 1) == ws[k + 1];
    Reconciler.CreateStepIds(w1, p, k);
    Reconciler.StepReads(w1, p, k);
    Reconciler.CreateStep(w1, p, k);
  }

  /** The pass at `k` past the last child is one deleting step. */
  lemma DeleteStage(w1: World, p: Reconciler.Plan, ws: seq<World>, k: nat)
    requires StagesOk(w1, p, ws) && |p.norm| <= k < |p.olds|
    ensures k + 1 < |ws| && p.olds[k] in ws[k].fibers
    ensures ws[k + 1] == Reconciler.DeleteStepWorld(w1, p, ws[k], k)
  {
    assert Stage(ws, k) == ws[k];
    assert Stage(ws, k + 1) == ws[k + 1];
    Reconciler.DeleteStep(w1, p, k);
  }

  /** A pass of the loop with a child at `index`, one step of the value model. */
  method CreateTurn(rt: Runtime, fiber: FiberId, norm: seq<VNode>, index: nat, oldFiber: Option<FiberId>,
                    prevSibling: Option<FiberId>, base: nat,
                    ghost w1: World, ghost p: Reconciler.Plan, ghost ws: seq<World>)
    returns (nf: FiberId)
    requires StagesOk(w1, p, ws) && p.asWritten
    requires fiber == p.parent && norm == p.norm && base == p.base && index < |norm|
    requires index < |ws| && rt.World() == ws[index]
    requires oldFiber == if index < |p.olds| then Some(p.olds[index]) else None
    requires prevSibling == Reconciler.Prev(p, index)
    modifies rt
    ensures nf == p.mark + index && Reconciler.Prev(p, index + 1) == Some(nf)
    ensures index + 1 < |ws| && rt.World() == ws[index + 1]
  {
    Reconciler.PrevAfterCreate(p, index);
    CreateStage(w1, p, ws, index);
    ReadStage(w1, p, ws, index);
    nf := CreateAt(rt, fiber, norm, index, oldFiber, prevSibling, base, w1, p, rt.World());
  }

  /** A pass of the loop past the last child, one step of the value model. */
  method DeleteTurn(rt: Runtime, oldFiber: Option<FiberId>, index: nat,
                    ghost w1: World, ghost p: Reconciler.Plan, ghost ws: seq<World>)
    requires StagesOk(w1, p, ws) && |p.norm| <= index < |p.olds|
    requires index < |ws| && rt.World() == ws[index]
    requires oldFiber == Some(p.olds[index])
    modifies rt
    ensures Reconciler.Prev(p, index + 1) == Reconciler.Prev(p, index)
    ensures index + 1 < |ws| && rt.World() == ws[index + 1]
  {
    Reconciler.PrevAfterDelete(p, index);
    DeleteStage(w1, p, ws, index);
    DeleteAt(rt, oldFiber.value, index, w1, p, rt.World());
  }

  /** A pass of the loop body past the last child: the old fiber there is marked for deletion. */
  method DeleteAt(rt: Runtime, oldFiber: FiberId, index: nat, ghost w1: World, ghost p: Reconciler.Plan, ghost a: World)
    requires p.parent in w1.fibers && (forall k :: 0 <= k < |p.olds| ==> p.olds[k] in w1.fibers)
    requires |p.norm| <= index < |p.olds| && oldFiber == p.olds[index]
    requires rt.World() == a && oldFiber in a.fibers
    modifies rt
    ensures rt.World() == Reconciler.DeleteStepWorld(w1, p, a, index)
  {
    MarkForDeletion(rt, oldFiber);
  }
}
