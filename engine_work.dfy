/**
 * `performUnitOfWork` and `workLoop` as the source runs them: the unit of
 * work rewrites the engine's heaps in place, the walk up the `return`
 * chain is a `while` loop over the fiber heap, and `workLoop` reassigns
 * `nextUnitOfWork` until there is none or the deadline has passed.
 */
module RuntimeWork {
  import opened Values
  import opened Vdom
  import opened Fibers
  import opened Engine
  import Work
  import Renderer
  import RuntimeReconcile
  import RuntimeCommit

  /**
   * The tail of `performUnitOfWork(fiber)`: the child if there is one;
   * otherwise the loop up the `return` chain returns the first sibling it
   * meets, or null at the top.
   */
  method NextUnitOfWork(rt: Runtime, f: FiberId) returns (next: Option<FiberId>)
    requires rt.Ok() && f in rt.fibers
    ensures next == Work.NextUnit(rt.World(), f)
  {
    if rt.fibers[f].child.Some? {
      return rt.fibers[f].child;
    }
    var nextFiber: Option<FiberId> := Some(f);
    while nextFiber.Some?
      invariant nextFiber.Some? ==>
        nextFiber.value in rt.fibers && Work.Climb(rt.World(), nextFiber.value) == Work.Climb(rt.World(), f)
      invariant nextFiber.None? ==> Work.Climb(rt.World(), f).None?
      decreases if nextFiber.Some? then nextFiber.value + 1 else 0
    {
      var x := nextFiber.value;
      assert FiberOk(rt.World(), x);
      if rt.fibers[x].sibling.Some? {
        return rt.fibers[x].sibling;
      }
      nextFiber := rt.fibers[x].parent;
    }
    return None;
  }

  /**
   * `performUnitOfWork(fiber)`: a component is rendered (its body is user
   * code, run on the value model) or a host fiber gets its host node, the
   * children are reconciled in place, and the next unit is returned.
   */
  method PerformUnitOfWork(rt: Runtime, code: UserCode, f: FiberId) returns (next: Option<FiberId>)
    requires rt.Ok() && f in rt.fibers
    modifies rt
    ensures (rt.World(), next) == Work.PerformUnitOfWork(old(rt.World()), code, f)
  {
    ghost var w0 := rt.World();
    assert FiberOk(w0, f);
    if rt.fibers[f].isComponent {
      var out := Work.RenderComponent(rt.World(), code, f);
      rt.Assign(out.0);
      RuntimeReconcile.ReconcileChildren(rt, f, Work.Rendered(out.1));
      assert rt.World() == Work.UpdateFunctionComponent(w0, code, f);
    } else {
      rt.Assign(Work.PrepareHostNode(rt.World(), f));
      RuntimeReconcile.ReconcileChildren(rt, f, Work.HostChildren(rt.fibers[f]));
      assert rt.World() == Work.UpdateHostComponent(w0, f);
    }
    next := NextUnitOfWork(rt, f);
  }

  /** One turn of the loop as a function value: the unit of work on the next unit. */
  ghost function StepFn(code: UserCode): World --> World {
    w requires Valid(w) && w.nextUnit.Some? => Renderer.Step(w, code)
  }

  lemma StepFnIs(code: UserCode, w: World)
    requires Valid(w) && w.nextUnit.Some?
    ensures StepFn(code).requires(w) && StepFn(code)(w) == Renderer.Step(w, code)
  {
  }

  /**
   * The states the loop of `workLoop` has gone through: each one is a
   * `step` further than the one before, taken because there was a next
   * unit and the deadline had not passed (no unit had run, or fewer than
   * `budget`).
   */
  ghost predicate RunSoFar(ws: seq<World>, step: World --> World, budget: nat) {
    |ws| >= 1 && Valid(ws[|ws| - 1]) &&
    forall i {:trigger Next(ws, i)} :: 0 <= i < |ws| - 1 ==>
      Valid(Next(ws, i)) && Next(ws, i).nextUnit.Some? && (i == 0 || i < budget) &&
      step.requires(Next(ws, i)) && ws[i + 1] == step(Next(ws, i))
  }

  /** State `i` of a run, looked up. */
  ghost function Next(ws: seq<World>, i: nat): World
    requires i < |ws|
  {
    ws[i]
  }

  /** State `i` of a run: every state but the last is a step taken before the deadline. */
  lemma RunState(ws: seq<World>, step: World --> World, budget: nat, i: nat)
    requires RunSoFar(ws, step, budget) && i < |ws|
    ensures Valid(ws[i])
    ensures i + 1 < |ws| ==>
      ws[i].nextUnit.Some? && (i == 0 || i < budget) && step.requires(ws[i]) && ws[i + 1] == step(ws[i])
  {
    if i + 1 < |ws| {
      assert Next(ws, i) == ws[i];
    }
  }

  /** A run goes on by one more step. */
  lemma ExtendRun(ws: seq<World>, step: World --> World, budget: nat, x: World, ws': seq<World>)
    requires RunSoFar(ws, step, budget) && Valid(x)
    requires ws[|ws| - 1].nextUnit.Some? && (|ws| == 1 || |ws| - 1 < budget)
    requires step.requires(ws[|ws| - 1]) && x == step(ws[|ws| - 1]) && ws' == ws + [x]
    ensures RunSoFar(ws', step, budget)
  {
    forall i {:trigger Next(ws', i)} | 0 <= i < |ws'| - 1
      ensures Valid(Next(ws', i)) && Next(ws', i).nextUnit.Some? && (i == 0 || i < budget) &&
        step.requires(Next(ws', i)) && ws'[i + 1] == step(Next(ws', i))
    {
      assert Next(ws', i) == ws[i];
      if i < |ws| - 1 {
        assert Next(ws, i) == ws[i];
      }
    }
  }

  /** What is left of the loop of `workLoop` as a function value: where it leaves the state. */
  ghost function RunFn(code: UserCode): (World, nat) --> World {
    (w: World, b: nat) requires Valid(w) => Renderer.RunUnits(w, code, b).0
  }

  /**
   * `run` is a loop over `step` with a deadline: it stops at once with no
   * next unit, after one step at the deadline, and otherwise goes on from
   * the next state with one unit less.
   */
  ghost predicate LoopOf(step: World --> World, run: (World, nat) --> World) {
    forall w: World, b: nat {:trigger LoopTurn(step, run, w, b)} :: Valid(w) ==> LoopTurn(step, run, w, b)
  }

  /** One turn of `LoopOf` from `w` with `b` units left. */
  ghost predicate LoopTurn(step: World --> World, run: (World, nat) --> World, w: World, b: nat) {
    run.requires(w, b) &&
    (w.nextUnit.None? ==> run(w, b) == w) &&
    (w.nextUnit.Some? ==>
      step.requires(w) && Valid(step(w)) &&
      (b <= 1 ==> run(w, b) == step(w)) &&
      (b > 1 ==> run.requires(step(w), b - 1) && run(w, b) == run(step(w), b - 1)))
  }

  /** `RunUnits` takes one turn of the loop over `Step`. */
  lemma RunUnitsTurn(code: UserCode, w: World, b: nat)
    requires Valid(w)
    ensures LoopTurn(StepFn(code), RunFn(code), w, b)
  {
    if w.nextUnit.None? {
      TurnAtEnd(code, w, b);
    } else if b <= 1 {
      TurnAtDeadline(code, w, b);
    } else {
      TurnGoesOn(code, w, b);
    }
  }

  lemma TurnAtEnd(code: UserCode, w: World, b: nat)
    requires Valid(w) && w.nextUnit.None?
    ensures LoopTurn(StepFn(code), RunFn(code), w, b)
  {
    RunFnIs(code, w, b);
    RunUnitsAtEnd(w, code, b);
  }

  lemma TurnAtDeadline(code: UserCode, w: World, b: nat)
    requires Valid(w) && w.nextUnit.Some? && b <= 1
    ensures LoopTurn(StepFn(code), RunFn(code), w, b)
  {
    RunFnIs(code, w, b);
    StepFnIs(code, w);
    RunUnitsAtDeadline(w, code, b);
  }

  lemma TurnGoesOn(code: UserCode, w: World, b: nat)
    requires Valid(w) && w.nextUnit.Some? && b > 1
    ensures LoopTurn(StepFn(code), RunFn(code), w, b)
  {
    RunFnIs(code, w, b);
    StepFnIs(code, w);
    RunFnIs(code, Renderer.Step(w, code), b - 1);
    RunUnitsGoesOn(w, code, b);
  }

  lemma RunFnIs(code: UserCode, w: World, b: nat)
    requires Valid(w)
    ensures RunFn(code).requires(w, b) && RunFn(code)(w, b) == Renderer.RunUnits(w, code, b).0
  {
  }

  /** With no next unit, the loop runs nothing. */
  lemma RunUnitsAtEnd(w: World, code: UserCode, budget: nat)
    requires Valid(w) && w.nextUnit.None?
    ensures Renderer.RunUnits(w, code, budget).0 == w
  {
  }

  /** At the deadline, the loop stops after one unit. */
  lemma RunUnitsAtDeadline(w: World, code: UserCode, budget: nat)
    requires Valid(w) && w.nextUnit.Some? && budget <= 1
    ensures Renderer.RunUnits(w, code, budget).0 == Renderer.Step(w, code)
  {
  }

  /** Before the deadline, the loop goes on from the next state with one unit less. */
  lemma RunUnitsGoesOn(w: World, code: UserCode, budget: nat)
    requires Valid(w) && w.nextUnit.Some? && budget > 1
    ensures Renderer.RunUnits(w, code, budget).0 == Renderer.RunUnits(Renderer.Step(w, code), code, budget - 1).0
  {
  }

  /** `RunUnits` is the loop over `Step`. */
  lemma RunUnitsIsLoop(code: UserCode)
    ensures LoopOf(StepFn(code), RunFn(code))
  {
    forall w: World, b: nat {:trigger LoopTurn(StepFn(code), RunFn(code), w, b)} | Valid(w)
      ensures LoopTurn(StepFn(code), RunFn(code), w, b)
    {
      RunUnitsTurn(code, w, b);
    }
  }

  /**
   * A run of a loop that has stopped went where the loop goes: from
   * state `k` (the start, or one before the deadline) on what is left of
   * the budget, `b`.
   */
  lemma {:induction false} RunIsLoop(ws: seq<World>, step: World --> World, run: (World, nat) --> World,
                                     budget: nat, k: nat, b: nat)
    requires RunSoFar(ws, step, budget) && LoopOf(step, run)
    requires k < |ws| && (k == 0 || k < budget) && b == budget - k
    requires ws[|ws| - 1].nextUnit.Some? ==> |ws| - 1 > 0 && budget <= |ws| - 1
    ensures Valid(ws[k]) && run.requires(ws[k], b) && run(ws[k], b) == ws[|ws| - 1]
    decreases |ws| - k
  {
    RunState(ws, step, budget, k);
    assert LoopTurn(step, run, ws[k], b);
    if k + 1 < |ws| {
      RunState(ws, step, budget, k + 1);
      if b > 1 {
        RunIsLoop(ws, step, run, budget, k + 1, b - 1);
      }
    }
  }

  /** A stopped run from `w0` ends where `workLoop`'s loop leaves the state. */
  lemma RunIsWorkLoop(ws: seq<World>, code: UserCode, budget: nat, w0: World)
    requires RunSoFar(ws, StepFn(code), budget) && ws[0] == w0
    requires ws[|ws| - 1].nextUnit.Some? ==> |ws| - 1 > 0 && budget <= |ws| - 1
    ensures Valid(w0) && Renderer.WorkLoop(w0, code, budget) == Renderer.AfterLoop(ws[|ws| - 1], code)
  {
    RunUnitsIsLoop(code);
    RunIsLoop(ws, StepFn(code), RunFn(code), budget, 0, budget);
  }

  /** One turn of the loop of `workLoop`: `nextUnitOfWork = performUnitOfWork(nextUnitOfWork)`. */
  method RunUnit(rt: Runtime, code: UserCode, ghost budget: nat, ghost ws: seq<World>) returns (ghost ws': seq<World>)
    requires RunSoFar(ws, StepFn(code), budget) && rt.World() == ws[|ws| - 1]
    requires rt.nextUnit.Some? && (|ws| == 1 || |ws| - 1 < budget)
    modifies rt
    ensures RunSoFar(ws', StepFn(code), budget) && ws' == ws + [rt.World()]
  {
    ghost var w := rt.World();
    assert InFibers(w, w.nextUnit);
    ghost var s := Work.PerformUnitOfWork(w, code, w.nextUnit.value);
    var next := PerformUnitOfWork(rt, code, rt.nextUnit.value);
    assert rt.World() == s.0 && next == s.1;
    rt.SetNextUnit(next);
    StepFnIs(code, w);
    assert rt.World() == StepFn(code)(w);
    ws' := ws + [rt.World()];
    ExtendRun(ws, StepFn(code), budget, rt.World(), ws');
  }

  /** After the loop: a finished pass is committed, unfinished work asks for another idle callback. */
  method AfterLoop(rt: Runtime, code: UserCode)
    requires rt.Ok()
    modifies rt
    ensures rt.World() == Renderer.AfterLoop(old(rt.World()), code)
  {
    if rt.nextUnit.None? && rt.wipRoot.Some? {
      RuntimeCommit.CommitRoot(rt, code);
    } else if rt.nextUnit.Some? {
      var _ := rt.RequestIdleCallback();
    }
  }

  /**
   * The `while` loop of `workLoop`: units run while there is a next one
   * and the deadline has not passed. `budget` stands for the deadline:
   * after the `budget`-th unit (the first, when it is 0)
   * `timeRemaining()` is below 1.
   */
  method RunUnits(rt: Runtime, code: UserCode, budget: nat) returns (ghost ws: seq<World>)
    requires rt.Ok()
    modifies rt
    ensures RunSoFar(ws, StepFn(code), budget) && ws[0] == old(rt.World()) && rt.World() == ws[|ws| - 1]
    ensures ws[|ws| - 1].nextUnit.Some? ==> |ws| - 1 > 0 && budget <= |ws| - 1
  {
    ws := [rt.World()];
    var ran := 0;
    var shouldYield := false;
    while rt.nextUnit.Some? && !shouldYield
      invariant RunSoFar(ws, StepFn(code), budget)
      invariant ran == |ws| - 1 && rt.World() == ws[ran] && ws[0] == old(rt.World())
      invariant shouldYield <==> 0 < ran && budget <= ran
      invariant ran <= budget + 1
      decreases budget + 1 - ran
    {
      ws := RunUnit(rt, code, budget, ws);
      ran := ran + 1;
      shouldYield := ran >= budget;
    }
  }

  /** `workLoop(deadline)`: the loop, then the commit or the request for more time. */
  method WorkLoop(rt: Runtime, code: UserCode, budget: nat)
    requires rt.Ok()
    modifies rt
    ensures rt.World() == Renderer.WorkLoop(old(rt.World()), code, budget)
  {
    ghost var w0 := rt.World();
    ghost var ws := RunUnits(rt, code, budget);
    RunIsWorkLoop(ws, code, budget, w0);
    AfterLoop(rt, code);
  }
}
