/**
 * The commit phase as the source runs it: `commitRoot` walks the
 * deletions and the work-in-progress tree with the recursive `commitWork`,
 * which rewrites fiber records and the host tree in place, then runs the
 * pending effects hook by hook and resets `fiberState`.
 */
module RuntimeCommit {
  import opened Values
  import opened Vdom
  import opened Host
  import opened Fibers
  import opened Engine
  import Commit

  /**
   * `findParentDOMNode(fiber)`: up the `return` chain past components
   * without a host node; the host node reached, or null.
   */
  method FindParentDOMNode(rt: Runtime, f: FiberId) returns (p: Option<NodeId>)
    requires rt.Ok() && f in rt.fibers
    ensures p == Commit.FindParentDOMNode(rt.World(), f)
  {
    assert FiberOk(rt.World(), f);
    var parentFiber := rt.fibers[f].parent;
    while parentFiber.Some? && Commit.Skipped(rt.fibers[parentFiber.value])
      invariant InFibers(rt.World(), parentFiber)
      invariant Commit.HostParentFrom(rt.World(), parentFiber) == Commit.FindParentDOMNode(rt.World(), f)
      decreases if parentFiber.Some? then parentFiber.value + 1 else 0
    {
      assert FiberOk(rt.World(), parentFiber.value);
      parentFiber := rt.fibers[parentFiber.value].parent;
    }
    p := if parentFiber.Some? then rt.fibers[parentFiber.value].stateNode else None;
  }

  /**
   * The visit of a host fiber: a dirty fiber has its node removed, any
   * other fiber with a node has it updated, then `memoizedProps =
   * pendingProps` and `dirty = false`.
   */
  method CommitHost(rt: Runtime, x: FiberId)
    requires rt.Ok() && x in rt.fibers && !rt.fibers[x].isComponent
    modifies rt
    ensures rt.World() == Commit.CommitHost(old(rt.World()), x)
  {
    ghost var w := rt.World();
    var parentNode := FindParentDOMNode(rt, x);
    if rt.fibers[x].dirty {
      rt.SetDomTree(Commit.RemoveDOMNode(rt.World(), x, parentNode).dom);
    } else if rt.fibers[x].stateNode.Some? {
      rt.SetDomTree(Commit.UpdateDOMNode(rt.World(), x, parentNode).dom);
    }
    assert rt.World() == Commit.HostStep(w, x);
    rt.StoreFiber(x, Commit.Committed(rt.fibers[x]));
  }

  /**
   * `commitRoot()`: `deletions.forEach(commitWork)`, then `commitWork` on
   * the child of the work-in-progress root, if it has one, then
   * `pendingEffects.forEach(commitEffects)`; the work-in-progress tree
   * becomes the current tree and the pass is over. Each `commitWork` walk
   * is computed on values (`Commit.CommitWork`).
   */
  method CommitRoot(rt: Runtime, code: UserCode)
    requires rt.Ok()
    modifies rt
    ensures rt.World() == Commit.CommitRoot(old(rt.World()), code)
  {
    ghost var w := rt.World();
    var fuel := |rt.fibers| + 1;
    DeletionsIn(w);
    CommitDeletions(rt, rt.deletions, fuel);
    TreeStep(w, rt.World());
    if rt.wipRoot.Some? && rt.fibers[rt.wipRoot.value].child.Some? {
      rt.Assign(Commit.CommitWork(rt.World(), rt.fibers[rt.wipRoot.value].child, fuel));
    }
    DeletionsIn(rt.World());
    RunPendingEffects(rt, code, rt.pendingEffects);
    RootIs(w, code, rt.World());
    rt.FinishCommit();
  }

  /** `deletions.forEach(commitWork)`, each walk `fuel` deep. */
  method CommitDeletions(rt: Runtime, ds: seq<FiberId>, fuel: nat)
    requires rt.Ok() && forall j :: 0 <= j < |ds| ==> ds[j] in rt.fibers
    modifies rt
    ensures rt.World() == Deleted(old(rt.World()), ds, fuel)
  {
    ghost var w := rt.World();
    for i := 0 to |ds|
      invariant rt.Ok() && rt.fibers.Keys == w.fibers.Keys
      invariant Deleted(rt.World(), ds[i..], fuel) == Deleted(w, ds, fuel)
    {
      DeletionStep(rt.World(), ds, i, fuel);
      rt.Assign(Commit.CommitWork(rt.World(), Some(ds[i]), fuel));
    }
    DeletionsDone(rt.World(), ds, fuel);
  }

  /** `pendingEffects.forEach(commitEffects)` */
  method RunPendingEffects(rt: Runtime, code: UserCode, ps: seq<FiberId>)
    requires rt.Ok() && forall j :: 0 <= j < |ps| ==> ps[j] in rt.fibers
    modifies rt
    ensures rt.World() == Effected(old(rt.World()), code, ps)
  {
    ghost var w := rt.World();
    for i := 0 to |ps|
      invariant rt.Ok() && rt.fibers == w.fibers
      invariant Effected(rt.World(), code, ps[i..]) == Effected(w, code, ps)
    {
      PendingStep(rt.World(), code, ps, i);
      CommitEffects(rt, code, ps[i]);
    }
    PendingDone(rt.World(), code, ps);
  }

  /** `Commit.CommitDeletions`, on the states it is defined for. */
  ghost function Deleted(w: World, ds: seq<FiberId>, fuel: nat): World {
    if Valid(w) && forall j :: 0 <= j < |ds| ==> ds[j] in w.fibers then Commit.CommitDeletions(w, ds, fuel) else w
  }

  /** `Commit.RunPendingEffects`, on the states it is defined for. */
  ghost function Effected(w: World, code: UserCode, ps: seq<FiberId>): World {
    if Valid(w) && forall j :: 0 <= j < |ps| ==> ps[j] in w.fibers then Commit.RunPendingEffects(w, code, ps) else w
  }

  /** The deletions and the pending fibers of a valid state are fibers. */
  lemma DeletionsIn(w: World)
    requires Sound(w)
    ensures forall j :: 0 <= j < |w.deletions| ==> w.deletions[j] in w.fibers
    ensures forall j :: 0 <= j < |w.pendingEffects| ==> w.pendingEffects[j] in w.fibers
  {
  }

  /** One turn of `deletions.forEach(commitWork)`. */
  lemma DeletionStep(w: World, ds: seq<FiberId>, i: nat, fuel: nat)
    requires Sound(w) && i < |ds| && forall j :: 0 <= j < |ds| ==> ds[j] in w.fibers
    ensures var w1 := Commit.CommitWork(w, Some(ds[i]), fuel);
      Sound(w1) && w1 == w.(fibers := w1.fibers, dom := w1.dom) && w1.fibers.Keys == w.fibers.Keys &&
      Deleted(w, ds[i..], fuel) == Deleted(w1, ds[i + 1..], fuel)
  {
    var w1 := Commit.CommitWork(w, Some(ds[i]), fuel);
    WalkKeepsKeys(w, ds[i], fuel);
    var rest := ds[i..];
    assert rest[0] == ds[i] && rest[1..] == ds[i + 1..];
    assert forall j :: 0 <= j < |rest| - 1 ==> rest[1..][j] in w1.fibers;
    DeletedUnfolds(w, rest, fuel, w1);
  }

  /** A walk keeps the state valid and the fibers where they were, and changes only fibers and nodes. */
  lemma WalkKeepsKeys(w: World, d: FiberId, fuel: nat)
    requires Sound(w) && d in w.fibers
    ensures var w1 := Commit.CommitWork(w, Some(d), fuel);
      Sound(w1) && w1 == w.(fibers := w1.fibers, dom := w1.dom) && w1.fibers.Keys == w.fibers.Keys
  {
  }

  /** The deletions' walks are the walk of the first, then those of the rest. */
  lemma DeletedUnfolds(w: World, ds: seq<FiberId>, fuel: nat, w1: World)
    requires Sound(w) && ds != [] && forall j :: 0 <= j < |ds| ==> ds[j] in w.fibers
    requires w1 == Commit.CommitWork(w, Some(ds[0]), fuel) && Sound(w1)
    requires forall j :: 0 <= j < |ds| - 1 ==> ds[1..][j] in w1.fibers
    ensures Deleted(w, ds, fuel) == Deleted(w1, ds[1..], fuel)
  {
    assert Deleted(w, ds, fuel) == Commit.CommitDeletions(w1, ds[1..], fuel);
  }

  lemma DeletionsDone(w: World, ds: seq<FiberId>, fuel: nat)
    requires Sound(w)
    ensures Deleted(w, ds[|ds|..], fuel) == w
  {
    assert ds[|ds|..] == [];
  }

  /** The deletions' walks keep the state valid and change only fibers and nodes, and no link. */
  lemma DeletedKeeps(w: World, w1: World)
    requires Sound(w) && (forall j :: 0 <= j < |w.deletions| ==> w.deletions[j] in w.fibers)
    requires w1 == Deleted(w, w.deletions, |w.fibers| + 1)
    ensures Sound(w1) && w1 == w.(fibers := w1.fibers, dom := w1.dom) && Commit.SameLinks(w.fibers, w1.fibers)
  {
    Commit.CommittedSameLinks(w.fibers, w1.fibers, Commit.VisitedAll(w.fibers, w.deletions, |w.fibers| + 1));
  }

  /** After the deletions' walks, `commitRoot` walks from the child of the work-in-progress root. */
  lemma TreeStep(w: World, w1: World)
    requires Sound(w) && (forall j :: 0 <= j < |w.deletions| ==> w.deletions[j] in w.fibers)
    requires w1 == Deleted(w, w.deletions, |w.fibers| + 1)
    ensures Sound(w1) && w1 == w.(fibers := w1.fibers, dom := w1.dom)
    ensures w.wipRoot.Some? ==> w.wipRoot.value in w1.fibers && InFibers(w1, w1.fibers[w.wipRoot.value].child)
    ensures Commit.CommitTree(w) ==
      if w.wipRoot.Some? && w1.fibers[w.wipRoot.value].child.Some? then
        Commit.CommitWork(w1, w1.fibers[w.wipRoot.value].child, |w.fibers| + 1)
      else w1
  {
    DeletedKeeps(w, w1);
    if w.wipRoot.Some? {
      assert FiberOk(w1, w.wipRoot.value);
    }
  }

  /** One turn of `pendingEffects.forEach(commitEffects)`. */
  lemma PendingStep(w: World, code: UserCode, ps: seq<FiberId>, i: nat)
    requires Sound(w) && i < |ps| && forall j :: 0 <= j < |ps| ==> ps[j] in w.fibers
    ensures var w1 := Commit.CommitEffects(w, code, ps[i]);
      Sound(w1) && w1 == w.(hookLists := w1.hookLists, calls := w1.calls) &&
      Effected(w, code, ps[i..]) == Effected(w1, code, ps[i + 1..])
  {
    var w1 := Commit.CommitEffects(w, code, ps[i]);
    var rest := ps[i..];
    assert rest[0] == ps[i] && rest[1..] == ps[i + 1..];
    assert forall j :: 0 <= j < |rest| ==> rest[j] in w.fibers;
    assert forall j :: 0 <= j < |rest| - 1 ==> rest[1..][j] in w1.fibers;
    assert Commit.RunPendingEffects(w, code, rest) == Commit.RunPendingEffects(w1, code, rest[1..]);
  }

  lemma PendingDone(w: World, code: UserCode, ps: seq<FiberId>)
    requires Sound(w)
    ensures Effected(w, code, ps[|ps|..]) == w
  {
    assert ps[|ps|..] == [];
  }

  /** The end of `commitRoot`, once the walks and the effects are done. */
  lemma RootIs(w: World, code: UserCode, w3: World)
    requires Sound(w)
    requires w3 == Effected(Commit.CommitTree(w), code, w.pendingEffects)
    ensures Commit.CommitRoot(w, code) ==
      w3.(pendingEffects := [], currentRoot := w3.wipRoot, wipRoot := None, deletions := [], isRendering := false)
  {
  }

  /**
   * `commitEffects(fiber)`: `hooks.forEach` over the slots of the fiber's
   * hook array, in slot order. A pending effect has its cleanup called, if
   * it has one, then the effect; a function the effect returns becomes the
   * new cleanup, and `shouldRun` is cleared in place.
   */
  method CommitEffects(rt: Runtime, code: UserCode, f: FiberId)
    requires rt.Ok() && f in rt.fibers
    modifies rt
    ensures rt.World() == Commit.CommitEffects(old(rt.World()), code, f)
  {
    ghost var w := rt.World();
    var hooks := rt.fibers[f].hooks;
    if hooks.None? {
      return;
    }
    var l := hooks.value;
    SlotsOf(w, f);
    var slots := rt.hookLists[l];
    RanAll(code, slots);
    assert w.hookLists[l := slots] == w.hookLists;
    assert w.calls + [] == w.calls;
    for i := 0 to |slots|
      invariant rt.World() == w.(hookLists := w.hookLists[l := RanSlots(code, slots, i)],
                                 calls := w.calls + RanCalls(code, slots, i))
    {
      RanStep(code, slots, i);
      var o := slots[i];
      if o.Some? && Commit.Pending(o.value) {
        RunHook(rt, code, l, i, o.value);
      } else {
        Rewritten(RanSlots(code, slots, i), i);
        Appended(w.calls, RanCalls(code, slots, i), []);
      }
      Overwritten(w.hookLists, l, RanSlots(code, slots, i), RanSlots(code, slots, i + 1));
      Appended(w.calls, RanCalls(code, slots, i), Head(code, slots[i]));
    }
  }

  /**
   * The body of the `forEach` on a pending effect in slot `i` of the hook
   * array `l`: its cleanup is called, if it has one, then the effect; a
   * function the effect returns becomes the cleanup; `shouldRun` is cleared.
   */
  method RunHook(rt: Runtime, code: UserCode, l: ListId, i: nat, h: Hook)
    requires l in rt.hookLists && i < |rt.hookLists[l]| && HookOk(h) && Commit.Pending(h)
    modifies rt
    ensures rt.World() == old(rt.World()).(
      hookLists := old(rt.hookLists)[l := old(rt.hookLists)[l][i := Some(Commit.RunEffect(code, h).0)]],
      calls := old(rt.calls) + Head(code, Some(h)))
  {
    ghost var before := rt.World();
    LoggedEffect(before.calls, code, h);
    if Truthy(h.cleanup) {
      rt.LogCall(CleanupCall(h.cleanup.fn));
    }
    var out := code.call(h.value.fn);
    rt.LogCall(EffectCall(h.value.fn));
    rt.SetSlot(l, i, Some(h.(cleanup := if out.Fn? then out else h.cleanup, shouldRun := false)));
  }

  /** The hook array once `commitEffects` has run its first `i` slots. */
  ghost function RanSlots(code: UserCode, slots: seq<Option<Hook>>, i: nat): seq<Option<Hook>>
    requires i <= |slots| && Commit.HooksOk(slots)
  {
    HooksOkPrefix(slots, i);
    Commit.RunEffects(code, slots[..i]).0 + slots[i..]
  }

  /** The calls `commitEffects` has made once it has run the first `i` slots. */
  ghost function RanCalls(code: UserCode, slots: seq<Option<Hook>>, i: nat): seq<Call>
    requires i <= |slots| && Commit.HooksOk(slots)
  {
    HooksOkPrefix(slots, i);
    Commit.RunEffects(code, slots[..i]).1
  }

  /**
   * `Valid(w)` under a name of its own. The loop invariants and lemmas of
   * this module carry it as one term, so the solver does not expand all of
   * `Valid`'s conjuncts at every step; `SlotsOf` expands it where a part is
   * needed. With `Valid` written out instead, `TreeStep` runs out of resource.
   */
  ghost predicate Sound(w: World) {
    Valid(w)
  }

  /** The hook array of a fiber is a list of well-formed hooks. */
  lemma SlotsOf(w: World, f: FiberId)
    requires Sound(w) && f in w.fibers && w.fibers[f].hooks.Some?
    ensures w.fibers[f].hooks.value in w.hookLists && Commit.HooksOk(w.hookLists[w.fibers[f].hooks.value])
  {
    assert FiberOk(w, f);
    assert ListOk(w, w.fibers[f].hooks.value);
    Commit.SlotsAreHooksOk(w.hookLists[w.fibers[f].hooks.value]);
  }


  lemma HooksOkPrefix(s: seq<Option<Hook>>, i: nat)
    requires Commit.HooksOk(s) && i <= |s|
    ensures Commit.HooksOk(s[..i])
  {
    assert forall j :: 0 <= j < i ==> s[..i][j] == s[j];
  }

  /** Before any slot has run, nothing has changed; after the last, the whole array has run. */
  lemma RanAll(code: UserCode, slots: seq<Option<Hook>>)
    requires Commit.HooksOk(slots)
    ensures RanSlots(code, slots, 0) == slots && RanCalls(code, slots, 0) == []
    ensures RanSlots(code, slots, |slots|) == Commit.RunEffects(code, slots).0
    ensures RanCalls(code, slots, |slots|) == Commit.RunEffects(code, slots).1
  {
    assert slots[..0] == [] && slots[0..] == slots;
    assert Commit.RunEffects(code, slots[..0]) == ([], []);
    assert Commit.RunEffects(code, slots[..0]).0 + slots[0..] == slots;
    assert slots[..|slots|] == slots && slots[|slots|..] == [];
    assert Commit.RunEffects(code, slots).0 + [] == Commit.RunEffects(code, slots).0;
  }

  /** The calls the run of one slot makes. */
  ghost function Head(code: UserCode, o: Option<Hook>): seq<Call>
    requires o.Some? ==> HookOk(o.value)
  {
    if o.Some? then Commit.RunEffect(code, o.value).1 else []
  }

  /**
   * One turn of the `forEach`: the slot `i` of the array is replaced by
   * the hook after its effect, and the calls it made are logged.
   */
  lemma RanStep(code: UserCode, slots: seq<Option<Hook>>, i: nat)
    requires Commit.HooksOk(slots) && i < |slots|
    ensures slots[i].Some? ==> HookOk(slots[i].value)
    ensures |RanSlots(code, slots, i)| == |slots| && RanSlots(code, slots, i)[i] == slots[i]
    ensures RanSlots(code, slots, i + 1) == RanSlots(code, slots, i)[i := Commit.RanSlot(code, slots[i])]
    ensures RanCalls(code, slots, i + 1) == RanCalls(code, slots, i) + Head(code, slots[i])
  {
    RunPrefix(code, slots, i);
    Overwrite(Commit.RunEffects(code, slots[..i]).0, slots, i, Commit.RanSlot(code, slots[i]));
  }

  /** The run of the first `i + 1` slots is the run of the first `i`, then of slot `i`. */
  lemma RunPrefix(code: UserCode, slots: seq<Option<Hook>>, i: nat)
    requires Commit.HooksOk(slots) && i < |slots|
    ensures slots[i].Some? ==> HookOk(slots[i].value)
    ensures Commit.HooksOk(slots[..i]) && Commit.HooksOk(slots[..i + 1])
    ensures Commit.RunEffects(code, slots[..i + 1]) ==
      (Commit.RunEffects(code, slots[..i]).0 + [Commit.RanSlot(code, slots[i])],
       Commit.RunEffects(code, slots[..i]).1 + Head(code, slots[i]))
  {
    HooksOkPrefix(slots, i);
    HooksOkPrefix(slots, i + 1);
    var head := Head(code, slots[i]);
    assert slots[..i + 1] == slots[..i] + [slots[i]];
    assert [slots[i]][0] == slots[i] && [slots[i]][1..] == [];
    assert Commit.HooksOk([slots[i]]);
    RunEffectsAppend(code, slots[..i], [slots[i]]);
    assert Commit.RunEffects(code, [slots[i]]) == ([Commit.RanSlot(code, slots[i])] + [], head + []);
    assert [Commit.RanSlot(code, slots[i])] + [] == [Commit.RanSlot(code, slots[i])];
    assert head + [] == head;
  }

  lemma Overwritten<K, V>(m: map<K, V>, k: K, a: V, b: V)
    ensures m[k := a][k := b] == m[k := b]
  {
  }

  lemma Rewritten<T>(s: seq<T>, i: nat)
    requires i < |s|
    ensures s[i := s[i]] == s
  {
  }

  lemma Appended<T>(a: seq<T>, b: seq<T>, c: seq<T>)
    ensures (a + b) + c == a + (b + c) && a + [] == a
  {
  }

  /** Slot `i` of `done + s[i..]`, where `done` has `i` slots, overwritten. */
  lemma Overwrite<T>(done: seq<T>, s: seq<T>, i: nat, x: T)
    requires |done| == i < |s|
    ensures (done + s[i..])[i] == s[i] && |done + s[i..]| == |s|
    ensures (done + [x]) + s[i + 1..] == (done + s[i..])[i := x]
  {
  }

  /** The calls of a pending effect, in the order the loop body makes them: the cleanup, if any, then the effect. */
  lemma LoggedEffect(c: seq<Call>, code: UserCode, h: Hook)
    requires HookOk(h) && Commit.Pending(h)
    ensures c + Head(code, Some(h)) ==
      (if Truthy(h.cleanup) then c + [CleanupCall(h.cleanup.fn)] else c) + [EffectCall(h.value.fn)]
  {
    if Truthy(h.cleanup) {
      assert c + ([CleanupCall(h.cleanup.fn)] + [EffectCall(h.value.fn)]) == (c + [CleanupCall(h.cleanup.fn)]) + [EffectCall(h.value.fn)];
    } else {
      assert [] + [EffectCall(h.value.fn)] == [EffectCall(h.value.fn)];
    }
  }

  /** `forEach` over `a + b` is `forEach` over `a`, then over `b`. */
  lemma {:induction false} RunEffectsAppend(code: UserCode, a: seq<Option<Hook>>, b: seq<Option<Hook>>)
    requires Commit.HooksOk(a) && Commit.HooksOk(b) && Commit.HooksOk(a + b)
    ensures Commit.RunEffects(code, a + b) ==
      (Commit.RunEffects(code, a).0 + Commit.RunEffects(code, b).0, Commit.RunEffects(code, a).1 + Commit.RunEffects(code, b).1)
    decreases |a|
  {
    if a == [] {
      assert a + b == b;
      assert Commit.RunEffects(code, a) == ([], []);
      assert [] + Commit.RunEffects(code, b).0 == Commit.RunEffects(code, b).0;
      assert [] + Commit.RunEffects(code, b).1 == Commit.RunEffects(code, b).1;
    } else {
      assert (a + b)[0] == a[0] && (a + b)[1..] == a[1..] + b;
      HooksOkPrefixTail(a);
      HooksOkPrefixTail(a + b);
      RunEffectsAppend(code, a[1..], b);
      var ra, rb, rt := Commit.RunEffects(code, a[1..]), Commit.RunEffects(code, b), Commit.RunEffects(code, a + b);
      var head := if a[0].Some? then Commit.RunEffect(code, a[0].value).1 else [];
      assert rt.0 == [Commit.RanSlot(code, a[0])] + (ra.0 + rb.0);
      assert rt.1 == head + (ra.1 + rb.1);
      assert [Commit.RanSlot(code, a[0])] + (ra.0 + rb.0) == ([Commit.RanSlot(code, a[0])] + ra.0) + rb.0;
      assert head + (ra.1 + rb.1) == (head + ra.1) + rb.1;
    }
  }

  lemma HooksOkPrefixTail(a: seq<Option<Hook>>)
    requires Commit.HooksOk(a) && a != []
    ensures Commit.HooksOk(a[1..])
  {
    assert forall j :: 0 <= j < |a| - 1 ==> a[1..][j] == a[j + 1];
  }
}
