/**
 * The hooks of src/hooks.ts over the `World`: positional slots in the hook
 * array of the fiber being rendered, a state slot with its update queue, a
 * memoized callback, and an effect with its `shouldRun` flag.
 */
module Hooks {
  import opened Values
  import opened Vdom
  import opened Host
  import opened Fibers
  import opened Schedule

  /** `getCurrentFiber()`: the fiber being rendered; outside a render it throws. */
  function GetCurrentFiber(w: World): (r: Result<FiberId>)
    requires Valid(w)
    ensures r.Ok? <==> w.currentFiber.Some?
    ensures r.Ok? ==> Some(r.value) == w.currentFiber && r.value in w.fibers
    ensures r.Failure? ==> r.error == OutsideComponent
  {
    if w.currentFiber.None? then Failure(OutsideComponent) else Ok(w.currentFiber.value)
  }

  /** Slot `i` of the hook array `l`; `None` is an empty slot (a hole or past the end). */
  function Slot(w: World, l: ListId, i: nat): Option<Hook>
    requires l in w.hookLists
  {
    if i < |w.hookLists[l]| then w.hookLists[l][i] else None
  }

  /** Every filled slot holds a well-formed hook object. */
  lemma FilledSlotOk(w: World, l: ListId, i: nat)
    requires Valid(w) && l in w.hookLists && Slot(w, l, i).Some?
    ensures HookOk(Slot(w, l, i).value)
  {
    assert ListOk(w, l);
    assert SlotOk(w.hookLists[l], i);
  }

  /** `fiber.hooks?.[i]`: slot `i` of the hook array of `f`, empty when it has none. */
  function FiberSlot(w: World, f: FiberId, i: nat): Option<Hook>
    requires f in w.fibers
  {
    var l := w.fibers[f].hooks;
    if l.Some? && l.value in w.hookLists then Slot(w, l.value, i) else None
  }

  /** `fiber.hookIndex++`: the index this call uses; the fiber moves on to the next one. */
  function NextHookIndex(w: World, f: FiberId): (res: (World, nat))
    requires Valid(w) && f in w.fibers
    ensures Valid(res.0)
    ensures res.1 == w.fibers[f].hookIndex
    ensures res.0 == w.(fibers := w.fibers[f := w.fibers[f].(hookIndex := res.1 + 1)])
  {
    var i := w.fibers[f].hookIndex;
    assert FiberOk(w, f);
    (SetFiber(w, f, w.fibers[f].(hookIndex := i + 1)), i)
  }

  /** `fiber.hooks = []` */
  function AttachList(w: World, f: FiberId): (res: (World, ListId))
    requires Valid(w) && f in w.fibers
    ensures Valid(res.0)
    ensures res.1 == w.nextListId && res.1 !in w.hookLists
    ensures res.0 == w.(fibers := w.fibers[f := w.fibers[f].(hooks := Some(res.1))],
                        hookLists := w.hookLists[res.1 := []], nextListId := w.nextListId + 1)
  {
    var step := AllocList(w);
    var w1 := step.0;
    var l := step.1;
    assert FiberOk(w, f);
    assert RecOk(w1, f, w1.fibers[f].(hooks := Some(l)));
    (SetFiber(w1, f, w1.fibers[f].(hooks := Some(l))), l)
  }

  /**
   * `getOrCreateHook(fiber, i, initialHook)`: the hook array is created when
   * missing; `initialHook` is installed only in an empty slot, an existing
   * hook object is returned unchanged.
   */
  function GetOrCreateHook(w: World, f: FiberId, i: nat, init: Hook): (res: (World, ListId))
    requires Valid(w) && f in w.fibers && HookOk(init)
    ensures Valid(res.0)
    ensures res.0.fibers.Keys == w.fibers.Keys && res.0.fibers[f].hooks == Some(res.1)
    ensures res.1 in res.0.hookLists && w.hookLists.Keys <= res.0.hookLists.Keys
    // an existing array is kept; otherwise a new one is attached to `f`
    ensures w.fibers[f].hooks.Some? ==> res.1 == w.fibers[f].hooks.value && res.0.fibers == w.fibers
    ensures w.fibers[f].hooks.None? ==>
      res.1 !in w.hookLists && res.0.fibers == w.fibers[f := w.fibers[f].(hooks := Some(res.1))]
    // the slot holds the old hook object if there was one, `init` otherwise
    ensures Slot(res.0, res.1, i) == if FiberSlot(w, f, i).Some? then FiberSlot(w, f, i) else Some(init)
    ensures forall j :: j != i ==> Slot(res.0, res.1, j) == FiberSlot(w, f, j)
    ensures forall l :: l in w.hookLists && l != res.1 ==> res.0.hookLists[l] == w.hookLists[l]
    ensures res.0.(fibers := w.fibers, hookLists := w.hookLists, nextListId := w.nextListId) == w
  {
    if w.fibers[f].hooks.Some? then HookInOwnList(w, f, i, init) else HookInNewList(w, f, i, init)
  }

  function HookInOwnList(w: World, f: FiberId, i: nat, init: Hook): (res: (World, ListId))
    requires Valid(w) && f in w.fibers && HookOk(init) && w.fibers[f].hooks.Some?
    ensures Valid(res.0)
    ensures res.1 == w.fibers[f].hooks.value && res.0.fibers == w.fibers
    ensures res.1 in res.0.hookLists && res.0.hookLists.Keys == w.hookLists.Keys
    ensures Slot(res.0, res.1, i) == if FiberSlot(w, f, i).Some? then FiberSlot(w, f, i) else Some(init)
    ensures forall j :: j != i ==> Slot(res.0, res.1, j) == FiberSlot(w, f, j)
    ensures forall l :: l in w.hookLists && l != res.1 ==> res.0.hookLists[l] == w.hookLists[l]
    ensures res.0 == w.(hookLists := res.0.hookLists)
  {
    assert FiberOk(w, f);
    var l := w.fibers[f].hooks.value;
    (InstallHook(w, l, i, init), l)
  }

  function HookInNewList(w: World, f: FiberId, i: nat, init: Hook): (res: (World, ListId))
    requires Valid(w) && f in w.fibers && HookOk(init) && w.fibers[f].hooks.None?
    ensures Valid(res.0)
    ensures res.1 !in w.hookLists && res.0.fibers == w.fibers[f := w.fibers[f].(hooks := Some(res.1))]
    ensures res.0.hookLists.Keys == w.hookLists.Keys + {res.1}
    ensures Slot(res.0, res.1, i) == Some(init)
    ensures forall j :: j != i ==> Slot(res.0, res.1, j).None?
    ensures forall l :: l in w.hookLists ==> res.0.hookLists[l] == w.hookLists[l]
    ensures res.0 == w.(fibers := res.0.fibers, hookLists := res.0.hookLists, nextListId := w.nextListId + 1)
  {
    var step := AttachList(w, f);
    var w1 := step.0;
    var l := step.1;
    (InstallHook(w1, l, i, init), l)
  }

  /** `if (!hooks[i]) hooks[i] = initialHook` */
  function InstallHook(w: World, l: ListId, i: nat, init: Hook): (w': World)
    requires Valid(w) && l in w.hookLists && HookOk(init)
    ensures Valid(w')
    ensures w'.hookLists.Keys == w.hookLists.Keys
    ensures Slot(w', l, i) == if Slot(w, l, i).Some? then Slot(w, l, i) else Some(init)
    ensures forall j :: j != i ==> Slot(w', l, j) == Slot(w, l, j)
    ensures forall k :: k in w.hookLists && k != l ==> w'.hookLists[k] == w.hookLists[k]
    ensures w' == w.(hookLists := w'.hookLists)
  {
    if Slot(w, l, i).Some? then w else SetSlot(w, l, i, init)
  }

  /**
   * What every hook call does to the state besides its own slot: the
   * hook index of `f` moves on by one, `f` gets a hook array, every other
   * slot of that array, every other array and every other fiber stay as
   * they were, and only the call log and the pending effects may grow.
   */
  ghost predicate HookFrame(w: World, w': World, f: FiberId)
    requires f in w.fibers
  {
    FibersFrame(w, w', f) && SlotsFrame(w, w', f) && RestFrame(w, w')
  }

  /** The fibers part of `HookFrame`: only `f` changes, in its hook index and hook array. */
  ghost predicate FibersFrame(w: World, w': World, f: FiberId)
    requires f in w.fibers
  {
    w'.fibers.Keys == w.fibers.Keys &&
    (forall g :: g in w.fibers && g != f ==> w'.fibers[g] == w.fibers[g]) &&
    w'.fibers[f].hookIndex == w.fibers[f].hookIndex + 1 &&
    w'.fibers[f].hooks.Some? && w'.fibers[f].hooks.value in w'.hookLists &&
    (w.fibers[f].hooks.Some? ==> w'.fibers[f].hooks == w.fibers[f].hooks) &&
    w'.fibers[f] == w.fibers[f].(hooks := w'.fibers[f].hooks, hookIndex := w'.fibers[f].hookIndex)
  }

  /** The hook-array part of `HookFrame`: only the slot at the old hook index of `f` can change. */
  ghost predicate SlotsFrame(w: World, w': World, f: FiberId)
    requires f in w.fibers
  {
    f in w'.fibers &&
    (forall j :: j != w.fibers[f].hookIndex ==> FiberSlot(w', f, j) == FiberSlot(w, f, j)) &&
    w.hookLists.Keys <= w'.hookLists.Keys &&
    (forall l :: l in w.hookLists && Some(l) != w'.fibers[f].hooks ==> w'.hookLists[l] == w.hookLists[l])
  }

  /** The rest of `HookFrame`: besides the hooks, only the call log, which grows, and the pending effects may change. */
  predicate RestFrame(w: World, w': World) {
    w.calls <= w'.calls &&
    w'.(fibers := w.fibers, hookLists := w.hookLists, nextListId := w.nextListId,
        calls := w.calls, pendingEffects := w.pendingEffects) == w
  }

  /** The common prologue of every hook: the current fiber, its next index, its slot. */
  function EnterHook(w: World, f: FiberId, init: Hook): (res: (World, ListId, nat))
    requires Valid(w) && f in w.fibers && HookOk(init)
    ensures Valid(res.0) && f in res.0.fibers
    ensures res.2 == w.fibers[f].hookIndex
    ensures res.0.fibers[f].hooks == Some(res.1) && res.1 in res.0.hookLists
    ensures HookFrame(w, res.0, f)
    ensures res.0.calls == w.calls && res.0.pendingEffects == w.pendingEffects
    ensures Slot(res.0, res.1, res.2) == if FiberSlot(w, f, res.2).Some? then FiberSlot(w, f, res.2) else Some(init)
  {
    var step1 := NextHookIndex(w, f);
    var step2 := GetOrCreateHook(step1.0, f, step1.1, init);
    EnterHookFrame(w, f, init);
    (step2.0, step2.1, step1.1)
  }

  /** The frame of `EnterHook`, from what its two steps promise. */
  lemma EnterHookFrame(w: World, f: FiberId, init: Hook)
    requires Valid(w) && f in w.fibers && HookOk(init)
    ensures var step1 := NextHookIndex(w, f);
      HookFrame(w, GetOrCreateHook(step1.0, f, step1.1, init).0, f)
  {
    EnterFibersFrame(w, f, init);
    EnterSlotsFrame(w, f, init);
    EnterRestFrame(w, f, init);
  }

  lemma EnterFibersFrame(w: World, f: FiberId, init: Hook)
    requires Valid(w) && f in w.fibers && HookOk(init)
    ensures var step1 := NextHookIndex(w, f);
      FibersFrame(w, GetOrCreateHook(step1.0, f, step1.1, init).0, f)
  {
    assert FiberOk(w, f);
  }

  lemma EnterSlotsFrame(w: World, f: FiberId, init: Hook)
    requires Valid(w) && f in w.fibers && HookOk(init)
    ensures var step1 := NextHookIndex(w, f);
      SlotsFrame(w, GetOrCreateHook(step1.0, f, step1.1, init).0, f)
  {
    var step1 := NextHookIndex(w, f);
    assert FiberOk(w, f);
    assert forall j :: FiberSlot(step1.0, f, j) == FiberSlot(w, f, j);
  }

  lemma EnterRestFrame(w: World, f: FiberId, init: Hook)
    requires Valid(w) && f in w.fibers && HookOk(init)
    ensures var step1 := NextHookIndex(w, f);
      RestFrame(w, GetOrCreateHook(step1.0, f, step1.1, init).0)
  {
  }

  /** Replaces the hook object in the slot `(l, i)`, keeping the frame of the call. */
  function PutHook(w0: World, w: World, f: FiberId, l: ListId, i: nat, h: Hook): (w': World)
    requires Valid(w) && f in w0.fibers && HookOk(h)
    requires i == w0.fibers[f].hookIndex && HookFrame(w0, w, f) && w.fibers[f].hooks == Some(l)
    ensures Valid(w') && HookFrame(w0, w', f) && w'.hookLists.Keys == w.hookLists.Keys
    ensures w'.fibers == w.fibers
    ensures Slot(w', l, i) == Some(h)
    ensures w'.calls == w.calls && w'.pendingEffects == w.pendingEffects
  {
    var w' := SetSlot(w, l, i, h);
    assert forall j :: j != i ==> Slot(w', l, j) == Slot(w, l, j);
    w'
  }

  // ---------------------------------------------------------------------
  // The update queue of a state slot

  /** One queued action applied to a state: a function is an updater, anything else replaces. */
  function ApplyAction(code: UserCode, prev: Value, action: Value): (r: Value)
    ensures action.Fn? ==> r == code.apply(action.fn, prev)
    ensures !action.Fn? ==> r == action
  {
    if action.Fn? then code.apply(action.fn, prev) else action
  }

  /** `queue.reduce((value, updater) => ..., start)`: the left fold of the queue. */
  function FoldQueue(code: UserCode, start: Value, queue: seq<Value>): Value
    decreases |queue|
  {
    if queue == [] then start else FoldQueue(code, ApplyAction(code, start, queue[0]), queue[1..])
  }

  /** Folding two queued batches one after the other is folding their concatenation. */
  lemma {:induction false} FoldQueueAppend(code: UserCode, start: Value, a: seq<Value>, b: seq<Value>)
    ensures FoldQueue(code, start, a + b) == FoldQueue(code, FoldQueue(code, start, a), b)
    decreases |a|
  {
    if a == [] {
      assert a + b == b;
    } else {
      assert (a + b)[1..] == a[1..] + b;
      FoldQueueAppend(code, ApplyAction(code, start, a[0]), a[1..], b);
    }
  }

  /** The last action wins when it is a plain value, whatever came before it. */
  lemma LastValueWins(code: UserCode, start: Value, queue: seq<Value>, x: Value)
    requires !x.Fn?
    ensures FoldQueue(code, start, queue + [x]) == x
  {
    FoldQueueAppend(code, start, queue, [x]);
  }

  /** Updaters compose: `n` increments queued in one render add `n`. */
  lemma {:induction false} UpdatersCompose(code: UserCode, g: nat, start: int, n: nat)
    requires forall k: int :: code.apply(g, Num(k)) == Num(k + 1)
    ensures FoldQueue(code, Num(start), seq(n, _ => Fn(g))) == Num(start + n)
    decreases n
  {
    if n > 0 {
      var q := seq(n, _ => Fn(g));
      assert q[1..] == seq(n - 1, _ => Fn(g));
      UpdatersCompose(code, g, start + 1, n - 1);
    }
  }

  // ---------------------------------------------------------------------
  // useState and setState

  /** The hook object a state slot starts with. */
  function InitialStateHook(code: UserCode, init: Value): Hook {
    Hook(StateKind, if init.Fn? then code.call(init.fn) else init, Some([]), None, Undefined, false)
  }

  /**
   * `useState(initialValue)`: the initializer runs on every call, its value
   * is used only by a new slot; a non-empty queue is folded into the value
   * and emptied. The setter closes over the fiber and the slot.
   */
  function UseState(w: World, code: UserCode, init: Value): (r: Result<(World, HookResult)>)
    requires Valid(w)
    ensures r.Failure? <==> w.currentFiber.None?
    ensures r.Failure? ==> r.error == OutsideComponent
    ensures r.Ok? ==> StateHookRead(w, code, init, w.currentFiber.value, r.value.0, r.value.1)
  {
    match GetCurrentFiber(w)
    case Failure(e) => Failure(e)
    case Ok(f) => Ok(UseStateIn(w, code, init, f))
  }

  /**
   * What `useState(init)` does when `f` is being rendered, at its slot `i`
   * (its hook index): the hook frame, the initializer called on every
   * render, the slot holding the old hook object or a new one on the
   * initial value with the queued actions folded in, and a setter for slot
   * `i` of the hook array of `f`.
   */
  ghost predicate StateHookRead(w: World, code: UserCode, init: Value, f: FiberId, w': World, res: HookResult)
    requires Valid(w) && f in w.fibers
  {
    var i := w.fibers[f].hookIndex; var h0 := FiberSlot(w, f, i);
    Valid(w') && HookFrame(w, w', f) && w'.pendingEffects == w.pendingEffects &&
    w'.calls == w.calls + (if init.Fn? then [InitCall(init.fn)] else []) &&
    FiberSlot(w', f, i) == Some(ReadState(code, if h0.Some? then h0.value else InitialStateHook(code, init))) &&
    res == StateResult(FiberSlot(w', f, i).value.value, Setter(f, w'.fibers[f].hooks.value, i))
  }

  function UseStateIn(w: World, code: UserCode, init: Value, f: FiberId): (r: (World, HookResult))
    requires Valid(w) && w.currentFiber == Some(f) && f in w.fibers
    ensures StateHookRead(w, code, init, f, r.0, r.1) == true
  {
    var step := EnterHook(w, f, InitialStateHook(code, init));
    var w1 := step.0;
    var l := step.1;
    var i := step.2;
    var w2 := FoldSlot(w, w1, f, l, i, code);
    var w3 := LogInit(w, w2, f, init);
    assert FiberSlot(w3, f, i) == Slot(w2, l, i);
    (w3, StateResult(Slot(w2, l, i).value.value, Setter(f, l, i)))
  }

  /**
   * What reading a state hook leaves in its slot: a non-empty queue is
   * folded over the stored value and emptied, otherwise the hook is kept.
   */
  function ReadState(code: UserCode, h: Hook): (r: Hook)
    ensures h.queue.None? || h.queue.value == [] ==> r == h
    ensures h.queue.Some? && h.queue.value != [] ==>
      r.value == FoldQueue(code, h.value, h.queue.value) && r.queue == Some([])
    ensures r.(value := h.value, queue := h.queue) == h
  {
    if h.queue.Some? && h.queue.value != [] then
      h.(value := FoldQueue(code, h.value, h.queue.value), queue := Some([]))
    else h
  }

  /** The read of a state slot, as `ReadState` says. */
  function FoldSlot(w0: World, w: World, f: FiberId, l: ListId, i: nat, code: UserCode): (w': World)
    requires Valid(w) && f in w0.fibers && f in w.fibers && l in w.hookLists && Slot(w, l, i).Some?
    requires i == w0.fibers[f].hookIndex && HookFrame(w0, w, f) && w.fibers[f].hooks == Some(l)
    ensures Valid(w') && HookFrame(w0, w', f) && w'.calls == w.calls && w'.pendingEffects == w.pendingEffects
    ensures w'.hookLists.Keys == w.hookLists.Keys && w'.fibers == w.fibers
    ensures Slot(w', l, i) == Some(ReadState(code, Slot(w, l, i).value))
  {
    var h := Slot(w, l, i).value;
    FilledSlotOk(w, l, i);
    if h.queue.Some? && h.queue.value != [] then
      PutHook(w0, w, f, l, i, ReadState(code, h))
    else w
  }

  /** The call of a function initializer, which `useState` makes on every render. */
  function LogInit(w0: World, w: World, f: FiberId, init: Value): (w': World)
    requires Valid(w) && f in w0.fibers && HookFrame(w0, w, f)
    ensures Valid(w') && HookFrame(w0, w', f)
    ensures w' == w.(calls := w.calls + if init.Fn? then [InitCall(init.fn)] else [])
  {
    var w' := w.(calls := w.calls + if init.Fn? then [InitCall(init.fn)] else []);
    StateChangeKeepsValid(w, w');
    assert forall j :: FiberSlot(w', f, j) == FiberSlot(w, f, j);
    w'
  }

  /** A setter can only exist for a slot that `useState` has filled; slots are never emptied. */
  predicate SetterLive(w: World, s: Setter) {
    s.fiber in w.fibers && s.list in w.hookLists && Slot(w, s.list, s.index).Some?
  }

  /** The slot of `s` with `action` appended to its queue. */
  function Enqueue(w: World, s: Setter, action: Value): (w': World)
    requires Valid(w) && SetterLive(w, s) && Slot(w, s.list, s.index).value.queue.Some?
    ensures Valid(w') && SetterLive(w', s)
    ensures var h := Slot(w, s.list, s.index).value;
      Slot(w', s.list, s.index) == Some(h.(queue := Some(h.queue.value + [action])))
    ensures forall j :: j != s.index ==> Slot(w', s.list, j) == Slot(w, s.list, j)
    ensures w' == w.(hookLists := w'.hookLists) && w'.hookLists.Keys == w.hookLists.Keys
    ensures forall l :: l in w.hookLists && l != s.list ==> w'.hookLists[l] == w.hookLists[l]
  {
    var h := Slot(w, s.list, s.index).value;
    FilledSlotOk(w, s.list, s.index);
    SetSlot(w, s.list, s.index, h.(queue := Some(h.queue.value + [action])))
  }

  /**
   * `setState(action)`: the candidate value is computed against the
   * current value; an `Object.is`-equal candidate changes nothing,
   * otherwise the raw action is queued and an update is scheduled for the
   * fiber that rendered the hook.
   */
  function SetState(w: World, code: UserCode, s: Setter, action: Value): (r: Result<World>)
    requires Valid(w) && SetterLive(w, s)
    ensures r.Ok? ==> Valid(r.value) && SetterLive(r.value, s)
    ensures var h := Slot(w, s.list, s.index).value;
      Same(h.value, ApplyAction(code, h.value, action)) ==> r == Ok(w)
    ensures var h := Slot(w, s.list, s.index).value;
      !Same(h.value, ApplyAction(code, h.value, action)) && h.queue.None? ==> r == Failure(NoUpdateQueue)
    ensures var h := Slot(w, s.list, s.index).value;
      !Same(h.value, ApplyAction(code, h.value, action)) && h.queue.Some? ==>
        r.Ok? &&
        Slot(r.value, s.list, s.index) == Some(h.(queue := Some(h.queue.value + [action]))) &&
        (forall j :: j != s.index ==> Slot(r.value, s.list, j) == Slot(w, s.list, j)) &&
        r.value == ScheduleUpdate(Enqueue(w, s, action), s.fiber)
  {
    var h := Slot(w, s.list, s.index).value;
    if Same(h.value, ApplyAction(code, h.value, action)) then Ok(w)
    else if h.queue.None? then Failure(NoUpdateQueue)
    else Ok(ScheduleUpdate(Enqueue(w, s, action), s.fiber))
  }

  /** An update to an equal value neither queues anything nor schedules a render. */
  lemma SetStateSameValueIsNoOp(w: World, code: UserCode, s: Setter, v: Value)
    requires Valid(w) && SetterLive(w, s) && !v.Fn? && Same(Slot(w, s.list, s.index).value.value, v)
    ensures SetState(w, code, s, v) == Ok(w)
  {
  }

  /**
   * A queued update is what the next render of the slot reads: after
   * `setState(a)` on a slot with an empty queue, `useState` at that slot
   * (in any later world that left the hook arrays alone) returns the value
   * of `a` applied to the old state.
   */
  lemma SetStateThenUseState(w: World, code: UserCode, s: Setter, a: Value, w2: World, init: Value)
    requires Valid(w) && SetterLive(w, s)
    requires Slot(w, s.list, s.index).value.queue == Some([])
    requires SetState(w, code, s, a).Ok?
    requires Valid(w2) && w2.hookLists == SetState(w, code, s, a).value.hookLists
    requires w2.currentFiber.Some? && w2.fibers[w2.currentFiber.value].hooks == Some(s.list)
    requires w2.fibers[w2.currentFiber.value].hookIndex == s.index
    ensures UseState(w2, code, init).Ok?
    ensures Same(UseState(w2, code, init).value.1.value, ApplyAction(code, Slot(w, s.list, s.index).value.value, a))
  {
    var h := Slot(w, s.list, s.index).value;
    var q := if Same(h.value, ApplyAction(code, h.value, a)) then h else h.(queue := Some([a]));
    SetStateSlot(w, code, s, a, h, SetState(w, code, s, a).value);
    UseStateReadsSlot(w2, code, init, s.list, s.index, q);
    QueuedActionIsRead(code, h, a);
  }

  /** After `setState(a)` on a slot `h` with an empty queue, the slot holds `a` alone (or is unchanged). */
  lemma SetStateSlot(w: World, code: UserCode, s: Setter, a: Value, h: Hook, r: World)
    requires Valid(w) && SetterLive(w, s) && Slot(w, s.list, s.index) == Some(h) && h.queue == Some([])
    requires SetState(w, code, s, a) == Ok(r)
    ensures s.list in r.hookLists
    ensures Slot(r, s.list, s.index) == Some(if Same(h.value, ApplyAction(code, h.value, a)) then h else h.(queue := Some([a])))
  {
    AppendToEmpty(h.queue.value, a);
  }

  lemma AppendToEmpty(q: seq<Value>, a: Value)
    requires q == []
    ensures q + [a] == [a]
  {
  }

  /** `useState` in the fiber whose hook array and index are `l` and `i` reads the hook in that slot. */
  lemma UseStateReadsSlot(w: World, code: UserCode, init: Value, l: ListId, i: nat, q: Hook)
    requires Valid(w) && l in w.hookLists && Slot(w, l, i) == Some(q)
    requires w.currentFiber.Some? && w.fibers[w.currentFiber.value].hooks == Some(l)
    requires w.fibers[w.currentFiber.value].hookIndex == i
    ensures UseState(w, code, init).Ok? && UseState(w, code, init).value.1.value == ReadState(code, q).value
  {
    assert FiberSlot(w, w.currentFiber.value, i) == Some(q);
  }

  /** Reading a slot whose empty queue received `a` (or was left alone as equal) gives `a` applied. */
  lemma QueuedActionIsRead(code: UserCode, h: Hook, a: Value)
    requires h.queue == Some([])
    ensures var q := if Same(h.value, ApplyAction(code, h.value, a)) then h else h.(queue := Some([a]));
      Same(ReadState(code, q).value, ApplyAction(code, h.value, a))
  {
    SameIsEquivalence(h.value, ApplyAction(code, h.value, a), h.value);
    SameIsEquivalence(ApplyAction(code, h.value, a), h.value, h.value);
    assert FoldQueue(code, h.value, [a]) == FoldQueue(code, ApplyAction(code, h.value, a), []);
  }

  // ---------------------------------------------------------------------
  // Dependency lists

  /** `deps.every((dep, i) => Object.is(dep, other[i]))` on lists of equal length. */
  function AllSame(a: seq<Value>, b: seq<Value>): (r: bool)
    requires |a| == |b|
    ensures r <==> forall i :: 0 <= i < |a| ==> Same(a[i], b[i])
    decreases |a|
  {
    if a == [] then true
    else Same(a[0], b[0]) && AllSame(a[1..], b[1..])
  }

  /**
   * `areDepsEqual(newDeps, oldDeps)`: false when either list is absent or
   * the lengths differ, else a pointwise `Object.is` comparison.
   */
  function AreDepsEqual(newDeps: Option<seq<Value>>, oldDeps: Option<seq<Value>>): (r: bool)
    ensures r <==> newDeps.Some? && oldDeps.Some? && |newDeps.value| == |oldDeps.value| &&
                   forall i :: 0 <= i < |newDeps.value| ==> Same(newDeps.value[i], oldDeps.value[i])
  {
    if newDeps.None? || oldDeps.None? then false
    else if |newDeps.value| != |oldDeps.value| then false
    else AllSame(newDeps.value, oldDeps.value)
  }

  /** A present list equals itself; an absent list equals nothing, not even itself. */
  lemma DepsEqualReflexive(d: Option<seq<Value>>)
    ensures AreDepsEqual(d, d) <==> d.Some?
  {
    if d.Some? {
      forall i | 0 <= i < |d.value| ensures Same(d.value[i], d.value[i]) {
        SameIsEquivalence(d.value[i], d.value[i], d.value[i]);
      }
    }
  }

  /** The comparison does not depend on the order of its arguments. */
  lemma DepsEqualSymmetric(a: Option<seq<Value>>, b: Option<seq<Value>>)
    ensures AreDepsEqual(a, b) == AreDepsEqual(b, a)
  {
    if AreDepsEqual(a, b) {
      forall i | 0 <= i < |a.value| ensures Same(b.value[i], a.value[i]) {
        SameIsEquivalence(a.value[i], b.value[i], b.value[i]);
      }
    }
    if AreDepsEqual(b, a) {
      forall i | 0 <= i < |b.value| ensures Same(a.value[i], b.value[i]) {
        SameIsEquivalence(b.value[i], a.value[i], a.value[i]);
      }
    }
  }

  // ---------------------------------------------------------------------
  // useCallback

  /** `deps = []`: the default of an omitted dependency list. */
  function DepsOrEmpty(deps: Option<seq<Value>>): seq<Value> {
    if deps.Some? then deps.value else []
  }

  /**
   * `useCallback(callback, deps = [])`: the stored callback is returned
   * while the deps are equal; otherwise the new callback and deps are
   * stored and returned.
   */
  function UseCallback(w: World, cb: nat, deps: Option<seq<Value>>): (r: Result<(World, HookResult)>)
    requires Valid(w)
    ensures r.Failure? <==> w.currentFiber.None?
    ensures r.Failure? ==> r.error == OutsideComponent
    ensures r.Ok? ==>
      var f := w.currentFiber.value; var i := w.fibers[f].hookIndex;
      var w' := r.value.0; var h0 := FiberSlot(w, f, i); var d := DepsOrEmpty(deps);
      Valid(w') && HookFrame(w, w', f) && w'.calls == w.calls && w'.pendingEffects == w.pendingEffects &&
      FiberSlot(w', f, i).Some? &&
      r.value.1 == CallbackResult(FiberSlot(w', f, i).value.value) &&
      (h0.None? ==> FiberSlot(w', f, i) == Some(Hook(CallbackKind, Fn(cb), None, Some(d), Undefined, false))) &&
      (h0.Some? && AreDepsEqual(Some(d), h0.value.deps) ==> FiberSlot(w', f, i) == h0) &&
      (h0.Some? && !AreDepsEqual(Some(d), h0.value.deps) ==>
         FiberSlot(w', f, i) == Some(h0.value.(value := Fn(cb), deps := Some(d))))
  {
    match GetCurrentFiber(w)
    case Failure(e) => Failure(e)
    case Ok(f) =>
      var d := DepsOrEmpty(deps);
      var step := EnterHook(w, f, Hook(CallbackKind, Fn(cb), None, Some(d), Undefined, false));
      var w1 := step.0;
      var l := step.1;
      var i := step.2;
      var h := Slot(w1, l, i).value;
      FilledSlotOk(w1, l, i);
      if !AreDepsEqual(Some(d), h.deps) then
        var h' := h.(value := Fn(cb), deps := Some(d));
        var w2 := PutHook(w, w1, f, l, i, h');
        Ok((w2, CallbackResult(h'.value)))
      else
        Ok((w1, CallbackResult(h.value)))
  }

  /** A callback memoized with equal deps keeps its identity across renders. */
  lemma CallbackMemoized(w: World, cb: nat, cb2: nat, deps: seq<Value>, w2: World)
    requires Valid(w) && w.currentFiber.Some?
    requires UseCallback(w, cb, Some(deps)).Ok?
    requires Valid(w2) && w2.currentFiber.Some?
    requires w2.hookLists == UseCallback(w, cb, Some(deps)).value.0.hookLists
    requires var f := w.currentFiber.value; var g := w2.currentFiber.value;
      w2.fibers[g].hooks == UseCallback(w, cb, Some(deps)).value.0.fibers[f].hooks &&
      w2.fibers[g].hookIndex == w.fibers[f].hookIndex
    ensures UseCallback(w2, cb2, Some(deps)).Ok?
    ensures UseCallback(w2, cb2, Some(deps)).value.1 == UseCallback(w, cb, Some(deps)).value.1
  {
    var f := w.currentFiber.value;
    var i := w.fibers[f].hookIndex;
    var w1 := UseCallback(w, cb, Some(deps)).value.0;
    var h1 := FiberSlot(w1, f, i).value;
    var g := w2.currentFiber.value;
    assert FiberSlot(w2, g, i) == Some(h1);
    DepsEqualReflexive(Some(deps));
    assert AreDepsEqual(Some(deps), h1.deps);
  }

  // ---------------------------------------------------------------------
  // useEffect

  /** The hook object a new effect slot starts with. */
  function InitialEffectHook(effect: nat, deps: Option<seq<Value>>): Hook {
    Hook(EffectKind, Fn(effect), None, deps, Undefined, true)
  }

  /** No fiber occurs twice. */
  predicate Distinct(s: seq<FiberId>) {
    forall i, j :: 0 <= i < j < |s| ==> s[i] != s[j]
  }

  /** `pendingEffects.includes(fiber) || pendingEffects.push(fiber)` */
  function AddPending(pending: seq<FiberId>, f: FiberId): (r: seq<FiberId>)
    ensures f in r && forall g :: g in r <==> g in pending || g == f
    ensures f in pending ==> r == pending
    ensures f !in pending ==> r == pending + [f]
    ensures Distinct(pending) ==> Distinct(r)
  {
    if f in pending then pending else pending + [f]
  }

  /**
   * The body of `useEffect` after the slot is known, given whether the
   * deps count as changed: a change stores the effect and deps, sets
   * `shouldRun` and queues the fiber once; no change clears `shouldRun`.
   */
  function EffectUpdate(w0: World, w: World, f: FiberId, l: ListId, i: nat, effect: nat,
                        deps: Option<seq<Value>>, changed: bool): (w': World)
    requires Valid(w) && f in w0.fibers && f in w.fibers && l in w.hookLists && Slot(w, l, i).Some?
    requires i == w0.fibers[f].hookIndex && HookFrame(w0, w, f) && w.fibers[f].hooks == Some(l)
    ensures Valid(w') && HookFrame(w0, w', f) && w'.calls == w.calls
    ensures w'.hookLists.Keys == w.hookLists.Keys
    ensures var h := Slot(w, l, i).value;
      Slot(w', l, i) == Some(if changed then h.(value := Fn(effect), deps := deps, shouldRun := true)
                             else h.(shouldRun := false))
    ensures w'.pendingEffects == if changed then AddPending(w.pendingEffects, f) else w.pendingEffects
  {
    var h := Slot(w, l, i).value;
    FilledSlotOk(w, l, i);
    if changed then
      var w1 := PutHook(w0, w, f, l, i, h.(value := Fn(effect), deps := deps, shouldRun := true));
      var w2 := w1.(pendingEffects := AddPending(w1.pendingEffects, f));
      StateChangeKeepsValid(w1, w2);
      w2
    else
      PutHook(w0, w, f, l, i, h.(shouldRun := false))
  }

  /**
   * `useEffect(effect, deps)` as written: the deps count as changed when
   * `areDepsEqual(deps, hook.deps)` is false. A new slot has just received
   * these very deps, so only an omitted list counts as changed there.
   */
  function UseEffectAsWritten(w: World, effect: nat, deps: Option<seq<Value>>): (r: Result<World>)
    requires Valid(w)
    ensures r.Failure? <==> w.currentFiber.None?
    ensures r.Failure? ==> r.error == OutsideComponent
    ensures r.Ok? ==>
      var f := w.currentFiber.value; var i := w.fibers[f].hookIndex;
      var h0 := FiberSlot(w, f, i);
      var h := if h0.Some? then h0.value else InitialEffectHook(effect, deps);
      var changed := !AreDepsEqual(deps, h.deps);
      Valid(r.value) && HookFrame(w, r.value, f) && r.value.calls == w.calls &&
      FiberSlot(r.value, f, i) == Some(if changed then h.(value := Fn(effect), deps := deps, shouldRun := true)
                                       else h.(shouldRun := false)) &&
      r.value.pendingEffects == if changed then AddPending(w.pendingEffects, f) else w.pendingEffects
  {
    match GetCurrentFiber(w)
    case Failure(e) => Failure(e)
    case Ok(f) =>
      var step := EnterHook(w, f, InitialEffectHook(effect, deps));
      var w1 := step.0;
      var l := step.1;
      var i := step.2;
      var h := Slot(w1, l, i).value;
      Ok(EffectUpdate(w, w1, f, l, i, effect, deps, !AreDepsEqual(deps, h.deps)))
  }

  /**
   * `useEffect` as evidently intended: an effect also runs after the render
   * that first registers it.
   */
  function UseEffect(w: World, effect: nat, deps: Option<seq<Value>>): (r: Result<World>)
    requires Valid(w)
    ensures r.Failure? <==> w.currentFiber.None?
    ensures r.Failure? ==> r.error == OutsideComponent
    ensures r.Ok? ==>
      var f := w.currentFiber.value; var i := w.fibers[f].hookIndex;
      var h0 := FiberSlot(w, f, i);
      var h := if h0.Some? then h0.value else InitialEffectHook(effect, deps);
      var changed := h0.None? || !AreDepsEqual(deps, h.deps);
      Valid(r.value) && HookFrame(w, r.value, f) && r.value.calls == w.calls &&
      FiberSlot(r.value, f, i) == Some(if changed then h.(value := Fn(effect), deps := deps, shouldRun := true)
                                       else h.(shouldRun := false)) &&
      r.value.pendingEffects == if changed then AddPending(w.pendingEffects, f) else w.pendingEffects
  {
    match GetCurrentFiber(w)
    case Failure(e) => Failure(e)
    case Ok(f) =>
      var isNew := FiberSlot(w, f, w.fibers[f].hookIndex).None?;
      var step := EnterHook(w, f, InitialEffectHook(effect, deps));
      var w1 := step.0;
      var l := step.1;
      var i := step.2;
      var h := Slot(w1, l, i).value;
      Ok(EffectUpdate(w, w1, f, l, i, effect, deps, isNew || !AreDepsEqual(deps, h.deps)))
  }

  /**
   * As written, an effect with a dependency list is not scheduled by the
   * render that registers it: its slot says `shouldRun == false` and the
   * fiber is not queued, so the effect does not run after the first commit.
   */
  lemma EffectWithDepsSkipsFirstRender(w: World, effect: nat, deps: seq<Value>)
    requires Valid(w) && w.currentFiber.Some?
    requires FiberSlot(w, w.currentFiber.value, w.fibers[w.currentFiber.value].hookIndex).None?
    requires w.currentFiber.value !in w.pendingEffects
    ensures var r := UseEffectAsWritten(w, effect, Some(deps)).value;
      var f := w.currentFiber.value;
      !FiberSlot(r, f, w.fibers[f].hookIndex).value.shouldRun && f !in r.pendingEffects
  {
    DepsEqualReflexive(Some(deps));
  }

  /** The intended `useEffect` schedules every newly registered effect. */
  lemma NewEffectIsScheduled(w: World, effect: nat, deps: Option<seq<Value>>)
    requires Valid(w) && w.currentFiber.Some?
    requires FiberSlot(w, w.currentFiber.value, w.fibers[w.currentFiber.value].hookIndex).None?
    ensures var r := UseEffect(w, effect, deps).value;
      var f := w.currentFiber.value;
      FiberSlot(r, f, w.fibers[f].hookIndex) == Some(InitialEffectHook(effect, deps)) &&
      f in r.pendingEffects
  {
  }

  /**
   * On an existing slot the two agree: the effect runs again exactly when
   * the deps are omitted or differ from the stored ones.
   */
  lemma EffectRerunsOnChangedDeps(w: World, effect: nat, deps: Option<seq<Value>>)
    requires Valid(w) && w.currentFiber.Some?
    requires FiberSlot(w, w.currentFiber.value, w.fibers[w.currentFiber.value].hookIndex).Some?
    ensures UseEffect(w, effect, deps) == UseEffectAsWritten(w, effect, deps)
    ensures var f := w.currentFiber.value; var i := w.fibers[f].hookIndex;
      var r := UseEffect(w, effect, deps).value;
      (FiberSlot(r, f, i).value.shouldRun <==> !AreDepsEqual(deps, FiberSlot(w, f, i).value.deps)) &&
      (FiberSlot(r, f, i).value.shouldRun ==> f in r.pendingEffects)
  {
  }

  /**
   * A fiber is queued for effects at most once, however many effects it
   * registers, by the hook as written and as intended.
   */
  lemma PendingEffectsStayDistinct(w: World, effect: nat, deps: Option<seq<Value>>)
    requires Valid(w) && w.currentFiber.Some?
    requires Distinct(w.pendingEffects)
    ensures Distinct(UseEffectAsWritten(w, effect, deps).value.pendingEffects)
    ensures Distinct(UseEffect(w, effect, deps).value.pendingEffects)
  {
  }

  // ---------------------------------------------------------------------

  /** Dispatches one hook call of a component body. */
  function CallHook(w: World, code: UserCode, call: HookCall): (r: Result<(World, HookResult)>)
    requires Valid(w)
    ensures r.Failure? <==> w.currentFiber.None?
    ensures r.Ok? ==> Valid(r.value.0) && HookFrame(w, r.value.0, w.currentFiber.value)
    // `useEffect` is the hook as written, and it returns nothing to the body
    ensures call.UseEffectCall? && r.Ok? ==>
      r.value.1 == EffectResult && UseEffectAsWritten(w, call.effect, call.deps) == Ok(r.value.0)
  {
    match call
    case UseStateCall(init) => UseState(w, code, init)
    case UseCallbackCall(cb, deps) => UseCallback(w, cb, deps)
    case UseEffectCall(effect, deps) =>
      match UseEffectAsWritten(w, effect, deps)
      case Failure(e) => Failure(e)
      case Ok(w') => Ok((w', EffectResult))
  }

  /** Every hook throws when no component is being rendered. */
  lemma HooksOutsideComponentThrow(w: World, code: UserCode, call: HookCall)
    requires Valid(w) && w.currentFiber.None?
    ensures CallHook(w, code, call) == Failure(OutsideComponent)
  {
  }
}
