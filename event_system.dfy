/**
 * The delegated event system (src/eventSystem.ts): one listener per
 * supported event type on the root container, and a dispatch that walks
 * from the event's target up to the document, calling the `on<Type>`
 * handler found in each node's fiber props until one stops propagation.
 */
module Events {
  import opened Values
  import opened Vdom
  import opened Host
  import opened Fibers
  import opened Hooks
  import DomProps
  import opened Schedule

  /** The event types the root container listens for. */
  const SupportedEvents: seq<string> :=
    ["click", "input", "change", "submit", "keydown", "keyup", "keypress",
     "mousedown", "mouseup", "mousemove", "mouseover", "mouseout"]

  // ---------------------------------------------------------------------
  // setupEventSystem

  /**
   * `addEventListener(type, handleEvent, false)` on a node already holding
   * the listener types `ls`: the same listener for the same type and
   * phase is registered once.
   */
  function AddListener(ls: seq<string>, t: string): (r: seq<string>)
    ensures forall u :: u in r <==> u in ls || u == t
    ensures t in ls ==> r == ls
    ensures ls <= r
  {
    if t in ls then ls else ls + [t]
  }

  /** `types.forEach(t => addEventListener(t, ...))` */
  function Register(ls: seq<string>, types: seq<string>): (r: seq<string>)
    ensures forall u :: u in r <==> u in ls || u in types
    ensures ls <= r
    decreases |types|
  {
    if types == [] then ls else Register(AddListener(ls, types[0]), types[1..])
  }

  /** Registering types that are all registered already changes nothing. */
  lemma {:induction false} RegisterPresent(ls: seq<string>, types: seq<string>)
    requires forall u :: u in types ==> u in ls
    ensures Register(ls, types) == ls
    decreases |types|
  {
    if types != [] {
      assert types[0] in types;
      assert AddListener(ls, types[0]) == ls;
      forall u | u in types[1..] ensures u in ls {
        assert u in types;
      }
      RegisterPresent(ls, types[1..]);
    }
  }

  /** Registering the same types twice registers nothing new. */
  lemma RegisterTwice(ls: seq<string>, types: seq<string>)
    ensures Register(Register(ls, types), types) == Register(ls, types)
  {
    RegisterPresent(Register(ls, types), types);
  }

  /** `setupEventSystem(container)`: the container listens for every supported type. */
  function SetupEventSystem(w: World, c: NodeId): (r: World)
    requires Valid(w) && c in w.dom
    ensures Valid(r)
    ensures r == w.(dom := w.dom[c := w.dom[c].(listeners := Register(w.dom[c].listeners, SupportedEvents))])
  {
    assert NodeOk(w, c);
    SetNode(w, c, w.dom[c].(listeners := Register(w.dom[c].listeners, SupportedEvents)))
  }

  // ---------------------------------------------------------------------
  // Handler names

  /** `toUpperCase` on one character, for the ASCII letters the event types use. */
  function UpperAscii(c: char): (r: char)
    ensures 'a' <= c <= 'z' ==> 'A' <= r <= 'Z' && r as int == c as int - 32
    ensures !('a' <= c <= 'z') ==> r == c
  {
    if 'a' <= c <= 'z' then (c as int - 32) as char else c
  }

  /**
   * `` `on${type[0].toUpperCase()}${type.slice(1)}` ``: only the first
   * letter is capitalised. `type` is never empty: the listener is only
   * registered for the supported types.
   */
  function HandlerName(t: string): (r: string)
    requires |t| > 0
  {
    "on" + [UpperAscii(t[0])] + t[1..]
  }

  /**
   * The handler name is an `on…` prop, so the property diff never writes
   * it to the node as an attribute; it is the type with its first letter
   * capitalised, and it is two characters longer.
   */
  lemma HandlerNameShape(t: string)
    requires |t| > 0
    ensures DomProps.IsHandlerKey(HandlerName(t))
    ensures |HandlerName(t)| == |t| + 2 && HandlerName(t)[3..] == t[1..]
    ensures 'a' <= t[0] <= 'z' ==> 'A' <= HandlerName(t)[2] <= 'Z'
  {
    assert HandlerName(t)[..2] == "on";
    assert HandlerName(t)[3..] == t[1..];
  }

  /** A type written in lower case is recovered from its handler name. */
  lemma {:induction false} HandlerNameInjective(a: string, b: string)
    requires |a| > 0 && |b| > 0 && 'a' <= a[0] <= 'z' && 'a' <= b[0] <= 'z'
    requires HandlerName(a) == HandlerName(b)
    ensures a == b
  {
    var ha := HandlerName(a);
    assert ha[2] == UpperAscii(a[0]) && ha[2] == UpperAscii(b[0]);
    assert a[1..] == ha[3..] == b[1..];
    assert a == [a[0]] + a[1..] && b == [b[0]] + b[1..];
  }

  /** Only the first letter is capitalised: `keydown` looks up `onKeydown`, never `onKeyDown`. */
  lemma KeydownHandlerName()
    ensures HandlerName("keydown") == "onKeydown"
    ensures HandlerName("keydown") != "onKeyDown"
    ensures HandlerName("click") == "onClick"
  {
    assert HandlerName("keydown")[5] == 'd';
  }

  // ---------------------------------------------------------------------
  // The propagation path

  /**
   * The `parentNode` chain from `n` stays inside the document and reaches
   * null within `k` steps. In a tree it does so within `|dom|` steps.
   */
  predicate EndsWithin(d: Dom, n: NodeId, k: nat)
    decreases k
  {
    k > 0 && n in d && (d[n].parent.None? || EndsWithin(d, d[n].parent.value, k - 1))
  }

  /** `while (target) { path.push(target); target = target.parentNode }` */
  function Path(d: Dom, n: NodeId, k: nat): (r: seq<NodeId>)
    requires EndsWithin(d, n, k)
    ensures 1 <= |r| <= k && r[0] == n
    ensures forall i :: 0 <= i < |r| ==> r[i] in d
    ensures forall i {:trigger d[r[i]]} :: 0 <= i < |r| - 1 ==> d[r[i]].parent == Some(r[i + 1])
    ensures d[r[|r| - 1]].parent.None?
    decreases k
  {
    if d[n].parent.None? then [n] else [n] + Path(d, d[n].parent.value, k - 1)
  }

  /** The path holds exactly the inclusive ancestors of the target. */
  lemma {:induction false} PathIsAncestors(d: Dom, n: NodeId, k: nat, m: NodeId)
    requires EndsWithin(d, n, k)
    ensures m in Path(d, n, k) <==> IsInclusiveAncestor(d, m, n, k)
    decreases k
  {
    if d[n].parent.Some? {
      PathIsAncestors(d, d[n].parent.value, k - 1, m);
    }
  }

  // ---------------------------------------------------------------------
  // Dispatch

  /** The two flags of a synthetic event that handlers can set. */
  datatype EventFlags = EventFlags(isPropagationStopped: bool, defaultPrevented: bool)

  /** `createSyntheticEvent(nativeEvent)`: neither flag is set. */
  const FreshEvent := EventFlags(false, false)

  /** `getFiberFromDOM(node)`: the node's `_fiberNode`, or null. */
  function GetFiberFromDOM(w: World, n: NodeId): (r: Option<FiberId>)
    requires Valid(w) && n in w.dom
    ensures r.Some? ==> r.value in w.fibers
  {
    assert NodeOk(w, n);
    w.dom[n].fiberRef
  }

  /** `fiber.memoizedProps[handlerName]` for the node's fiber, undefined when it has none. */
  function HandlerAt(w: World, n: NodeId, name: string): Value
    requires Valid(w) && n in w.dom
  {
    var f := GetFiberFromDOM(w, n);
    if f.Some? then Lookup(w.fibers[f.value].memoizedProps.attrs, name) else Undefined
  }

  /** Every `setState` an event handler calls was handed out by a render and is still live. */
  ghost predicate SettersLive(w: World, code: UserCode) {
    forall fn: nat, i: nat {:trigger code.handle(fn).updates[i]} :: i < |code.handle(fn).updates| ==>
      SetterLive(w, code.handle(fn).updates[i].setter)
  }

  /** A setter live in `w` is live in `w'`. */
  ghost predicate KeepsLive(w: World, w': World) {
    forall s :: SetterLive(w, s) ==> SetterLive(w', s)
  }

  /** What a `setState` from a handler leaves alone: the document and the call log. */
  predicate UpdateFrame(w: World, w': World) {
    w'.dom == w.dom && w'.calls == w.calls && w.fibers.Keys <= w'.fibers.Keys
  }

  lemma EnqueueKeepsLive(w: World, s: Setter, a: Value)
    requires Valid(w) && SetterLive(w, s) && Slot(w, s.list, s.index).value.queue.Some?
    ensures KeepsLive(w, Enqueue(w, s, a))
  {
    var w1 := Enqueue(w, s, a);
    forall t | SetterLive(w, t) ensures SetterLive(w1, t) {
      if t.list == s.list && t.index != s.index {
        assert Slot(w1, t.list, t.index) == Slot(w, t.list, t.index);
      }
    }
  }

  lemma SetStateKeepsLive(w: World, code: UserCode, s: Setter, a: Value)
    requires Valid(w) && SetterLive(w, s) && SetState(w, code, s, a).Ok?
    ensures KeepsLive(w, SetState(w, code, s, a).value)
    ensures UpdateFrame(w, SetState(w, code, s, a).value)
  {
    var h := Slot(w, s.list, s.index).value;
    if !Same(h.value, ApplyAction(code, h.value, a)) {
      var w1 := Enqueue(w, s, a);
      EnqueueKeepsLive(w, s, a);
      var r := ScheduleUpdate(w1, s.fiber);
      assert r.hookLists == w1.hookLists && w1.fibers.Keys <= r.fibers.Keys;
      SameListsKeepLive(w1, r);
    }
  }

  lemma SameListsKeepLive(w: World, w': World)
    requires w'.hookLists == w.hookLists && w.fibers.Keys <= w'.fibers.Keys
    ensures KeepsLive(w, w')
  {
  }

  /** The handler's `setState` calls, in order; the first that throws ends the event. */
  function ApplyUpdates(w: World, code: UserCode, us: seq<StateUpdate>): (r: Result<World>)
    requires Valid(w)
    requires forall i :: 0 <= i < |us| ==> SetterLive(w, us[i].setter)
    ensures r.Ok? ==> Valid(r.value) && KeepsLive(w, r.value) && UpdateFrame(w, r.value)
    ensures us == [] ==> r == Ok(w)
    decreases |us|
  {
    if us == [] then Ok(w)
    else
      var res := SetState(w, code, us[0].setter, us[0].action);
      if res.Failure? then Failure(res.error)
      else
        SetStateKeepsLive(w, code, us[0].setter, us[0].action);
        ApplyUpdates(res.value, code, us[1..])
  }

  /**
   * `handler(syntheticEvent)`: the call is logged, the handler's state
   * updates are applied, and the flags it sets are set on the event.
   */
  function RunHandler(w: World, code: UserCode, fn: nat, ev: EventFlags): (r: Result<(World, EventFlags)>)
    requires Valid(w) && SettersLive(w, code)
    ensures r.Ok? ==> Valid(r.value.0) && SettersLive(r.value.0, code)
    ensures r.Ok? ==> r.value.0.dom == w.dom && r.value.0.calls == w.calls + [HandlerCall(fn)]
    ensures r.Ok? ==> w.fibers.Keys <= r.value.0.fibers.Keys
    ensures var e := code.handle(fn);
      r.Ok? ==> r.value.1 == EventFlags(ev.isPropagationStopped || e.callsStopPropagation,
                                        ev.defaultPrevented || e.callsPreventDefault)
    ensures code.handle(fn).updates == [] ==> r.Ok?
  {
    var e := code.handle(fn);
    var w1 := w.(calls := w.calls + [HandlerCall(fn)]);
    StateChangeKeepsValid(w, w1);
    assert forall s :: SetterLive(w, s) ==> SetterLive(w1, s);
    forall i | 0 <= i < |e.updates| ensures SetterLive(w1, e.updates[i].setter) {
      assert SetterLive(w, code.handle(fn).updates[i].setter);
    }
    var res := ApplyUpdates(w1, code, e.updates);
    if res.Failure? then Failure(res.error)
    else
      assert SettersLive(res.value, code) by {
        forall fn': nat, i: nat | i < |code.handle(fn').updates|
          ensures SetterLive(res.value, code.handle(fn').updates[i].setter)
        {
          assert SetterLive(w, code.handle(fn').updates[i].setter);
        }
      }
      Ok((res.value, EventFlags(ev.isPropagationStopped || e.callsStopPropagation,
                                ev.defaultPrevented || e.callsPreventDefault)))
  }

  /** The handler calls a dispatch appends to the log: at most one per remaining node. */
  predicate HandlerCalls(c0: seq<Call>, c1: seq<Call>, bound: nat) {
    c0 <= c1 && |c1| - |c0| <= bound &&
    forall j :: |c0| <= j < |c1| ==> c1[j].HandlerCall?
  }

  /**
   * The `for` loop of `handleEvent` from index `i`: a node with a truthy
   * handler calls it (a truthy value that is not a function throws), and
   * the loop stops after a handler that left propagation stopped.
   */
  function Dispatch(w: World, code: UserCode, path: seq<NodeId>, i: nat, name: string, ev: EventFlags)
    : (r: Result<(World, EventFlags)>)
    requires Valid(w) && SettersLive(w, code) && i <= |path|
    requires forall j :: 0 <= j < |path| ==> path[j] in w.dom
    ensures r.Ok? ==> Valid(r.value.0) && SettersLive(r.value.0, code) && r.value.0.dom == w.dom
    ensures r.Ok? ==> HandlerCalls(w.calls, r.value.0.calls, |path| - i)
    ensures r.Ok? ==> (ev.defaultPrevented ==> r.value.1.defaultPrevented)
    decreases |path| - i
  {
    if i == |path| then Ok((w, ev))
    else
      var handler := HandlerAt(w, path[i], name);
      if !Truthy(handler) then Dispatch(w, code, path, i + 1, name, ev)
      else if !handler.Fn? then Failure(NotCallable)
      else
        var res := RunHandler(w, code, handler.fn, ev);
        if res.Failure? then Failure(res.error)
        else if res.value.1.isPropagationStopped then res
        else
          var r := Dispatch(res.value.0, code, path, i + 1, name, res.value.1);
          assert r.Ok? ==> HandlerCalls(w.calls, r.value.0.calls, |path| - i) by {
            if r.Ok? {
              var c1 := res.value.0.calls;
              assert c1 == w.calls + [HandlerCall(handler.fn)];
              assert forall j :: |w.calls| <= j < |r.value.0.calls| ==>
                (if j < |c1| then r.value.0.calls[j] == c1[j] else j >= |c1|);
            }
          }
          r
  }

  /** A node without a fiber, or whose fiber has no truthy handler, is passed over. */
  lemma NoHandlerIsSkipped(w: World, code: UserCode, path: seq<NodeId>, i: nat, name: string, ev: EventFlags)
    requires Valid(w) && SettersLive(w, code) && i < |path|
    requires forall j :: 0 <= j < |path| ==> path[j] in w.dom
    requires GetFiberFromDOM(w, path[i]).None? ||
             !Truthy(Lookup(w.fibers[GetFiberFromDOM(w, path[i]).value].memoizedProps.attrs, name))
    ensures Dispatch(w, code, path, i, name, ev) == Dispatch(w, code, path, i + 1, name, ev)
  {
  }

  /**
   * A handler that stops propagation ends the dispatch: the result is that
   * of the handler alone, so no node further up the path is visited.
   */
  lemma StopPropagationEndsDispatch(w: World, code: UserCode, path: seq<NodeId>, i: nat, name: string, ev: EventFlags)
    requires Valid(w) && SettersLive(w, code) && i < |path|
    requires forall j :: 0 <= j < |path| ==> path[j] in w.dom
    requires HandlerAt(w, path[i], name).Fn?
    requires code.handle(HandlerAt(w, path[i], name).fn).callsStopPropagation
    ensures Dispatch(w, code, path, i, name, ev) == RunHandler(w, code, HandlerAt(w, path[i], name).fn, ev)
  {
  }

  /**
   * A function handler that leaves propagation running is called (its call
   * is logged after the earlier ones) and the walk goes on at the next node
   * with the world and the event the handler left.
   */
  lemma HandlerRunsThenContinues(w: World, code: UserCode, path: seq<NodeId>, i: nat, name: string, ev: EventFlags)
    requires Valid(w) && SettersLive(w, code) && i < |path|
    requires forall j :: 0 <= j < |path| ==> path[j] in w.dom
    requires HandlerAt(w, path[i], name).Fn?
    requires var res := RunHandler(w, code, HandlerAt(w, path[i], name).fn, ev);
      res.Ok? && !res.value.1.isPropagationStopped
    ensures var res := RunHandler(w, code, HandlerAt(w, path[i], name).fn, ev);
      res.value.0.calls == w.calls + [HandlerCall(HandlerAt(w, path[i], name).fn)] &&
      Dispatch(w, code, path, i, name, ev) == Dispatch(res.value.0, code, path, i + 1, name, res.value.1)
  {
  }

  /** A truthy handler that is not a function throws. */
  lemma NonFunctionHandlerThrows(w: World, code: UserCode, path: seq<NodeId>, i: nat, name: string, ev: EventFlags)
    requires Valid(w) && SettersLive(w, code) && i < |path|
    requires forall j :: 0 <= j < |path| ==> path[j] in w.dom
    requires Truthy(HandlerAt(w, path[i], name)) && !HandlerAt(w, path[i], name).Fn?
    ensures Dispatch(w, code, path, i, name, ev) == Failure(NotCallable)
  {
  }

  /**
   * Handlers are called target first: when the first node from `i` on
   * with a truthy handler is at `j` and that handler is a function, a
   * successful dispatch logs that handler's call before any other.
   */
  lemma {:induction false} FirstHandlerCalledFirst(w: World, code: UserCode, path: seq<NodeId>, i: nat, j: nat,
                                                   name: string, ev: EventFlags)
    requires Valid(w) && SettersLive(w, code) && i <= j < |path|
    requires forall k :: 0 <= k < |path| ==> path[k] in w.dom
    requires forall k :: i <= k < j ==> !Truthy(HandlerAt(w, path[k], name))
    requires HandlerAt(w, path[j], name).Fn?
    ensures var r := Dispatch(w, code, path, i, name, ev);
      r.Ok? ==> w.calls + [HandlerCall(HandlerAt(w, path[j], name).fn)] <= r.value.0.calls
    decreases j - i
  {
    if i < j {
      FirstHandlerCalledFirst(w, code, path, i + 1, j, name, ev);
    } else {
      var fn := HandlerAt(w, path[j], name).fn;
      var res := RunHandler(w, code, fn, ev);
      if res.Ok? && !res.value.1.isPropagationStopped {
        HandlerRunsThenContinues(w, code, path, i, name, ev);
        var r := Dispatch(res.value.0, code, path, i + 1, name, res.value.1);
        if r.Ok? {
          assert res.value.0.calls <= r.value.0.calls;
        }
      }
    }
  }

  /** With propagation never stopped, a handler-free path leaves the world and the event as they were. */
  lemma {:induction false} NoHandlersNoChange(w: World, code: UserCode, path: seq<NodeId>, i: nat, name: string, ev: EventFlags)
    requires Valid(w) && SettersLive(w, code) && i <= |path|
    requires forall j :: 0 <= j < |path| ==> path[j] in w.dom
    requires forall j :: i <= j < |path| ==> !Truthy(HandlerAt(w, path[j], name))
    ensures Dispatch(w, code, path, i, name, ev) == Ok((w, ev))
    decreases |path| - i
  {
    if i < |path| {
      NoHandlersNoChange(w, code, path, i + 1, name, ev);
    }
  }

  /**
   * `handleEvent(nativeEvent)`: a fresh synthetic event is dispatched
   * along the path from the target (none when the target is null) up to
   * the document. It yields the world after the handlers and the event's
   * final flags, or the error a handler raised.
   */
  function HandleEvent(w: World, code: UserCode, t: string, target: Option<NodeId>, k: nat)
    : (r: Result<(World, EventFlags)>)
    requires Valid(w) && SettersLive(w, code) && |t| > 0
    requires target.Some? ==> EndsWithin(w.dom, target.value, k)
    ensures target.None? ==> r == Ok((w, FreshEvent))
    ensures r.Ok? ==> Valid(r.value.0) && SettersLive(r.value.0, code) && r.value.0.dom == w.dom
    ensures r.Ok? && target.Some? ==> HandlerCalls(w.calls, r.value.0.calls, |Path(w.dom, target.value, k)|)
  {
    var path := if target.Some? then Path(w.dom, target.value, k) else [];
    Dispatch(w, code, path, 0, HandlerName(t), FreshEvent)
  }
}
