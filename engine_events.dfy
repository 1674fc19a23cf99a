/**
 * `handleEvent` as the source runs it: the propagation path is built by a
 * `while` loop up the `parentNode` chain, and a `for` loop over the path
 * calls the handlers in place on the engine's state, leaving the loop
 * with `break` once a handler has stopped propagation.
 */
module RuntimeEvents {
  import opened Values
  import opened Vdom
  import opened Host
  import opened Fibers
  import opened Engine
  import Events

  /**
   * `while (target) { path.push(target); target = target.parentNode }`
   * from the event's target (none when it is null).
   */
  method BuildPath(rt: Runtime, target: Option<NodeId>, ghost k: nat) returns (path: seq<NodeId>)
    requires target.Some? ==> Events.EndsWithin(rt.dom, target.value, k)
    ensures path == if target.Some? then Events.Path(rt.dom, target.value, k) else []
  {
    path := [];
    var node := target;
    ghost var left := k;
    ghost var whole := if target.Some? then Events.Path(rt.dom, target.value, k) else [];
    ghost var rest := whole;
    while node.Some?
      invariant path + rest == whole
      invariant node.Some? ==> Events.EndsWithin(rt.dom, node.value, left) && rest == Events.Path(rt.dom, node.value, left)
      invariant node.None? ==> rest == []
      decreases left
    {
      var x := node.value;
      ghost var tail := PathStep(rt.dom, x, left);
      PushOnto(path, x, tail, whole);
      path, rest := path + [x], tail;
      node := rt.dom[x].parent;
      left := left - 1;
    }
    assert path + [] == path;
  }

  /** The path from `x` is `x` followed by the path from its parent, if any. */
  lemma PathStep(d: Dom, x: NodeId, k: nat) returns (tail: seq<NodeId>)
    requires Events.EndsWithin(d, x, k)
    ensures Events.Path(d, x, k) == [x] + tail
    ensures d[x].parent.None? ==> tail == []
    ensures d[x].parent.Some? ==>
      Events.EndsWithin(d, d[x].parent.value, k - 1) && tail == Events.Path(d, d[x].parent.value, k - 1)
  {
    tail := if d[x].parent.None? then [] else Events.Path(d, d[x].parent.value, k - 1);
  }

  /** `path.push(x)` keeps the path built so far a prefix of the whole path. */
  lemma PushOnto(path: seq<NodeId>, x: NodeId, tail: seq<NodeId>, whole: seq<NodeId>)
    requires path + ([x] + tail) == whole
    ensures (path + [x]) + tail == whole
  {
    assert (path + [x]) + tail == path + ([x] + tail);
  }

  /**
   * The `for` loop of `handleEvent`: each node of the path whose fiber has
   * a truthy `name` prop has it called on the event, and the loop breaks
   * after a handler that stopped propagation. A truthy prop that is not a
   * function throws, as does a handler's failing `setState`.
   */
  method Dispatch(rt: Runtime, code: UserCode, path: seq<NodeId>, name: string) returns (res: Result<Events.EventFlags>)
    requires rt.Ok() && Events.SettersLive(rt.World(), code)
    requires forall j :: 0 <= j < |path| ==> path[j] in rt.dom
    modifies rt
    ensures var s := Events.Dispatch(old(rt.World()), code, path, 0, name, Events.FreshEvent);
      res.Ok? == s.Ok? && (s.Ok? ==> rt.World() == s.value.0 && res.value == s.value.1)
  {
    ghost var total := Events.Dispatch(rt.World(), code, path, 0, name, Events.FreshEvent);
    var ev := Events.FreshEvent;
    for i := 0 to |path|
      invariant rt.Ok() && Events.SettersLive(rt.World(), code) && rt.dom == old(rt.dom)
      invariant Events.Dispatch(rt.World(), code, path, i, name, ev) == total
    {
      var handler := Events.HandlerAt(rt.World(), path[i], name);
      if Truthy(handler) {
        if !handler.Fn? {
          return Failure(NotCallable);
        }
        var out := Events.RunHandler(rt.World(), code, handler.fn, ev);
        if out.Failure? {
          return Failure(out.error);
        }
        rt.Assign(out.value.0);
        ev := out.value.1;
        if ev.isPropagationStopped {
          break;
        }
      }
    }
    return Ok(ev);
  }

  /**
   * `handleEvent(nativeEvent)`: a fresh synthetic event is dispatched along
   * the path from the target up to the document, under the handler name
   * of the event's type.
   */
  method HandleEvent(rt: Runtime, code: UserCode, t: string, target: Option<NodeId>, ghost k: nat)
    returns (res: Result<Events.EventFlags>)
    requires rt.Ok() && Events.SettersLive(rt.World(), code) && |t| > 0
    requires target.Some? ==> Events.EndsWithin(rt.dom, target.value, k)
    modifies rt
    ensures var s := Events.HandleEvent(old(rt.World()), code, t, target, k);
      res.Ok? == s.Ok? && (s.Ok? ==> rt.World() == s.value.0 && res.value == s.value.1)
  {
    var path := BuildPath(rt, target, k);
    res := Dispatch(rt, code, path, Events.HandlerName(t));
  }
}
