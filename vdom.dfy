/**
 * Description nodes ("virtual nodes"): the immutable input of the
 * reconciler, and the user code the engine calls but does not see.
 */
module Vdom {
  import opened Values

  /**
   * The `type` of a description node or a fiber: a host tag name, a
   * function component (identified by its function reference), or null.
   */
  datatype NodeType = NullType | Tag(name: string) | Component(fn: nat)

  /**
   * A props object. `children` is kept apart from the other entries: every
   * place that walks the props skips the `children` key, and a missing
   * `children` reads like an empty list everywhere it is used.
   */
  datatype Props = Props(attrs: map<string, Value>, children: seq<Child>)

  datatype VNode = VNode(nodeType: NodeType, props: Props, key: Value)

  /** An entry of a `children` array: a description node, a string or a number. */
  datatype Child = Node(vnode: VNode) | Text(text: string) | Number(num: int)

  const EmptyProps := Props(map[], [])

  /** `typeof type === "function"` */
  predicate IsFunctionType(t: NodeType) {
    t.Component?
  }

  /** JS truthiness of a `type`. */
  predicate TypeTruthy(t: NodeType) {
    match t
    case NullType => false
    case Tag(name) => name != ""
    case Component(_) => true
  }

  /**
   * A `setState` function: the fiber that rendered the `useState` call and
   * the hook slot (hook array and index) it closes over.
   */
  datatype Setter = Setter(fiber: nat, list: nat, index: nat)

  /** A hook call made by a component body. Omitted dependency lists are None. */
  datatype HookCall =
    | UseStateCall(init: Value)
    | UseCallbackCall(callback: nat, deps: Option<seq<Value>>)
    | UseEffectCall(effect: nat, deps: Option<seq<Value>>)

  /** What a hook call returns to the body. */
  datatype HookResult =
    | StateResult(value: Value, setter: Setter)   // `[state, setState]`
    | CallbackResult(callback: Value)
    | EffectResult

  /** The next thing a component body does: call a hook, or return. */
  datatype BodyStep = CallHook(call: HookCall) | Return(result: Option<VNode>)

  /** A `setState(action)` call. */
  datatype StateUpdate = StateUpdate(setter: Setter, action: Value)

  /** What an event handler does with the synthetic event it receives. */
  datatype HandlerEffect = HandlerEffect(
    updates: seq<StateUpdate>,
    callsPreventDefault: bool,
    callsStopPropagation: bool)

  /**
   * The user code the engine calls, each piece identified by its function
   * reference and treated as a deterministic black box:
   *  - `apply(f, prev)`: an updater function `prev => next`;
   *  - `call(f)`: a zero-argument function (an initializer, an effect, a
   *    cleanup);
   *  - `body(f, props, results)`: what the component `f` does next, given
   *    the results of the hook calls it has made so far in this call;
   *    it makes at most `hookBound` hook calls per call;
   *  - `handle(f)`: an event handler.
   */
  datatype UserCode = UserCode(
    apply: (nat, Value) -> Value,
    call: nat -> Value,
    body: (nat, Props, seq<HookResult>) -> BodyStep,
    hookBound: nat,
    handle: nat -> HandlerEffect)
}
