/**
 * JavaScript values as the engine sees them: the props, keys, dependency
 * lists and state values that flow through the reconciler and the hooks.
 * Numbers are integers (no NaN, no -0), so Object.is, === and !== agree on
 * every value except objects, which are compared by reference.
 */
module Values {

  datatype Option<+T> = None | Some(value: T)

  /** An error the source raises with `throw` or by calling through undefined. */
  datatype Error =
    | OutsideComponent   // "Hook can only be called inside a component"
    | NoUpdateQueue      // `hook.queue.push` on a slot that has no queue
    | NotCallable        // calling a truthy value that is not a function

  datatype Result<+T> = Ok(value: T) | Failure(error: Error)

  /**
   * A JS value. `Fn` is a function object identified by its reference;
   * `Obj` is a plain object (a style object, say) with its own fields,
   * identified by its reference `ref`.
   */
  datatype Value =
    | Undefined
    | Null
    | Bool(b: bool)
    | Num(n: int)
    | Str(s: string)
    | Fn(fn: nat)
    | Obj(ref: nat, fields: map<string, Value>)

  /** Object.is: reference equality on objects, value equality otherwise. */
  predicate Same(a: Value, b: Value) {
    if a.Obj? && b.Obj? then a.ref == b.ref else a == b
  }

  lemma SameIsEquivalence(a: Value, b: Value, c: Value)
    ensures Same(a, a)
    ensures Same(a, b) ==> Same(b, a)
    ensures Same(a, b) && Same(b, c) ==> Same(a, c)
  {
  }

  /** JS truthiness. */
  predicate Truthy(v: Value) {
    !(v.Undefined? || v.Null? || v == Bool(false) || v == Num(0) || v == Str(""))
  }

  /** `a || b` */
  function Or(a: Value, b: Value): (r: Value)
    ensures Truthy(a) ==> r == a
    ensures !Truthy(a) ==> r == b
  {
    if Truthy(a) then a else b
  }

  /** `a ?? b` */
  function Coalesce(a: Value, b: Value): (r: Value)
    ensures (a.Undefined? || a.Null?) ==> r == b
    ensures !(a.Undefined? || a.Null?) ==> r == a
  {
    if a.Undefined? || a.Null? then b else a
  }

  /** `obj[key]` on a plain property bag: undefined when the key is absent. */
  function Lookup(m: map<string, Value>, key: string): Value {
    if key in m then m[key] else Undefined
  }

  /** `s.startsWith(prefix)` */
  predicate StartsWith(s: string, prefix: string) {
    |prefix| <= |s| && s[..|prefix|] == prefix
  }

  function DigitChar(d: nat): char
    requires d < 10
  {
    "0123456789"[d]
  }

  /** Decimal digits of a natural number, most significant first. */
  function NatToString(n: nat): (s: string)
    ensures |s| > 0
    ensures forall i :: 0 <= i < |s| ==> '0' <= s[i] <= '9'
    decreases n
  {
    if n < 10 then [DigitChar(n)] else NatToString(n / 10) + [DigitChar(n % 10)]
  }

  /** `String(v)`, the conversion the DOM applies to attribute and text values. */
  function ToStr(v: Value): string {
    match v
    case Undefined => "undefined"
    case Null => "null"
    case Bool(b) => if b then "true" else "false"
    case Num(n) => if n < 0 then "-" + NatToString(-n) else NatToString(n)
    case Str(s) => s
    case Fn(_) => "function"
    case Obj(_, _) => "[object Object]"
  }
}
