/**
 * `createElement(type, props, ...children)`: the pure builder of
 * description nodes (src/createElement.ts).
 */
module CreateElement {
  import opened Values
  import opened Vdom

  /**
   * One rest argument: a child, `null`/`undefined` (None), or an array of
   * those (the result of a `.map` in a template, say).
   */
  datatype ChildArg = Single(child: Option<Child>) | Nested(items: seq<Option<Child>>)

  /** The entries one rest argument contributes to `children.flat()`. */
  function Items(a: ChildArg): seq<Option<Child>> {
    match a
    case Single(c) => [c]
    case Nested(cs) => cs
  }

  /** `args.flat()`: arrays are flattened one level. */
  function Flat(args: seq<ChildArg>): seq<Option<Child>> {
    if args == [] then [] else Items(args[0]) + Flat(args[1..])
  }

  /** `.filter((child) => child != null)` */
  function PresentOnly(xs: seq<Option<Child>>): seq<Child> {
    if xs == [] then []
    else (if xs[0].Some? then [xs[0].value] else []) + PresentOnly(xs[1..])
  }

  lemma {:induction false} FlatAppend(a: seq<ChildArg>, b: seq<ChildArg>)
    ensures Flat(a + b) == Flat(a) + Flat(b)
  {
    if a == [] {
      assert a + b == b;
    } else {
      assert (a + b)[1..] == a[1..] + b;
      FlatAppend(a[1..], b);
    }
  }

  lemma {:induction false} PresentOnlyAppend(a: seq<Option<Child>>, b: seq<Option<Child>>)
    ensures PresentOnly(a + b) == PresentOnly(a) + PresentOnly(b)
  {
    if a == [] {
      assert a + b == b;
    } else {
      assert (a + b)[1..] == a[1..] + b;
      PresentOnlyAppend(a[1..], b);
    }
  }

  lemma {:induction false} FlatMembership(args: seq<ChildArg>, x: Option<Child>)
    ensures x in Flat(args) <==> exists i :: 0 <= i < |args| && x in Items(args[i])
  {
    if args != [] {
      FlatMembership(args[1..], x);
      if x in Flat(args[1..]) {
        var i :| 0 <= i < |args[1..]| && x in Items(args[1..][i]);
        assert x in Items(args[i + 1]);
      }
      forall i | 1 <= i < |args| && x in Items(args[i])
        ensures x in Flat(args[1..])
      {
        assert args[1..][i - 1] == args[i];
      }
    }
  }

  lemma {:induction false} PresentOnlyMembership(xs: seq<Option<Child>>, c: Child)
    ensures c in PresentOnly(xs) <==> Some(c) in xs
  {
    if xs != [] {
      PresentOnlyMembership(xs[1..], c);
      assert xs == [xs[0]] + xs[1..];
    }
  }

  /** With no null entries the filter keeps every entry, in order. */
  lemma {:induction false} PresentOnlyKeepsOrder(xs: seq<Option<Child>>)
    requires forall i :: 0 <= i < |xs| ==> xs[i].Some?
    ensures |PresentOnly(xs)| == |xs|
    ensures forall i :: 0 <= i < |xs| ==> PresentOnly(xs)[i] == xs[i].value
  {
    if xs != [] {
      PresentOnlyKeepsOrder(xs[1..]);
    }
  }

  /** The props a `props` argument spreads: `null` spreads nothing. */
  function Spread(props: Option<map<string, Value>>): map<string, Value> {
    if props.Some? then props.value else map[]
  }

  /** `props?.key || null` */
  function KeyOf(props: Option<map<string, Value>>): (k: Value)
    ensures k == Null || Truthy(k)
    ensures Truthy(Lookup(Spread(props), "key")) ==> k == Lookup(Spread(props), "key")
  {
    Or(Lookup(Spread(props), "key"), Null)
  }

  function CreateElement(t: NodeType, props: Option<map<string, Value>>, children: seq<ChildArg>): (v: VNode)
    ensures v.nodeType == t
    // every input prop is kept, except that `children` is replaced
    ensures v.props.attrs.Keys == Spread(props).Keys - {"children"}
    ensures forall k :: k in v.props.attrs ==> v.props.attrs[k] == Spread(props)[k]
    // a present child of any argument, and nothing else, is a child of the result
    ensures forall c :: c in v.props.children <==>
              exists i :: 0 <= i < |children| && Some(c) in Items(children[i])
    // a falsy key (0, "", false, null, undefined) becomes null
    ensures v.key == (if Truthy(Lookup(Spread(props), "key")) then Spread(props)["key"] else Null)
  {
    var kids := PresentOnly(Flat(children));
    forall c ensures c in kids <==> exists i :: 0 <= i < |children| && Some(c) in Items(children[i]) {
      PresentOnlyMembership(Flat(children), c);
      FlatMembership(children, Some(c));
    }
    VNode(t, Props(Spread(props) - {"children"}, kids), KeyOf(props))
  }

  /** The children of the result follow the order of the arguments. */
  lemma ChildrenFollowArguments(t: NodeType, props: Option<map<string, Value>>, a: seq<ChildArg>, b: seq<ChildArg>)
    ensures CreateElement(t, props, a + b).props.children
         == CreateElement(t, props, a).props.children + CreateElement(t, props, b).props.children
  {
    FlatAppend(a, b);
    PresentOnlyAppend(Flat(a), Flat(b));
  }

  /** Passing an array of children is the same as passing its entries one by one. */
  lemma {:induction false} NestedFlattensOneLevel(t: NodeType, props: Option<map<string, Value>>, xs: seq<Option<Child>>)
    ensures CreateElement(t, props, [Nested(xs)]).props.children
         == CreateElement(t, props, seq(|xs|, i requires 0 <= i < |xs| => Single(xs[i]))).props.children
  {
    var singles := seq(|xs|, i requires 0 <= i < |xs| => Single(xs[i]));
    FlatOfSingles(xs);
    assert [Nested(xs)][1..] == [];
    assert Flat([Nested(xs)]) == xs;
    assert Flat(singles) == xs;
  }

  lemma {:induction false} FlatOfSingles(xs: seq<Option<Child>>)
    ensures Flat(seq(|xs|, i requires 0 <= i < |xs| => Single(xs[i]))) == xs
  {
    var singles := seq(|xs|, i requires 0 <= i < |xs| => Single(xs[i]));
    if xs != [] {
      FlatOfSingles(xs[1..]);
      assert singles[1..] == seq(|xs[1..]|, i requires 0 <= i < |xs[1..]| => Single(xs[1..][i]));
      assert xs == [xs[0]] + xs[1..];
    }
  }

  /** `key: 0` is falsy, so the node ends up with a null key. */
  lemma ZeroKeyBecomesNull(t: NodeType)
    ensures CreateElement(t, Some(map["key" := Num(0)]), []).key == Null
  {
  }
}
