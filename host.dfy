/**
 * The host tree the engine renders into, abstracted from the DOM: every
 * node has an ordered list of children, a parent link, string attributes,
 * a style map, the text of a text node, the `_fiberNode` back-reference
 * and the event types a listener is registered for.
 */
module Host {
  import opened Values

  type NodeId = nat

  datatype HostKind = Element(tag: string) | TextNode | CommentNode

  datatype HostNode = HostNode(
    kind: HostKind,
    attrs: map<string, string>,   // the `class` attribute is `className`
    style: map<string, string>,
    text: string,                 // `nodeValue` of a text or comment node
    children: seq<NodeId>,
    parent: Option<NodeId>,       // `parentNode`
    fiberRef: Option<nat>,        // `_fiberNode`
    listeners: seq<string>)

  type Dom = map<NodeId, HostNode>

  /** `b` has the nodes of `a`, changed at most in their parent and children links. */
  predicate Relinked(a: Dom, b: Dom) {
    b.Keys == a.Keys &&
    forall n :: n in a ==> b[n] == a[n].(parent := b[n].parent, children := b[n].children)
  }

  /** `document.createElement(tag)` */
  function NewElement(tag: string): HostNode {
    HostNode(Element(tag), map[], map[], "", [], None, None, [])
  }

  /** `document.createTextNode(text)` */
  function NewText(text: string): HostNode {
    HostNode(TextNode, map[], map[], text, [], None, None, [])
  }

  /** `document.createComment(text)` */
  function NewComment(text: string): HostNode {
    HostNode(CommentNode, map[], map[], text, [], None, None, [])
  }

  /** `s` with every occurrence of `x` taken out, the rest in order. */
  function Without(s: seq<NodeId>, x: NodeId): (r: seq<NodeId>)
    ensures x !in r
    ensures forall y :: y in r <==> y in s && y != x
    ensures |r| <= |s|
  {
    if s == [] then []
    else (if s[0] == x then [] else [s[0]]) + Without(s[1..], x)
  }

  /** Taking out a node that does not occur leaves the list as it is. */
  lemma {:induction false} WithoutAbsent(s: seq<NodeId>, x: NodeId)
    requires x !in s
    ensures Without(s, x) == s
  {
    if s != [] {
      WithoutAbsent(s[1..], x);
      assert s == [s[0]] + s[1..];
    }
  }

  /** `Without` works piece by piece, so it keeps the order of what remains. */
  lemma {:induction false} WithoutAppend(a: seq<NodeId>, b: seq<NodeId>, x: NodeId)
    ensures Without(a + b, x) == Without(a, x) + Without(b, x)
  {
    if a == [] {
      assert a + b == b;
    } else {
      assert (a + b)[0] == a[0] && (a + b)[1..] == a[1..] + b;
      WithoutAppend(a[1..], b, x);
    }
  }

  /**
   * Whether `a` is `b` or one of its ancestors, following at most `fuel`
   * parent links up from `b`.
   */
  predicate IsInclusiveAncestor(dom: Dom, a: NodeId, b: NodeId, fuel: nat)
    decreases fuel
  {
    a == b ||
    (fuel > 0 && b in dom && dom[b].parent.Some? &&
     IsInclusiveAncestor(dom, a, dom[b].parent.value, fuel - 1))
  }

  /**
   * `a.contains(b)`: `b` is `a` or a descendant of `a`. In a tree the
   * walk up from `b` meets every ancestor within `|dom|` steps.
   */
  predicate Contains(dom: Dom, a: NodeId, b: NodeId) {
    IsInclusiveAncestor(dom, a, b, |dom|)
  }

  /** The ancestor walk reads nothing but the parent links. */
  lemma {:induction false} SameParentsSameAncestors(a: Dom, b: Dom, x: NodeId, y: NodeId, fuel: nat)
    requires a.Keys == b.Keys && forall n :: n in a ==> b[n].parent == a[n].parent
    ensures IsInclusiveAncestor(a, x, y, fuel) == IsInclusiveAncestor(b, x, y, fuel)
    decreases fuel
  {
    if fuel > 0 && y in a && a[y].parent.Some? {
      SameParentsSameAncestors(a, b, x, a[y].parent.value, fuel - 1);
    }
  }

  lemma SameParentsSameContains(a: Dom, b: Dom, x: NodeId, y: NodeId)
    requires a.Keys == b.Keys && forall n :: n in a ==> b[n].parent == a[n].parent
    ensures Contains(a, x, y) == Contains(b, x, y)
  {
    assert |a| == |a.Keys| == |b.Keys| == |b|;
    SameParentsSameAncestors(a, b, x, y, |a|);
  }

  lemma ContainsChild(dom: Dom, a: NodeId, b: NodeId)
    requires b in dom && dom[b].parent == Some(a)
    ensures Contains(dom, a, a)
    ensures Contains(dom, a, b)
  {
    assert IsInclusiveAncestor(dom, a, a, |dom| - 1);
  }

  /** A node without a parent is contained in nothing but itself. */
  lemma {:induction false} DetachedNotContained(dom: Dom, a: NodeId, b: NodeId, fuel: nat)
    requires b in dom && dom[b].parent.None? && a != b
    ensures !IsInclusiveAncestor(dom, a, b, fuel)
  {
  }

  /**
   * `p.appendChild(c)`: `c` leaves its old parent and becomes the last
   * child of `p`. Appending an inclusive ancestor of `p` to `p` would
   * create a cycle (the DOM throws); the model leaves the tree unchanged.
   */
  function AppendChild(dom: Dom, p: NodeId, c: NodeId): (r: Dom)
    requires p in dom && c in dom
    ensures Relinked(dom, r)
    ensures Contains(dom, c, p) ==> r == dom
    ensures !Contains(dom, c, p) ==> r[c].parent == Some(p)
    // `c` is the last child of `p`, the other children of `p` keep their order
    ensures !Contains(dom, c, p) ==>
      r[p].children == (if dom[c].parent == Some(p) then Without(dom[p].children, c) else dom[p].children) + [c]
    // the old parent loses `c`
    ensures !Contains(dom, c, p) && dom[c].parent.Some? && dom[c].parent.value in dom &&
            dom[c].parent.value != p && dom[c].parent.value != c ==>
      r[dom[c].parent.value].children == Without(dom[dom[c].parent.value].children, c)
    // no other node changes
    ensures forall n :: n in dom && n != p && n != c && Some(n) != dom[c].parent ==> r[n] == dom[n]
  {
    if Contains(dom, c, p) then dom
    else
      var d1 := Detach(dom, c);
      d1[p := d1[p].(children := d1[p].children + [c])][c := d1[c].(parent := Some(p))]
  }

  /** Takes `c` out of its parent's child list and clears its parent link. */
  function Detach(dom: Dom, c: NodeId): (r: Dom)
    requires c in dom
    ensures Relinked(dom, r)
    ensures r[c] == dom[c].(parent := None)
  {
    var q := dom[c].parent;
    if q.Some? && q.value in dom && q.value != c then
      dom[q.value := dom[q.value].(children := Without(dom[q.value].children, c))][c := dom[c].(parent := None)]
    else dom[c := dom[c].(parent := None)]
  }

  /** A node moved under `p` is not a child of any other node it was under. */
  lemma AppendChildOnce(dom: Dom, p: NodeId, c: NodeId)
    requires p in dom && c in dom && !Contains(dom, c, p)
    requires dom[c].parent == Some(p) || c !in dom[p].children
    ensures var r := AppendChild(dom, p, c);
      c !in r[p].children[..|r[p].children| - 1]
  {
    var r := AppendChild(dom, p, c);
    if dom[c].parent == Some(p) {
      assert r[p].children[..|r[p].children| - 1] == Without(dom[p].children, c);
    } else {
      assert r[p].children[..|r[p].children| - 1] == dom[p].children;
    }
  }

  /**
   * `p.removeChild(c)`: `c` leaves `p`'s children. The DOM throws when `c`
   * is not a child of `p`; the model leaves the tree unchanged.
   */
  function RemoveChild(dom: Dom, p: NodeId, c: NodeId): (r: Dom)
    requires p in dom && c in dom
    ensures Relinked(dom, r)
    ensures dom[c].parent == Some(p) && p != c ==>
      c !in r[p].children && r[c].parent.None? &&
      (forall y :: y in r[p].children <==> y in dom[p].children && y != c) &&
      (forall n :: n in dom && n != p && n != c ==> r[n] == dom[n])
    // the other children keep their order, and no other field changes
    ensures dom[c].parent == Some(p) && p != c ==>
      r[p] == dom[p].(children := Without(dom[p].children, c)) && r[c] == dom[c].(parent := None)
    ensures dom[c].parent != Some(p) || p == c ==> r == dom
  {
    if dom[c].parent == Some(p) && p != c then Detach(dom, c) else dom
  }
}
