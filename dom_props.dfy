/**
 * Prop diffing against a host element (src/reconciler.ts:97-225): props
 * that are gone are removed, props that changed are written, and `style`
 * objects are compared key by key.
 */
module DomProps {
  import opened Values
  import opened Vdom
  import opened Host

  /** Keys that name event handlers, which are never host attributes. */
  predicate IsHandlerKey(k: string) {
    StartsWith(k, "on")
  }

  /** The own enumerable fields of a value, as `Object.keys` sees them. */
  function Fields(v: Value): map<string, Value> {
    if v.Obj? then v.fields else map[]
  }

  /** `v?.[key]` */
  function Field(v: Value, key: string): Value {
    Lookup(Fields(v), key)
  }

  // ---------------------------------------------------------------------
  // isStyleChanged

  /** The keys of two style objects, as `new Set([...keys(a), ...keys(b)])`. */
  function StyleKeys(a: Value, b: Value): set<string> {
    Fields(a).Keys + Fields(b).Keys
  }

  /** `isStyleChanged(oldStyle, newStyle)` */
  predicate StyleChanged(oldStyle: Value, newStyle: Value) {
    if Truthy(oldStyle) != Truthy(newStyle) then true
    else if !Truthy(oldStyle) then false
    else exists k :: k in StyleKeys(oldStyle, newStyle) && !Same(Field(oldStyle, k), Field(newStyle, k))
  }

  /** The three cases of `isStyleChanged`. */
  lemma StyleChangedCases(o: Value, n: Value)
    ensures !Truthy(o) && !Truthy(n) ==> !StyleChanged(o, n)
    ensures Truthy(o) != Truthy(n) ==> StyleChanged(o, n)
    ensures Truthy(o) && Truthy(n) ==>
      (StyleChanged(o, n) <==> exists k :: k in StyleKeys(o, n) && !Same(Field(o, k), Field(n, k)))
  {
  }

  /** A style object compared with itself (the same reference) never counts as changed. */
  lemma StyleUnchangedWhenSame(o: Value)
    ensures !StyleChanged(o, o)
  {
    if Truthy(o) {
      forall k | k in StyleKeys(o, o) ensures Same(Field(o, k), Field(o, k)) {
        SameIsEquivalence(Field(o, k), Field(o, k), Field(o, k));
      }
    }
  }

  /** The loop of `isStyleChanged` over the union of the keys. */
  method IsStyleChanged(oldStyle: Value, newStyle: Value) returns (changed: bool)
    ensures changed == StyleChanged(oldStyle, newStyle)
  {
    if (!Truthy(oldStyle) && Truthy(newStyle)) || (Truthy(oldStyle) && !Truthy(newStyle)) {
      return true;
    }
    if !Truthy(oldStyle) && !Truthy(newStyle) {
      return false;
    }
    var allKeys := StyleKeys(oldStyle, newStyle);
    var left := allKeys;
    while left != {}
      invariant left <= allKeys
      invariant forall k :: k in allKeys - left ==> Same(Field(oldStyle, k), Field(newStyle, k))
      decreases left
    {
      var key :| key in left;
      if !Same(Field(oldStyle, key), Field(newStyle, key)) {
        return true;
      }
      left := left - {key};
    }
    return false;
  }

  // ---------------------------------------------------------------------
  // removeOldProps

  /** Whether `removeOldProps` acts on the old prop `k`. */
  predicate Removed(oldProps: Props, newProps: Props, k: string) {
    k in oldProps.attrs && k !in newProps.attrs
  }

  /**
   * The attribute a removed prop takes away: `className` removes `class`,
   * `style` and handler props remove no attribute.
   */
  predicate AttrRemoved(oldProps: Props, newProps: Props, a: string) {
    (a == "class" && Removed(oldProps, newProps, "className")) ||
    (a != "style" && a != "className" && !IsHandlerKey(a) && Removed(oldProps, newProps, a))
  }

  lemma ClassIsNoHandler()
    ensures !IsHandlerKey("class")
  {
    assert "class"[..2] == "cl";
  }

  /** `removeOldProps(element, oldProps, newProps)` */
  function RemoveOldProps(node: HostNode, oldProps: Props, newProps: Props): (r: HostNode)
    // handler attributes are never removed
    ensures forall a :: a in node.attrs && IsHandlerKey(a) ==> a in r.attrs
    // every removed prop takes its attribute with it
    ensures forall a :: a in r.attrs <==> a in node.attrs && !AttrRemoved(oldProps, newProps, a)
    ensures forall a :: a in r.attrs ==> r.attrs[a] == node.attrs[a]
    ensures Removed(oldProps, newProps, "style") ==> r.style == map[]
    ensures !Removed(oldProps, newProps, "style") ==> r.style == node.style
    ensures r.(attrs := node.attrs, style := node.style) == node
  {
    ClassIsNoHandler();
    var attrs := map a | a in node.attrs && !AttrRemoved(oldProps, newProps, a) :: node.attrs[a];
    node.(attrs := attrs,
          style := if Removed(oldProps, newProps, "style") then map[] else node.style)
  }

  // ---------------------------------------------------------------------
  // updateNewProps

  /** Whether `updateNewProps` writes the new prop `k`. */
  predicate Changed(oldProps: Props, newProps: Props, k: string) {
    k in newProps.attrs && !IsHandlerKey(k) &&
    if k == "style" then StyleChanged(Lookup(oldProps.attrs, k), newProps.attrs[k])
    else !Same(Lookup(oldProps.attrs, k), newProps.attrs[k])
  }

  /**
   * The attributes `updateNewProps` writes: `className` writes `class`
   * (winning over a `class` prop), `style` writes none, any other changed
   * prop writes its own name.
   */
  predicate AttrWritten(oldProps: Props, newProps: Props, a: string) {
    if a == "class" then Changed(oldProps, newProps, "className") || Changed(oldProps, newProps, "class")
    else a != "style" && a != "className" && Changed(oldProps, newProps, a)
  }

  function WrittenValue(oldProps: Props, newProps: Props, a: string): string
    requires AttrWritten(oldProps, newProps, a)
  {
    if a == "class" && Changed(oldProps, newProps, "className") then
      ToStr(Or(newProps.attrs["className"], Str("")))   // element.className = value || ""
    else ToStr(newProps.attrs[a])                      // setAttribute(name, value)
  }

  /**
   * `updateStyleProperty(element, oldStyle, newStyle)`: every key whose
   * value differs is set to the new value, or cleared when that is falsy.
   */
  function UpdateStyleProperty(style: map<string, string>, oldStyle: Value, newStyle: Value): (r: map<string, string>)
    ensures forall k :: k in StyleKeys(oldStyle, newStyle) && !Same(Field(oldStyle, k), Field(newStyle, k)) ==>
      if Truthy(Field(newStyle, k)) then k in r && r[k] == ToStr(Field(newStyle, k)) else k !in r
    ensures forall k :: !(k in StyleKeys(oldStyle, newStyle) && !Same(Field(oldStyle, k), Field(newStyle, k))) ==>
      (k in r <==> k in style) && (k in r ==> r[k] == style[k])
  {
    var touched := set k | k in StyleKeys(oldStyle, newStyle) && !Same(Field(oldStyle, k), Field(newStyle, k));
    map k | k in style.Keys + touched && (k !in touched || Truthy(Field(newStyle, k))) ::
      if k in touched then ToStr(Field(newStyle, k)) else style[k]
  }

  /** `updateNewProps(element, oldProps, newProps)` */
  function UpdateNewProps(node: HostNode, oldProps: Props, newProps: Props): (r: HostNode)
    ensures forall a :: a in r.attrs <==> a in node.attrs || AttrWritten(oldProps, newProps, a)
    ensures forall a :: a in r.attrs ==>
      r.attrs[a] == if AttrWritten(oldProps, newProps, a) then WrittenValue(oldProps, newProps, a) else node.attrs[a]
    ensures !Changed(oldProps, newProps, "style") ==> r.style == node.style
    ensures Changed(oldProps, newProps, "style") ==>
      r.style == UpdateStyleProperty(node.style, Lookup(oldProps.attrs, "style"), newProps.attrs["style"])
    ensures r.(attrs := node.attrs, style := node.style) == node
  {
    var attrs := map a | a in node.attrs.Keys + newProps.attrs.Keys + {"class"} &&
                         (a in node.attrs || AttrWritten(oldProps, newProps, a)) ::
      if AttrWritten(oldProps, newProps, a) then WrittenValue(oldProps, newProps, a) else node.attrs[a];
    node.(attrs := attrs,
          style := if Changed(oldProps, newProps, "style")
                   then UpdateStyleProperty(node.style, Lookup(oldProps.attrs, "style"), newProps.attrs["style"])
                   else node.style)
  }

  /** `updateDOMProperties(element, oldProps, newProps)`, without the `_fiberNode` write. */
  function DiffProps(node: HostNode, oldProps: Props, newProps: Props): HostNode {
    UpdateNewProps(RemoveOldProps(node, oldProps, newProps), oldProps, newProps)
  }

  /** Handler props never turn into host attributes. */
  lemma HandlersNeverWritten(node: HostNode, oldProps: Props, newProps: Props)
    ensures forall a :: a in DiffProps(node, oldProps, newProps).attrs && IsHandlerKey(a) ==>
      a in node.attrs && DiffProps(node, oldProps, newProps).attrs[a] == node.attrs[a]
  {
    ClassIsNoHandler();
  }

  /** Diffing props against themselves changes nothing on the host node. */
  lemma DiffWithItselfIsIdentity(node: HostNode, p: Props)
    ensures DiffProps(node, p, p) == node
  {
    forall k | k in p.attrs ensures !Changed(p, p, k) {
      if k == "style" {
        StyleUnchangedWhenSame(p.attrs[k]);
      }
      SameIsEquivalence(p.attrs[k], p.attrs[k], p.attrs[k]);
    }
    var r1 := RemoveOldProps(node, p, p);
    assert r1 == node by {
      assert r1.attrs == node.attrs;
    }
    var r2 := UpdateNewProps(r1, p, p);
    assert r2.attrs == node.attrs;
  }

  /**
   * Creating an element (`updateDOMProperties(element, {}, props)`) writes
   * every defined prop that is neither a handler, `style`, `children` nor
   * `className` as an attribute holding its string form.
   */
  lemma CreationWritesAttributes(p: Props, a: string)
    requires a in p.attrs && !IsHandlerKey(a) && a != "style" && a != "className" && a != "class"
    requires !p.attrs[a].Undefined?
    ensures a in DiffProps(NewElement(""), EmptyProps, p).attrs
    ensures DiffProps(NewElement(""), EmptyProps, p).attrs[a] == ToStr(p.attrs[a])
  {
    assert Changed(EmptyProps, p, a);
  }
}
