/** The vertex layout value type: components pairing a vertex attribute
    with a vertex format, and the layout's accessors for its components
    and for the component that carries a given attribute. */
module VertexLayout {
  import T = GlTypes

  /** Most components a layout holds. */
  const MaxNumComponents: nat := 16

  /** The index that stands for "no such component". */
  const InvalidIndex: int := -1

  type AttrCode = n: nat | n < T.NumVertexAttrs

  /** A vertex attribute, or the invalid attribute an unset component has. */
  datatype VertexAttr = Attr(code: AttrCode) | InvalidVertexAttr

  /** A vertex format code, or the invalid format an unset component has. */
  datatype VertexFormat = Format(code: nat) | InvalidVertexFormat

  datatype Component = Component(attr: VertexAttr, format: VertexFormat)

  /** A default-constructed component: neither attribute nor format set. */
  function DefaultComponent(): (c: Component)
    ensures c.attr == InvalidVertexAttr && c.format == InvalidVertexFormat
    ensures !IsValid(c)
  {
    Component(InvalidVertexAttr, InvalidVertexFormat)
  }

  /** A component is valid when its attribute is set; its format is not
      looked at. */
  predicate IsValid(c: Component) {
    c.attr != InvalidVertexAttr
  }

  /** Unsets attribute and format. */
  function Clear(c: Component): (c': Component)
    ensures c'.attr == InvalidVertexAttr && c'.format == InvalidVertexFormat
    ensures !IsValid(c') && c' == DefaultComponent()
  {
    DefaultComponent()
  }

  /** A component built from an attribute and a format keeps both, and is
      valid exactly when the attribute is set, whatever the format. */
  lemma ComponentValidity(a: VertexAttr, f: VertexFormat, g: VertexFormat)
    ensures Component(a, f).attr == a && Component(a, f).format == f
    ensures IsValid(Component(a, f)) <==> a.Attr?
    ensures IsValid(Component(a, f)) == IsValid(Component(a, g))
    ensures IsValid(Component(a, InvalidVertexFormat)) <==> a != InvalidVertexAttr
  {
  }

  /** A layout: the number of components, the component array and, per
      vertex attribute, the index of the component carrying it. */
  datatype Layout = Layout(numComps: int, comps: seq<Component>, attrCompIndices: seq<int>)

  /** What the layout's construction and `Add` (in VertexLayout.cc, not part
      of this model) keep true: fixed array sizes, at most
      `MaxNumComponents` components, every used component valid and
      indexed under its attribute, every attribute index either invalid or
      naming a used component with that attribute. */
  ghost predicate LayoutWf(l: Layout) {
    && 0 <= l.numComps <= MaxNumComponents
    && |l.comps| == MaxNumComponents && |l.attrCompIndices| == T.NumVertexAttrs
    && (forall k :: 0 <= k < l.numComps ==>
          IsValid(l.comps[k]) && l.attrCompIndices[l.comps[k].attr.code] == k)
    && (forall a: AttrCode :: l.attrCompIndices[a] == InvalidIndex
          || (0 <= l.attrCompIndices[a] < l.numComps && l.comps[l.attrCompIndices[a]].attr == Attr(a)))
  }

  function NumComponents(l: Layout): (n: int)
    requires LayoutWf(l)
    ensures 0 <= n <= MaxNumComponents
  {
    l.numComps
  }

  /** The component at `index` of the component array; those below the
      component count are valid. */
  function ComponentAt(l: Layout, index: int): (c: Component)
    requires LayoutWf(l) && 0 <= index < MaxNumComponents
    ensures index < NumComponents(l) ==> IsValid(c) && ComponentIndexByVertexAttr(l, c.attr.code) == index
  {
    l.comps[index]
  }

  /** The index of the component carrying `a`, or `InvalidIndex`. */
  function ComponentIndexByVertexAttr(l: Layout, a: AttrCode): (i: int)
    requires LayoutWf(l)
    ensures i == InvalidIndex || (0 <= i < NumComponents(l) && l.comps[i].attr == Attr(a))
    ensures i == InvalidIndex <==> forall k :: 0 <= k < NumComponents(l) ==> l.comps[k].attr != Attr(a)
  {
    var i := l.attrCompIndices[a];
    assert i != InvalidIndex ==> l.comps[i].attr == Attr(a);
    i
  }

  /** Whether some component carries `a`: exactly when the attribute's
      component index is not `InvalidIndex`, which is when a used component
      carries it. */
  function Contains(l: Layout, a: AttrCode): (b: bool)
    requires LayoutWf(l)
    ensures b <==> exists k :: 0 <= k < NumComponents(l) && l.comps[k].attr == Attr(a)
    ensures b ==> ComponentAt(l, ComponentIndexByVertexAttr(l, a)).attr == Attr(a)
  {
    InvalidIndex != ComponentIndexByVertexAttr(l, a)
  }

  predicate Empty(l: Layout)
    requires LayoutWf(l)
  {
    0 == l.numComps
  }

  /** A layout is empty exactly when it has no components, and then it
      contains no attribute; a non-empty layout contains its first
      component's attribute. */
  lemma EmptyIffNoComponents(l: Layout)
    requires LayoutWf(l)
    ensures Empty(l) <==> NumComponents(l) == 0
    ensures Empty(l) <==> forall a: AttrCode :: !Contains(l, a)
  {
    if !Empty(l) {
      var c := l.comps[0];
      assert IsValid(c);
      assert Contains(l, c.attr.code);
    }
  }
}
