/**
 Vertex geometry: a list of attributes, each backed by a buffer of host values,
 and a dirty flag that makes `draw` re-prepare the vertex-array bindings.

 Buffer contents, byte strides and the vertex-array calls are not modelled; the
 bindings `prepare` would issue are returned as an outcome record instead.
 */
module Geometries {
  import opened Wrappers
  import opened GLEnums
  import opened TypeTraits

  /** `(GLsizei)n`: the element count narrowed to a 32-bit two's-complement integer. */
  function ToGLsizei(n: nat): (r: int)
    ensures -0x8000_0000 <= r < 0x8000_0000
    ensures (r - n) % 0x1_0000_0000 == 0
    ensures n < 0x8000_0000 ==> r == n
  {
    var m := n % 0x1_0000_0000;
    if m < 0x8000_0000 then m else m - 0x1_0000_0000
  }

  /** An attribute: element count, element type enum, component count, shader input
      location, enabled flag and GLSL spelling. */
  datatype Attribute = Attribute(
    size: int,
    elementType: GLenum,
    dimension: nat,
    location: int,
    enabled: bool,
    glslType: string)

  datatype Geometry = Geometry(attributes: seq<Attribute>, updated: bool, vertexArrayCreated: bool)

  /** What every geometry reachable from `Init` satisfies: a vertex array exists only
      once attributes do, and attributes without a vertex array are awaiting preparation. */
  ghost predicate Valid(g: Geometry) {
    && (g.vertexArrayCreated ==> |g.attributes| > 0)
    && (|g.attributes| > 0 ==> g.vertexArrayCreated || g.updated)
  }

  /** The constructor. */
  function Init(): (g: Geometry)
    ensures Valid(g) && |g.attributes| == 0 && !g.updated
  {
    Geometry([], false, false)
  }

  /** `add_attribute<T>(data)`: the element type of `T` must name an API enum and `T`
      must have a GLSL spelling; the data is described by its length `count`. */
  function AddAttribute(g: Geometry, t: HostType, count: nat): (r: Geometry)
    requires OpenglEnum(ScalarType(ElementType(t))).Some? && GlslType(t).Some?
    ensures |r.attributes| == |g.attributes| + 1
    ensures r.attributes[..|g.attributes|] == g.attributes
    ensures var a := r.attributes[|g.attributes|];
      && a.elementType == OpenglEnum(ScalarType(ElementType(t))).value
      && a.dimension == Dimension(t)
      && a.glslType == GlslType(t).value
      && a.location == 0 && !a.enabled
      && a.size == ToGLsizei(count)
    ensures r.updated && r.vertexArrayCreated == g.vertexArrayCreated
    ensures Valid(g) ==> Valid(r)
  {
    var a := Attribute(ToGLsizei(count), OpenglEnum(ScalarType(ElementType(t))).value,
                       Dimension(t), 0, false, GlslType(t).value);
    g.(attributes := g.attributes + [a], updated := true)
  }

  /** `bind_attribute_input(attribute, input, enabled)`: connects an attribute to a
      shader input location; the index must name an existing attribute. */
  function BindAttributeInput(g: Geometry, attribute: int, input: int, enabled: bool): (r: Geometry)
    requires 0 <= attribute < |g.attributes|
    ensures |r.attributes| == |g.attributes|
    ensures r.attributes[attribute].location == input && r.attributes[attribute].enabled == enabled
    ensures r.attributes[attribute].(location := g.attributes[attribute].location,
                                     enabled := g.attributes[attribute].enabled) == g.attributes[attribute]
    ensures forall i :: 0 <= i < |g.attributes| && i != attribute ==> r.attributes[i] == g.attributes[i]
    ensures r.updated && r.vertexArrayCreated == g.vertexArrayCreated
    ensures Valid(g) ==> Valid(r)
  {
    var a := g.attributes[attribute].(location := input, enabled := enabled);
    g.(attributes := g.attributes[attribute := a], updated := true)
  }

  /** The format call `prepare` issues for an attribute. */
  datatype FormatCall =
    | SetFormat(size: int, ty: GLenum)
    | SetLFormat(size: int, ty: GLenum)
    | SetIFormat(size: int, ty: GLenum)

  function FormatCallFor(a: Attribute): FormatCall {
    if a.elementType == GlFloat then SetFormat(a.dimension, GlFloat)
    else if a.elementType == GlDouble then SetLFormat(a.dimension, GlDouble)
    else SetIFormat(a.dimension, a.elementType)
  }

  /** Binding i of the vertex array: attribute location, format and enabled state. */
  datatype Binding = Binding(index: nat, location: int, format: FormatCall, enabled: bool)

  function Bindings(attributes: seq<Attribute>): (r: seq<Binding>)
    ensures |r| == |attributes|
    ensures forall i :: 0 <= i < |r| ==>
      r[i] == Binding(i, attributes[i].location, FormatCallFor(attributes[i]), attributes[i].enabled)
  {
    seq(|attributes|, i requires 0 <= i < |attributes| =>
      Binding(i, attributes[i].location, FormatCallFor(attributes[i]), attributes[i].enabled))
  }

  /** The geometry after `draw`, the bindings `prepare` issued (if it ran) and the
      vertex count passed to `drawArrays`. */
  datatype DrawOutcome = DrawOutcome(geometry: Geometry, bindings: Option<seq<Binding>>, vertexCount: int)

  /** `draw` reads the first attribute's size and the vertex array unconditionally. */
  datatype GeometryError = NoAttributes

  /** `draw()`. */
  function Draw(g: Geometry): (r: Result<DrawOutcome, GeometryError>)
    ensures Valid(g) ==> (r.Ok? <==> |g.attributes| > 0)
    ensures r.Ok? ==> (r.value.bindings.Some? <==> g.updated)
    ensures r.Ok? && g.updated ==> r.value.bindings == Some(Bindings(g.attributes))
    ensures r.Ok? ==> !r.value.geometry.updated && r.value.geometry.attributes == g.attributes
    ensures r.Ok? ==> |g.attributes| > 0 && r.value.vertexCount == g.attributes[0].size
    ensures r.Ok? ==> Valid(r.value.geometry)
  {
    var bindings := if g.updated then Some(Bindings(g.attributes)) else None;
    var g1 := g.(updated := false, vertexArrayCreated := g.vertexArrayCreated || g.updated);
    if |g.attributes| == 0 || !g1.vertexArrayCreated then Err(NoAttributes)
    else Ok(DrawOutcome(g1, bindings, g.attributes[0].size))
  }

  /** The format call follows the attribute's host element type: float uses
      `setFormat`, double `setLFormat`, and bool, int32 and uint32 `setIFormat` with
      their own enum; the size argument is the component count. */
  lemma FormatFollowsElementType(g: Geometry, t: HostType, count: nat)
    requires OpenglEnum(ScalarType(ElementType(t))).Some? && GlslType(t).Some?
    ensures var f := FormatCallFor(AddAttribute(g, t, count).attributes[|g.attributes|]);
      && f.size == Dimension(t)
      && (f.SetFormat? <==> ElementType(t) == Float)
      && (f.SetLFormat? <==> ElementType(t) == Double)
      && (f.SetIFormat? <==> ElementType(t) in {Bool, Int32, UInt32})
      && (f.SetIFormat? ==> f.ty == OpenglEnum(ScalarType(ElementType(t))).value)
  {
  }

  /** A second `draw` with no call in between prepares nothing. */
  lemma DrawIdempotent(g: Geometry)
    requires Draw(g).Ok?
    ensures var h := Draw(g).value.geometry;
      Draw(h) == Ok(DrawOutcome(h, None, g.attributes[0].size))
  {
  }
}
