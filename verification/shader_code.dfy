/**
 The shader-interface code generator of a pass: every declared variable becomes
 one GLSL declaration line, and the vertex and fragment sources are assembled
 from a version header, the declaration sections in a fixed order, and the
 user's `main` body.
 */
module ShaderCode {
  import opened Wrappers
  import opened Decimal
  import opened LocationMap
  import opened TypeTraits


  /** `GLSLVariable`: a GLSL type spelling and a variable name. */
  datatype GlslVariable = GlslVariable(ty: string, name: string)

  /** `GLSLVariable::declaration_line(qualifier, layout)`. */
  function DeclarationLine(v: GlslVariable, qualifier: string, layout: string): (r: string)
    ensures layout == "" ==> r == qualifier + " " + v.ty + " " + v.name + ";\n"
    ensures layout != "" ==> r == "layout(" + layout + ") " + qualifier + " " + v.ty + " " + v.name + ";\n"
  {
    var result := if |layout| > 0 then "layout(" + layout + ") " else "";
    result + (qualifier + " " + v.ty + " " + v.name + ";\n")
  }

  /** The flat-qualifier rule of the generator: the type's first character is `b`,
      `u` or `i`. Indexing an empty `std::string` at 0 reads its terminating NUL,
      which is none of these. */
  predicate NeedsFlat(ty: string) {
    var c := if |ty| > 0 then ty[0] else '\0';
    c == 'b' || c == 'u' || c == 'i'
  }

  /** One declaration as the generator emits it: an optional `flat` prefix, an
      optional `layout(location = k)`, a storage qualifier and a variable. */
  datatype Decl = Decl(flat: bool, location: Option<nat>, qualifier: string, variable: GlslVariable)

  function Layout(location: Option<nat>): string {
    if location.Some? then "location = " + NatToString(location.value) else ""
  }

  function Render(d: Decl): string {
    (if d.flat then "flat " else "") + DeclarationLine(d.variable, d.qualifier, Layout(d.location))
  }

  function RenderAll(ds: seq<Decl>): string {
    if |ds| == 0 then "" else RenderAll(ds[..|ds| - 1]) + Render(ds[|ds| - 1])
  }

  /** A uniform list: one plain `uniform` line per variable, in list order. */
  function UniformDecls(vs: seq<GlslVariable>): (r: seq<Decl>)
    ensures |r| == |vs|
    ensures forall i :: 0 <= i < |vs| ==> r[i] == Decl(false, None, "uniform", vs[i])
  {
    if |vs| == 0 then [] else UniformDecls(vs[..|vs| - 1]) + [Decl(false, None, "uniform", vs[|vs| - 1])]
  }

  /** A location-keyed map: one line per entry, in ascending key order, with
      `layout(location = key)`. */
  function LocatedDecls(m: seq<Entry<GlslVariable>>, qualifier: string): (r: seq<Decl>)
    ensures |r| == |m|
    ensures forall i :: 0 <= i < |m| ==> r[i] == Decl(false, Some(m[i].key), qualifier, m[i].value)
  {
    if |m| == 0 then []
    else LocatedDecls(m[..|m| - 1], qualifier) + [Decl(false, Some(m[|m| - 1].key), qualifier, m[|m| - 1].value)]
  }

  /** The interface list: one line per variable, flat exactly when the rule says so. */
  function InterfaceDecls(vs: seq<GlslVariable>, qualifier: string): (r: seq<Decl>)
    ensures |r| == |vs|
    ensures forall i :: 0 <= i < |vs| ==> r[i] == Decl(NeedsFlat(vs[i].ty), None, qualifier, vs[i])
  {
    if |vs| == 0 then []
    else InterfaceDecls(vs[..|vs| - 1], qualifier) + [Decl(NeedsFlat(vs[|vs| - 1].ty), None, qualifier, vs[|vs| - 1])]
  }

  /** Everything `prepare_shader` reads from a pass. */
  datatype ShaderInterface = ShaderInterface(
    vertexUniforms: seq<GlslVariable>,
    fragmentUniforms: seq<GlslVariable>,
    vertexInputs: seq<Entry<GlslVariable>>,
    interfaces: seq<GlslVariable>,
    fragmentOutputs: seq<Entry<GlslVariable>>,
    vertexBody: string,
    fragmentBody: string)

  datatype ShaderPair = ShaderPair(vertex: string, fragment: string)

  const Header: string := "#version 430\n"

  function MainBlock(body: string): string {
    "void main() {\n\t" + body + "\n}"
  }

  /** Vertex declarations: vertex uniforms, then inputs, then interfaces as `out`. */
  function VertexDecls(si: ShaderInterface): (r: seq<Decl>)
    ensures |r| == |si.vertexUniforms| + |si.vertexInputs| + |si.interfaces|
    ensures forall i :: 0 <= i < |si.vertexUniforms| ==>
      r[i] == Decl(false, None, "uniform", si.vertexUniforms[i])
    ensures forall i :: 0 <= i < |si.vertexInputs| ==>
      r[|si.vertexUniforms| + i] == Decl(false, Some(si.vertexInputs[i].key), "in", si.vertexInputs[i].value)
    ensures forall i :: 0 <= i < |si.interfaces| ==>
      r[|si.vertexUniforms| + |si.vertexInputs| + i] == Decl(NeedsFlat(si.interfaces[i].ty), None, "out", si.interfaces[i])
  {
    UniformDecls(si.vertexUniforms) + LocatedDecls(si.vertexInputs, "in") + InterfaceDecls(si.interfaces, "out")
  }

  /** Fragment declarations: fragment uniforms, then interfaces as `in`, then outputs. */
  function FragmentDecls(si: ShaderInterface): (r: seq<Decl>)
    ensures |r| == |si.fragmentUniforms| + |si.interfaces| + |si.fragmentOutputs|
    ensures forall i :: 0 <= i < |si.fragmentUniforms| ==>
      r[i] == Decl(false, None, "uniform", si.fragmentUniforms[i])
    ensures forall i :: 0 <= i < |si.interfaces| ==>
      r[|si.fragmentUniforms| + i] == Decl(NeedsFlat(si.interfaces[i].ty), None, "in", si.interfaces[i])
    ensures forall i :: 0 <= i < |si.fragmentOutputs| ==>
      r[|si.fragmentUniforms| + |si.interfaces| + i] == Decl(false, Some(si.fragmentOutputs[i].key), "out", si.fragmentOutputs[i].value)
  {
    UniformDecls(si.fragmentUniforms) + InterfaceDecls(si.interfaces, "in") + LocatedDecls(si.fragmentOutputs, "out")
  }

  function Source(ds: seq<Decl>, body: string): string {
    Header + RenderAll(ds) + MainBlock(body)
  }

  /** The string-building part of `prepare_shader`. Both sources open with the
      version line and close with `main` wrapped around the user's body, verbatim. */
  function GenerateSources(si: ShaderInterface): (r: ShaderPair)
    ensures Header <= r.vertex && Header <= r.fragment
    ensures |r.vertex| >= |Header| + |MainBlock(si.vertexBody)|
    ensures r.vertex[|r.vertex| - |MainBlock(si.vertexBody)|..] == MainBlock(si.vertexBody)
    ensures |r.fragment| >= |Header| + |MainBlock(si.fragmentBody)|
    ensures r.fragment[|r.fragment| - |MainBlock(si.fragmentBody)|..] == MainBlock(si.fragmentBody)
  {
    var vs := Source(VertexDecls(si), si.vertexBody);
    var fs := Source(FragmentDecls(si), si.fragmentBody);
    assert vs == (Header + RenderAll(VertexDecls(si))) + MainBlock(si.vertexBody);
    assert fs == (Header + RenderAll(FragmentDecls(si))) + MainBlock(si.fragmentBody);
    ShaderPair(vs, fs)
  }
}
