/**
 Properties of the generated shader code: one line per declaration, interface
 variables paired across the two stages with the same `flat` decision, located
 declarations in strictly ascending location order that agree with the map they
 come from, and what the flat rule means for the trait table's spellings.
 */
module ShaderLaws {
  import opened Wrappers
  import opened Decimal
  import opened LocationMap
  import opened TypeTraits
  import opened ShaderCode
  import TraitLaws

  /** The number of line breaks in a string. */
  function CountNewlines(s: string): nat {
    if |s| == 0 then 0 else CountNewlines(s[..|s| - 1]) + (if s[|s| - 1] == '\n' then 1 else 0)
  }

  lemma {:induction false} CountNewlinesConcat(a: string, b: string)
    ensures CountNewlines(a + b) == CountNewlines(a) + CountNewlines(b)
  {
    if |b| == 0 {
      assert a + b == a;
    } else {
      CountNewlinesConcat(a, b[..|b| - 1]);
      assert (a + b)[..|a + b| - 1] == a + b[..|b| - 1];
      assert (a + b)[|a + b| - 1] == b[|b| - 1];
    }
  }

  lemma {:induction false} CountNewlinesNone(s: string)
    requires '\n' !in s
    ensures CountNewlines(s) == 0
  {
    if |s| > 0 {
      assert forall c :: c in s[..|s| - 1] ==> c in s;
      CountNewlinesNone(s[..|s| - 1]);
    }
  }

  /** The user-supplied parts of a declaration hold no line break. */
  predicate SingleLine(d: Decl) {
    '\n' !in d.qualifier && '\n' !in d.variable.ty && '\n' !in d.variable.name
  }

  /** A rendered declaration is exactly one line, terminated by its line break. */
  lemma RenderIsOneLine(d: Decl)
    requires SingleLine(d)
    ensures |Render(d)| > 0 && Render(d)[|Render(d)| - 1] == '\n'
    ensures CountNewlines(Render(d)) == 1
  {
    LayoutIsOneLineFragment(d.location);
    var flat := if d.flat then "flat " else "";
    var line := DeclarationLine(d.variable, d.qualifier, Layout(d.location));
    DeclarationLineIsOneLine(d.variable, d.qualifier, Layout(d.location));
    assert Render(d) == flat + line;
    CountNewlinesConcat(flat, line);
    CountNewlinesNone(flat);
  }

  lemma LayoutIsOneLineFragment(location: Option<nat>)
    ensures '\n' !in Layout(location)
  {
    if location.Some? {
      var digits := NatToString(location.value);
      assert forall i :: 0 <= i < |digits| ==> digits[i] != '\n';
      assert '\n' !in digits;
      assert Layout(location) == "location = " + digits;
    }
  }

  lemma DeclarationLineIsOneLine(v: GlslVariable, qualifier: string, layout: string)
    requires '\n' !in qualifier && '\n' !in v.ty && '\n' !in v.name && '\n' !in layout
    ensures |DeclarationLine(v, qualifier, layout)| > 0
    ensures DeclarationLine(v, qualifier, layout)[|DeclarationLine(v, qualifier, layout)| - 1] == '\n'
    ensures CountNewlines(DeclarationLine(v, qualifier, layout)) == 1
  {
    var prefix := if |layout| > 0 then "layout(" + layout + ") " else "";
    var body := qualifier + " " + v.ty + " " + v.name;
    var tail := body + ";\n";
    assert DeclarationLine(v, qualifier, layout) == prefix + tail;
    CountNewlinesConcat(prefix, tail);
    CountNewlinesConcat(body, ";\n");
    CountNewlinesNone(prefix);
    CountNewlinesNone(body);
    NewlineLiterals();
  }

  /** Line-break counts of the fixed text the generator emits. */
  lemma NewlineLiterals()
    ensures CountNewlines(";\n") == 1
    ensures CountNewlines(Header) == 1
    ensures CountNewlines("void main() {\n\t") == 1
    ensures CountNewlines("\n}") == 1
  {
    assert ";\n"[..1] == ";";
    assert ";"[..0] == "";
    assert Header == "#version 430" + "\n";
    CountNewlinesConcat("#version 430", "\n");
    CountNewlinesNone("#version 430");
    assert "\n"[..0] == "";
    assert "void main() {\n\t"[..|"void main() {\n\t"| - 1] == "void main() {" + "\n";
    CountNewlinesConcat("void main() {", "\n");
    CountNewlinesNone("void main() {");
    assert "\n}"[..1] == "\n";
  }

  /** A generated source has one line per declaration, plus the version line, the
      line opening `main`, the lines of the body and the closing line. */
  lemma {:induction false} SourceLineCount(ds: seq<Decl>, body: string)
    requires forall i :: 0 <= i < |ds| ==> SingleLine(ds[i])
    ensures CountNewlines(RenderAll(ds)) == |ds|
    ensures CountNewlines(Source(ds, body)) == |ds| + 3 + CountNewlines(body)
  {
    if |ds| > 0 {
      SourceLineCount(ds[..|ds| - 1], body);
      RenderIsOneLine(ds[|ds| - 1]);
      CountNewlinesConcat(RenderAll(ds[..|ds| - 1]), Render(ds[|ds| - 1]));
    }
    NewlineLiterals();
    CountNewlinesConcat(Header, RenderAll(ds));
    CountNewlinesConcat(Header + RenderAll(ds), MainBlock(body));
    CountNewlinesConcat("void main() {\n\t", body);
    CountNewlinesConcat("void main() {\n\t" + body, "\n}");
  }

  /** A declaration line starts with `flat ` exactly when its declaration is flat. */
  lemma RenderFlatPrefix(d: Decl)
    requires d.qualifier in {"uniform", "in", "out"}
    ensures "flat " <= Render(d) <==> d.flat
  {
    if !d.flat {
      var r := Render(d);
      if d.location.Some? {
        assert r[0] == 'l';
      } else {
        assert r == d.qualifier + " " + d.variable.ty + " " + d.variable.name + ";\n";
        assert r[0] == d.qualifier[0];
      }
    }
  }

  /** Each interface variable is declared `out` in the vertex source and `in` in the
      fragment source with the same type and name, both lines starting with `flat `
      exactly when the type starts with `b`, `u` or `i`. */
  lemma InterfacePairing(si: ShaderInterface, j: nat)
    requires j < |si.interfaces|
    ensures VertexDecls(si)[|si.vertexUniforms| + |si.vertexInputs| + j].qualifier == "out"
    ensures FragmentDecls(si)[|si.fragmentUniforms| + j].qualifier == "in"
    ensures VertexDecls(si)[|si.vertexUniforms| + |si.vertexInputs| + j].variable == si.interfaces[j]
    ensures FragmentDecls(si)[|si.fragmentUniforms| + j].variable == si.interfaces[j]
    ensures "flat " <= Render(VertexDecls(si)[|si.vertexUniforms| + |si.vertexInputs| + j])
            <==> NeedsFlat(si.interfaces[j].ty)
    ensures "flat " <= Render(FragmentDecls(si)[|si.fragmentUniforms| + j])
            <==> NeedsFlat(si.interfaces[j].ty)
  {
    var vd := VertexDecls(si)[|si.vertexUniforms| + |si.vertexInputs| + j];
    var fd := FragmentDecls(si)[|si.fragmentUniforms| + j];
    assert vd == Decl(NeedsFlat(si.interfaces[j].ty), None, "out", si.interfaces[j]);
    assert fd == Decl(NeedsFlat(si.interfaces[j].ty), None, "in", si.interfaces[j]);
    RenderFlatPrefix(vd);
    RenderFlatPrefix(fd);
  }

  /** A located section lists its map in strictly ascending location order, one
      declaration per location, each holding the map's variable at that location. */
  lemma LocatedSection(m: seq<Entry<GlslVariable>>, qualifier: string)
    requires StrictlyAscending(m)
    ensures var ds := LocatedDecls(m, qualifier);
      && (forall i, j :: 0 <= i < j < |ds| ==> ds[i].location.value < ds[j].location.value)
      && (set i | 0 <= i < |ds| :: ds[i].location.value) == ToMap(m).Keys
      && (forall i :: 0 <= i < |ds| ==>
            ds[i].qualifier == qualifier && ds[i].location.Some? &&
            ds[i].location.value in ToMap(m) &&
            ds[i].variable == ToMap(m)[ds[i].location.value])
  {
    var ds := LocatedDecls(m, qualifier);
    forall i | 0 <= i < |ds|
      ensures ds[i].location.value in ToMap(m)
      ensures ds[i].variable == ToMap(m)[ds[i].location.value]
    {
      ToMapAt(m, i);
    }
    ToMapKeys(m);
    assert (set i | 0 <= i < |ds| :: ds[i].location.value) == KeySet(m);
  }

  /** The middle part of a three-way concatenation is found at its offset. */
  lemma MiddleSlice<T>(a: seq<T>, b: seq<T>, c: seq<T>)
    ensures (a + b + c)[|a|..|a| + |b|] == b
  {
    assert (a + b + c)[..|a| + |b|] == a + b;
    assert (a + b)[|a|..] == b;
  }

  /** The vertex source's input section is the located section of the input map. */
  lemma VertexInputsInPlace(si: ShaderInterface)
    ensures var a := |si.vertexUniforms|;
      VertexDecls(si)[a..a + |si.vertexInputs|] == LocatedDecls(si.vertexInputs, "in")
  {
    MiddleSlice(UniformDecls(si.vertexUniforms), LocatedDecls(si.vertexInputs, "in"),
                InterfaceDecls(si.interfaces, "out"));
  }

  /** The fragment source's output section is the located section of the output map. */
  lemma FragmentOutputsInPlace(si: ShaderInterface)
    ensures var a := |si.fragmentUniforms| + |si.interfaces|;
      FragmentDecls(si)[a..a + |si.fragmentOutputs|] == LocatedDecls(si.fragmentOutputs, "out")
  {
    var front := UniformDecls(si.fragmentUniforms) + InterfaceDecls(si.interfaces, "in");
    var outs := LocatedDecls(si.fragmentOutputs, "out");
    assert |front| == |si.fragmentUniforms| + |si.interfaces|;
    assert FragmentDecls(si) == front + outs;
    assert (front + outs)[|front|..] == outs;
  }

  /** The vertex source's input section is the located section of the input map,
      and the fragment source's output section that of the output map. This only
      conjoins `VertexInputsInPlace` and `FragmentOutputsInPlace`, for reference. */
  lemma LocatedSectionsInPlace(si: ShaderInterface)
    ensures var a := |si.vertexUniforms|;
      VertexDecls(si)[a..a + |si.vertexInputs|] == LocatedDecls(si.vertexInputs, "in")
    ensures var a := |si.fragmentUniforms| + |si.interfaces|;
      FragmentDecls(si)[a..a + |si.fragmentOutputs|] == LocatedDecls(si.fragmentOutputs, "out")
  {
    VertexInputsInPlace(si);
    FragmentOutputsInPlace(si);
  }

  /** On the trait table's spellings the flat rule selects exactly the bool, int32
      and uint32 element types. Section 4.3.4 of the OpenGL Shading Language 4.30
      specification also demands `flat` on double-precision fragment inputs; the
      rule does not give it to the double types. */
  lemma FlatRuleOnTraitSpellings(t: HostType)
    requires GlslType(t).Some?
    ensures NeedsFlat(GlslType(t).value) <==> ElementType(t) in {Bool, Int32, UInt32}
    ensures ElementType(t) == Double ==> !NeedsFlat(GlslType(t).value)
  {
    TraitLaws.GlslPrefixByElementType(t);
  }
}
