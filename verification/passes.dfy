/**
 A render pass: its colour and depth attachments, its shader interface and the
 two dirty indicators that decide, at `begin`, whether the framebuffer is
 re-prepared (the stored viewport differs from the requested size) and whether
 the shader sources are regenerated (the shader-updated flag is set).

 The graphics-object calls are not modelled; what `begin` would hand to them is
 returned as an outcome record instead.
 */
module Passes {
  import opened Wrappers
  import opened GLEnums
  import opened TypeTraits
  import opened LocationMap
  import opened ShaderCode

  /** A colour or depth attachment: name, texture (or else renderbuffer), format. */
  datatype Attachment = Attachment(name: string, isTexture: bool, format: GLenum)

  datatype Pass = Pass(
    viewportW: int,
    viewportH: int,
    colors: seq<Attachment>,
    depth: Option<Attachment>,
    framebufferCreated: bool,
    programCreated: bool,
    shaderUpdated: bool,
    shader: ShaderInterface)

  /** The fragment output a colour attachment declares. */
  function OutputVariable(a: Attachment): GlslVariable {
    GlslVariable(GlslTypeOfEnum(a.format), a.name)
  }

  /** Colour attachment i is the fragment output at location i. */
  function ColorOutputs(colors: seq<Attachment>): seq<Entry<GlslVariable>> {
    seq(|colors|, i requires 0 <= i < |colors| => Entry(i, OutputVariable(colors[i])))
  }

  /** What every pass reachable from `Init` satisfies. */
  ghost predicate Valid(p: Pass) {
    && StrictlyAscending(p.shader.vertexInputs)
    && p.shader.fragmentOutputs == ColorOutputs(p.colors)
    && (!p.framebufferCreated ==> p.viewportW == 0 && p.viewportH == 0)
  }

  /** The constructor: zero viewport, no attachments, nothing declared, clean flag. */
  function Init(): (p: Pass)
    ensures Valid(p)
    ensures !p.shaderUpdated && !p.framebufferCreated && !p.programCreated
    ensures p.viewportW == 0 && p.viewportH == 0
    ensures p.colors == [] && p.depth.None?
    ensures p.shader == ShaderInterface([], [], [], [], [], "", "")
  {
    Pass(0, 0, [], None, false, false, false, ShaderInterface([], [], [], [], [], "", ""))
  }

  /** `add_color_attachment(name, type, use_rbo)`: appends the attachment, declares
      it as the fragment output at the next location, zeroes the viewport and
      marks the shader updated. */
  function AddColorAttachment(p: Pass, name: string, format: GLenum, useRbo: bool): (r: Pass)
    ensures r.colors == p.colors + [Attachment(name, !useRbo, format)]
    ensures StrictlyAscending(p.shader.fragmentOutputs) ==>
      ToMap(r.shader.fragmentOutputs) == ToMap(p.shader.fragmentOutputs)[|p.colors| := GlslVariable(GlslTypeOfEnum(format), name)]
    ensures r.viewportW == 0 && r.viewportH == 0 && r.shaderUpdated
    ensures r.(colors := p.colors, viewportW := p.viewportW, viewportH := p.viewportH,
               shaderUpdated := p.shaderUpdated,
               shader := r.shader.(fragmentOutputs := p.shader.fragmentOutputs)) == p
  {
    var colors := p.colors + [Attachment(name, !useRbo, format)];
    var outputs := Put(p.shader.fragmentOutputs, |colors| - 1, GlslVariable(GlslTypeOfEnum(format), name));
    p.(colors := colors, shader := p.shader.(fragmentOutputs := outputs),
       viewportW := 0, viewportH := 0, shaderUpdated := true)
  }

  /** Adding colour attachments keeps colour attachment i at fragment output location i. */
  lemma AddColorAttachmentValid(p: Pass, name: string, format: GLenum, useRbo: bool)
    requires Valid(p)
    ensures Valid(AddColorAttachment(p, name, format, useRbo))
  {
    var a := Attachment(name, !useRbo, format);
    var m := p.shader.fragmentOutputs;
    assert forall i :: 0 <= i < |m| ==> m[i].key < |p.colors|;
    PutAboveAppends(m, |p.colors|, OutputVariable(a));
    ColorOutputsAppend(p.colors, a);
  }

  lemma ColorOutputsAppend(colors: seq<Attachment>, a: Attachment)
    ensures ColorOutputs(colors + [a]) == ColorOutputs(colors) + [Entry(|colors|, OutputVariable(a))]
  {
    var l, r := ColorOutputs(colors + [a]), ColorOutputs(colors) + [Entry(|colors|, OutputVariable(a))];
    assert |l| == |r|;
    forall i | 0 <= i < |l|
      ensures l[i] == r[i]
    {
      if i < |colors| {
        assert (colors + [a])[i] == colors[i];
      }
    }
  }

  /** The typed overload `add_color_attachment<T>(name, use_rbo)`: the format is the
      type's colour format, so the output carries the type's own GLSL spelling, or
      the empty spelling for the 8- and 16-bit integer types. The first ensures only
      says that the overload forwards to `AddColorAttachment`; the second is the
      property. */
  function AddColorAttachmentOf(p: Pass, name: string, t: HostType, useRbo: bool): (r: Pass)
    requires ColorEnum(t).Some?
    ensures r == AddColorAttachment(p, name, ColorEnum(t).value, useRbo)
    ensures OutputVariable(r.colors[|p.colors|]).ty == (if GlslType(t).Some? then GlslType(t).value else "")
  {
    AddColorAttachment(p, name, ColorEnum(t).value, useRbo)
  }

  /** `add_depth_attachment(type, use_rbo)`: sets the depth attachment and zeroes the
      viewport. Unlike the other `add_*` calls it leaves the shader flag alone. */
  function AddDepthAttachment(p: Pass, format: GLenum, useRbo: bool): (r: Pass)
    ensures r.depth == Some(Attachment("", !useRbo, format))
    ensures r.viewportW == 0 && r.viewportH == 0
    ensures r.shaderUpdated == p.shaderUpdated
    ensures r.(depth := p.depth, viewportW := p.viewportW, viewportH := p.viewportH) == p
    ensures Valid(p) ==> Valid(r)
  {
    p.(depth := Some(Attachment("", !useRbo, format)), viewportW := 0, viewportH := 0)
  }

  /** `add_vshader_uniform<T>(name)`. */
  function AddVertexUniform(p: Pass, name: string, t: HostType): (r: Pass)
    requires GlslType(t).Some?
    ensures r.shader.vertexUniforms == p.shader.vertexUniforms + [GlslVariable(GlslType(t).value, name)]
    ensures r.shaderUpdated
    ensures r.(shaderUpdated := p.shaderUpdated, shader := r.shader.(vertexUniforms := p.shader.vertexUniforms)) == p
    ensures Valid(p) ==> Valid(r)
  {
    p.(shader := p.shader.(vertexUniforms := p.shader.vertexUniforms + [GlslVariable(GlslType(t).value, name)]),
       shaderUpdated := true)
  }

  /** `add_fshader_uniform<T>(name)`. */
  function AddFragmentUniform(p: Pass, name: string, t: HostType): (r: Pass)
    requires GlslType(t).Some?
    ensures r.shader.fragmentUniforms == p.shader.fragmentUniforms + [GlslVariable(GlslType(t).value, name)]
    ensures r.shaderUpdated
    ensures r.(shaderUpdated := p.shaderUpdated, shader := r.shader.(fragmentUniforms := p.shader.fragmentUniforms)) == p
    ensures Valid(p) ==> Valid(r)
  {
    p.(shader := p.shader.(fragmentUniforms := p.shader.fragmentUniforms + [GlslVariable(GlslType(t).value, name)]),
       shaderUpdated := true)
  }

  /** `add_vshader_input<T>(location, name)`: declares, or re-declares, the vertex
      input at `location`. */
  function AddVertexInput(p: Pass, location: nat, name: string, t: HostType): (r: Pass)
    requires GlslType(t).Some?
    ensures StrictlyAscending(p.shader.vertexInputs) ==>
      ToMap(r.shader.vertexInputs) == ToMap(p.shader.vertexInputs)[location := GlslVariable(GlslType(t).value, name)]
    ensures r.shaderUpdated
    ensures r.(shaderUpdated := p.shaderUpdated, shader := r.shader.(vertexInputs := p.shader.vertexInputs)) == p
    ensures Valid(p) ==> Valid(r)
  {
    p.(shader := p.shader.(vertexInputs := Put(p.shader.vertexInputs, location, GlslVariable(GlslType(t).value, name))),
       shaderUpdated := true)
  }

  /** `add_vfshader_interface<T>(name)`. */
  function AddInterface(p: Pass, name: string, t: HostType): (r: Pass)
    requires GlslType(t).Some?
    ensures r.shader.interfaces == p.shader.interfaces + [GlslVariable(GlslType(t).value, name)]
    ensures r.shaderUpdated
    ensures r.(shaderUpdated := p.shaderUpdated, shader := r.shader.(interfaces := p.shader.interfaces)) == p
    ensures Valid(p) ==> Valid(r)
  {
    p.(shader := p.shader.(interfaces := p.shader.interfaces + [GlslVariable(GlslType(t).value, name)]),
       shaderUpdated := true)
  }

  /** `set_shader(vs, fs)`: replaces both `main` bodies. */
  function SetShader(p: Pass, vs: string, fs: string): (r: Pass)
    ensures r.shader.vertexBody == vs && r.shader.fragmentBody == fs && r.shaderUpdated
    ensures r.(shaderUpdated := p.shaderUpdated,
               shader := r.shader.(vertexBody := p.shader.vertexBody, fragmentBody := p.shader.fragmentBody)) == p
    ensures Valid(p) ==> Valid(r)
  {
    p.(shader := p.shader.(vertexBody := vs, fragmentBody := fs), shaderUpdated := true)
  }

  /** `GL_COLOR_ATTACHMENT0 + 0` up to `GL_COLOR_ATTACHMENT0 + (n - 1)`. */
  function ColorAttachments(n: nat): (r: seq<Buffer>)
    ensures |r| == n
    ensures forall i :: 0 <= i < n ==> r[i] == ColorAttachment(i)
  {
    if n == 0 then [] else ColorAttachments(n - 1) + [ColorAttachment(n - 1)]
  }

  /** The draw-buffer list of `prepare_framebuffer`: one colour attachment per colour
      attachment in order, or just `GL_NONE` when there is none. */
  function DrawBuffers(n: nat): (r: seq<Buffer>)
    ensures n == 0 ==> r == [NoBuffer]
    ensures n > 0 ==> |r| == n && forall i :: 0 <= i < n ==> r[i] == ColorAttachment(i)
  {
    if n > 0 then ColorAttachments(n) else [NoBuffer]
  }

  datatype Attached = Attached(point: Buffer, attachment: Attachment)

  /** What `prepare_framebuffer` would do: allocate every attachment at the viewport
      size, attach colour attachment i at `GL_COLOR_ATTACHMENT0 + i` and the depth
      attachment at `GL_DEPTH_ATTACHMENT`, then set the draw buffers. */
  datatype FramebufferSetup = FramebufferSetup(width: int, height: int, attached: seq<Attached>, drawBuffers: seq<Buffer>)

  function PrepareFramebuffer(p: Pass): (r: FramebufferSetup)
    ensures r.width == p.viewportW && r.height == p.viewportH
    ensures |r.attached| == |p.colors| + (if p.depth.Some? then 1 else 0)
    ensures forall i :: 0 <= i < |p.colors| ==> r.attached[i] == Attached(ColorAttachment(i), p.colors[i])
    ensures p.depth.Some? ==> r.attached[|p.colors|] == Attached(DepthAttachment, p.depth.value)
    ensures r.drawBuffers == DrawBuffers(|p.colors|)
  {
    var colors := seq(|p.colors|, i requires 0 <= i < |p.colors| => Attached(ColorAttachment(i), p.colors[i]));
    var depth := if p.depth.Some? then [Attached(DepthAttachment, p.depth.value)] else [];
    FramebufferSetup(p.viewportW, p.viewportH, colors + depth, DrawBuffers(|p.colors|))
  }

  /** The pass after `begin`, the framebuffer preparation it ran (if any) and the
      shader sources it generated (if any). */
  datatype BeginOutcome = BeginOutcome(pass: Pass, framebuffer: Option<FramebufferSetup>, sources: Option<ShaderPair>)

  /** `begin` binds the framebuffer unconditionally; before any preparation there is
      none to bind. */
  datatype PassError = NullFramebuffer

  /** `begin(w, h)`. */
  function Begin(p: Pass, w: int, h: int): (r: Result<BeginOutcome, PassError>)
    ensures r.Err? <==> !p.framebufferCreated && w == p.viewportW && h == p.viewportH
    ensures r.Ok? ==> (r.value.framebuffer.Some? <==> (w != p.viewportW || h != p.viewportH))
    ensures r.Ok? ==> (r.value.sources.Some? <==> p.shaderUpdated)
    ensures r.Ok? ==> r.value.pass.viewportW == w && r.value.pass.viewportH == h
    ensures r.Ok? ==> !r.value.pass.shaderUpdated && r.value.pass.framebufferCreated
    ensures r.Ok? && r.value.framebuffer.Some? ==>
      r.value.framebuffer.value.drawBuffers == DrawBuffers(|p.colors|) &&
      r.value.framebuffer.value.width == w && r.value.framebuffer.value.height == h
    ensures r.Ok? && r.value.sources.Some? ==> r.value.sources.value == GenerateSources(p.shader)
    ensures r.Ok? ==> r.value.pass.(viewportW := p.viewportW, viewportH := p.viewportH,
                                     framebufferCreated := p.framebufferCreated,
                                     programCreated := p.programCreated,
                                     shaderUpdated := p.shaderUpdated) == p
    ensures r.Ok? && Valid(p) ==> Valid(r.value.pass)
  {
    var resize := w != p.viewportW || h != p.viewportH;
    var p1 := if resize then p.(viewportW := w, viewportH := h, framebufferCreated := true) else p;
    var setup := if resize then Some(PrepareFramebuffer(p1)) else None;
    var regenerate := p1.shaderUpdated;
    var p2 := if regenerate then p1.(shaderUpdated := false, programCreated := true) else p1;
    var sources := if regenerate then Some(GenerateSources(p1.shader)) else None;
    if !p2.framebufferCreated then Err(NullFramebuffer)
    else Ok(BeginOutcome(p2, setup, sources))
  }

  /** On a reachable pass, `begin` fails only before any framebuffer exists and only
      when asked for the stored zero size. */
  lemma BeginFailsOnlyAtZeroSize(p: Pass, w: int, h: int)
    requires Valid(p)
    ensures Begin(p, w, h).Err? <==> !p.framebufferCreated && w == 0 && h == 0
  {
  }

  /** A second `begin` at the same size with no call in between prepares nothing. */
  lemma BeginIdempotent(p: Pass, w: int, h: int)
    requires Begin(p, w, h).Ok?
    ensures var q := Begin(p, w, h).value.pass;
      Begin(q, w, h) == Ok(BeginOutcome(q, None, None))
  {
  }

  /** Adding a colour or depth attachment zeroes the viewport, so the next `begin`
      with a non-zero size re-prepares the framebuffer. */
  lemma AttachmentForcesReprepare(p: Pass, name: string, format: GLenum, useRbo: bool, w: int, h: int)
    requires w != 0 || h != 0
    ensures var r := Begin(AddColorAttachment(p, name, format, useRbo), w, h);
      r.Ok? && r.value.framebuffer.Some?
    ensures var r := Begin(AddDepthAttachment(p, format, useRbo), w, h);
      r.Ok? && r.value.framebuffer.Some?
  {
  }

  /** On a reachable pass the i-th colour attachment is the fragment output at
      location i, named after the attachment and typed `glsl_type(format)`, and the
      generated fragment source declares it there. */
  lemma ColorAttachmentIsOutput(p: Pass, i: nat)
    requires Valid(p)
    requires i < |p.colors|
    ensures forall k: nat :: k in ToMap(p.shader.fragmentOutputs) <==> k < |p.colors|
    ensures ToMap(p.shader.fragmentOutputs)[i] == GlslVariable(GlslTypeOfEnum(p.colors[i].format), p.colors[i].name)
    ensures FragmentDecls(p.shader)[|p.shader.fragmentUniforms| + |p.shader.interfaces| + i] ==
      Decl(false, Some(i), "out", GlslVariable(GlslTypeOfEnum(p.colors[i].format), p.colors[i].name))
  {
    var m := p.shader.fragmentOutputs;
    assert m[i] == Entry(i, OutputVariable(p.colors[i]));
    ToMapAt(m, i);
    OutputKeys(p);
  }

  lemma OutputKeys(p: Pass)
    requires Valid(p)
    ensures forall k: nat :: k in ToMap(p.shader.fragmentOutputs) <==> k < |p.colors|
  {
    var m := p.shader.fragmentOutputs;
    ToMapKeys(m);
    forall k: nat
      ensures k in KeySet(m) <==> k < |p.colors|
    {
      if k < |p.colors| {
        assert m[k].key == k;
      }
    }
  }
}
