# GLRenderer helper layer — verified model

This project models the checkable core of a small multi-pass rendering helper over OpenGL. It has three parts:

- **The type-trait table.** `GLTypeTraits<T>` and `opengl_type<E>` map 42 host element types to graphics-API facts. The host types are 9 scalars, 15 `glm` vectors and 18 `glm` matrices. For each type the table gives its scalar element type and its component count, and, where its specialisation declares it, an API enum, a colour format, a GLSL spelling, an image-format suffix and signed/unsigned counterparts. For example, `bool` has no colour format and the 8- and 16-bit integers have no GLSL spelling. The free function `glsl_type(GLenum)` maps twelve 32-bit colour formats back to GLSL spellings.
- **The shader-interface code generator.** `Pass::prepare_shader` and `GLSLVariable::declaration_line` turn a pass's uniform lists, location-keyed input and output maps, interface list and user `main` bodies into a GLSL 4.30 vertex source and a GLSL 4.30 fragment source.
- **The dirty-flag state machines** of `Pass`, `Geometry` and `Renderer`. These decide when the framebuffer is re-prepared, when the shader is regenerated, when vertex bindings are re-issued, and how the pass list is resized.

Modules, one per file:

| module | file | models |
|---|---|---|
| `Wrappers` | wrappers.dfy | `Option` and `Result` |
| `GLEnums` | gl_enums.dfy | the GL enumerants as an abstract enumeration, plus attachment points and draw buffers |
| `TypeTraits` | type_traits.dfy | `opengl_type`, `GLTypeTraits`, `glsl_type(GLenum)` |
| `TraitLaws` | trait_laws.dfy | consistency laws of the table |
| `Decimal` | decimal.dfy | `std::to_string` of a location |
| `LocationMap` | location_map.dfy | `std::map<size_t, GLSLVariable>`: an association list with strictly ascending keys |
| `ShaderCode` | shader_code.dfy | `declaration_line` and the string building of `prepare_shader` |
| `ShaderLaws` | shader_laws.dfy | line structure, interface pairing and location order of the generated code |
| `Passes` | passes.dfy | `Pass`: attachments, `add_*`, `set_shader`, `begin`, the draw-buffer list |
| `Geometries` | geometries.dfy | `Geometry`: `add_attribute`, `bind_attribute_input`, `draw`, the format choice |
| `Renderers` | renderers.dfy | `Renderer::set_n_passes`, `n_passes` |

A trait member that a specialisation does not declare is a compile error in C++ if used. Here it is `None`. A templated operation that needs such a member carries a `requires` for it. An example is `add_vshader_uniform<T>`, which needs `glsl_type()`.

The graphics-object calls have no visible semantics. Instead, the pass and geometry operations return what they would hand to those calls:

- the framebuffer setup: sizes, attachment points and the draw-buffer list;
- the generated shader sources;
- the vertex-array bindings and the vertex count.

Behaviour the code has and the model keeps:

- `add_depth_attachment` does not set the shader-updated flag. Every other `add_*` call sets it, and so does `set_shader`.
- `bind_attribute_input` sets the geometry's dirty flag.
- `begin` binds the framebuffer unconditionally. A pass whose framebuffer was never prepared still has the stored zero viewport, so `begin(0, 0)` dereferences a null framebuffer. `Passes.Begin` returns `Err(NullFramebuffer)` on exactly that path.
- `draw` reads `m_attributes[0]` and the vertex array unconditionally. With no attributes, `Geometries.Draw` returns `Err(NoAttributes)`.
- A colour attachment with an 8- or 16-bit integer format gets the empty GLSL type, because `glsl_type(GLenum)` returns `""` for those formats.
- The `flat` rule is the code's own: the type's first character is `b`, `u` or `i`. An empty type reads its terminating NUL, so it does not qualify. On the table's spellings this rule selects exactly the bool, int32 and uint32 element types. Section 4.3.4 of the OpenGL Shading Language 4.30 specification also requires `flat` on double-precision fragment inputs, and the rule does not give `flat` to double types. `ShaderLaws.FlatRuleOnTraitSpellings` states both facts.
- The typed overload `add_color_attachment<T>` writes `typename GLTypeTraits<T>::color_enum()`. The model reads this as a call of `color_enum()`; see `Passes.AddColorAttachmentOf` under "Left out".

## Model

| member | source | states |
|---|---|---|
| `TypeTraits.OpenglType` | GLTypeTraits.h:6-87 | defined for exactly the sixteen colour formats; the host type it gives has that colour format, and it is the only host type that does |
| `TypeTraits.GlslTypeOfEnum` | GLTypeTraits.h:440-469 | non-empty for exactly the twelve 32-bit R/RG/RGB/RGBA I/UI/F formats, empty for every other enumerant including R8I, R8UI, R16I and R16UI; on the twelve it is the spelling of `opengl_type<E>` |
| `TypeTraits.ElementType` | GLTypeTraits.h:92-438 | the `element_type` column of the table; no contract of its own, its laws are `TraitLaws.OpenglEnumScalars`, `TraitLaws.GlslPrefixByElementType` and `TraitLaws.SignedUnsignedPairing` |
| `TypeTraits.Dimension` | GLTypeTraits.h:92-438 | the `dimension` column; no contract of its own, `TraitLaws.DimensionArithmetic` states it |
| `TypeTraits.OpenglEnum` | GLTypeTraits.h:92-438 | the `opengl_enum` column, declared only by the five scalars that have one; no contract of its own, `TraitLaws.OpenglEnumScalars` states it |
| `TypeTraits.ColorEnum` | GLTypeTraits.h:100-305 | the `color_enum` column; no contract of its own, `TypeTraits.OpenglType`, `TraitLaws.OpenglTypeInvertsColorEnum` and `TraitLaws.ColorAndGlslTypes` state it |
| `TypeTraits.GlslType` | GLTypeTraits.h:92-438 | the `glsl_type` column; no contract of its own, `TraitLaws.GlslTypeFollowsNamingScheme` and `TraitLaws.ColorEnumGlslRoundTrip` state it |
| `TypeTraits.ImageFormat` | GLTypeTraits.h:100-305 | the `image_format` column; no contract of its own, `TraitLaws.ImageFormatMatchesColorEnum` states it |
| `TypeTraits.SignedType` | GLTypeTraits.h:100-296 | the `signed_type` column; no contract of its own, `TraitLaws.SignedUnsignedPairing` states it |
| `TypeTraits.UnsignedType` | GLTypeTraits.h:100-296 | the `unsigned_type` column; no contract of its own, `TraitLaws.SignedUnsignedPairing` states it |
| `TraitLaws.GlslTypeFollowsNamingScheme` | GLTypeTraits.h:92-438 | every listed GLSL spelling follows the naming scheme: element prefix, then `vec`N or `mat`C or `mat`CxR; the 8/16-bit integers have none |
| `TraitLaws.ColorEnumGlslRoundTrip` | GLTypeTraits.h:140-305 | for a type with both `color_enum` and `glsl_type`, `glsl_type(color_enum())` is the type's own spelling |
| `TraitLaws.ColorAndGlslTypes` | GLTypeTraits.h:140-305 | the types with both are exactly int32, uint32, float, ivecN, uvecN and vecN |
| `TraitLaws.OpenglTypeInvertsColorEnum` | GLTypeTraits.h:9-87 | for each of the sixteen colour formats e, the `color_enum` of `opengl_type<e>` is e; it restates part of `TypeTraits.OpenglType`'s contract as a law of the table |
| `TraitLaws.DimensionArithmetic` | GLTypeTraits.h:93-437 | `dimension` is 1 for scalars, N for vectors and C·R for `matCxR`/`dmatCxR` |
| `TraitLaws.SignedUnsignedPairing` | GLTypeTraits.h:100-296 | `signed_type` and `unsigned_type` are declared by the same types, keep integer width and dimension, fix signed resp. unsigned types, and are mutually inverse on each pair |
| `TraitLaws.OpenglEnumScalars` | GLTypeTraits.h:92-437 | `opengl_enum` is declared by exactly bool, int32, uint32, float and double; every vector and matrix has an element type that declares it and is its own element type |
| `TraitLaws.GlslPrefixByElementType` | GLTypeTraits.h:92-437 | a spelling's first letter is `b`, `i`, `u` or `d` exactly when the element type is bool, int32, uint32 or double |
| `TraitLaws.ImageFormatMatchesColorEnum` | GLTypeTraits.h:100-305 | `image_format` is declared by the colour-format types except the 3-component vectors, and is the lower-case name of the type's colour format |
| `Decimal.NatToString` | main.cpp:275 | a location is spelled as a non-empty digit string without a leading zero |
| `Decimal.ParseNatToString` | main.cpp:275 | reading the spelling of a location back as a decimal number gives the location |
| `Decimal.NatToStringInjective` | main.cpp:290 | distinct locations get distinct spellings |
| `LocationMap.Put` | main.cpp:168 | storing at a location overwrites that location and keeps every other one; keys stay strictly ascending |
| `LocationMap.PutAboveAppends` | main.cpp:130 | storing above every present location appends the entry at the end of the iteration order |
| `LocationMap.ToMapKeys` | main.cpp:374 | the map's locations are the entries' keys |
| `ShaderCode.DeclarationLine` | main.cpp:352-359 | without a layout the line is qualifier, type, name, `;` and newline; a non-empty layout adds the prefix `layout(` layout `) ` |
| `ShaderCode.NeedsFlat` | main.cpp:280-281 | the flat rule on a type's first character; no contract of its own, `ShaderLaws.FlatRuleOnTraitSpellings` states which table spellings it picks and `ShaderLaws.InterfacePairing` where it applies |
| `ShaderCode.Render` | main.cpp:274-291 | one emitted declaration: optional `flat `, then `declaration_line` with the optional location layout; no contract of its own, `ShaderLaws.RenderIsOneLine` and `ShaderLaws.RenderFlatPrefix` state it |
| `ShaderCode.GenerateSources` | main.cpp:260-295 | both sources begin with `#version 430` and end with `void main() {`, newline, tab, the user body verbatim, newline, `}` |
| `ShaderCode.VertexDecls` | main.cpp:264-287 | vertex declarations are the vertex uniforms in order, then one `in` line per input location in ascending order, then each interface as `out`, flat iff the rule says so |
| `ShaderCode.FragmentDecls` | main.cpp:265-292 | fragment declarations are the fragment uniforms in order, then each interface as `in`, then one `out` line per output location in ascending order |
| `ShaderLaws.DeclarationLineIsOneLine` | main.cpp:352-359 | a declaration line built from newline-free parts contains exactly one line break, at its end |
| `ShaderLaws.RenderIsOneLine` | main.cpp:279-291 | an emitted declaration, with or without `flat ` and layout, is exactly one line |
| `ShaderLaws.SourceLineCount` | main.cpp:264-295 | a generated source has one line per declaration, plus the version line, the line opening `main`, the body's lines and the closing line |
| `ShaderLaws.RenderFlatPrefix` | main.cpp:280-285 | an emitted declaration starts with `flat ` exactly when it is flat |
| `ShaderLaws.InterfacePairing` | main.cpp:279-287 | each interface variable is `out` in the vertex source and `in` in the fragment source with the same type and name; both lines start with `flat ` iff the type starts with `b`, `u` or `i` |
| `ShaderLaws.LocatedSection` | main.cpp:274-277 | a located section lists its map's locations in strictly ascending order, each once, each with the variable the map holds there |
| `ShaderLaws.VertexInputsInPlace` | main.cpp:264-277 | the vertex source's input section sits right after the vertex uniforms and is the located section of the input map |
| `ShaderLaws.FragmentOutputsInPlace` | main.cpp:265-292 | the fragment source's output section sits right after the uniforms and the interfaces and is the located section of the output map |
| `ShaderLaws.LocatedSectionsInPlace` | main.cpp:274-292 | the vertex input section and the fragment output section sit in their sources at the fixed positions; it combines `ShaderLaws.VertexInputsInPlace` and `ShaderLaws.FragmentOutputsInPlace` |
| `ShaderLaws.FlatRuleOnTraitSpellings` | main.cpp:280-281 | on the table's spellings the flat rule picks exactly the bool, int32 and uint32 element types, so it never picks a double type |
| `Passes.Init` | main.cpp:112-116 | a new pass has a zero viewport, a clear shader flag, no framebuffer or program, no colour or depth attachment, nothing declared and empty bodies, and is valid |
| `Passes.AddColorAttachment` | main.cpp:123-136 | appends the attachment, declares `glsl_type(format)` with the attachment's name as the output at the next location, zeroes the viewport, sets the shader flag, and changes nothing else |
| `Passes.AddColorAttachmentValid` | main.cpp:130-132 | adding a colour attachment keeps colour attachment i as the fragment output at location i |
| `Passes.AddColorAttachmentOf` | main.cpp:118-121 | the typed overload uses the type's colour format, so the output's type is the type's GLSL spelling, or empty for the 8/16-bit integers |
| `Passes.AddDepthAttachment` | main.cpp:138-146 | sets the depth attachment and zeroes the viewport; leaves the shader flag and everything else unchanged |
| `Passes.AddVertexUniform` | main.cpp:148-155 | appends the uniform with the type's spelling, sets the shader flag, nothing else changes |
| `Passes.AddFragmentUniform` | main.cpp:157-164 | appends the uniform with the type's spelling, sets the shader flag, nothing else changes |
| `Passes.AddVertexInput` | main.cpp:166-172 | the input map afterwards is the old map with the location (re)bound to the new variable; sets the shader flag, nothing else changes |
| `Passes.AddInterface` | main.cpp:174-181 | appends the interface variable, sets the shader flag, nothing else changes |
| `Passes.SetShader` | main.cpp:183-187 | replaces both bodies, sets the shader flag, nothing else changes |
| `Passes.PrepareFramebuffer` | main.cpp:231-258 | the framebuffer is set up at the stored viewport size, colour attachment i at `COLOR_ATTACHMENT0 + i`, then the depth attachment if there is one, and the draw-buffer list is `Passes.DrawBuffers` of the colour-attachment count |
| `Passes.DrawBuffers` | main.cpp:246-255 | `GL_COLOR_ATTACHMENT0 + i` for i below the colour-attachment count, or just `GL_NONE` when there are none |
| `Passes.Begin` | main.cpp:200-220 | re-prepares the framebuffer iff (w, h) differs from the stored viewport; regenerates the sources iff the shader flag is set, then clears it; fails iff no framebuffer exists and (w, h) equals the stored viewport; the pass keeps its declarations |
| `Passes.BeginFailsOnlyAtZeroSize` | main.cpp:200-212 | on a reachable pass, `begin` fails exactly when no framebuffer exists yet and it is asked for size (0, 0) |
| `Passes.BeginIdempotent` | main.cpp:200-210 | a second `begin` at the same size with no call in between prepares neither framebuffer nor shader |
| `Passes.AttachmentForcesReprepare` | main.cpp:134-145 | after adding a colour or depth attachment, the next `begin` with a non-zero size succeeds and re-prepares the framebuffer |
| `Passes.ColorAttachmentIsOutput` | main.cpp:130-132 | on a reachable pass the output locations are exactly 0 up to the attachment count minus 1; location i holds attachment i's name and `glsl_type(format)`, and the fragment source declares it there |
| `Geometries.ToGLsizei` | main.cpp:56 | the element count narrowed to a 32-bit signed integer: congruent modulo 2^32, and unchanged below 2^31 |
| `Geometries.Init` | main.cpp:41-43 | a new geometry has no attributes and a clear flag |
| `Geometries.AddAttribute` | main.cpp:45-60 | appends one attribute with the element type's enum, the type's dimension and spelling, location 0, disabled, and size the data length narrowed to `GLsizei` (`ToGLsizei`), which is the data length itself only below 2^31; sets the flag; keeps earlier attributes |
| `Geometries.BindAttributeInput` | main.cpp:62-66 | changes only attribute a's location and enabled fields; sets the flag |
| `Geometries.Draw` | main.cpp:68-74 | on a reachable geometry, succeeds iff there are attributes; re-prepares iff the flag is set and then clears it; draws the first attribute's size |
| `Geometries.FormatCallFor` | main.cpp:87-95 | the format call for one attribute; no contract of its own, `Geometries.FormatFollowsElementType` states it |
| `Geometries.Bindings` | main.cpp:82-102 | binding i carries attribute i's location, format call and enabled state, one binding per attribute in order |
| `Geometries.FormatFollowsElementType` | main.cpp:87-95 | float attributes use `setFormat`, double ones `setLFormat`, bool/int32/uint32 ones `setIFormat` with their own enum; the size argument is the dimension |
| `Geometries.DrawIdempotent` | main.cpp:68-72 | a second `draw` with no call in between issues no bindings |
| `Renderers.Init` | main.cpp:385-405 | the implicitly constructed renderer holds no passes and satisfies the id invariant |
| `Renderers.Fill` | main.cpp:390-392 | filling an empty slot with a new pass built by the `Pass` constructor under the next id keeps every id below the counter and all ids distinct |
| `Renderers.NumPasses` | main.cpp:396-398 | the number of slots; no contract of its own, `Renderers.SetNumPasses` states that it is n afterwards |
| `Renderers.Resize` | main.cpp:388 | keeps the first n slots and pads with empty slots |
| `Renderers.SetNumPasses` | main.cpp:387-394 | leaves exactly n slots, all holding a pass; passes below min(old, n) are the same passes as before; every filled slot holds a new pass with a fresh id; pass ids stay distinct |

## Left out

- Every globjects/OpenGL object call is left out: buffer `setData`, texture and renderbuffer storage, framebuffer attach/bind/clear/`printStatus`, `glViewport`, shader compile, program link/use, `setUniform`, `drawArrays`, the vertex-array binding calls and the `State` object. They have no visible semantics here. `begin` and `draw` return what they would pass to these calls.
- `Pass::set_uniform`, `Pass::state` and `Pass::end` are left out: each only forwards to a graphics object.
- `Pass::show_color_attachment` and `Attachment::show` are left out: they are OpenCV image display, which is I/O.
- `Attachment::create`, `storage` and `attach` are left out. They choose between texture and renderbuffer objects. The model records only the texture/renderbuffer choice and the attachment point.
- `HeadlessGL`, `globjects::init()` and `main()` are left out: they are context set-up and a demo.
- Numeric values of GL enumerants are not modelled. Enumerants are an abstract datatype.
- `sizeof(T)` strides, buffer contents and the `usage` argument are left out. They are platform layout or opaque data. `add_attribute` is given only the data's length.
- `Renderer::pass(i)` is left out. It returns a pointer through which callers mutate a pass. Passes here are values, so in-place mutation of a pass held by the renderer is not modelled.
- `Geometries.BindAttributeInput`: requires `0 <= attribute < |attributes|`. The source indexes `m_attributes[attribute]` without a check, so any other index is undefined behaviour and the model does not describe it.
- `Passes.AddColorAttachmentOf`: as written, `typename GLTypeTraits<T>::color_enum()` (main.cpp:120) names `color_enum` as a type, but every specialisation declares it as a static member function, so every instantiation of this template, including the one at main.cpp:428, is ill-formed. The model reads the expression as a call of `color_enum()`, which is evidently what was meant. Nothing was compiled to confirm this.
- `Renderers.SetNumPasses`: passes keep their identity through ids from a counter. Pointer identity itself is not expressible over values.
- Viewport sizes are unbounded integers. `begin` only compares them, so 32-bit `int` limits do not matter. Locations are unbounded naturals, so `size_t` wrap-around is not modelled.
