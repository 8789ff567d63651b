/**
 The graphics-API enumerants the helper layer names. Only their identity and
 the mappings between them matter, so their numeric values are not modelled.
 */
module GLEnums {

  /** The GL enumerants used by the type traits and the pass code. Every other
      enumerant is represented by `OtherEnum`, distinguished by an opaque id. */
  datatype GLenum =
    | R8I | R8UI | R16I | R16UI
    | R32I | R32UI | R32F
    | RG32I | RG32UI | RG32F
    | RGB32I | RGB32UI | RGB32F
    | RGBA32I | RGBA32UI | RGBA32F
    | GlBool | GlInt | GlUnsignedInt | GlFloat | GlDouble
    | DepthComponent32F
    | OtherEnum(id: nat)

  /** The sixteen colour formats that have an `opengl_type` specialisation. */
  predicate IsColorEnum(e: GLenum) {
    || e.R8I? || e.R8UI? || e.R16I? || e.R16UI?
    || e.R32I? || e.R32UI? || e.R32F?
    || e.RG32I? || e.RG32UI? || e.RG32F?
    || e.RGB32I? || e.RGB32UI? || e.RGB32F?
    || e.RGBA32I? || e.RGBA32UI? || e.RGBA32F?
  }

  /** The twelve 32-bit colour formats the free function `glsl_type(GLenum)` knows. */
  predicate Is32BitColorEnum(e: GLenum) {
    IsColorEnum(e) && !e.R8I? && !e.R8UI? && !e.R16I? && !e.R16UI?
  }

  /** The enumerant's name without its `GL_` prefix, as the API headers spell it. */
  function EnumName(e: GLenum): string {
    match e
    case R8I => "R8I"
    case R8UI => "R8UI"
    case R16I => "R16I"
    case R16UI => "R16UI"
    case R32I => "R32I"
    case R32UI => "R32UI"
    case R32F => "R32F"
    case RG32I => "RG32I"
    case RG32UI => "RG32UI"
    case RG32F => "RG32F"
    case RGB32I => "RGB32I"
    case RGB32UI => "RGB32UI"
    case RGB32F => "RGB32F"
    case RGBA32I => "RGBA32I"
    case RGBA32UI => "RGBA32UI"
    case RGBA32F => "RGBA32F"
    case GlBool => "BOOL"
    case GlInt => "INT"
    case GlUnsignedInt => "UNSIGNED_INT"
    case GlFloat => "FLOAT"
    case GlDouble => "DOUBLE"
    case DepthComponent32F => "DEPTH_COMPONENT32F"
    case OtherEnum(_) => ""
  }

  /** Framebuffer attachment points and draw buffers: `GL_COLOR_ATTACHMENT0 + index`,
      `GL_DEPTH_ATTACHMENT` and `GL_NONE`. */
  datatype Buffer = ColorAttachment(index: nat) | DepthAttachment | NoBuffer
}
