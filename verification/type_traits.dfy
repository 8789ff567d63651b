/**
 The compile-time trait table of the helper layer: for every host element type
 (scalar, vector or matrix) its scalar element type, component count, colour
 format, GLSL spelling, image-format suffix and signed/unsigned counterparts,
 together with the reverse map from colour formats to host types.

 A trait member that a specialisation does not declare is a compile error in
 the source when used; here it is `None`.
 */
module TypeTraits {
  import opened Wrappers
  import opened GLEnums

  /** The scalar host types with a trait specialisation. */
  datatype Scalar = Bool | Int8 | UInt8 | Int16 | UInt16 | Int32 | UInt32 | Float | Double

  /** A vector or matrix extent. */
  datatype Dim = D2 | D3 | D4

  /** Vector families: bvecN, ivecN, uvecN, vecN, dvecN. */
  datatype VecKind = BVec | IVec | UVec | FVec | DVec

  /** Matrix families: matCxR and dmatCxR. */
  datatype MatKind = FMat | DMat

  /** The 42 host types the trait table specialises: 9 scalars, 15 vectors, 18 matrices. */
  datatype HostType =
    | ScalarType(scalar: Scalar)
    | Vector(vkind: VecKind, n: Dim)
    | Matrix(mkind: MatKind, cols: Dim, rows: Dim)

  function Count(d: Dim): nat {
    match d
    case D2 => 2
    case D3 => 3
    case D4 => 4
  }

  function Digit(d: Dim): char {
    match d
    case D2 => '2'
    case D3 => '3'
    case D4 => '4'
  }

  /** `element_type`: the scalar a type is built from. */
  function ElementType(t: HostType): Scalar {
    match t
    case ScalarType(s) => s
    case Vector(k, _) =>
      (match k
       case BVec => Bool
       case IVec => Int32
       case UVec => UInt32
       case FVec => Float
       case DVec => Double)
    case Matrix(k, _, _) => if k == FMat then Float else Double
  }

  /** The component count of a matrix, as the table lists it per matrix type. */
  function MatrixDimension(c: Dim, r: Dim): nat {
    match (c, r)
    case (D2, D2) => 4
    case (D2, D3) => 6
    case (D2, D4) => 8
    case (D3, D2) => 6
    case (D3, D3) => 9
    case (D3, D4) => 12
    case (D4, D2) => 8
    case (D4, D3) => 12
    case (D4, D4) => 16
  }

  /** `dimension`: the number of scalar components. */
  function Dimension(t: HostType): nat {
    match t
    case ScalarType(_) => 1
    case Vector(_, n) => Count(n)
    case Matrix(_, c, r) => MatrixDimension(c, r)
  }

  /** `opengl_enum`: declared by the five scalars the API can name as vertex types. */
  function OpenglEnum(t: HostType): Option<GLenum> {
    match t
    case ScalarType(Bool) => Some(GlBool)
    case ScalarType(Int32) => Some(GlInt)
    case ScalarType(UInt32) => Some(GlUnsignedInt)
    case ScalarType(Float) => Some(GlFloat)
    case ScalarType(Double) => Some(GlDouble)
    case _ => None
  }

  /** `color_enum()`: the single-channel-per-component colour format of a type. */
  function ColorEnum(t: HostType): Option<GLenum> {
    match t
    case ScalarType(Int8) => Some(R8I)
    case ScalarType(UInt8) => Some(R8UI)
    case ScalarType(Int16) => Some(R16I)
    case ScalarType(UInt16) => Some(R16UI)
    case ScalarType(Int32) => Some(R32I)
    case ScalarType(UInt32) => Some(R32UI)
    case ScalarType(Float) => Some(R32F)
    case Vector(IVec, D2) => Some(RG32I)
    case Vector(UVec, D2) => Some(RG32UI)
    case Vector(FVec, D2) => Some(RG32F)
    case Vector(IVec, D3) => Some(RGB32I)
    case Vector(UVec, D3) => Some(RGB32UI)
    case Vector(FVec, D3) => Some(RGB32F)
    case Vector(IVec, D4) => Some(RGBA32I)
    case Vector(UVec, D4) => Some(RGBA32UI)
    case Vector(FVec, D4) => Some(RGBA32F)
    case _ => None
  }

  /** `glsl_type()`: the GLSL spelling; the 8- and 16-bit integer scalars have none. */
  function GlslType(t: HostType): Option<string> {
    match t
    case ScalarType(Bool) => Some("bool")
    case ScalarType(Int32) => Some("int")
    case ScalarType(UInt32) => Some("uint")
    case ScalarType(Float) => Some("float")
    case ScalarType(Double) => Some("double")
    case ScalarType(_) => None
    case Vector(BVec, D2) => Some("bvec2")
    case Vector(IVec, D2) => Some("ivec2")
    case Vector(UVec, D2) => Some("uvec2")
    case Vector(FVec, D2) => Some("vec2")
    case Vector(DVec, D2) => Some("dvec2")
    case Vector(BVec, D3) => Some("bvec3")
    case Vector(IVec, D3) => Some("ivec3")
    case Vector(UVec, D3) => Some("uvec3")
    case Vector(FVec, D3) => Some("vec3")
    case Vector(DVec, D3) => Some("dvec3")
    case Vector(BVec, D4) => Some("bvec4")
    case Vector(IVec, D4) => Some("ivec4")
    case Vector(UVec, D4) => Some("uvec4")
    case Vector(FVec, D4) => Some("vec4")
    case Vector(DVec, D4) => Some("dvec4")
    case Matrix(FMat, D2, D2) => Some("mat2")
    case Matrix(FMat, D2, D3) => Some("mat2x3")
    case Matrix(FMat, D2, D4) => Some("mat2x4")
    case Matrix(FMat, D3, D2) => Some("mat3x2")
    case Matrix(FMat, D3, D3) => Some("mat3")
    case Matrix(FMat, D3, D4) => Some("mat3x4")
    case Matrix(FMat, D4, D2) => Some("mat4x2")
    case Matrix(FMat, D4, D3) => Some("mat4x3")
    case Matrix(FMat, D4, D4) => Some("mat4")
    case Matrix(DMat, D2, D2) => Some("dmat2")
    case Matrix(DMat, D2, D3) => Some("dmat2x3")
    case Matrix(DMat, D2, D4) => Some("dmat2x4")
    case Matrix(DMat, D3, D2) => Some("dmat3x2")
    case Matrix(DMat, D3, D3) => Some("dmat3")
    case Matrix(DMat, D3, D4) => Some("dmat3x4")
    case Matrix(DMat, D4, D2) => Some("dmat4x2")
    case Matrix(DMat, D4, D3) => Some("dmat4x3")
    case Matrix(DMat, D4, D4) => Some("dmat4")
  }

  /** `image_format()`: the image-load/store format qualifier of a type. */
  function ImageFormat(t: HostType): Option<string> {
    match t
    case ScalarType(Int8) => Some("r8i")
    case ScalarType(UInt8) => Some("r8ui")
    case ScalarType(Int16) => Some("r16i")
    case ScalarType(UInt16) => Some("r16ui")
    case ScalarType(Int32) => Some("r32i")
    case ScalarType(UInt32) => Some("r32ui")
    case ScalarType(Float) => Some("r32f")
    case Vector(IVec, D2) => Some("rg32i")
    case Vector(UVec, D2) => Some("rg32ui")
    case Vector(FVec, D2) => Some("rg32f")
    case Vector(IVec, D4) => Some("rgba32i")
    case Vector(UVec, D4) => Some("rgba32ui")
    case Vector(FVec, D4) => Some("rgba32f")
    case _ => None
  }

  /** `signed_type`: declared by the integer scalars and the ivecN/uvecN vectors. */
  function SignedType(t: HostType): Option<HostType> {
    match t
    case ScalarType(Int8) | ScalarType(UInt8) => Some(ScalarType(Int8))
    case ScalarType(Int16) | ScalarType(UInt16) => Some(ScalarType(Int16))
    case ScalarType(Int32) | ScalarType(UInt32) => Some(ScalarType(Int32))
    case Vector(IVec, n) => Some(Vector(IVec, n))
    case Vector(UVec, n) => Some(Vector(IVec, n))
    case _ => None
  }

  /** `unsigned_type`: declared by the same types as `signed_type`. */
  function UnsignedType(t: HostType): Option<HostType> {
    match t
    case ScalarType(Int8) | ScalarType(UInt8) => Some(ScalarType(UInt8))
    case ScalarType(Int16) | ScalarType(UInt16) => Some(ScalarType(UInt16))
    case ScalarType(Int32) | ScalarType(UInt32) => Some(ScalarType(UInt32))
    case Vector(IVec, n) => Some(Vector(UVec, n))
    case Vector(UVec, n) => Some(Vector(UVec, n))
    case _ => None
  }

  /** `opengl_type<E>::type`: the host type of each of the sixteen colour formats;
      it inverts `color_enum`. */
  function OpenglType(e: GLenum): (r: Option<HostType>)
    ensures r.Some? <==> IsColorEnum(e)
    ensures r.Some? ==> ColorEnum(r.value) == Some(e)
    ensures forall t: HostType :: ColorEnum(t) == Some(e) ==> r == Some(t)
  {
    match e
    case R8I => Some(ScalarType(Int8))
    case R8UI => Some(ScalarType(UInt8))
    case R16I => Some(ScalarType(Int16))
    case R16UI => Some(ScalarType(UInt16))
    case R32I => Some(ScalarType(Int32))
    case R32UI => Some(ScalarType(UInt32))
    case R32F => Some(ScalarType(Float))
    case RG32I => Some(Vector(IVec, D2))
    case RG32UI => Some(Vector(UVec, D2))
    case RG32F => Some(Vector(FVec, D2))
    case RGB32I => Some(Vector(IVec, D3))
    case RGB32UI => Some(Vector(UVec, D3))
    case RGB32F => Some(Vector(FVec, D3))
    case RGBA32I => Some(Vector(IVec, D4))
    case RGBA32UI => Some(Vector(UVec, D4))
    case RGBA32F => Some(Vector(FVec, D4))
    case _ => None
  }

  /** The free function `glsl_type(GLenum)`: the GLSL spelling of the host type of a
      32-bit colour format, and the empty string for every other enumerant. */
  function GlslTypeOfEnum(e: GLenum): (r: string)
    ensures |r| > 0 <==> Is32BitColorEnum(e)
    ensures Is32BitColorEnum(e) ==> Some(r) == GlslType(OpenglType(e).value)
  {
    match e
    case R32I | R32UI | R32F | RG32I | RG32UI | RG32F
       | RGB32I | RGB32UI | RGB32F | RGBA32I | RGBA32UI | RGBA32F =>
      GlslType(OpenglType(e).value).value
    case _ => ""
  }
}
