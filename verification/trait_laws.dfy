/**
 Consistency laws of the trait table: the colour-format round trip, matrix
 dimension arithmetic, signed/unsigned pairing, the GLSL prefix convention and
 the relation between image formats and colour formats.
 */
module TraitLaws {
  import opened Wrappers
  import opened GLEnums
  import opened TypeTraits

  predicate IsSigned(s: Scalar) {
    s == Int8 || s == Int16 || s == Int32
  }

  /** Bit width of the integer scalars; zero for the others. */
  function IntegerWidth(s: Scalar): nat {
    match s
    case Int8 | UInt8 => 8
    case Int16 | UInt16 => 16
    case Int32 | UInt32 => 32
    case _ => 0
  }

  function LowerChar(c: char): char {
    if 'A' <= c <= 'Z' then (c as int - 'A' as int + 'a' as int) as char else c
  }

  function Lower(s: string): string {
    seq(|s|, i requires 0 <= i < |s| => LowerChar(s[i]))
  }

  /** The GLSL naming scheme, independent of the table: a one-letter element
      prefix, then `vec`/`mat`, then the extent(s). */
  function VecPrefix(k: VecKind): string {
    match k
    case BVec => "b"
    case IVec => "i"
    case UVec => "u"
    case FVec => ""
    case DVec => "d"
  }

  function MatPrefix(k: MatKind): string {
    if k == FMat then "" else "d"
  }

  function ReferenceSpelling(t: HostType): Option<string> {
    match t
    case ScalarType(s) =>
      if s == Bool then Some("bool")
      else if s == Int32 then Some("int")
      else if s == UInt32 then Some("uint")
      else if s == Float then Some("float")
      else if s == Double then Some("double")
      else None
    case Vector(k, n) => Some(VecPrefix(k) + "vec" + [Digit(n)])
    case Matrix(k, c, r) =>
      Some(MatPrefix(k) + "mat" + (if c == r then [Digit(c)] else [Digit(c), 'x', Digit(r)]))
  }

  /** The table's spellings follow the GLSL naming scheme for every type. */
  lemma GlslTypeFollowsNamingScheme(t: HostType)
    ensures GlslType(t) == ReferenceSpelling(t)
  {
    match t
    case ScalarType(_) =>
    case Vector(k, n) =>
      assert VecPrefix(k) + "vec" + [Digit(n)] == GlslType(t).value;
    case Matrix(k, c, r) =>
      var extent := if c == r then [Digit(c)] else [Digit(c), 'x', Digit(r)];
      assert MatPrefix(k) + "mat" + extent == GlslType(t).value;
  }

  /** Converting a type to its colour format and back through `glsl_type(GLenum)`
      gives the type's own spelling, for every type that declares both. */
  lemma ColorEnumGlslRoundTrip(t: HostType)
    requires ColorEnum(t).Some? && GlslType(t).Some?
    ensures GlslTypeOfEnum(ColorEnum(t).value) == GlslType(t).value
  {
  }

  /** The types that declare both are exactly int32, uint32, float and the
      ivecN, uvecN and vecN vectors. */
  lemma ColorAndGlslTypes(t: HostType)
    ensures ColorEnum(t).Some? && GlslType(t).Some? <==>
      ((t.ScalarType? && t.scalar in {Int32, UInt32, Float}) ||
       (t.Vector? && t.vkind in {IVec, UVec, FVec}))
  {
  }

  /** `opengl_type` inverts `color_enum` on all sixteen colour formats. This only
      restates the ensures of `OpenglType` as a law of the table, for reference. */
  lemma OpenglTypeInvertsColorEnum(e: GLenum)
    requires IsColorEnum(e)
    ensures OpenglType(e).Some? && ColorEnum(OpenglType(e).value) == Some(e)
  {
  }

  /** `dimension` is 1 for scalars, N for vectors and C*R for matrices. */
  lemma DimensionArithmetic(t: HostType)
    ensures t.ScalarType? ==> Dimension(t) == 1
    ensures t.Vector? ==> Dimension(t) == Count(t.n)
    ensures t.Matrix? ==> Dimension(t) == Count(t.cols) * Count(t.rows)
  {
  }

  /** `signed_type` and `unsigned_type` are declared by the same types, keep the
      integer width and the dimension, fix signed resp. unsigned types, and are
      mutually inverse on each pair. */
  lemma SignedUnsignedPairing(t: HostType)
    ensures SignedType(t).Some? <==> UnsignedType(t).Some?
    ensures SignedType(t).Some? ==>
      var s, u := SignedType(t).value, UnsignedType(t).value;
      && IsSigned(ElementType(s)) && !IsSigned(ElementType(u))
      && IntegerWidth(ElementType(s)) == IntegerWidth(ElementType(t)) == IntegerWidth(ElementType(u)) > 0
      && Dimension(s) == Dimension(t) == Dimension(u)
      && (IsSigned(ElementType(t)) ==> s == t)
      && (!IsSigned(ElementType(t)) ==> u == t)
      && UnsignedType(s) == Some(u) && SignedType(u) == Some(s)
  {
  }

  /** `opengl_enum` is declared exactly by the five scalars bool, int32, uint32,
      float and double; every vector and matrix is built from one of them. */
  lemma OpenglEnumScalars(t: HostType)
    ensures OpenglEnum(t).Some? <==>
      t.ScalarType? && t.scalar in {Bool, Int32, UInt32, Float, Double}
    ensures !t.ScalarType? ==>
      var e := ScalarType(ElementType(t));
      OpenglEnum(e).Some? && ElementType(e) == ElementType(t)
  {
  }

  /** The first letter of a GLSL spelling identifies the element type: `b` bool,
      `i` int32, `u` uint32, `d` double; float spellings start with none of these. */
  lemma GlslPrefixByElementType(t: HostType)
    requires GlslType(t).Some?
    ensures var s := GlslType(t).value;
      && |s| > 0
      && (s[0] == 'b' <==> ElementType(t) == Bool)
      && (s[0] == 'i' <==> ElementType(t) == Int32)
      && (s[0] == 'u' <==> ElementType(t) == UInt32)
      && (s[0] == 'd' <==> ElementType(t) == Double)
  {
  }

  /** `image_format` is declared by the colour-format types except the three-component
      vectors, and is the lower-case name of the type's colour format. */
  lemma ImageFormatMatchesColorEnum(t: HostType)
    ensures ImageFormat(t).Some? <==> ColorEnum(t).Some? && !(t.Vector? && t.n == D3)
    ensures ImageFormat(t).Some? ==> ImageFormat(t).value == Lower(EnumName(ColorEnum(t).value))
  {
    if ImageFormat(t).Some? {
      var name := EnumName(ColorEnum(t).value);
      assert Lower(name) == ImageFormat(t).value;
    }
  }
}
