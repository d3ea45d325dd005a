/** Values that the switch expressions of the samples inspect. */
module Values {

  const MinInt32: int := -0x8000_0000
  const MaxInt32: int := 0x7FFF_FFFF

  /** C#'s `int`: a 32-bit two's complement integer. */
  type Int32 = x: int | MinInt32 <= x <= MaxInt32

  datatype Option<+T> = None | Some(value: T)

  /** C#'s `char`: one UTF-16 code unit. */
  type CodeUnit = bv16

  /** C#'s `string`: a sequence of UTF-16 code units. A character outside the
      Basic Multilingual Plane takes two of them, and lone surrogates are allowed. */
  type CsString = seq<CodeUnit>

  /** The runtime types a type pattern in the samples names; both are sealed, so "is-a" is equality. */
  datatype TypeTag = StringType | IntType

  /** A value seen through C#'s `object`: a boxed `int`, a `string`, `null`,
      or an instance of any other type. */
  datatype Value =
    | VInt(n: Int32)
    | VStr(s: CsString)
    | VNull
    | VOther

  /** The runtime type of a value, when it is one a type pattern can name.
      `null` has no runtime type, so no type pattern ever matches it. */
  function TypeOf(v: Value): (t: Option<TypeTag>)
    ensures t == Some(IntType) <==> v.VInt?
    ensures t == Some(StringType) <==> v.VStr?
  {
    match v
    case VInt(_) => Some(IntType)
    case VStr(_) => Some(StringType)
    case VNull => None
    case VOther => None
  }

  /** What an arm of a switch expression yields: plain text, or an interpolated
      string `$"{before}{hole}{after}"` whose one hole is kept unformatted.
      The literal pieces are Dafny strings: every literal the classifiers write is
      ASCII, one UTF-16 code unit per character, so the two encodings agree on
      them. Only the hole `s` can carry arbitrary code units, and it is a `CsString`. */
  datatype Msg =
    | Text(text: string)
    | WithInt(before: string, n: int, after: string)
    | WithString(before: string, s: CsString, after: string)
}
