/** Timestamped attribute values and their numeric reading. Float parsing
    is a foreign library; it enters as a parameter constrained only by the
    outcome conventions the library documents. */
module Values {

  /** An IEEE 754 binary64 result as far as this model cares: a finite value,
      an infinity, or not-a-number. */
  datatype Float64 = Finite(r: real) | PosInf | NegInf | NaN

  /** The two failure kinds of the float parser. */
  datatype NumError = ErrSyntax | ErrRange

  datatype Option<T> = None | Some(value: T)

  /** What the float parser hands back: a number and an optional error. */
  datatype ParseResult = ParseResult(f: Float64, err: Option<NumError>)

  /** The parser's documented outcomes: a malformed string yields zero, and
      a well-formed string out of range yields an infinity. */
  predicate ParseOutcome(p: ParseResult) {
    && (p.err == Some(ErrSyntax) ==> p.f == Finite(0.0))
    && (p.err == Some(ErrRange) ==> p.f == PosInf || p.f == NegInf)
  }

  /** A value as the server reports it: text plus the time it was read
      (the time type is defined elsewhere, so it is a type parameter). */
  datatype Value<Time> = Value(value: string, time: Time)

  /** The numeric reading of a value; the parser's error is discarded, so a
      non-numeric value reads as zero and an out-of-range one as an infinity. */
  function Num<Time>(v: Value<Time>, parseFloat: string -> ParseResult): (f: Float64)
    requires ParseOutcome(parseFloat(v.value))
    ensures parseFloat(v.value).err == Some(ErrSyntax) ==> f == Finite(0.0)
    ensures parseFloat(v.value).err == Some(ErrRange) ==> f == PosInf || f == NegInf
    ensures parseFloat(v.value).err == None ==> f == parseFloat(v.value).f
  {
    parseFloat(v.value).f
  }

  /** A malformed value cannot be told apart from the text "0": with any
      parser that reads "0" as zero without error, both read as zero. */
  lemma MalformedReadsAsZero<Time>(v: Value<Time>, parseFloat: string -> ParseResult)
    requires ParseOutcome(parseFloat(v.value)) && parseFloat(v.value).err == Some(ErrSyntax)
    requires parseFloat("0") == ParseResult(Finite(0.0), None)
    ensures Num(v, parseFloat) == Num(Value("0", v.time), parseFloat) == Finite(0.0)
  {
  }
}
