/**
 * The storage translator for `Integer` values: an integer is stored as number
 * data, and number data is read back clamped to the 32-bit `int` range.
 */
module IntegerTranslator {
  import opened JavaLang

  /** Stored data, as far as the translator looks at it: number data that
      holds a `long`, or data of another kind. */
  datatype Data = NumberData(integer: Long) | OtherData

  datatype TranslationError = NotANumber

  function ErrorMessage(e: TranslationError): string
  {
    match e
    case NotANumber => "Given data is not a number."
  }

  /** Java's `Long.min` and `Long.max`. */
  function Min(a: Long, b: Long): Long
  {
    if a <= b then a else b
  }

  function Max(a: Long, b: Long): Long
  {
    if a >= b then a else b
  }

  /** The `long` clamped into the `int` range. */
  function Clamp(n: Long): (r: Int32)
    ensures INT_MIN <= n <= INT_MAX ==> r == n
    ensures n > INT_MAX ==> r == INT_MAX
    ensures n < INT_MIN ==> r == INT_MIN
  {
    Max(INT_MIN, Min(INT_MAX, n))
  }

  /** `toData`: an integer becomes number data. */
  function ToData(i: Int32): (d: Data)
    ensures d.NumberData? && d.integer == i
  {
    NumberData(i)
  }

  /** `fromData`: data that is not a number is refused; a number is clamped
      into the `int` range. */
  function FromData(d: Data): (r: Result<Int32, TranslationError>)
    ensures r.Ok? <==> d.NumberData?
    ensures r.Err? ==> r.error == NotANumber
    ensures d.NumberData? && INT_MIN <= d.integer <= INT_MAX ==> r == Ok(d.integer)
    ensures d.NumberData? && d.integer > INT_MAX ==> r == Ok(INT_MAX)
    ensures d.NumberData? && d.integer < INT_MIN ==> r == Ok(INT_MIN)
  {
    if !d.NumberData? then Err(NotANumber)
    else Ok(Clamp(d.integer))
  }

  /** Every `int` survives a round trip through number data. */
  lemma RoundTrip(i: Int32)
    ensures FromData(ToData(i)) == Ok(i)
  {
  }

  /** Clamping keeps order, and a clamped value is clamped to itself. */
  lemma ClampMonotone(a: Long, b: Long)
    requires a <= b
    ensures Clamp(a) <= Clamp(b)
    ensures Clamp(Clamp(a)) == Clamp(a)
  {
  }

  /** The clamped value is the `int` nearest to the stored number. */
  lemma ClampNearest(n: Long, i: Int32)
    ensures Distance(Clamp(n), n) <= Distance(i, n)
  {
  }

  function Distance(a: int, b: int): nat
  {
    if a <= b then b - a else a - b
  }
}
