/** The total coercion helpers `safe_int`, `safe_float` and `safe_str`: every
    failure falls back to the caller's default. */
module HouseCoercion {
  import opened Text
  import opened HouseSchema

  datatype Option<T> = None | Some(value: T)

  /** What the helpers borrow from Python's run time and this model does not
      define: `float(text)` on a string (None where it raises) and `str(value)`
      on a number, array or object. */
  datatype Conversions = Conversions(parseFloat: string -> Option<real>, show: JsonValue -> string)

  /** The characters Python's `str()` writes for an `int` or a `float`:
      digits, sign, point, exponent, and the letters of "inf" and "nan". */
  predicate NumeralChar(c: char) {
    ('0' <= c <= '9') || c == '+' || c == '-' || c == '.'
    || c == 'e' || c == 'i' || c == 'n' || c == 'f' || c == 'a'
  }

  predicate Numeral(t: string) {
    forall i :: 0 <= i < |t| ==> NumeralChar(t[i])
  }

  predicate OpensBracket(c: char) {
    c == '[' || c == '{'
  }

  /** `show` writes what Python's `str()` writes: a numeral for a number, and
      text opening with a bracket for an array or an object. */
  ghost predicate ShowsAsPython(conv: Conversions) {
    (forall x :: Numeral(conv.show(JNum(x))))
    && conv.show(JOther) != [] && OpensBracket(conv.show(JOther)[0])
  }

  /** `int(x)` on a float: truncation toward zero. */
  function TruncateTowardZero(x: real): (n: int)
    ensures 0.0 <= x ==> n as real <= x < n as real + 1.0
    ensures x < 0.0 ==> n as real - 1.0 < x <= n as real
  {
    if x >= 0.0 then x.Floor else -((-x).Floor)
  }

  /** `float(value)` on a value that is not None; None where Python raises
      (arrays and objects, unparseable strings). */
  function ToFloat(v: JsonValue, conv: Conversions): (r: Option<real>)
    ensures v.JNull? || v.JOther? ==> r.None?
    ensures v.JNum? ==> r == Some(v.x)
    ensures v.JBool? ==> r == Some(if v.b then 1.0 else 0.0)
  {
    match v
    case JBool(b) => Some(if b then 1.0 else 0.0)
    case JNum(x) => Some(x)
    case JStr(s) => conv.parseFloat(s)
    case _ => None
  }

  /** `str(value)` on a value that is not None. */
  function ToStr(v: JsonValue, conv: Conversions): (text: string)
    ensures v.JStr? ==> text == v.s
    ensures v.JBool? ==> text == if v.b then "True" else "False"
  {
    match v
    case JStr(s) => s
    case JBool(b) => if b then "True" else "False"
    case _ => conv.show(v)
  }

  /** `safe_int`: `int(float(value))`, or the default for None and for
      anything `float` rejects. */
  function SafeInt(v: JsonValue, default: int, conv: Conversions): (n: int)
    ensures v.JNull? || ToFloat(v, conv).None? ==> n == default
    ensures !v.JNull? && ToFloat(v, conv).Some? ==> n == TruncateTowardZero(ToFloat(v, conv).value)
  {
    if v.JNull? then default
    else match ToFloat(v, conv)
      case None => default
      case Some(x) => TruncateTowardZero(x)
  }

  /** `safe_float`: `float(value)`, or the default for None and for anything
      `float` rejects. */
  function SafeFloat(v: JsonValue, default: real, conv: Conversions): (x: real)
    ensures v.JNull? || ToFloat(v, conv).None? ==> x == default
    ensures !v.JNull? && ToFloat(v, conv).Some? ==> x == ToFloat(v, conv).value
    ensures v.JNum? ==> x == v.x
  {
    if v.JNull? then default
    else match ToFloat(v, conv)
      case None => default
      case Some(x) => x
  }

  /** `safe_str`: the stripped text of the value, or the default for None and
      for text that strips to nothing. */
  function SafeStr(v: JsonValue, default: string, conv: Conversions): (s: string)
    ensures v.JNull? ==> s == default
    ensures v.JStr? && AllSpace(v.s) ==> s == default
    ensures v.JStr? && !AllSpace(v.s) ==> s == Strip(v.s) && s != [] && Stripped(s)
    ensures s == default || (s != [] && Stripped(s))
  {
    if v.JNull? then default
    else
      var t := Strip(ToStr(v, conv));
      if t == [] then default else t
  }

  /** Text with nothing to strip passes through `safe_str` unchanged. */
  lemma SafeStrKeepsStripped(s: string, default: string, conv: Conversions)
    requires s != [] && Stripped(s)
    ensures SafeStr(JStr(s), default, conv) == s
  {
    StripStripped(s);
  }

  /** A whole number passes through `safe_int` unchanged, whatever the default. */
  lemma SafeIntWhole(k: int, default: int, conv: Conversions)
    ensures SafeInt(JNum(k as real), default, conv) == k
  {
  }

  /** `safe_float` parses text and reads a boolean as 0 or 1: "12.5" gives
      12.5, `true` gives 1.0, and text `float` rejects gives the default. */
  lemma SafeFloatExamples(default: real, conv: Conversions)
    requires conv.parseFloat("12.5") == Some(12.5) && conv.parseFloat("n/a").None?
    ensures SafeFloat(JStr("12.5"), default, conv) == 12.5
    ensures SafeFloat(JBool(true), default, conv) == 1.0
    ensures SafeFloat(JStr("n/a"), default, conv) == default
  {
  }

  /** `safe_int` truncates toward zero: "12.9" gives 12 and -3.7 gives -3. */
  lemma SafeIntTruncates(default: int, conv: Conversions)
    requires conv.parseFloat("12.9") == Some(12.9)
    ensures SafeInt(JStr("12.9"), default, conv) == 12
    ensures SafeInt(JNum(-3.7), default, conv) == -3
    ensures SafeInt(JBool(true), default, conv) == 1
    ensures SafeInt(JOther, default, conv) == default
  {
  }
}
