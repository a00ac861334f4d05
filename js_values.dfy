/** JavaScript values as the request handlers see them in a parsed JSON body,
    and the coercions the handlers apply to them: truthiness (`!x`, `x || d`),
    `parseFloat`, and how SQLite stores a JavaScript number. */
module JsValues {

  datatype Option<+T> = None | Some(value: T)

  /** A field read from a request body: absent (`undefined`), JSON `null`,
      a string or a (finite) number. */
  datatype Value = Undefined | Null | Str(s: string) | Num(n: real)

  /** ECMAScript ToBoolean on the values above: `!v` holds exactly when `!Truthy(v)`. */
  predicate Truthy(v: Value)
    ensures !Truthy(v) <==> v == Undefined || v == Null || v == Str("") || v == Num(0.0)
  {
    match v
    case Undefined => false
    case Null => false
    case Str(s) => s != ""
    case Num(n) => n != 0.0
  }

  /** `v || fallback` */
  function Or(v: Value, fallback: Value): (r: Value)
    ensures Truthy(v) ==> r == v
    ensures !Truthy(v) ==> r == fallback
    ensures Truthy(r) || r == fallback
  {
    if Truthy(v) then v else fallback
  }

  /** What `parseFloat` returns: a finite number or NaN. */
  datatype Number = Finite(r: real) | NaN

  /** A JavaScript number bound as an SQL parameter: SQLite stores NaN as NULL. */
  function SqlNumber(x: Number): Value {
    match x
    case Finite(r) => Num(r)
    case NaN => Null
  }

  predicate IsDigit(c: char) {
    '0' <= c <= '9'
  }

  /** The white space `parseFloat` skips before the number. */
  predicate IsSpace(c: char) {
    c == ' ' || c == '\t' || c == '\n' || c == '\r' || c == '\U{B}' || c == '\U{C}'
    || c == '\U{A0}' || c == '\U{FEFF}'
  }

  /** `s` without its leading white space. */
  function TrimStart(s: string): (t: string)
    ensures |t| <= |s| && t == s[|s| - |t|..]
    ensures t == [] || !IsSpace(t[0])
  {
    if s != [] && IsSpace(s[0]) then TrimStart(s[1..]) else s
  }

  /** Length of the longest prefix of `s` made of decimal digits. */
  function DigitRun(s: string): (k: nat)
    ensures k <= |s|
    ensures forall i :: 0 <= i < k ==> IsDigit(s[i])
    ensures k == |s| || !IsDigit(s[k])
  {
    if s != [] && IsDigit(s[0]) then 1 + DigitRun(s[1..]) else 0
  }

  /** The value of a string of decimal digits, most significant first. */
  function DigitsValue(ds: string): nat
    requires forall i :: 0 <= i < |ds| ==> IsDigit(ds[i])
  {
    if ds == [] then 0
    else
      assert IsDigit(ds[|ds| - 1]);
      DigitsValue(ds[..|ds| - 1]) * 10 + (ds[|ds| - 1] as int - '0' as int)
  }

  function Pow10(k: nat): (p: nat)
    ensures p >= 1
  {
    if k == 0 then 1 else 10 * Pow10(k - 1)
  }

  /** The factor an exponent part `e[+-]digits` at the start of `e` contributes;
      1 when `e` does not start with a complete exponent part. */
  function ExponentScale(e: string): real {
    if |e| >= 2 && (e[0] == 'e' || e[0] == 'E') then
      var rest := if e[1] == '+' || e[1] == '-' then e[2..] else e[1..];
      var k := DigitRun(rest);
      if k == 0 then 1.0
      else
        var p := Pow10(DigitsValue(rest[..k])) as real;
        if e[1] == '-' then 1.0 / p else p
    else 1.0
  }

  /** The unsigned decimal literal at the start of `t` (`digits[.digits][exponent]`,
      with at least one digit before or after the point), or NaN when there is none. */
  function ParseUnsigned(t: string): Number {
    var n := DigitRun(t);
    var hasPoint := n < |t| && t[n] == '.';
    var frac := if hasPoint then t[n + 1..] else [];
    var f := DigitRun(frac);
    if n + f == 0 then NaN
    else
      var fraction := DigitsValue(frac[..f]) as real / Pow10(f) as real;
      var rest := if hasPoint then frac[f..] else t[n..];
      Finite((DigitsValue(t[..n]) as real + fraction) * ExponentScale(rest))
  }

  function Negate(x: Number): Number {
    match x
    case Finite(r) => Finite(-r)
    case NaN => NaN
  }

  /** `parseFloat(v)`: the argument is converted to a string, leading white space
      is skipped, and the longest decimal literal prefix (with an optional sign)
      is read; NaN when there is none. */
  function ParseFloat(v: Value): (x: Number)
    ensures v.Num? ==> x == Finite(v.n)
    ensures v.Undefined? || v.Null? ==> x == NaN
  {
    match v
    case Undefined => NaN  // String(undefined) is "undefined"
    case Null => NaN       // String(null) is "null"
    case Num(n) => Finite(n)
    case Str(s) => ParseSigned(TrimStart(s))
  }

  /** A decimal literal with an optional leading sign at the start of `t`. */
  function ParseSigned(t: string): Number {
    if t != [] && t[0] == '-' then Negate(ParseUnsigned(t[1..]))
    else if t != [] && t[0] == '+' then ParseUnsigned(t[1..])
    else ParseUnsigned(t)
  }

  /** A run of digits is read as its decimal value, whatever non-numeric text follows it. */
  lemma {:induction false} ParseUnsignedDigits(ds: string, tail: string)
    requires ds != [] && forall i :: 0 <= i < |ds| ==> IsDigit(ds[i])
    requires tail == [] || (!IsDigit(tail[0]) && tail[0] != '.' && tail[0] != 'e' && tail[0] != 'E')
    ensures ParseUnsigned(ds + tail) == Finite(DigitsValue(ds) as real)
  {
    var t := ds + tail;
    DigitRunPrefix(ds, tail);
    var n := DigitRun(t);
    assert n == |ds|;
    assert t[..n] == ds;
    assert t[n..] == tail;
    var hasPoint := n < |t| && t[n] == '.';
    assert !hasPoint;
    var frac: string := [];
    assert DigitRun(frac) == 0;
    assert DigitsValue(frac[..0]) == 0;
    assert ExponentScale(tail) == 1.0;
  }

  /** `parseFloat` skips any amount of leading white space. */
  lemma {:induction false} TrimSpaces(pad: string, s: string)
    requires forall i :: 0 <= i < |pad| ==> IsSpace(pad[i])
    requires s == [] || !IsSpace(s[0])
    ensures TrimStart(pad + s) == s
  {
    if pad != [] {
      assert (pad + s)[1..] == pad[1..] + s;
      TrimSpaces(pad[1..], s);
    }
  }

  /** The digit run of `ds + tail` is exactly `ds` when `tail` does not start with a digit. */
  lemma {:induction false} DigitRunPrefix(ds: string, tail: string)
    requires forall i :: 0 <= i < |ds| ==> IsDigit(ds[i])
    requires tail == [] || !IsDigit(tail[0])
    ensures DigitRun(ds + tail) == |ds|
  {
    if ds != [] {
      assert (ds + tail)[1..] == ds[1..] + tail;
      DigitRunPrefix(ds[1..], tail);
    }
  }
}
