/** The JavaScript values that the server's session code inspects or prints:
    the optional `event` and `id` arguments of `send` (with JavaScript
    truthiness and template-literal conversion) and the parsed JSON values
    carried by requests and stream payloads. */
module JsValues {

  datatype Option<T> = None | Some(value: T)

  /** An optional argument of `send`: `undefined`, a string or an integer. */
  datatype JsArg = Undefined | Str(s: string) | Num(n: int)

  /** JavaScript truthiness restricted to the values of JsArg:
      `undefined`, `""` and `0` are falsy, everything else is truthy. */
  function Truthy(v: JsArg): (b: bool)
    ensures b <==> v != Undefined && v != Str("") && v != Num(0)
  {
    match v
    case Undefined => false
    case Str(s) => s != ""
    case Num(n) => n != 0
  }

  /** A parsed JSON value, as produced by the body parser and consumed by
      the JSON serialiser (numbers are restricted to integers). */
  datatype Json =
    | JNull
    | JBool(b: bool)
    | JNum(n: int)
    | JStr(s: string)
    | JArr(items: seq<Json>)
    | JObj(members: seq<(string, Json)>)

  predicate IsDigit(c: char) {
    '0' <= c <= '9'
  }

  predicate AllDigits(s: string) {
    forall i :: 0 <= i < |s| ==> IsDigit(s[i])
  }

  function DigitChar(d: nat): (c: char)
    requires d < 10
    ensures IsDigit(c)
  {
    ('0' as int + d) as char
  }

  function DigitValue(c: char): (d: nat)
    requires IsDigit(c)
    ensures d < 10 && DigitChar(d) == c
  {
    c as int - '0' as int
  }

  /** The decimal text of a natural number, as JavaScript prints it:
      digits only, at least one, and no leading zero. */
  function Decimal(n: nat): (r: string)
    ensures |r| >= 1 && AllDigits(r)
    ensures |r| > 1 ==> r[0] != '0'
    ensures n < 10 <==> |r| == 1
  {
    if n < 10 then [DigitChar(n)] else Decimal(n / 10) + [DigitChar(n % 10)]
  }

  /** The number a string of decimal digits denotes: the inverse of Decimal. */
  function DecimalValue(s: string): nat
    requires AllDigits(s)
  {
    if s == [] then 0 else 10 * DecimalValue(s[..|s| - 1]) + DigitValue(s[|s| - 1])
  }

  /** Reading back the printed decimal gives the number: distinct counter
      values are printed as distinct ids. */
  lemma {:induction false} DecimalRoundTrip(n: nat)
    ensures DecimalValue(Decimal(n)) == n
  {
    var d := Decimal(n);
    if n < 10 {
      assert d[..0] == [];
      assert DigitValue(DigitChar(n)) == n;
    } else {
      DecimalRoundTrip(n / 10);
      assert d[..|d| - 1] == Decimal(n / 10);
      assert d[|d| - 1] == DigitChar(n % 10);
      assert DigitValue(DigitChar(n % 10)) == n % 10;
    }
  }

  lemma DecimalInjective(m: nat, n: nat)
    requires Decimal(m) == Decimal(n)
    ensures m == n
  {
    DecimalRoundTrip(m);
    DecimalRoundTrip(n);
  }

  /** The text a template literal `${v}` produces for v. */
  function Text(v: JsArg): (r: string)
    ensures Truthy(v) ==> r != ""
    ensures v.Num? && v.n >= 0 ==> AllDigits(r) && DecimalValue(r) == v.n
    ensures v.Num? && v.n < 0 ==> r[0] == '-' && AllDigits(r[1..]) && DecimalValue(r[1..]) == -v.n
  {
    match v
    case Undefined => "undefined"
    case Str(s) => s
    case Num(n) =>
      if n < 0 then
        DecimalRoundTrip(-n);
        assert ("-" + Decimal(-n))[1..] == Decimal(-n);
        "-" + Decimal(-n)
      else
        DecimalRoundTrip(n);
        Decimal(n)
  }
}
