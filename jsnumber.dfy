/**
 * The JavaScript number built-ins the source uses, on unbounded integers: `parseInt`
 * (with and without radix 10), decimal printing of integers as template literals do
 * it, and `Math.round` of a quotient.
 */
module JsNumber {
  import opened Wrappers
  import JsString

  predicate IsDigit(c: char) {
    '0' <= c <= '9'
  }

  predicate IsHexDigit(c: char) {
    IsDigit(c) || 'a' <= c <= 'f' || 'A' <= c <= 'F'
  }

  function HexDigitValue(c: char): (v: nat)
    requires IsHexDigit(c)
    ensures v < 16
  {
    if IsDigit(c) then c as int - '0' as int
    else if 'a' <= c <= 'f' then c as int - 'a' as int + 10
    else c as int - 'A' as int + 10
  }

  function DigitChar(d: nat): (c: char)
    requires d < 10
    ensures IsDigit(c) && HexDigitValue(c) == d
  {
    ('0' as int + d) as char
  }

  /** The longest prefix of `s` made of digits of the given radix (10 or 16). */
  function DigitRun(s: string, hex: bool): (r: string)
    ensures |r| <= |s| && r == s[..|r|]
    ensures forall i :: 0 <= i < |r| ==> (if hex then IsHexDigit(r[i]) else IsDigit(r[i]))
    ensures |r| < |s| ==> !(if hex then IsHexDigit(s[|r|]) else IsDigit(s[|r|]))
  {
    if s != [] && (if hex then IsHexDigit(s[0]) else IsDigit(s[0])) then [s[0]] + DigitRun(s[1..], hex)
    else []
  }

  /** The value of a run of digits, most significant first. */
  function RunValue(ds: string, radix: nat): nat
    requires radix == 10 || radix == 16
    requires forall i :: 0 <= i < |ds| ==> IsHexDigit(ds[i])
  {
    if ds == [] then 0
    else RunValue(ds[..|ds| - 1], radix) * radix + HexDigitValue(ds[|ds| - 1])
  }

  /** `parseInt(s)` (`radix10` false) or `parseInt(s, 10)` (`radix10` true); `None` is
      NaN. Leading white space is skipped, one sign is read, then the longest run of
      digits; without a radix a `0x`/`0X` prefix switches to hexadecimal. */
  function ParseInt(s: string, radix10: bool): Option<int> {
    var t := JsString.TrimStart(s);
    var neg := t != [] && t[0] == '-';
    var u := if t != [] && (t[0] == '-' || t[0] == '+') then t[1..] else t;
    var hex := !radix10 && |u| >= 2 && u[0] == '0' && (u[1] == 'x' || u[1] == 'X');
    var body := if hex then u[2..] else u;
    var run := DigitRun(body, hex);
    if run == [] then None
    else
      var v: int := RunValue(run, if hex then 16 else 10);
      Some(if neg then -v else v)
  }

  /** The JavaScript idiom `parseInt(x) || d`: NaN and 0 (also -0) fall back to `d`. */
  function OrDefault(parsed: Option<int>, d: int): (r: int)
    ensures r == d || (parsed.Some? && r == parsed.value)
    ensures r == d <== parsed.None? || parsed.value == 0
    ensures r == parsed.value <== parsed.Some? && parsed.value != 0
  {
    match parsed
    case Some(v) => if v != 0 then v else d
    case None => d
  }

  /** The decimal digits of `n`, without leading zeros. */
  function NatToString(n: nat): (r: string)
    ensures |r| >= 1 && forall i :: 0 <= i < |r| ==> IsDigit(r[i])
    ensures |r| > 1 ==> r[0] != '0'
  {
    if n < 10 then [DigitChar(n)] else NatToString(n / 10) + [DigitChar(n % 10)]
  }

  /** `${i}` for an integer. */
  function IntToString(i: int): string {
    if i < 0 then "-" + NatToString(-i) else NatToString(i)
  }

  lemma {:induction false} NatToStringValue(n: nat)
    ensures RunValue(NatToString(n), 10) == n
  {
    if n >= 10 {
      var s := NatToString(n);
      assert s[..|s| - 1] == NatToString(n / 10);
      NatToStringValue(n / 10);
    }
  }

  /** Printing an integer and parsing it back, with or without radix 10, gives the
      integer: the pair is a round trip. */
  lemma ParseIntToString(i: int, radix10: bool)
    ensures ParseInt(IntToString(i), radix10) == Some(i)
  {
    var m: nat := if i < 0 then -i else i;
    var d := NatToString(m);
    var s := IntToString(i);
    assert !JsString.IsSpace(s[0]);
    assert JsString.TrimStart(s) == s;
    var u := if i < 0 then s[1..] else s;
    assert u == d;
    assert DigitRun(d, false) == d by {
      DigitRunAll(d);
    }
    NatToStringValue(m);
  }

  lemma {:induction false} DigitRunAll(d: string)
    requires forall i :: 0 <= i < |d| ==> IsDigit(d[i])
    ensures DigitRun(d, false) == d
  {
    if d != [] { DigitRunAll(d[1..]); }
  }

  /** `Math.round(n / d)`: the integer nearest to the quotient, halves rounded up.
      The first ensures is `r - 1/2 <= n / d < r + 1/2` multiplied out by `2 * d`. */
  function RoundDiv(n: int, d: int): (r: int)
    requires d > 0
    ensures 2 * d * r <= 2 * n + d < 2 * d * (r + 1)
    ensures n >= 0 ==> r >= 0
  {
    (2 * n + d) / (2 * d)
  }

  /** The percentages of the statistics page, `Math.round(a / b * 100)`, computed on
      the exact quotient: the nearest integer to `100 * a / b`, halves rounded up. */
  function Percent(a: nat, b: nat): (r: nat)
    requires b > 0
    ensures 2 * b * r <= 200 * a + b < 2 * b * (r + 1)
  {
    RoundDiv(100 * a, b)
  }

}
