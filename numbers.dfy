// JavaScript's numeric conversions of strings, on the simplified decimal grammar of
// `Strings.ParseDecimal` (no exponent, hexadecimal, Infinity or NaN literals).

module JsNumbers {
  import opened Strings

  /** `Number(s)`: surrounding whitespace is ignored, blank text is 0, anything that is
      not a numeral is NaN (`None`). */
  function NumberOf(s: string): Option<real>
  {
    var t := Trim(s);
    if t == [] then Some(0.0) else ParseDecimal(t)
  }

  /** `Number(s) || 0`: NaN becomes 0. */
  function NumberOrZero(s: string): real
  {
    match NumberOf(s)
    case Some(x) => x
    case None => 0.0
  }

  lemma NumberOfBlank(s: string)
    requires IsBlank(s)
    ensures NumberOf(s) == Some(0.0) && NumberOrZero(s) == 0.0
  {
    TrimEmptyIffBlank(s);
  }

  lemma TrimOfUnpadded(s: string)
    requires s != [] && !IsSpace(s[0]) && !IsSpace(s[|s| - 1])
    ensures Trim(s) == s
  {
    assert TrimLeft(s) == s;
  }

  /** A numeral without surrounding whitespace converts to its value. */
  lemma NumberOfNumeral(s: string)
    requires ParseDecimal(s).Some?
    requires !IsSpace(s[0]) && !IsSpace(s[|s| - 1])
    ensures NumberOf(s) == ParseDecimal(s)
    ensures NumberOrZero(s) == ParseDecimal(s).value
  {
    TrimOfUnpadded(s);
  }

  /** A text that is not blank and whose trimmed form is not a numeral is NaN, so
      `Number(s) || 0` is 0. */
  lemma NumberOfGarbage(s: string)
    requires !IsBlank(s) && ParseDecimal(Trim(s)).None?
    ensures NumberOf(s).None? && NumberOrZero(s) == 0.0
  {
    TrimEmptyIffBlank(s);
  }

  function SignLength(s: string): (n: nat)
    ensures n <= |s| && (n == 1 <==> s != [] && (s[0] == '-' || s[0] == '+'))
  {
    if s != [] && (s[0] == '-' || s[0] == '+') then 1 else 0
  }

  /** Length of the longest prefix of `s` that is a numeral; 0 when there is none. */
  function NumeralPrefix(s: string): (k: nat)
    ensures k <= |s|
  {
    var sg := SignLength(s);
    var body := s[sg..];
    var w := DigitRun(body);
    if w < |body| && body[w] == '.' then
      var f := DigitRun(body[w + 1..]);
      if w == 0 && f == 0 then 0
      else
        sg + w + 1 + f
    else if w == 0 then 0
    else
      sg + w
  }

  lemma DigitRunOfDigits(s: string, w: nat)
    requires w <= |s| && AllDigits(s[..w])
    ensures DigitRun(s) >= w
    decreases w
  {
    if w > 0 {
      assert IsDigit(s[..w][0]);
      DigitRunOfDigits(s[1..], w - 1);
      assert s[1..][..w - 1] == s[..w][1..];
    }
  }

  /** `parseFloat(s)`: leading whitespace skipped, then the longest numeral prefix;
      NaN when there is none. */
  function ParseFloat(s: string): Option<real>
  {
    var t := TrimLeft(s);
    var k := NumeralPrefix(t);
    if k == 0 then None else ParseDecimal(t[..k])
  }

  /** `parseFloat(s) || 0`. */
  function ParseFloatOrZero(s: string): real
  {
    match ParseFloat(s)
    case Some(x) => x
    case None => 0.0
  }

  /** parseFloat agrees with the numeral's value when the whole text is a numeral. */
  lemma {:induction false} ParseFloatOfNumeral(s: string)
    requires ParseDecimal(s).Some? && !IsSpace(s[0])
    ensures ParseFloat(s) == ParseDecimal(s)
  {
    assert TrimLeft(s) == s;
    var sg := SignLength(s);
    var body := s[sg..];
    var w := DigitRun(body);
    if w < |body| && body[w] == '.' {
      var rest := body[w..];
      var f := rest[1..];
      assert AllDigits(f);
      assert body[w + 1..] == f;
      DigitRunOfDigits(f, |f|);
      assert f[..|f|] == f;
      assert DigitRun(f) == |f|;
      assert NumeralPrefix(s) == |s|;
    } else {
      assert w == |body|;
      assert NumeralPrefix(s) == |s|;
    }
    assert s[..|s|] == s;
  }

  /** `parseInt(s, 10)`: leading whitespace skipped, an optional sign, then as many
      digits as follow; NaN when there are none. */
  function ParseInt(s: string): (r: Option<int>)
  {
    var t := TrimLeft(s);
    var sg := SignLength(t);
    var body := t[sg..];
    var w := DigitRun(body);
    if w == 0 then None
    else
      var n: int := DigitsValue(body[..w]);
      Some(if sg == 1 && t[0] == '-' then -n else n)
  }

  /** parseInt stops at the decimal point: `whole.frac` gives the value of `whole`. */
  lemma ParseIntStopsAtDot(whole: string, frac: string)
    requires whole != [] && AllDigits(whole)
    ensures ParseInt(whole + "." + frac) == Some(DigitsValue(whole) as int)
  {
    var s := whole + "." + frac;
    assert s[0] == whole[0];
    assert TrimLeft(s) == s;
    assert SignLength(s) == 0;
    assert s[0..] == s;
    assert s[..|whole|] == whole;
    DigitRunStops(s, |whole|);
  }

  lemma DigitRunStops(s: string, w: nat)
    requires w < |s| && AllDigits(s[..w]) && !IsDigit(s[w])
    ensures DigitRun(s) == w
  {
    DigitRunOfDigits(s, w);
  }

  /** `String(x)` for a whole number of magnitude below 10^21, which JavaScript writes as
      its decimal digits, with `-` before a negative one. Fractions, and the exponent
      notation of larger numbers, are not rendered here (`None`). */
  function IntegerText(x: real): Option<string>
  {
    var n := x.Floor;
    if n as real != x || n <= -1_000_000_000_000_000_000_000 || n >= 1_000_000_000_000_000_000_000 then None
    else if n < 0 then Some("-" + NatToString(-n))
    else Some(NatToString(n))
  }

  /** The text of a whole number reads back, through `Number`, as that number. */
  lemma IntegerTextReads(x: real)
    requires IntegerText(x).Some?
    ensures NumberOf(IntegerText(x).value) == Some(x)
  {
    var n := x.Floor;
    var m: nat := if n < 0 then -n else n;
    var d := NatToString(m);
    DigitsValueOfNatToString(m);
    assert DigitRun(d) == |d|;
    assert d[..|d|] == d;
    var t := IntegerText(x).value;
    TrimOfUnpadded(t);
    if n < 0 {
      assert t == "-" + d && t[1..] == d;
    } else {
      assert t == d;
    }
  }
}
