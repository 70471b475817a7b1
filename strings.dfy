/** Character and string helpers shared by the text-processing modules:
    ASCII whitespace, trimming, case mapping, substring search, splitting
    on one character, joining, decimal digits and numerals. */
module Strings {

  datatype Option<T> = None | Some(value: T)

  /** The whitespace class used by `\s`, `str.strip()` and `String.prototype.trim`,
      restricted to ASCII. */
  predicate IsSpace(c: char)
  {
    c == ' ' || c == '\t' || c == '\n' || c == '\r' || c == '\U{0B}' || c == '\U{0C}'
  }

  predicate IsDigit(c: char)
  {
    '0' <= c <= '9'
  }

  predicate IsLowerAscii(c: char)
  {
    'a' <= c <= 'z'
  }

  predicate IsUpperAscii(c: char)
  {
    'A' <= c <= 'Z'
  }

  /** The `\w` class: ASCII letters, digits and `_`. */
  predicate IsWordChar(c: char)
  {
    IsLowerAscii(c) || IsUpperAscii(c) || IsDigit(c) || c == '_'
  }

  predicate AllDigits(s: string)
  {
    forall i :: 0 <= i < |s| ==> IsDigit(s[i])
  }

  function TrimLeft(s: string): (r: string)
    ensures |r| <= |s| && r == s[|s| - |r|..]
    ensures r != [] ==> !IsSpace(r[0])
    ensures forall i :: 0 <= i < |s| - |r| ==> IsSpace(s[i])
  {
    if s != [] && IsSpace(s[0]) then
      var r := TrimLeft(s[1..]);
      assert forall i :: 1 <= i < |s| ==> s[i] == s[1..][i - 1];
      assert s[|s| - |r|..] == s[1..][|s| - 1 - |r|..];
      r
    else s
  }

  function TrimRight(s: string): (r: string)
    ensures |r| <= |s| && r == s[..|r|]
    ensures r != [] ==> !IsSpace(r[|r| - 1])
    ensures forall i :: |r| <= i < |s| ==> IsSpace(s[i])
  {
    if s != [] && IsSpace(s[|s| - 1]) then
      var r := TrimRight(s[..|s| - 1]);
      assert forall i :: 0 <= i < |s| - 1 ==> s[i] == s[..|s| - 1][i];
      assert s[..|s| - 1][..|r|] == s[..|r|];
      r
    else s
  }

  /** Whitespace removed at both ends. */
  function Trim(s: string): (r: string)
    ensures |r| <= |s|
  {
    TrimRight(TrimLeft(s))
  }

  /** A trimmed string neither starts nor ends with whitespace. */
  lemma TrimEnds(s: string)
    ensures var r := Trim(s); r != [] ==> !IsSpace(r[0]) && !IsSpace(r[|r| - 1])
  {
    var l := TrimLeft(s);
    var r := TrimRight(l);
    if r != [] {
      assert r[0] == l[0];
    }
  }

  predicate IsBlank(s: string)
  {
    forall i :: 0 <= i < |s| ==> IsSpace(s[i])
  }

  lemma {:induction false} TrimEmptyIffBlank(s: string)
    ensures Trim(s) == [] <==> IsBlank(s)
  {
    var l := TrimLeft(s);
    if l == [] {
      assert IsBlank(s);
    } else {
      assert l[0] == s[|s| - |l|] && !IsSpace(l[0]);
      assert !IsBlank(s);
      assert TrimRight(l) != [];
    }
  }

  /** A string with no whitespace at either end is its own trim. */
  lemma TrimOfTrimmed(s: string)
    requires s != [] ==> !IsSpace(s[0]) && !IsSpace(s[|s| - 1])
    ensures Trim(s) == s
  {
  }

  /** Every leading and trailing occurrence of `c` removed (Python's `str.strip(c)`). */
  function StripChar(s: string, c: char): (r: string)
    ensures |r| <= |s|
    ensures r != [] ==> r[0] != c && r[|r| - 1] != c
  {
    if s == [] then []
    else if s[0] == c then StripChar(s[1..], c)
    else if s[|s| - 1] == c then StripChar(s[..|s| - 1], c)
    else s
  }

  /** Every occurrence of `c` replaced by `rep`. */
  function ReplaceChar(s: string, c: char, rep: string): string
  {
    if s == [] then [] else (if s[0] == c then rep else [s[0]]) + ReplaceChar(s[1..], c, rep)
  }

  /** Each character of the result comes from s or from rep, and c is gone unless rep has it. */
  lemma {:induction false} ReplaceCharSound(s: string, c: char, rep: string)
    ensures forall x :: x in ReplaceChar(s, c, rep) ==> (x in s && x != c) || x in rep
  {
    if s != [] {
      ReplaceCharSound(s[1..], c, rep);
      assert s == [s[0]] + s[1..];
    }
  }

  /** Every character in `cs` deleted. */
  function RemoveChars(s: string, cs: set<char>): (r: string)
    ensures |r| <= |s|
  {
    if s == [] then [] else (if s[0] in cs then [] else [s[0]]) + RemoveChars(s[1..], cs)
  }

  /** What is left are characters of s outside cs. */
  lemma {:induction false} RemoveCharsSound(s: string, cs: set<char>)
    ensures forall x :: x in RemoveChars(s, cs) ==> x in s && x !in cs
  {
    if s != [] {
      RemoveCharsSound(s[1..], cs);
      assert s == [s[0]] + s[1..];
    }
  }

  /** Every whitespace character deleted. */
  function RemoveSpaces(s: string): (r: string)
    ensures |r| <= |s|
  {
    if s == [] then [] else (if IsSpace(s[0]) then [] else [s[0]]) + RemoveSpaces(s[1..])
  }

  /** What is left are the non-space characters of s. */
  lemma {:induction false} RemoveSpacesSound(s: string)
    ensures forall x :: x in RemoveSpaces(s) ==> x in s && !IsSpace(x)
  {
    if s != [] {
      RemoveSpacesSound(s[1..]);
      assert s == [s[0]] + s[1..];
    }
  }

  function Count(s: string, c: char): (n: nat)
    ensures n <= |s|
  {
    if s == [] then 0 else (if s[0] == c then 1 else 0) + Count(s[1..], c)
  }

  lemma {:induction false} CountAppend(a: string, b: string, c: char)
    ensures Count(a + b, c) == Count(a, c) + Count(b, c)
  {
    if a == [] {
      LeftEmpty(a, b);
    } else {
      ConsAppend(a, b);
      CountAppend(a[1..], b, c);
    }
  }

  function ToLowerChar(c: char): char
  {
    if IsUpperAscii(c) then (c as int + 32) as char else c
  }

  function ToUpperChar(c: char): char
  {
    if IsLowerAscii(c) then (c as int - 32) as char else c
  }

  /** `toLowerCase` on ASCII letters. */
  function ToLower(s: string): (r: string)
    ensures |r| == |s| && forall i :: 0 <= i < |s| ==> r[i] == ToLowerChar(s[i])
  {
    if s == [] then [] else [ToLowerChar(s[0])] + ToLower(s[1..])
  }

  /** `toUpperCase` on ASCII letters. */
  function ToUpper(s: string): (r: string)
    ensures |r| == |s| && forall i :: 0 <= i < |s| ==> r[i] == ToUpperChar(s[i])
  {
    if s == [] then [] else [ToUpperChar(s[0])] + ToUpper(s[1..])
  }

  predicate StartsWith(s: string, p: string)
  {
    |p| <= |s| && s[..|p|] == p
  }

  predicate EndsWith(s: string, p: string)
  {
    |p| <= |s| && s[|s| - |p|..] == p
  }

  /** `sub` occurs in `s` (`includes`, Python's `in`). */
  predicate Contains(s: string, sub: string)
  {
    exists i :: 0 <= i <= |s| - |sub| && OccursAt(s, sub, i)
  }

  predicate OccursAt(s: string, sub: string, i: int)
  {
    0 <= i <= |s| - |sub| && s[i..i + |sub|] == sub
  }

  /** Index of the first occurrence of `c` at or after `from`. */
  function IndexOfFrom(s: string, c: char, from: nat): (r: Option<nat>)
    requires from <= |s|
    ensures r.Some? ==> from <= r.value < |s| && s[r.value] == c &&
                        forall j :: from <= j < r.value ==> s[j] != c
    ensures r.None? ==> forall j :: from <= j < |s| ==> s[j] != c
    decreases |s| - from
  {
    if from == |s| then None
    else if s[from] == c then Some(from)
    else IndexOfFrom(s, c, from + 1)
  }

  /** `s.split(c)`: the pieces between occurrences of `c`; always at least one piece. */
  function Split(s: string, c: char): (r: seq<string>)
    ensures |r| >= 1
    ensures forall k :: 0 <= k < |r| ==> c !in r[k]
    ensures |r| == Count(s, c) + 1
    decreases |s|
  {
    match IndexOfFrom(s, c, 0)
    case None =>
      NoOccurrenceCount(s, c);
      [s]
    case Some(k) =>
      assert s == s[..k] + s[k..];
      CountAppend(s[..k], s[k..], c);
      assert Count(s[..k], c) == 0 by { NoOccurrenceCount(s[..k], c); }
      assert s[k..] == [c] + s[k + 1..];
      CountAppend([c], s[k + 1..], c);
      assert Count([c], c) == 1;
      [s[..k]] + Split(s[k + 1..], c)
  }

  lemma {:induction false} NoOccurrenceCount(s: string, c: char)
    requires c !in s
    ensures Count(s, c) == 0
  {
    if s != [] {
      NoOccurrenceCount(s[1..], c);
    }
  }

  /** Splitting `a + [c] + b` where `a` has no `c` gives `a` and then the pieces of `b`. */
  lemma SplitAtFirst(a: string, c: char, b: string)
    requires c !in a
    ensures Split(a + [c] + b, c) == [a] + Split(b, c)
  {
    var s := a + [c] + b;
    assert s[|a|] == c;
    assert forall j :: 0 <= j < |a| ==> s[j] == a[j];
    assert IndexOfFrom(s, c, 0) == Some(|a|);
    assert s[..|a|] == a && s[|a| + 1..] == b;
  }

  /** A string without `c` is its own single piece. */
  lemma SplitWithout(s: string, c: char)
    requires c !in s
    ensures Split(s, c) == [s]
  {
    assert IndexOfFrom(s, c, 0).None?;
  }

  function Join(parts: seq<string>, sep: string): (r: string)
  {
    if parts == [] then []
    else if |parts| == 1 then parts[0]
    else parts[0] + sep + Join(parts[1..], sep)
  }

  /** Splitting on `c` and joining with `[c]` gives the string back. */
  lemma {:induction false} JoinSplit(s: string, c: char)
    ensures Join(Split(s, c), [c]) == s
    decreases |s|
  {
    match IndexOfFrom(s, c, 0)
    case None =>
    case Some(k) =>
      var rest := Split(s[k + 1..], c);
      assert Split(s, c) == [s[..k]] + rest;
      assert (Split(s, c))[1..] == rest;
      JoinSplit(s[k + 1..], c);
      assert Join(Split(s, c), [c]) == s[..k] + [c] + Join(rest, [c]);
      assert s == s[..k] + [c] + s[k + 1..];
  }

  function DigitChar(d: nat): char
    requires d < 10
  {
    ('0' as int + d) as char
  }

  /** Decimal text of a natural number, without leading zeros. */
  function NatToString(n: nat): (r: string)
    ensures |r| >= 1 && AllDigits(r)
    decreases n
  {
    if n < 10 then [DigitChar(n)] else NatToString(n / 10) + [DigitChar(n % 10)]
  }

  /** Two-digit zero-padded text (`padStart(2, "0")`, `{:02d}`) for 0..99. */
  function Pad2(n: nat): (r: string)
    requires n < 100
    ensures |r| == 2 && AllDigits(r)
  {
    [DigitChar(n / 10), DigitChar(n % 10)]
  }

  function DigitValue(c: char): nat
    requires IsDigit(c)
  {
    c as int - '0' as int
  }

  /** The value of a string of decimal digits. */
  function DigitsValue(s: string): (n: nat)
    requires AllDigits(s)
    decreases |s|
  {
    if s == [] then 0 else DigitsValue(s[..|s| - 1]) * 10 + DigitValue(s[|s| - 1])
  }

  lemma {:induction false} DigitsValueOfNatToString(n: nat)
    ensures DigitsValue(NatToString(n)) == n
    decreases n
  {
    var r := NatToString(n);
    if n >= 10 {
      DigitsValueOfNatToString(n / 10);
      assert r[..|r| - 1] == NatToString(n / 10);
    }
  }

  /** Number of leading characters of `s` that satisfy `IsDigit`. */
  function DigitRun(s: string): (k: nat)
    ensures k <= |s| && AllDigits(s[..k]) && (k < |s| ==> !IsDigit(s[k]))
  {
    if s != [] && IsDigit(s[0]) then
      var k := 1 + DigitRun(s[1..]);
      assert s[..k] == [s[0]] + s[1..][..k - 1];
      k
    else 0
  }

  /** Number of leading whitespace characters. */
  function SpaceRun(s: string): (k: nat)
    ensures k <= |s| && IsBlank(s[..k]) && (k < |s| ==> !IsSpace(s[k]))
  {
    if s != [] && IsSpace(s[0]) then
      var k := 1 + SpaceRun(s[1..]);
      assert s[..k] == [s[0]] + s[1..][..k - 1];
      k
    else 0
  }

  /** Value of a decimal fraction part `.d1d2...dn` as a real. */
  function FractionValue(s: string): real
    requires AllDigits(s)
    decreases |s|
  {
    if s == [] then 0.0 else (DigitValue(s[0]) as real + FractionValue(s[1..])) * 0.1
  }

  /** A decimal numeral: optional sign, digits, optional `.` and digits, at least one digit.
      This is the simplified numeral grammar used in place of JavaScript's `Number` and
      Python's `float` (no exponent, no Infinity/NaN, no hexadecimal). */
  function ParseDecimal(s: string): (r: Option<real>)
    ensures r.Some? ==> s != []
  {
    var neg := s != [] && s[0] == '-';
    var body := if s != [] && (s[0] == '-' || s[0] == '+') then s[1..] else s;
    var w := DigitRun(body);
    var whole := body[..w];
    var rest := body[w..];
    if rest == [] then
      if whole == [] then None
      else Some(Signed(neg, DigitsValue(whole) as real))
    else if rest[0] != '.' then None
    else
      var f := rest[1..];
      if !AllDigits(f) || (whole == [] && f == []) then None
      else Some(Signed(neg, DigitsValue(whole) as real + FractionValue(f)))
  }

  function Signed(neg: bool, x: real): real
  {
    if neg then -x else x
  }

  lemma ParseDecimalExamples()
    ensures ParseDecimal("12") == Some(12.0)
    ensures ParseDecimal("-3.5") == Some(-3.5)
    ensures ParseDecimal("abc") == None
    ensures ParseDecimal("") == None
  {
    assert DigitRun("12") == 2;
    assert "12"[..2] == "12" && "12"[2..] == "";
    assert DigitsValue("12") == 12 by {
      assert "12"[..1] == "1";
      assert "1"[..0] == "";
    }
    assert DigitRun("3.5") == 1;
    assert "3.5"[1..] == ".5";
    assert ".5"[1..] == "5";
    assert FractionValue("5") == 0.5;
    assert DigitsValue("3") == 3 by { assert "3"[..0] == ""; }
  }

  lemma AppendAssoc<T>(a: seq<T>, b: seq<T>, c: seq<T>)
    ensures a + (b + c) == (a + b) + c
  {
  }

  /** The head and the tail of a concatenation whose left part is not empty. */
  lemma ConsAppend<T>(a: seq<T>, b: seq<T>)
    requires a != []
    ensures a + b != [] && (a + b)[0] == a[0] && (a + b)[1..] == a[1..] + b
  {
  }

  lemma LeftEmpty<T>(a: seq<T>, b: seq<T>)
    requires a == []
    ensures a + b == b
  {
  }
}
