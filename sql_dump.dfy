/** Normalisation of wide "one column per month" SQL dumps into entity rows and
    narrow time-series upserts (test/script2.py). */
module SqlDump {
  import opened Strings

  // =====================================================================
  // Statement extractor: findall of  INSERT INTO.*?VALUES\s*\((.*?)\);
  // with DOTALL, so both lazy parts may span lines.
  // =====================================================================

  /** One match: the pattern starts at `start`, the captured value list is
      `s[capStart..capEnd]`, and the match ends just after the `);` at `capEnd`. */
  datatype Span = Span(start: nat, capStart: nat, capEnd: nat)

  /** The first `);` at or after `from` (the lazy `(.*?)\);`). */
  function CloseFrom(s: string, from: nat): (r: Option<nat>)
    requires from <= |s|
    ensures r.Some? ==> from <= r.value && OccursAt(s, ");", r.value)
    ensures r.Some? ==> forall j :: from <= j < r.value ==> !OccursAt(s, ");", j)
    ensures r.None? ==> forall j :: from <= j <= |s| ==> !OccursAt(s, ");", j)
    decreases |s| - from
  {
    if from + 2 > |s| then None
    else if s[from..from + 2] == ");" then Some(from)
    else CloseFrom(s, from + 1)
  }

  /** `VALUES\s*\((.*?)\);` tried at position q; the capture bounds on success. */
  function ValuesAt(s: string, q: nat): (r: Option<(nat, nat)>)
    requires q <= |s|
    ensures r.Some? ==> q + 7 <= r.value.0 <= r.value.1 && r.value.1 + 2 <= |s|
  {
    if !OccursAt(s, "VALUES", q) then None
    else
      var w := q + 6 + SpaceRun(s[q + 6..]);
      if w < |s| && s[w] == '(' then
        match CloseFrom(s, w + 1)
        case None => None
        case Some(e) => Some((w + 1, e))
      else None
  }

  /** The lazy `.*?` after `INSERT INTO`: the first position from `from` on where the
      rest of the pattern succeeds. */
  function LazyValues(s: string, from: nat): (r: Option<(nat, nat)>)
    requires from <= |s|
    ensures r.Some? ==> from + 7 <= r.value.0 <= r.value.1 && r.value.1 + 2 <= |s|
    decreases |s| - from
  {
    match ValuesAt(s, from)
    case Some(m) => Some(m)
    case None => if from == |s| then None else LazyValues(s, from + 1)
  }

  /** The whole pattern tried at position i. */
  function MatchAt(s: string, i: nat): (r: Option<Span>)
    requires i <= |s|
    ensures r.Some? ==> r.value.start == i && i + 18 <= r.value.capStart <= r.value.capEnd
                        && r.value.capEnd + 2 <= |s|
  {
    if OccursAt(s, "INSERT INTO", i) then
      match LazyValues(s, i + 11)
      case None => None
      case Some(m) => Some(Span(i, m.0, m.1))
    else None
  }

  /** The outcome of the pattern at every position of s from i to |s|. */
  function Matches(s: string, i: nat): (r: seq<Option<Span>>)
    requires i <= |s| + 1
    ensures |r| == |s| + 1 - i
    decreases |s| + 1 - i
  {
    if i == |s| + 1 then [] else [MatchAt(s, i)] + Matches(s, i + 1)
  }

  lemma {:induction false} MatchesIndex(s: string, i: nat, j: nat)
    requires i <= j <= |s|
    ensures Matches(s, i)[j - i] == MatchAt(s, j)
    decreases j - i
  {
    if i < j {
      MatchesIndex(s, i + 1, j);
    }
  }

  /** A table of match outcomes, one per position: each match starts where it is recorded
      and ends before the last position. */
  predicate MatchTable(t: seq<Option<Span>>)
  {
    forall i :: 0 <= i < |t| && t[i].Some? ==>
      t[i].value.start == i < t[i].value.capStart <= t[i].value.capEnd && t[i].value.capEnd + 2 < |t|
  }

  lemma MatchesTable(s: string)
    ensures MatchTable(Matches(s, 0))
  {
    var t := Matches(s, 0);
    forall i | 0 <= i < |t| && t[i].Some?
      ensures t[i].value.start == i < t[i].value.capStart <= t[i].value.capEnd && t[i].value.capEnd + 2 < |t|
    {
      MatchesIndex(s, 0, i);
    }
  }

  /** Leftmost matches from position p of a table, each search resuming where the
      previous match ended. */
  function Scan(t: seq<Option<Span>>, p: nat): (r: seq<Span>)
    requires MatchTable(t) && p < |t|
    ensures forall k :: 0 <= k < |r| ==> p <= r[k].start < r[k].capStart <= r[k].capEnd && r[k].capEnd + 2 < |t|
    ensures forall k :: 0 <= k < |r| - 1 ==> r[k].capEnd + 2 <= r[k + 1].start
    decreases |t| - p
  {
    if p == |t| - 1 then []
    else match t[p]
      case Some(m) => [m] + Scan(t, m.capEnd + 2)
      case None => Scan(t, p + 1)
  }

  /** `re.findall` from position p: the leftmost-match scan over the outcomes of the
      pattern at every position. */
  function FindAll(s: string, p: nat): (r: seq<Span>)
    requires p <= |s|
    ensures forall k :: 0 <= k < |r| ==> p <= r[k].start < r[k].capStart <= r[k].capEnd && r[k].capEnd + 2 <= |s|
    ensures forall k :: 0 <= k < |r| - 1 ==> r[k].capEnd + 2 <= r[k + 1].start
  {
    MatchesTable(s);
    Scan(Matches(s, 0), p)
  }

  /** Every span the scan reports is recorded in the table at its start. */
  lemma {:induction false} ScanSound(t: seq<Option<Span>>, p: nat, k: nat)
    requires MatchTable(t) && p < |t| && k < |Scan(t, p)|
    ensures t[Scan(t, p)[k].start] == Some(Scan(t, p)[k])
    decreases |t| - p
  {
    if t[p].Some? {
      if k > 0 {
        ScanSound(t, t[p].value.capEnd + 2, k - 1);
      }
    } else {
      ScanSound(t, p + 1, k);
    }
  }

  /** The scan skips no recorded match: each lies at the start of, or inside, a reported one. */
  lemma {:induction false} ScanComplete(t: seq<Option<Span>>, p: nat, i: nat)
    requires MatchTable(t) && p <= i < |t| && t[i].Some?
    ensures Covers(Scan(t, p), i)
    decreases |t| - p
  {
    if p == |t| - 1 {
      assert false;
    } else if t[p].Some? {
      var m := t[p].value;
      ScanHead(t, p);
      if i < m.capEnd + 2 {
        assert Scan(t, p)[0] == m;
      } else {
        ScanComplete(t, m.capEnd + 2, i);
        CoversCons(m, Scan(t, m.capEnd + 2), i);
      }
    } else if i == p {
      assert false;
    } else {
      ScanComplete(t, p + 1, i);
    }
  }

  /** Position i is the start of, or inside, one of the spans. */
  predicate Covers(r: seq<Span>, i: int)
  {
    exists k :: 0 <= k < |r| && r[k].start <= i < r[k].capEnd + 2
  }

  lemma ScanHead(t: seq<Option<Span>>, p: nat)
    requires MatchTable(t) && p < |t| - 1 && t[p].Some?
    ensures Scan(t, p) == [t[p].value] + Scan(t, t[p].value.capEnd + 2)
  {
  }

  lemma CoversCons(m: Span, r: seq<Span>, i: int)
    requires Covers(r, i)
    ensures Covers([m] + r, i)
  {
    var k :| 0 <= k < |r| && r[k].start <= i < r[k].capEnd + 2;
    assert ([m] + r)[k + 1] == r[k];
  }

  /** Every reported span is a match of the pattern at its start. */
  lemma FindAllSound(s: string, p: nat, k: nat)
    requires p <= |s| && k < |FindAll(s, p)|
    ensures MatchAt(s, FindAll(s, p)[k].start) == Some(FindAll(s, p)[k])
  {
    MatchesTable(s);
    ScanSound(Matches(s, 0), p, k);
    MatchesIndex(s, 0, FindAll(s, p)[k].start);
  }

  /** No match is skipped: every position where the pattern matches is the start of a
      reported match or lies inside one. */
  lemma FindAllComplete(s: string, p: nat, i: nat)
    requires p <= i <= |s| && MatchAt(s, i).Some?
    ensures exists k :: 0 <= k < |FindAll(s, p)| && FindAll(s, p)[k].start <= i < FindAll(s, p)[k].capEnd + 2
  {
    MatchesTable(s);
    MatchesIndex(s, 0, i);
    ScanComplete(Matches(s, 0), p, i);
    assert Covers(FindAll(s, p), i);
  }

  /** A single match at 0 that ends at the end of s is all findall reports. */
  lemma FindAllOnly(s: string, m: Span)
    requires MatchAt(s, 0) == Some(m) && m.capEnd + 2 == |s|
    ensures FindAll(s, 0) == [m]
  {
    MatchesTable(s);
    MatchesIndex(s, 0, 0);
    var t := Matches(s, 0);
    assert Scan(t, |s|) == [];
  }

  function Capture(s: string, sp: Span): string
    requires sp.capStart <= sp.capEnd <= |s|
  {
    s[sp.capStart..sp.capEnd]
  }

  /** The captured value lists of every statement, in source order. */
  function Extract(s: string): (r: seq<string>)
    ensures |r| == |FindAll(s, 0)|
  {
    var spans := FindAll(s, 0);
    seq(|spans|, k requires 0 <= k < |spans| => Capture(s, spans[k]))
  }

  /** A captured value list never contains `);`: the capture ends at the first one. */
  lemma ExtractStopsAtFirstClose(s: string, k: nat)
    requires k < |Extract(s)|
    ensures !Contains(Extract(s)[k], ");")
  {
    var sp := FindAll(s, 0)[k];
    assert Extract(s)[k] == Capture(s, sp);
    FindAllSound(s, 0, k);
    CaptureHasNoClose(s, sp.start);
  }

  lemma CaptureHasNoClose(s: string, i: nat)
    requires i <= |s| && MatchAt(s, i).Some?
    ensures var m := MatchAt(s, i).value; !Contains(s[m.capStart..m.capEnd], ");")
  {
    var m := MatchAt(s, i).value;
    var c := s[m.capStart..m.capEnd];
    CaptureEndsAtFirstClose(s, i);
    forall j | 0 <= j <= |c| - 2
      ensures !OccursAt(c, ");", j)
    {
      assert c[j..j + 2] == s[m.capStart + j..m.capStart + j + 2];
      assert !OccursAt(s, ");", m.capStart + j);
    }
  }

  lemma CaptureEndsAtFirstClose(s: string, i: nat)
    requires i <= |s| && MatchAt(s, i).Some?
    ensures var m := MatchAt(s, i).value;
            OccursAt(s, ");", m.capEnd) &&
            forall j :: m.capStart <= j < m.capEnd ==> !OccursAt(s, ");", j)
  {
    LazyValuesCloses(s, i + 11);
  }

  lemma {:induction false} LazyValuesCloses(s: string, from: nat)
    requires from <= |s| && LazyValues(s, from).Some?
    ensures var m := LazyValues(s, from).value;
            OccursAt(s, ");", m.1) && forall j :: m.0 <= j < m.1 ==> !OccursAt(s, ");", j)
    decreases |s| - from
  {
    if ValuesAt(s, from).None? {
      LazyValuesCloses(s, from + 1);
    }
  }

  /** A single well-formed statement yields exactly its value list. */
  lemma ExtractSingle(t: string, x: string)
    requires !Contains(t, "VALUES") && !Contains(x, ");")
    ensures Extract("INSERT INTO " + t + " VALUES (" + x + ");") == [x]
  {
    var s := "INSERT INTO " + t + " VALUES (" + x + ");";
    var q := 13 + |t|;
    var close := q + 8 + |x|;
    assert OccursAt(s, "INSERT INTO", 0) by { assert s[0..11] == "INSERT INTO"; }
    NoValuesBefore(t, x);
    LazySkips(s, 11, q);
    ValuesAtKeyword(t, x);
    assert MatchAt(s, 0) == Some(Span(0, q + 8, close));
    FindAllOnly(s, Span(0, q + 8, close));
    assert s[q + 8..close] == x;
  }

  /** Before the keyword of `INSERT INTO t VALUES (x);` no VALUES occurs. */
  lemma NoValuesBefore(t: string, x: string)
    requires !Contains(t, "VALUES")
    ensures var s := "INSERT INTO " + t + " VALUES (" + x + ");";
            forall j :: 11 <= j < 13 + |t| ==> ValuesAt(s, j).None?
  {
    var s := "INSERT INTO " + t + " VALUES (" + x + ");";
    forall j | 11 <= j < 13 + |t|
      ensures !OccursAt(s, "VALUES", j)
    {
      if j == 11 {
        assert s[11] == ' ';
      } else if j + 6 <= 12 + |t| {
        assert s[j..j + 6] == t[j - 12..j - 12 + 6];
        assert !OccursAt(t, "VALUES", j - 12);
      } else {
        assert s[12 + |t|] == ' ';
        if j + 6 <= |s| {
          assert s[j..j + 6][12 + |t| - j] == ' ';
        }
      }
    }
  }

  /** At the keyword of `INSERT INTO t VALUES (x);` the rest of the pattern captures x. */
  lemma ValuesAtKeyword(t: string, x: string)
    requires !Contains(x, ");")
    ensures var s := "INSERT INTO " + t + " VALUES (" + x + ");";
            ValuesAt(s, 13 + |t|) == Some((21 + |t|, 21 + |t| + |x|))
  {
    var pre := "INSERT INTO " + t + " VALUES (";
    var s := pre + x + ");";
    var q := 13 + |t|;
    var close := q + 8 + |x|;
    InsertShape(t, x);
    SpaceRunOne(" (" + x + ");");
    CloseAfter(pre, x);
    CloseFromFirst(s, q + 8, close);
    ValuesAtParts(s, q, close);
  }

  /** Where `VALUES`, the space and the parenthesis sit in a generated insert. */
  lemma InsertShape(t: string, x: string)
    ensures var pre := "INSERT INTO " + t + " VALUES (";
            var s := pre + x + ");";
            var q := 13 + |t|;
            |pre| == q + 8 && OccursAt(s, "VALUES", q) && s[q + 6..] == " (" + x + ");" && s[q + 7] == '('
  {
    var pre := "INSERT INTO " + t + " VALUES (";
    var s := pre + x + ");";
    var q := 13 + |t|;
    assert |pre| == q + 8;
    assert OccursAt(s, "VALUES", q) by { assert s[q..q + 6] == "VALUES"; }
    assert s[q + 6..] == " (" + x + ");";
  }

  /** `VALUES`, one space, `(` and a closing `);` at `close`: the capture runs up to it. */
  lemma ValuesAtParts(s: string, q: nat, close: nat)
    requires q + 8 <= |s| && OccursAt(s, "VALUES", q) && SpaceRun(s[q + 6..]) == 1 && s[q + 7] == '('
    requires CloseFrom(s, q + 8) == Some(close)
    ensures ValuesAt(s, q) == Some((q + 8, close))
  {
  }

  /** In `pre + x + ");"` with no `);` in x, the first `);` from |pre| on is the final one. */
  lemma CloseAfter(pre: string, x: string)
    requires !Contains(x, ");")
    ensures var s := pre + x + ");";
            OccursAt(s, ");", |pre| + |x|) &&
            forall j :: |pre| <= j < |pre| + |x| ==> !OccursAt(s, ");", j)
  {
    var s := pre + x + ");";
    var close := |pre| + |x|;
    assert OccursAt(s, ");", close) by { assert s[close..close + 2] == ");"; }
    forall j | |pre| <= j < close
      ensures !OccursAt(s, ");", j)
    {
      NoCloseInside(pre, x, j);
    }
  }

  lemma NoCloseInside(pre: string, x: string, j: nat)
    requires !Contains(x, ");") && |pre| <= j < |pre| + |x|
    ensures !OccursAt(pre + x + ");", ");", j)
  {
    var s := pre + x + ");";
    var jx := j - |pre|;
    if j + 2 <= |pre| + |x| {
      assert s[j] == x[jx] && s[j + 1] == x[jx + 1];
      assert s[j..j + 2] == [s[j], s[j + 1]];
      assert x[jx..jx + 2] == [x[jx], x[jx + 1]];
      assert !OccursAt(x, ");", jx);
    } else {
      assert s[j + 1] == ')';
      assert s[j..j + 2] != ");" by {
        assert s[j..j + 2][1] == ')';
        assert ");"[1] == ';';
      }
    }
  }

  lemma SpaceRunOne(u: string)
    requires |u| >= 2 && u[0] == ' ' && u[1] == '('
    ensures SpaceRun(u) == 1
  {
    assert u[1..][0] == '(';
  }

  lemma {:induction false} LazySkips(s: string, from: nat, q: nat)
    requires from <= q <= |s|
    requires forall j :: from <= j < q ==> ValuesAt(s, j).None?
    ensures LazyValues(s, from) == LazyValues(s, q)
    decreases q - from
  {
    if from < q {
      LazySkips(s, from + 1, q);
    }
  }

  lemma {:induction false} CloseFromFirst(s: string, from: nat, e: nat)
    requires from <= e && e + 2 <= |s| && OccursAt(s, ");", e)
    requires forall j :: from <= j < e ==> !OccursAt(s, ");", j)
    ensures CloseFrom(s, from) == Some(e)
    decreases e - from
  {
    if from < e {
      assert !OccursAt(s, ");", from);
      CloseFromFirst(s, from + 1, e);
    }
  }

  // =====================================================================
  // Value tokenizer:  re.split(r',\s*(?=(?:[^']*'[^']*')*[^']*$)', insert)
  // A comma separates fields iff an even number of quotes follows it.
  // =====================================================================

  const Quote: char := '\''

  predicate IsSplitComma(s: string, k: nat)
    requires k < |s|
  {
    s[k] == ',' && Count(s[k + 1..], Quote) % 2 == 0
  }

  function SplitPoint(s: string, from: nat): (r: Option<nat>)
    requires from <= |s|
    ensures r.Some? ==> from <= r.value < |s| && IsSplitComma(s, r.value)
    ensures r.Some? ==> forall j :: from <= j < r.value ==> !IsSplitComma(s, j)
    ensures r.None? ==> forall j :: from <= j < |s| ==> !IsSplitComma(s, j)
    decreases |s| - from
  {
    if from == |s| then None
    else if IsSplitComma(s, from) then Some(from)
    else SplitPoint(s, from + 1)
  }

  /** The fields of a value list; a separator is a split comma and the whitespace after it. */
  function SplitValues(s: string): (r: seq<string>)
    ensures |r| >= 1
    decreases |s|
  {
    match SplitPoint(s, 0)
    case None => [s]
    case Some(k) =>
      var rest := s[k + 1..];
      [s[..k]] + SplitValues(rest[SpaceRun(rest)..])
  }

  /** Number of split commas in s[from..] (positions relative to s). */
  function SplitCommas(s: string, from: nat): nat
    requires from <= |s|
    decreases |s| - from
  {
    if from == |s| then 0 else (if IsSplitComma(s, from) then 1 else 0) + SplitCommas(s, from + 1)
  }

  lemma {:induction false} SplitCommaShift(s: string, j: nat, k: nat)
    requires j + k < |s|
    ensures IsSplitComma(s[j..], k) == IsSplitComma(s, j + k)
  {
    assert s[j..][k + 1..] == s[j + k + 1..];
  }

  lemma {:induction false} SplitCommasShift(s: string, j: nat, from: nat)
    requires j + from <= |s|
    ensures SplitCommas(s[j..], from) == SplitCommas(s, j + from)
    decreases |s| - j - from
  {
    if j + from < |s| {
      SplitCommaShift(s, j, from);
      SplitCommasShift(s, j, from + 1);
    }
  }

  lemma {:induction false} SplitCommasNone(s: string, from: nat, upto: nat)
    requires from <= upto <= |s|
    requires forall j :: from <= j < upto ==> !IsSplitComma(s, j)
    ensures SplitCommas(s, from) == SplitCommas(s, upto)
    decreases upto - from
  {
    if from < upto {
      SplitCommasNone(s, from + 1, upto);
    }
  }

  /** The number of fields is one more than the number of split commas. */
  lemma {:induction false} SplitValuesCount(s: string)
    ensures |SplitValues(s)| == SplitCommas(s, 0) + 1
    decreases |s|
  {
    match SplitPoint(s, 0)
    case None =>
      SplitCommasNone(s, 0, |s|);
    case Some(k) =>
      var rest := s[k + 1..];
      var w := SpaceRun(rest);
      SplitCommasNone(s, 0, k);
      forall j | k + 1 <= j < k + 1 + w
        ensures !IsSplitComma(s, j)
      {
        assert s[j] == rest[..w][j - k - 1];
      }
      SplitCommasNone(s, k + 1, k + 1 + w);
      assert rest[w..] == s[k + 1 + w..];
      SplitCommasShift(s, k + 1 + w, 0);
      SplitValuesCount(rest[w..]);
  }

  /** The code tests the parity of the quotes to the RIGHT of a comma, which is not what a
      left-to-right quote scan does when a quote is unbalanced: in `a',b` such a scan would
      be inside a quote at the comma, yet the comma splits. */
  lemma RightParityDiffersFromLeftScan()
    ensures SplitValues("a',b") == ["a'", "b"]
  {
    var s := "a',b";
    assert s[3..] == "b";
    assert Count("b", Quote) == 0 by { assert "b"[1..] == []; }
    assert !IsSplitComma(s, 0) && !IsSplitComma(s, 1) && IsSplitComma(s, 2);
    assert SplitPoint(s, 2) == Some(2);
    assert SplitPoint(s, 0) == Some(2);
    assert s[..2] == "a'";
    assert SpaceRun("b") == 0;
    assert "b"[0..] == "b";
    assert !IsSplitComma("b", 0);
    assert SplitPoint("b", 1) == None;
    assert SplitPoint("b", 0) == None;
  }

  /** A field as written in a dump: either bare (no quote, no comma, no surrounding
      whitespace) or a single-quoted text without quotes inside (commas allowed). */
  predicate BareField(f: string)
  {
    Quote !in f && ',' !in f && (f != [] ==> !IsSpace(f[0]) && !IsSpace(f[|f| - 1]))
  }

  predicate QuotedField(f: string)
  {
    |f| >= 2 && f[0] == Quote && f[|f| - 1] == Quote && Quote !in f[1..|f| - 1]
  }

  predicate WellFormedField(f: string)
  {
    BareField(f) || QuotedField(f)
  }

  /** The fields joined as a dump writes them, `, ` between fields. */
  function JoinFields(fs: seq<string>): string
  {
    Join(fs, ", ")
  }

  lemma {:induction false} CountWellFormed(f: string)
    requires WellFormedField(f)
    ensures Count(f, Quote) % 2 == 0
  {
    if BareField(f) {
      NoOccurrenceCount(f, Quote);
    } else {
      var inner := f[1..|f| - 1];
      assert f == [Quote] + inner + [Quote];
      NoOccurrenceCount(inner, Quote);
      CountAppend([Quote] + inner, [Quote], Quote);
      CountAppend([Quote], inner, Quote);
    }
  }

  lemma {:induction false} CountJoinEven(fs: seq<string>)
    requires forall k :: 0 <= k < |fs| ==> WellFormedField(fs[k])
    ensures Count(JoinFields(fs), Quote) % 2 == 0
  {
    if |fs| == 1 {
      CountWellFormed(fs[0]);
    } else if |fs| > 1 {
      CountWellFormed(fs[0]);
      CountJoinEven(fs[1..]);
      assert JoinFields(fs) == fs[0] + (", " + JoinFields(fs[1..]));
      EvenAroundComma(fs[0], JoinFields(fs[1..]));
    }
  }

  /** Joining two pieces with an even number of quotes by `, ` keeps the count even. */
  lemma EvenAroundComma(f: string, tail: string)
    requires Count(f, Quote) % 2 == 0 && Count(tail, Quote) % 2 == 0
    ensures Count(f + (", " + tail), Quote) % 2 == 0
  {
    CountAppend(f, ", " + tail, Quote);
    CountAppend(", ", tail, Quote);
    assert Count(", ", Quote) == 0;
  }

  /** No comma inside a well-formed first field is a split comma. */
  lemma NoSplitInsideField(f: string, tail: string, j: nat)
    requires WellFormedField(f) && Count(tail, Quote) % 2 == 0
    requires j < |f|
    ensures !IsSplitComma(f + tail, j)
  {
    var s := f + tail;
    if s[j] == ',' {
      assert f[j] == ',';
      CommaInQuoted(f, j);
      var after := f[j + 1..|f| - 1];
      assert s[j + 1..] == after + [Quote] + tail;
      OddAfterClosingQuote(after, tail);
    }
  }

  /** A comma in a well-formed field lies strictly inside the quotes of a quoted one. */
  lemma CommaInQuoted(f: string, j: nat)
    requires WellFormedField(f) && j < |f| && f[j] == ','
    ensures QuotedField(f) && 0 < j < |f| - 1 && Quote !in f[j + 1..|f| - 1]
  {
    assert f[j] in f;
    var inner := f[1..|f| - 1];
    assert f[j + 1..|f| - 1] == inner[j..];
    forall x | x in inner[j..]
      ensures x in inner
    {
    }
  }

  /** Past the closing quote of a field, with balanced quotes after it, the count is odd. */
  lemma OddAfterClosingQuote(after: string, tail: string)
    requires Quote !in after && Count(tail, Quote) % 2 == 0
    ensures Count(after + [Quote] + tail, Quote) % 2 == 1
  {
    NoOccurrenceCount(after, Quote);
    CountAppend(after + [Quote], tail, Quote);
    CountAppend(after, [Quote], Quote);
    assert Count([Quote], Quote) == 1 by {
      assert [Quote][1..] == [];
    }
  }

  /** Commas inside balanced quotes never split: splitting what a dump writes gives the
      fields back. */
  lemma {:induction false} SplitJoinRoundTrip(fs: seq<string>)
    requires |fs| >= 1
    requires forall k :: 0 <= k < |fs| ==> WellFormedField(fs[k])
    ensures SplitValues(JoinFields(fs)) == fs
  {
    var s := JoinFields(fs);
    if |fs| == 1 {
      OneFieldNoSplit(fs[0]);
    } else {
      FirstSplit(fs);
      SplitValuesAt(s, |fs[0]|);
      AfterFirstSplit(fs);
      SplitJoinRoundTrip(fs[1..]);
    }
  }

  /** A single well-formed field is not split at all. */
  lemma OneFieldNoSplit(f: string)
    requires WellFormedField(f)
    ensures SplitValues(JoinFields([f])) == [f]
  {
    assert JoinFields([f]) == f;
    assert Count([], Quote) == 0;
    forall j | 0 <= j < |f|
      ensures !IsSplitComma(f, j)
    {
      NoSplitInsideField(f, [], j);
      assert f + [] == f;
    }
    SplitPointNone(f, 0);
  }

  /** The fields of s once its first split comma is known. */
  lemma SplitValuesAt(s: string, k: nat)
    requires SplitPoint(s, 0) == Some(k)
    ensures k < |s| && SplitValues(s) == [s[..k]] + SplitValues(s[k + 1..][SpaceRun(s[k + 1..])..])
  {
  }

  lemma JoinFieldsCons(fs: seq<string>)
    requires |fs| > 1
    ensures JoinFields(fs) == fs[0] + (", " + JoinFields(fs[1..]))
  {
  }

  /** The tail after a first field holds an even number of quotes. */
  lemma TailCountEven(fs: seq<string>)
    requires |fs| > 1
    requires forall k :: 0 <= k < |fs| ==> WellFormedField(fs[k])
    ensures Count(", " + JoinFields(fs[1..]), Quote) % 2 == 0
    ensures Count(" " + JoinFields(fs[1..]), Quote) % 2 == 0
  {
    CountJoinEven(fs[1..]);
    CountAppend(", ", JoinFields(fs[1..]), Quote);
    CountAppend(" ", JoinFields(fs[1..]), Quote);
    assert Count(", ", Quote) == 0;
    assert Count(" ", Quote) == 0;
  }

  /** In a joined list of well-formed fields the first split comma follows the first field. */
  lemma FirstSplit(fs: seq<string>)
    requires |fs| > 1
    requires forall k :: 0 <= k < |fs| ==> WellFormedField(fs[k])
    ensures SplitPoint(JoinFields(fs), 0) == Some(|fs[0]|)
  {
    var f := fs[0];
    var tail := ", " + JoinFields(fs[1..]);
    var s := JoinFields(fs);
    JoinFieldsCons(fs);
    TailCountEven(fs);
    forall j | 0 <= j < |f|
      ensures !IsSplitComma(s, j)
    {
      NoSplitInsideField(f, tail, j);
    }
    assert s[|f|] == ',';
    assert s[|f| + 1..] == " " + JoinFields(fs[1..]);
    assert IsSplitComma(s, |f|);
    SplitPointFirst(s, 0, |f|);
  }

  /** Before the first split is the first field, after it and its space the other fields. */
  lemma AfterFirstSplit(fs: seq<string>)
    requires |fs| > 1
    requires forall k :: 0 <= k < |fs| ==> WellFormedField(fs[k])
    ensures var s := JoinFields(fs);
            |fs[0]| < |s| && s[..|fs[0]|] == fs[0] &&
            s[|fs[0]| + 1..][SpaceRun(s[|fs[0]| + 1..])..] == JoinFields(fs[1..])
  {
    var f := fs[0];
    var s := JoinFields(fs);
    var tailFields := JoinFields(fs[1..]);
    JoinFieldsCons(fs);
    var rest := s[|f| + 1..];
    assert rest == " " + tailFields;
    TailStartsNonSpace(fs[1..]);
    assert SpaceRun(rest) == 1 by {
      assert rest[1..] == tailFields;
    }
    assert rest[1..] == tailFields;
    assert s[..|f|] == f;
  }

  lemma TailStartsNonSpace(fs: seq<string>)
    requires |fs| >= 1
    requires forall k :: 0 <= k < |fs| ==> WellFormedField(fs[k])
    ensures JoinFields(fs) != [] ==> !IsSpace(JoinFields(fs)[0])
  {
    var f := fs[0];
    if |fs| > 1 {
      assert JoinFields(fs) == f + ", " + JoinFields(fs[1..]);
      if f == [] {
        assert JoinFields(fs)[0] == ',';
      } else {
        assert JoinFields(fs)[0] == f[0];
      }
    }
  }

  lemma {:induction false} SplitPointNone(s: string, from: nat)
    requires from <= |s|
    requires forall j :: from <= j < |s| ==> !IsSplitComma(s, j)
    ensures SplitPoint(s, from) == None
    decreases |s| - from
  {
    if from < |s| {
      SplitPointNone(s, from + 1);
    }
  }

  lemma {:induction false} SplitPointFirst(s: string, from: nat, k: nat)
    requires from <= k < |s| && IsSplitComma(s, k)
    requires forall j :: from <= j < k ==> !IsSplitComma(s, j)
    ensures SplitPoint(s, from) == Some(k)
    decreases k - from
  {
    if from < k {
      SplitPointFirst(s, from + 1, k);
    }
  }

  // =====================================================================
  // Field cleanup:  v.strip().strip("'").replace("'", "''")
  // =====================================================================

  function DoubleQuotes(s: string): (r: string)
  {
    ReplaceChar(s, Quote, "''")
  }

  function CleanField(v: string): string
  {
    DoubleQuotes(StripChar(Trim(v), Quote))
  }

  /** The inverse of quote doubling: every `''` read back as one `'`. */
  function UndoubleQuotes(s: string): string
  {
    if |s| >= 2 && s[0] == Quote && s[1] == Quote then [Quote] + UndoubleQuotes(s[2..])
    else if s == [] then []
    else [s[0]] + UndoubleQuotes(s[1..])
  }

  /** Doubling every quote is undone by reading `''` back as `'`. */
  lemma {:induction false} UndoubleDouble(s: string)
    ensures UndoubleQuotes(DoubleQuotes(s)) == s
  {
    if s != [] {
      UndoubleDouble(s[1..]);
      var t := DoubleQuotes(s[1..]);
      if s[0] == Quote {
        assert DoubleQuotes(s) == "''" + t;
        assert ("''" + t)[2..] == t;
      } else {
        assert DoubleQuotes(s) == [s[0]] + t;
        assert ([s[0]] + t)[1..] == t;
      }
      assert s == [s[0]] + s[1..];
    }
  }

  /** Every quote is doubled exactly once: a name such as O'Brien (a = "O", b = "Brien")
      becomes O''Brien. */
  lemma CleanFieldDoublesQuote(a: string, b: string)
    requires a != [] && b != [] && Quote !in a && Quote !in b
    requires !IsSpace(a[0]) && !IsSpace(b[|b| - 1])
    ensures CleanField(a + [Quote] + b) == a + [Quote, Quote] + b
  {
    var v := a + [Quote] + b;
    assert v[0] == a[0] && a[0] in a;
    assert v[|v| - 1] == b[|b| - 1] && b[|b| - 1] in b;
    CleanFieldOfPlainEnds(v);
    DoubleQuotesAppend(a + [Quote], b);
    DoubleQuotesAppend(a, [Quote]);
    NoQuoteDoubling(a);
    NoQuoteDoubling(b);
    assert DoubleQuotes([Quote]) == [Quote, Quote] by {
      assert [Quote][1..] == [];
      assert ReplaceChar([Quote], Quote, "''") == "''" + ReplaceChar([], Quote, "''");
    }
  }

  /** A field with no whitespace or quote at either end is only quote-doubled. */
  lemma CleanFieldOfPlainEnds(v: string)
    requires v != [] && !IsSpace(v[0]) && !IsSpace(v[|v| - 1]) && v[0] != Quote && v[|v| - 1] != Quote
    ensures CleanField(v) == DoubleQuotes(v)
  {
    assert TrimLeft(v) == v;
    assert TrimRight(v) == v;
    assert StripChar(v, Quote) == v;
  }

  lemma {:induction false} DoubleQuotesAppend(a: string, b: string)
    ensures DoubleQuotes(a + b) == DoubleQuotes(a) + DoubleQuotes(b)
  {
    if a != [] {
      DoubleQuotesAppend(a[1..], b);
      assert (a + b)[1..] == a[1..] + b;
      assert (a + b)[0] == a[0];
    } else {
      assert a + b == b;
    }
  }

  /** A quoted dump field, and a bare one, come out as their text. */
  lemma {:induction false} CleanFieldOfWellFormed(f: string)
    requires WellFormedField(f)
    ensures QuotedField(f) ==> CleanField(f) == f[1..|f| - 1]
    ensures BareField(f) ==> CleanField(f) == f
  {
    if QuotedField(f) {
      var inner := f[1..|f| - 1];
      assert TrimLeft(f) == f;
      assert TrimRight(f) == f;
      StripQuotedText(inner);
      assert f == [Quote] + inner + [Quote];
      NoQuoteDoubling(inner);
    } else {
      if f != [] {
        assert TrimLeft(f) == f;
        assert TrimRight(f) == f;
        assert f[0] != Quote && f[|f| - 1] != Quote;
      }
      NoQuoteDoubling(f);
    }
  }

  lemma StripQuotedText(inner: string)
    requires Quote !in inner
    ensures StripChar([Quote] + inner + [Quote], Quote) == inner
  {
    var f := [Quote] + inner + [Quote];
    var g := inner + [Quote];
    assert f[1..] == g;
    assert StripChar(f, Quote) == StripChar(g, Quote);
    if inner == [] {
      assert g[1..] == [];
      assert StripChar(g, Quote) == StripChar([], Quote);
    } else {
      assert g[0] == inner[0] && inner[0] in inner;
      assert g[..|g| - 1] == inner;
      assert inner[|inner| - 1] in inner;
      assert StripChar(g, Quote) == StripChar(inner, Quote);
    }
  }

  lemma {:induction false} NoQuoteDoubling(s: string)
    requires Quote !in s
    ensures DoubleQuotes(s) == s
  {
    if s != [] {
      NoQuoteDoubling(s[1..]);
    }
  }

  /** One row of fields from one captured value list. */
  function ParseRow(insert: string): (row: seq<string>)
    ensures |row| == |SplitValues(insert)| >= 1
  {
    var vs := SplitValues(insert);
    seq(|vs|, k requires 0 <= k < |vs| => CleanField(vs[k]))
  }

  /** The rows of a dump, one per statement. */
  function ParsedRows(content: string): (rows: seq<seq<string>>)
    ensures forall k :: 0 <= k < |rows| ==> |rows[k]| >= 1
  {
    var inserts := Extract(content);
    seq(|inserts|, k requires 0 <= k < |inserts| => ParseRow(inserts[k]))
  }

  /** parse_sql_file: one row per matched statement, in source order. */
  method ParseSqlFile(content: string) returns (data: seq<seq<string>>)
    ensures data == ParsedRows(content)
    ensures |data| == |Extract(content)|
  {
    var inserts := Extract(content);
    data := [];
    for k := 0 to |inserts|
      invariant |data| == k
      invariant forall i :: 0 <= i < k ==> data[i] == ParseRow(inserts[i])
    {
      var values := SplitValues(inserts[k]);
      var row := seq(|values|, i requires 0 <= i < |values| => CleanField(values[i]));
      data := data + [row];
    }
  }

  /** A well-formed dump row round-trips through the tokenizer and cleanup. */
  lemma ParseRowOfWrittenRow(fs: seq<string>)
    requires |fs| >= 1
    requires forall k :: 0 <= k < |fs| ==> WellFormedField(fs[k])
    ensures |ParseRow(JoinFields(fs))| == |fs|
    ensures forall k :: 0 <= k < |fs| ==>
              ParseRow(JoinFields(fs))[k] == (if QuotedField(fs[k]) then fs[k][1..|fs[k]| - 1] else fs[k])
  {
    SplitJoinRoundTrip(fs);
    forall k | 0 <= k < |fs|
      ensures ParseRow(JoinFields(fs))[k] == (if QuotedField(fs[k]) then fs[k][1..|fs[k]| - 1] else fs[k])
    {
      CleanFieldOfWellFormed(fs[k]);
    }
  }

  // =====================================================================
  // Value normaliser: clean_value
  // =====================================================================

  datatype Cleaned = Num(x: real) | Text(s: string)

  const CleanedOut: set<char> := {'$', ','}

  /** `re.sub(r'[$\s,]', '', value)` */
  function StripMoney(v: string): string
  {
    RemoveSpaces(RemoveChars(v, CleanedOut))
  }

  /** No whitespace, dollar sign or comma survives, and nothing is added. */
  lemma StripMoneyClean(v: string)
    ensures forall i :: 0 <= i < |StripMoney(v)| ==>
              !IsSpace(StripMoney(v)[i]) && StripMoney(v)[i] !in CleanedOut && StripMoney(v)[i] in v
  {
    var a := RemoveChars(v, CleanedOut);
    RemoveCharsSound(v, CleanedOut);
    RemoveSpacesSound(a);
    forall i | 0 <= i < |StripMoney(v)|
      ensures !IsSpace(StripMoney(v)[i]) && StripMoney(v)[i] !in CleanedOut && StripMoney(v)[i] in v
    {
      assert StripMoney(v)[i] in RemoveSpaces(a);
    }
  }

  /** None for `NULL` and the empty field; otherwise a number when the cleaned text is a
      numeral, else the cleaned text itself. */
  function CleanValue(v: string): (r: Option<Cleaned>)
    ensures r.None? <==> v == "NULL" || v == ""
  {
    if v == "NULL" || v == "" then None
    else
      var c := StripMoney(v);
      var x := ParseDecimal(c);
      if x.Some? then Some(Num(x.value)) else Some(Text(c))
  }

  /** Cleaning is idempotent: a text result, cleaned again, comes back unchanged. */
  lemma CleanValueIdempotent(v: string)
    requires CleanValue(v).Some? && CleanValue(v).value.Text?
    ensures var c := CleanValue(v).value.s;
            c != "NULL" && c != "" ==> CleanValue(c) == Some(Text(c))
  {
    var c := StripMoney(v);
    StripMoneyClean(v);
    StripMoneyKeeps(c);
  }

  lemma CleanValueExamples()
    ensures CleanValue("NULL") == None && CleanValue("") == None
    ensures CleanValue("N/A") == Some(Text("N/A"))
  {
    StripMoneyKeeps("N/A");
    NotNumeral("N/A");
  }

  /** Text starting with something other than a sign, a digit or a point is no numeral. */
  lemma NotNumeral(v: string)
    requires v != [] && !IsDigit(v[0]) && v[0] !in {'-', '+', '.'}
    ensures ParseDecimal(v) == None
  {
    assert DigitRun(v) == 0;
    assert v[0..] == v;
  }

  /** Text without money punctuation or whitespace is left as it is. */
  lemma {:induction false} StripMoneyKeeps(v: string)
    requires forall i :: 0 <= i < |v| ==> !IsSpace(v[i]) && v[i] !in CleanedOut
    ensures StripMoney(v) == v
  {
    RemoveCharsKeeps(v);
    RemoveSpacesKeeps(v);
  }

  lemma {:induction false} RemoveCharsKeeps(v: string)
    requires forall i :: 0 <= i < |v| ==> v[i] !in CleanedOut
    ensures RemoveChars(v, CleanedOut) == v
  {
    if v != [] {
      RemoveCharsKeeps(v[1..]);
      assert v == [v[0]] + v[1..];
    }
  }

  lemma {:induction false} RemoveSpacesKeeps(v: string)
    requires forall i :: 0 <= i < |v| ==> !IsSpace(v[i])
    ensures RemoveSpaces(v) == v
  {
    if v != [] {
      RemoveSpacesKeeps(v[1..]);
      assert v == [v[0]] + v[1..];
    }
  }

  /** Money punctuation is dropped before the numeral is read. */
  lemma CleanTen()
    ensures CleanValue("$10") == Some(Num(10.0))
  {
    StripDollar10();
    Numeral2("10");
    CleanNumeral("$10", "10", 10.0);
  }

  lemma CleanTwenty()
    ensures CleanValue("20") == Some(Num(20.0))
  {
    StripMoneyKeeps("20");
    Numeral2("20");
    CleanNumeral("20", "20", 20.0);
  }

  lemma StripDollar10()
    ensures StripMoney("$10") == "10"
  {
    assert "$10"[1..] == "10";
    RemoveCharsKeeps("10");
    assert RemoveChars("$10", CleanedOut) == "10";
    RemoveSpacesKeeps("10");
  }

  lemma CleanNumeral(v: string, c: string, x: real)
    requires v != "NULL" && v != "" && StripMoney(v) == c && ParseDecimal(c) == Some(x)
    ensures CleanValue(v) == Some(Num(x))
  {
  }

  lemma Numeral2(s: string)
    requires |s| == 2 && IsDigit(s[0]) && IsDigit(s[1])
    ensures ParseDecimal(s) == Some((10 * DigitValue(s[0]) + DigitValue(s[1])) as real)
  {
    assert DigitRun(s[1..][1..]) == 0;
    assert DigitRun(s[1..]) == 1;
    assert DigitRun(s) == 2;
    assert s[..2] == s && s[2..] == "";
    assert s[..1] == [s[0]] && s[..1][..0] == "";
    assert DigitsValue(s[..1]) == DigitValue(s[0]);
  }

  /** The cleaned cells of a row, one per field. Built by recursion, so that one cell is
      tied to its field through CellsIndex rather than by unfolding every cell. */
  function Cells(row: seq<string>): (c: seq<Option<Cleaned>>)
    ensures |c| == |row|
  {
    if row == [] then [] else [CleanValue(row[0])] + Cells(row[1..])
  }

  lemma {:induction false} CellsIndex(row: seq<string>, j: nat)
    requires j < |row|
    ensures Cells(row)[j] == CleanValue(row[j])
  {
    if j > 0 {
      CellsIndex(row[1..], j - 1);
    }
  }

  /** Every cell is its field passed through clean_value. */
  lemma CellsAreCleanValues(row: seq<string>)
    ensures |Cells(row)| == |row|
    ensures forall j :: 0 <= j < |row| ==> Cells(row)[j] == CleanValue(row[j])
  {
    forall j | 0 <= j < |row|
      ensures Cells(row)[j] == CleanValue(row[j])
    {
      CellsIndex(row, j);
    }
  }

  lemma AppendStep(acc: seq<Stmt>, x: seq<Stmt>, tail: seq<Stmt>, whole: seq<Stmt>)
    requires whole == x + tail
    ensures (acc + x) + tail == acc + whole
  {
  }

  lemma AppendStep3(acc: seq<Stmt>, x: seq<Stmt>, y: seq<Stmt>, rest: seq<Stmt>)
    ensures acc + x + y + rest == acc + (x + y + rest)
  {
  }

  // =====================================================================
  // Dates: a column offset is a month counted from an epoch year.
  // =====================================================================

  datatype Date = Date(year: int, month: int)

  predicate ValidMonth(d: Date)
  {
    1 <= d.month <= 12
  }

  /** Column i >= 4 of a price or value table: offset o = i - 4 is month o mod 12 + 1 of
      year 2009 + o div 12. */
  function ColumnDate(i: nat): (d: Date)
    requires i >= 4
    ensures ValidMonth(d) && d.year >= 2009
  {
    Date(2009 + (i - 4) / 12, (i - 4) % 12 + 1)
  }

  /** Labour pair starting at column i >= 3: offset o = i - 3 advances one month every two
      columns, month (o mod 24) div 2 + 1 of year 2015 + o div 24. */
  function PairDate(i: nat): (d: Date)
    requires i >= 3
    ensures ValidMonth(d) && d.year >= 2015
  {
    Date(2015 + (i - 3) / 24, ((i - 3) % 24) / 2 + 1)
  }

  /** Column of a date in the 2009 family. */
  function ColumnOf(d: Date): int
  {
    (d.year - 2009) * 12 + (d.month - 1) + 4
  }

  /** Pair index of a date in the 2015 family. */
  function PairIndexOf(d: Date): int
  {
    (d.year - 2015) * 12 + (d.month - 1)
  }

  /** Daily-rate column of a date in the 2015 family. */
  function PairColumn(d: Date): int
  {
    2 * PairIndexOf(d) + 3
  }

  /** Column and date determine each other in the 2009 family. */
  lemma ColumnDateInverse(i: nat, d: Date)
    requires i >= 4
    ensures ColumnOf(ColumnDate(i)) == i
    ensures ValidMonth(d) && d.year >= 2009 ==> ColumnOf(d) >= 4 && ColumnDate(ColumnOf(d)) == d
  {
    if ValidMonth(d) && d.year >= 2009 {
      var o := ColumnOf(d) - 4;
      assert o == 12 * (d.year - 2009) + (d.month - 1);
      assert o / 12 == d.year - 2009 && o % 12 == d.month - 1;
    }
  }

  lemma ColumnOfColumnDate(i: nat)
    requires i >= 4
    ensures ColumnOf(ColumnDate(i)) == i
  {
  }

  /** For labour pairs the date only depends on the pair index (i-3) div 2, and the pair
      column of the date gives back the first column of the pair. */
  lemma PairDateByIndex(i: nat)
    requires i >= 3
    ensures PairIndexOf(PairDate(i)) == (i - 3) / 2
    ensures i % 2 == 1 ==> PairColumn(PairDate(i)) == i
  {
    var o := i - 3;
    var p, b := o / 2, o % 2;
    var q, r := p / 12, p % 12;
    PairSplit(o, p, b, q, r);
    assert PairDate(i) == Date(2015 + q, r + 1);
    if b == 0 {
      DivMod2(i, p + 1, 1);
    } else {
      DivMod2(i, p + 2, 0);
    }
  }

  /** `o` as 24 q + 2 r + b: its quotient and remainder by 24, and the pair inside the year. */
  lemma PairSplit(o: int, p: int, b: int, q: int, r: int)
    requires p == o / 2 && b == o % 2 && q == p / 12 && r == p % 12
    ensures o == 2 * p + b && 0 <= b < 2 && p == 12 * q + r && 0 <= r < 12
    ensures o / 24 == q && (o % 24) / 2 == r
  {
    DivMod2(o, p, b);
    DivMod12(p, q, r);
    DivMod24(o, q, 2 * r + b);
    DivMod2(2 * r + b, r, b);
  }

  lemma DivMod12(o: int, q: int, m: int)
    requires o == 12 * q + m && 0 <= m < 12
    ensures o / 12 == q && o % 12 == m
  {
  }

  lemma DivMod24(o: int, q: int, m: int)
    requires o == 24 * q + m && 0 <= m < 24
    ensures o / 24 == q && o % 24 == m
  {
  }

  lemma DivMod2(o: int, q: int, m: int)
    requires o == 2 * q + m && 0 <= m < 2
    ensures o / 2 == q && o % 2 == m
  {
  }

  /** A valid date in the 2015 family is the date of its pair column. */
  lemma PairColumnInverse(d: Date)
    requires ValidMonth(d) && d.year >= 2015
    ensures PairColumn(d) >= 3 && PairDate(PairColumn(d)) == d
  {
    var o := PairColumn(d) - 3;
    assert o == 24 * (d.year - 2015) + 2 * (d.month - 1);
    assert o / 24 == d.year - 2015 && o % 24 == 2 * (d.month - 1);
  }

  /** Date text `YYYY-MM-01`. */
  function DateText(d: Date): string
    requires d.year >= 0 && ValidMonth(d)
  {
    NatToString(d.year) + "-" + Pad2(d.month) + "-01"
  }

  lemma YearText(y: nat)
    requires 2000 <= y < 2100
    ensures NatToString(y) == [DigitChar(2), DigitChar(0), DigitChar((y - 2000) / 10), DigitChar(y % 10)]
  {
    assert NatToString(2) == [DigitChar(2)];
    assert NatToString(20) == NatToString(2) + [DigitChar(0)];
    assert y / 10 / 10 == 20 && (y / 10) % 10 == (y - 2000) / 10;
    assert NatToString(y / 10) == NatToString(20) + [DigitChar((y - 2000) / 10)];
  }

  /** The first column of each family is January of its epoch year; the twelfth month
      rolls over into the next year. */
  lemma DateExamples()
    ensures DateText(ColumnDate(4)) == "2009-01-01"
    ensures DateText(ColumnDate(15)) == "2009-12-01"
    ensures DateText(ColumnDate(16)) == "2010-01-01"
    ensures DateText(PairDate(3)) == "2015-01-01"
    ensures DateText(PairDate(3 + 2 * 23)) == "2016-12-01"
  {
    assert ColumnDate(4) == Date(2009, 1);
    assert ColumnDate(15) == Date(2009, 12);
    assert ColumnDate(16) == Date(2010, 1);
    assert PairDate(3) == Date(2015, 1);
    assert PairDate(49) == Date(2016, 12);
    DateTextOf(2009, 1, "2009-01-01");
    DateTextOf(2009, 12, "2009-12-01");
    DateTextOf(2010, 1, "2010-01-01");
    DateTextOf(2015, 1, "2015-01-01");
    DateTextOf(2016, 12, "2016-12-01");
  }

  lemma DateTextOf(y: nat, m: nat, text: string)
    requires 2000 <= y < 2100 && 1 <= m <= 12 && |text| == 10
    requires text[0] == '2' && text[1] == '0' && text[2] == DigitChar((y - 2000) / 10)
    requires text[3] == DigitChar(y % 10) && text[4] == '-' && text[5] == DigitChar(m / 10)
    requires text[6] == DigitChar(m % 10) && text[7..] == "-01"
    ensures DateText(Date(y, m)) == text
  {
    YearText(y);
    assert DigitChar(2) == '2' && DigitChar(0) == '0';
    var d := DateText(Date(y, m));
    assert |d| == 10;
    forall k | 0 <= k < 10
      ensures d[k] == text[k]
    {
      if k >= 7 {
        assert text[k] == text[7..][k - 7];
      }
    }
  }

  // =====================================================================
  // Emitted statements
  // =====================================================================

  datatype Stmt =
    | InsertIgnore(table: string, code: string, name: string, unit: string)
    | ValueUpsert(series: string, idColumn: string, entity: string, code: string, value: Cleaned, date: Date)
    | InsertJornal(worker: string)
    | LaborUpsert(worker: string, daily: Cleaned, hourly: Cleaned, date: Date)

  function RenderValue(v: Cleaned, fmt: real -> string): string
  {
    match v
    case Num(x) => fmt(x)
    case Text(s) => s
  }

  /** SQL text of a statement; `fmt` is Python's text for a float, outside this model. */
  function Render(st: Stmt, fmt: real -> string): string
  {
    match st
    case InsertIgnore(t, c, n, u) =>
      "INSERT IGNORE INTO " + t + " (code, name, unit) VALUES ('" + c + "', '" + n + "', '" + u + "');"
    case ValueUpsert(series, col, t, c, v, d) =>
      var eid := "(SELECT id FROM " + t + " WHERE code = '" + c + "')";
      var vt := RenderValue(v, fmt);
      "INSERT INTO " + series + " (" + col + ", value, valid_from)\n        VALUES ("
        + eid + ", " + vt + ", '" + SafeDateText(d) + "')\n        ON DUPLICATE KEY UPDATE value = " + vt + ";"
    case InsertJornal(w) =>
      "INSERT IGNORE INTO jornales (name) VALUES ('" + w + "');"
    case LaborUpsert(w, dv, hv, d) =>
      var dt := RenderValue(dv, fmt);
      var ht := RenderValue(hv, fmt);
      "INSERT INTO labor_rates (jornal_id, daily_rate, hourly_rate, valid_from)\n"
        + "                        VALUES ((SELECT id FROM jornales WHERE name = '" + w + "'), "
        + dt + ", " + ht + ", '" + SafeDateText(d) + "')\n"
        + "                        ON DUPLICATE KEY UPDATE daily_rate = " + dt + ", hourly_rate = " + ht + ";"
  }

  function SafeDateText(d: Date): string
  {
    if d.year >= 0 && 1 <= d.month <= 12 then DateText(d) else ""
  }

  // =====================================================================
  // Entity normaliser: transform_entities
  // =====================================================================

  datatype Tables = Tables(entity: string, series: string, idColumn: string)

  predicate ValidCode(row: seq<string>)
    requires |row| >= 1
  {
    row[0] != "" && row[0] != "NULL"
  }

  function FieldOr(row: seq<string>, i: nat): string
  {
    if i < |row| then row[i] else ""
  }

  function EntityInsert(row: seq<string>, t: Tables): Stmt
    requires |row| >= 1
  {
    InsertIgnore(t.entity, row[0], DoubleQuotes(FieldOr(row, 2)), DoubleQuotes(FieldOr(row, 3)))
  }

  /** The value fact of entity `code` for column i. */
  function Fact(code: string, i: nat, t: Tables, v: Cleaned): Stmt
    requires 4 <= i
  {
    ValueUpsert(t.series, t.idColumn, t.entity, code, v, ColumnDate(i))
  }

  /** Facts for the cells i.. of one row: one per non-null cell, in column order. */
  function RowFacts(code: string, cells: seq<Option<Cleaned>>, i: nat, t: Tables): seq<Stmt>
    requires 4 <= i
    decreases |cells| - i
  {
    if i >= |cells| then []
    else (if cells[i].Some? then [Fact(code, i, t, cells[i].value)] else []) + RowFacts(code, cells, i + 1, t)
  }

  /** The facts of a whole row, from column 4 on. */
  function FactsOfRow(row: seq<string>, t: Tables): seq<Stmt>
    requires |row| >= 1
  {
    RowFacts(row[0], Cells(row), 4, t)
  }

  /** The statements for rows, given the codes already seen. */
  function EntityStmts(rows: seq<seq<string>>, seen: set<string>, t: Tables): seq<Stmt>
    requires forall k :: 0 <= k < |rows| ==> |rows[k]| >= 1
  {
    if rows == [] then []
    else
      var row := rows[0];
      if !ValidCode(row) || row[0] in seen then EntityStmts(rows[1..], seen, t)
      else [EntityInsert(row, t)] + FactsOfRow(row, t) + EntityStmts(rows[1..], seen + {row[0]}, t)
  }

  /** The inner loop of transform_entities: the facts of one row's date columns. */
  method CollectFacts(row: seq<string>, t: Tables) returns (facts: seq<Stmt>)
    requires |row| >= 1
    ensures facts == FactsOfRow(row, t)
  {
    facts := [];
    var i := 4;
    while i < |row|
      invariant i >= 4
      invariant facts + RowFacts(row[0], Cells(row), i, t) == FactsOfRow(row, t)
      decreases |row| - i
    {
      var value := CleanValue(row[i]);
      CellsIndex(row, i);
      FactsStep(facts, row[0], Cells(row), i, t);
      if value.Some? {
        facts := facts + [Fact(row[0], i, t, value.value)];
      }
      i := i + 1;
    }
  }

  lemma FactsStep(facts: seq<Stmt>, code: string, cells: seq<Option<Cleaned>>, i: nat, t: Tables)
    requires 4 <= i < |cells|
    ensures cells[i].Some? ==>
              (facts + [Fact(code, i, t, cells[i].value)]) + RowFacts(code, cells, i + 1, t)
              == facts + RowFacts(code, cells, i, t)
    ensures cells[i].None? ==> facts + RowFacts(code, cells, i + 1, t) == facts + RowFacts(code, cells, i, t)
  {
    if cells[i].Some? {
      AppendStep(facts, [Fact(code, i, t, cells[i].value)], RowFacts(code, cells, i + 1, t),
                 RowFacts(code, cells, i, t));
    } else {
      assert RowFacts(code, cells, i, t) == [] + RowFacts(code, cells, i + 1, t);
    }
  }

  /** transform_entities over parsed rows. */
  method TransformEntityRows(rows: seq<seq<string>>, t: Tables) returns (inserts: seq<Stmt>)
    requires forall k :: 0 <= k < |rows| ==> |rows[k]| >= 1
    ensures inserts == EntityStmts(rows, {}, t)
  {
    inserts := [];
    var seen: set<string> := {};
    for k := 0 to |rows|
      invariant inserts + EntityStmts(rows[k..], seen, t) == EntityStmts(rows, {}, t)
    {
      inserts, seen := EntityRow(rows, k, seen, t, inserts);
    }
  }

  /** One turn of the row loop: a row with a new, valid code adds its insert and its
      facts and marks the code seen; any other row is skipped. */
  method EntityRow(rows: seq<seq<string>>, k: nat, seen: set<string>, t: Tables, inserts: seq<Stmt>)
    returns (inserts': seq<Stmt>, seen': set<string>)
    requires forall k :: 0 <= k < |rows| ==> |rows[k]| >= 1
    requires k < |rows|
    ensures inserts' + EntityStmts(rows[k + 1..], seen', t) == inserts + EntityStmts(rows[k..], seen, t)
  {
    inserts', seen' := inserts, seen;
    var row := rows[k];
    if !ValidCode(row) {
      EntitySkip(rows, k, seen, t);
      return;
    }
    var code := row[0];
    if code !in seen {
      var name := DoubleQuotes(FieldOr(row, 2));
      var unit := DoubleQuotes(FieldOr(row, 3));
      EntityTake(rows, k, seen, t);
      var facts := CollectFacts(row, t);
      var insert := InsertIgnore(t.entity, code, name, unit);
      assert insert == EntityInsert(row, t);
      AppendStep3(inserts, [insert], facts, EntityStmts(rows[k + 1..], seen + {code}, t));
      inserts' := inserts + [insert];
      seen' := seen + {code};
      inserts' := inserts' + facts;
    } else {
      EntitySkip(rows, k, seen, t);
    }
  }

  lemma EntitySkip(rows: seq<seq<string>>, k: nat, seen: set<string>, t: Tables)
    requires forall k :: 0 <= k < |rows| ==> |rows[k]| >= 1
    requires k < |rows| && (!ValidCode(rows[k]) || rows[k][0] in seen)
    ensures EntityStmts(rows[k..], seen, t) == EntityStmts(rows[k + 1..], seen, t)
  {
    assert rows[k..][1..] == rows[k + 1..];
  }

  lemma EntityTake(rows: seq<seq<string>>, k: nat, seen: set<string>, t: Tables)
    requires forall k :: 0 <= k < |rows| ==> |rows[k]| >= 1
    requires k < |rows| && ValidCode(rows[k]) && rows[k][0] !in seen
    ensures EntityStmts(rows[k..], seen, t) ==
              [EntityInsert(rows[k], t)] + FactsOfRow(rows[k], t) + EntityStmts(rows[k + 1..], seen + {rows[k][0]}, t)
  {
    assert rows[k..][1..] == rows[k + 1..];
  }

  /** transform_entities: parse the dump, then normalise its rows. */
  method TransformEntities(content: string, t: Tables) returns (inserts: seq<Stmt>)
    ensures inserts == EntityStmts(ParsedRows(content), {}, t)
  {
    var data := ParseSqlFile(content);
    inserts := TransformEntityRows(data, t);
  }

  /** st is the fact of `code` for a non-null cell at or after i, dated in the 2009 family
      so that its column is that cell's (by ColumnDateInverse the date is then
      ColumnDate of the column). */
  predicate FactOf(code: string, cells: seq<Option<Cleaned>>, i: nat, t: Tables, st: Stmt)
  {
    4 <= i && st.ValueUpsert? && st == ValueUpsert(t.series, t.idColumn, t.entity, code, st.value, st.date) &&
    ValidMonth(st.date) && st.date.year >= 2009 &&
    i <= ColumnOf(st.date) < |cells| && cells[ColumnOf(st.date)] == Some(st.value)
  }

  /** Value facts whose columns strictly increase. */
  predicate ColumnsIncrease(r: seq<Stmt>)
  {
    forall a, b :: 0 <= a < b < |r| ==>
      r[a].ValueUpsert? && r[b].ValueUpsert? && ColumnOf(r[a].date) < ColumnOf(r[b].date)
  }

  /** Value facts all dated at column i or later. */
  predicate ColumnsFrom(r: seq<Stmt>, i: int)
  {
    forall k :: 0 <= k < |r| ==> r[k].ValueUpsert? && ColumnOf(r[k].date) >= i
  }

  /** Some value fact of r is for column j. */
  predicate HasFactAt(r: seq<Stmt>, j: int)
  {
    exists k :: 0 <= k < |r| && r[k].ValueUpsert? && ColumnOf(r[k].date) == j
  }

  /** Every fact comes from a non-null cell, columns strictly increase, and every non-null
      cell at or after i gives a fact. */
  predicate FactsFaithful(code: string, cells: seq<Option<Cleaned>>, i: nat, t: Tables, r: seq<Stmt>)
  {
    (forall k :: 0 <= k < |r| ==> FactOf(code, cells, i, t, r[k])) &&
    ColumnsIncrease(r) &&
    (forall j :: i <= j < |cells| && cells[j].Some? ==> HasFactAt(r, j))
  }

  lemma RowFactsSpec(code: string, cells: seq<Option<Cleaned>>, i: nat, t: Tables)
    requires 4 <= i
    ensures FactsFaithful(code, cells, i, t, RowFacts(code, cells, i, t))
  {
    RowFactsSound(code, cells, i, t);
    RowFactsOrdered(code, cells, i, t);
    RowFactsComplete(code, cells, i, t);
  }

  lemma RowFactsSound(code: string, cells: seq<Option<Cleaned>>, i: nat, t: Tables)
    requires 4 <= i
    ensures forall k :: 0 <= k < |RowFacts(code, cells, i, t)| ==>
              FactOf(code, cells, i, t, RowFacts(code, cells, i, t)[k])
  {
    forall k | 0 <= k < |RowFacts(code, cells, i, t)|
      ensures FactOf(code, cells, i, t, RowFacts(code, cells, i, t)[k])
    {
      RowFactSound(code, cells, i, t, k);
    }
  }

  lemma {:induction false} RowFactSound(code: string, cells: seq<Option<Cleaned>>, i: nat, t: Tables, k: nat)
    requires 4 <= i && k < |RowFacts(code, cells, i, t)|
    ensures FactOf(code, cells, i, t, RowFacts(code, cells, i, t)[k])
    decreases |cells| - i
  {
    var r := RowFacts(code, cells, i, t);
    var tail := RowFacts(code, cells, i + 1, t);
    if cells[i].Some? && k == 0 {
      ColumnOfColumnDate(i);
      assert r[0] == Fact(code, i, t, cells[i].value);
    } else {
      var m := if cells[i].Some? then k - 1 else k;
      assert r[k] == tail[m];
      RowFactSound(code, cells, i + 1, t, m);
    }
  }

  lemma RowFactsFrom(code: string, cells: seq<Option<Cleaned>>, i: nat, t: Tables)
    requires 4 <= i
    ensures ColumnsFrom(RowFacts(code, cells, i, t), i)
  {
    var r := RowFacts(code, cells, i, t);
    forall k | 0 <= k < |r|
      ensures r[k].ValueUpsert? && ColumnOf(r[k].date) >= i
    {
      RowFactSound(code, cells, i, t, k);
    }
  }

  lemma ConsIncreasing(f: Stmt, tail: seq<Stmt>, i: int)
    requires f.ValueUpsert? && ColumnOf(f.date) == i
    requires ColumnsIncrease(tail) && ColumnsFrom(tail, i + 1)
    ensures ColumnsIncrease([f] + tail)
  {
    var r := [f] + tail;
    forall a, b | 0 <= a < b < |r|
      ensures r[a].ValueUpsert? && r[b].ValueUpsert? && ColumnOf(r[a].date) < ColumnOf(r[b].date)
    {
      assert r[b] == tail[b - 1];
      if a > 0 {
        assert r[a] == tail[a - 1];
      }
    }
  }

  lemma {:induction false} RowFactsOrdered(code: string, cells: seq<Option<Cleaned>>, i: nat, t: Tables)
    requires 4 <= i
    ensures ColumnsIncrease(RowFacts(code, cells, i, t))
    decreases |cells| - i
  {
    if i < |cells| {
      RowFactsOrdered(code, cells, i + 1, t);
      RowFactsFrom(code, cells, i + 1, t);
      if cells[i].Some? {
        ColumnOfColumnDate(i);
        ConsIncreasing(Fact(code, i, t, cells[i].value), RowFacts(code, cells, i + 1, t), i);
      } else {
        assert RowFacts(code, cells, i, t) == RowFacts(code, cells, i + 1, t);
      }
    }
  }

  lemma RowFactsComplete(code: string, cells: seq<Option<Cleaned>>, i: nat, t: Tables)
    requires 4 <= i
    ensures forall j :: i <= j < |cells| && cells[j].Some? ==> HasFactAt(RowFacts(code, cells, i, t), j)
  {
    forall j | i <= j < |cells| && cells[j].Some?
      ensures HasFactAt(RowFacts(code, cells, i, t), j)
    {
      var k := RowFactComplete(code, cells, i, t, j);
      assert 0 <= k < |RowFacts(code, cells, i, t)| && RowFacts(code, cells, i, t)[k].ValueUpsert? &&
             ColumnOf(RowFacts(code, cells, i, t)[k].date) == j;
    }
  }

  /** The index, in RowFacts(code, cells, i, t), of the fact for column j. */
  lemma {:induction false} RowFactComplete(code: string, cells: seq<Option<Cleaned>>, i: nat, t: Tables, j: nat)
    returns (k: nat)
    requires 4 <= i <= j < |cells| && cells[j].Some?
    ensures k < |RowFacts(code, cells, i, t)| && RowFacts(code, cells, i, t)[k].ValueUpsert? &&
            ColumnOf(RowFacts(code, cells, i, t)[k].date) == j
    decreases |cells| - i
  {
    ColumnOfColumnDate(i);
    if j == i {
      k := 0;
    } else {
      var m := RowFactComplete(code, cells, i + 1, t, j);
      k := if cells[i].Some? then m + 1 else m;
      assert RowFacts(code, cells, i, t)[k] == RowFacts(code, cells, i + 1, t)[m];
    }
  }

  /** Value facts all about entity `code`. */
  predicate AllFactsOf(r: seq<Stmt>, code: string)
  {
    forall k :: 0 <= k < |r| ==> r[k].ValueUpsert? && r[k].code == code
  }

  lemma RowFactsAbout(code: string, cells: seq<Option<Cleaned>>, t: Tables)
    ensures AllFactsOf(RowFacts(code, cells, 4, t), code)
  {
    var r := RowFacts(code, cells, 4, t);
    forall k | 0 <= k < |r|
      ensures r[k].ValueUpsert? && r[k].code == code
    {
      RowFactSound(code, cells, 4, t, k);
    }
  }

  /** Valid codes in row order. */
  function Codes(rows: seq<seq<string>>): seq<string>
    requires forall k :: 0 <= k < |rows| ==> |rows[k]| >= 1
  {
    if rows == [] then []
    else (if ValidCode(rows[0]) then [rows[0][0]] else []) + Codes(rows[1..])
  }

  /** First occurrences only, skipping anything in `seen`. */
  function Dedup(xs: seq<string>, seen: set<string>): (r: seq<string>)
    ensures forall a, b :: 0 <= a < b < |r| ==> r[a] != r[b]
    ensures forall x :: x in r <==> x in xs && x !in seen
  {
    if xs == [] then []
    else if xs[0] in seen then Dedup(xs[1..], seen)
    else [xs[0]] + Dedup(xs[1..], seen + {xs[0]})
  }

  function InsertedCodes(st: seq<Stmt>): seq<string>
  {
    if st == [] then []
    else (if st[0].InsertIgnore? then [st[0].code] else []) + InsertedCodes(st[1..])
  }

  lemma {:induction false} InsertedCodesAppend(a: seq<Stmt>, b: seq<Stmt>)
    ensures InsertedCodes(a + b) == InsertedCodes(a) + InsertedCodes(b)
  {
    if a == [] {
      LeftEmpty(a, b);
    } else {
      var head := if a[0].InsertIgnore? then [a[0].code] else [];
      ConsAppend(a, b);
      assert InsertedCodes(a + b) == head + InsertedCodes(a[1..] + b);
      InsertedCodesAppend(a[1..], b);
      AppendAssoc(head, InsertedCodes(a[1..]), InsertedCodes(b));
    }
  }

  lemma {:induction false} NoInsertIgnore(st: seq<Stmt>)
    requires forall k :: 0 <= k < |st| ==> st[k].ValueUpsert?
    ensures InsertedCodes(st) == []
  {
    if st != [] {
      NoInsertIgnore(st[1..]);
    }
  }

  /** Exactly one INSERT IGNORE per distinct valid code, in first-seen order. */
  lemma {:induction false} EntityInsertsAreFirstSeenCodes(rows: seq<seq<string>>, seen: set<string>, t: Tables)
    requires forall k :: 0 <= k < |rows| ==> |rows[k]| >= 1
    ensures InsertedCodes(EntityStmts(rows, seen, t)) == Dedup(Codes(rows), seen)
  {
    if rows != [] {
      var row := rows[0];
      var rest := rows[1..];
      if !ValidCode(row) {
        EntityInsertsAreFirstSeenCodes(rest, seen, t);
        assert Codes(rows) == Codes(rest);
      } else if row[0] in seen {
        EntityInsertsAreFirstSeenCodes(rest, seen, t);
        assert Codes(rows) == [row[0]] + Codes(rest);
      } else {
        var d := row[0];
        EntityInsertsAreFirstSeenCodes(rest, seen + {d}, t);
        var facts := FactsOfRow(row, t);
        var later := EntityStmts(rest, seen + {d}, t);
        assert EntityStmts(rows, seen, t) == [EntityInsert(row, t)] + facts + later;
        InsertedCodesAppend([EntityInsert(row, t)] + facts, later);
        InsertedCodesAppend([EntityInsert(row, t)], facts);
        RowFactsAbout(d, Cells(row), t);
        NoInsertIgnore(facts);
        assert InsertedCodes([EntityInsert(row, t)]) == [d];
        assert Codes(rows) == [d] + Codes(rest);
      }
    }
  }

  /** The first row carrying a valid code c, if any. */
  function FirstRowWith(rows: seq<seq<string>>, c: string): (r: Option<seq<string>>)
    requires forall k :: 0 <= k < |rows| ==> |rows[k]| >= 1
    ensures r.Some? ==> |r.value| >= 1 && ValidCode(r.value) && r.value[0] == c
  {
    if rows == [] then None
    else if ValidCode(rows[0]) && rows[0][0] == c then Some(rows[0])
    else FirstRowWith(rows[1..], c)
  }

  /** The insert and facts for the first row carrying code c; none if no row does. */
  function FirstBlock(rows: seq<seq<string>>, c: string, t: Tables): seq<Stmt>
    requires forall k :: 0 <= k < |rows| ==> |rows[k]| >= 1
  {
    var first := FirstRowWith(rows, c);
    if first.Some? then [EntityInsert(first.value, t)] + FactsOfRow(first.value, t) else []
  }

  /** The statements about code c. */
  function StmtsFor(st: seq<Stmt>, c: string): seq<Stmt>
  {
    if st == [] then []
    else (if (st[0].InsertIgnore? || st[0].ValueUpsert?) && st[0].code == c then [st[0]] else [])
         + StmtsFor(st[1..], c)
  }

  lemma {:induction false} StmtsForAppend(a: seq<Stmt>, b: seq<Stmt>, c: string)
    ensures StmtsFor(a + b, c) == StmtsFor(a, c) + StmtsFor(b, c)
  {
    if a == [] {
      LeftEmpty(a, b);
    } else {
      var head := if (a[0].InsertIgnore? || a[0].ValueUpsert?) && a[0].code == c then [a[0]] else [];
      ConsAppend(a, b);
      assert StmtsFor(a + b, c) == head + StmtsFor(a[1..] + b, c);
      StmtsForAppend(a[1..], b, c);
      AppendAssoc(head, StmtsFor(a[1..], c), StmtsFor(b, c));
    }
  }

  lemma {:induction false} StmtsForUniform(st: seq<Stmt>, d: string, c: string)
    requires AllFactsOf(st, d)
    ensures StmtsFor(st, c) == if d == c then st else []
  {
    if st != [] {
      assert AllFactsOf(st[1..], d) by {
        forall k | 0 <= k < |st[1..]|
          ensures st[1..][k].ValueUpsert? && st[1..][k].code == d
        {
          assert st[1..][k] == st[k + 1];
        }
      }
      StmtsForUniform(st[1..], d, c);
      assert st == [st[0]] + st[1..];
    }
  }

  /** Facts are emitted only for the first row with a code: the statements about c are
      its one insert followed by the facts of the first row carrying c. */
  lemma {:induction false} EntityStmtsForCode(rows: seq<seq<string>>, seen: set<string>, t: Tables, c: string)
    requires forall k :: 0 <= k < |rows| ==> |rows[k]| >= 1
    ensures StmtsFor(EntityStmts(rows, seen, t), c) == if c in seen then [] else FirstBlock(rows, c, t)
  {
    if rows != [] {
      var row := rows[0];
      if !ValidCode(row) || row[0] in seen {
        EntityStmtsForCode(rows[1..], seen, t, c);
        FirstBlockSkip(rows, seen, t, c);
      } else {
        var d := row[0];
        EntityStmtsForCode(rows[1..], seen + {d}, t, c);
        EntityStmtsTake(rows, seen, t);
        RowFactsAbout(d, Cells(row), t);
        StmtsForBlock(EntityInsert(row, t), FactsOfRow(row, t), EntityStmts(rows[1..], seen + {d}, t), d, c);
        FirstBlockTake(rows, t, c);
      }
    }
  }

  lemma EntityStmtsTake(rows: seq<seq<string>>, seen: set<string>, t: Tables)
    requires forall k :: 0 <= k < |rows| ==> |rows[k]| >= 1
    requires rows != [] && ValidCode(rows[0]) && rows[0][0] !in seen
    ensures EntityStmts(rows, seen, t) ==
              [EntityInsert(rows[0], t)] + FactsOfRow(rows[0], t) + EntityStmts(rows[1..], seen + {rows[0][0]}, t)
  {
  }

  /** The statements about c in one entity's block and what follows it. */
  lemma StmtsForBlock(ins: Stmt, facts: seq<Stmt>, later: seq<Stmt>, d: string, c: string)
    requires ins.InsertIgnore? && ins.code == d && AllFactsOf(facts, d)
    ensures StmtsFor([ins] + facts + later, c) == (if d == c then [ins] + facts else []) + StmtsFor(later, c)
  {
    StmtsForAppend([ins] + facts, later, c);
    StmtsForAppend([ins], facts, c);
    StmtsForUniform(facts, d, c);
    assert StmtsFor([ins], c) == if d == c then [ins] else [] by {
      assert [ins][1..] == [];
    }
  }

  lemma FirstBlockSkip(rows: seq<seq<string>>, seen: set<string>, t: Tables, c: string)
    requires forall k :: 0 <= k < |rows| ==> |rows[k]| >= 1
    requires rows != [] && (!ValidCode(rows[0]) || rows[0][0] in seen)
    ensures c !in seen ==> FirstBlock(rows, c, t) == FirstBlock(rows[1..], c, t)
  {
  }

  lemma FirstBlockTake(rows: seq<seq<string>>, t: Tables, c: string)
    requires forall k :: 0 <= k < |rows| ==> |rows[k]| >= 1
    requires rows != [] && ValidCode(rows[0])
    ensures rows[0][0] == c ==> FirstBlock(rows, c, t) == [EntityInsert(rows[0], t)] + FactsOfRow(rows[0], t)
    ensures rows[0][0] != c ==> FirstBlock(rows, c, t) == FirstBlock(rows[1..], c, t)
  {
  }

  // =====================================================================
  // Labor-rate normaliser: transform_jornales
  // =====================================================================

  /** The worker name of a row: field 1 with quotes doubled, if the row is long enough and
      field 1 is not empty. */
  function WorkerOf(row: seq<string>): Option<string>
  {
    if |row| < 3 || row[1] == "" then None else Some(DoubleQuotes(row[1]))
  }

  /** Both halves of the pair at column j are non-null. */
  predicate BothClean(cells: seq<Option<Cleaned>>, j: nat)
  {
    j + 1 < |cells| && cells[j].Some? && cells[j + 1].Some?
  }

  function Pair(w: string, d: Cleaned, h: Cleaned, i: nat): Stmt
    requires i >= 3
  {
    LaborUpsert(w, d, h, PairDate(i))
  }

  /** Pairs (i, i+1) for i = from, from+2, ... while i < |cells|-1, kept when both halves
      are non-null. */
  function RowPairs(w: string, cells: seq<Option<Cleaned>>, i: nat): seq<Stmt>
    requires i >= 3
    decreases |cells| - i
  {
    if i + 1 >= |cells| then []
    else (if BothClean(cells, i) then [Pair(w, cells[i].value, cells[i + 1].value, i)] else [])
         + RowPairs(w, cells, i + 2)
  }

  /** The labour pairs of a whole row, from column 3 on. */
  function PairsOfRow(row: seq<string>, w: string): seq<Stmt>
  {
    RowPairs(w, Cells(row), 3)
  }

  function JornalStmts(rows: seq<seq<string>>, seen: set<string>): seq<Stmt>
  {
    if rows == [] then []
    else
      var wo := WorkerOf(rows[0]);
      if wo.None? || wo.value in seen then JornalStmts(rows[1..], seen)
      else [InsertJornal(wo.value)] + PairsOfRow(rows[0], wo.value) + JornalStmts(rows[1..], seen + {wo.value})
  }

  /** The inner loop of transform_jornales: the labour pairs of one row. */
  method CollectPairs(row: seq<string>, w: string) returns (pairs: seq<Stmt>)
    ensures pairs == PairsOfRow(row, w)
  {
    pairs := [];
    var i := 3;
    while i < |row| - 1
      invariant i >= 3
      invariant pairs + RowPairs(w, Cells(row), i) == PairsOfRow(row, w)
      decreases |row| - i
    {
      var daily := CleanValue(row[i]);
      var hourly := if i + 1 < |row| then CleanValue(row[i + 1]) else None;
      CellsIndex(row, i);
      CellsIndex(row, i + 1);
      PairsStep(pairs, w, Cells(row), i);
      if daily.Some? && hourly.Some? {
        pairs := pairs + [Pair(w, daily.value, hourly.value, i)];
      }
      i := i + 2;
    }
  }

  lemma PairsStep(pairs: seq<Stmt>, w: string, cells: seq<Option<Cleaned>>, i: nat)
    requires 3 <= i && i + 1 < |cells|
    ensures BothClean(cells, i) ==>
              (pairs + [Pair(w, cells[i].value, cells[i + 1].value, i)]) + RowPairs(w, cells, i + 2)
              == pairs + RowPairs(w, cells, i)
    ensures !BothClean(cells, i) ==> pairs + RowPairs(w, cells, i + 2) == pairs + RowPairs(w, cells, i)
  {
    if BothClean(cells, i) {
      AppendStep(pairs, [Pair(w, cells[i].value, cells[i + 1].value, i)], RowPairs(w, cells, i + 2),
                 RowPairs(w, cells, i));
    } else {
      assert RowPairs(w, cells, i) == [] + RowPairs(w, cells, i + 2);
    }
  }

  /** transform_jornales over parsed rows. */
  method TransformJornalRows(rows: seq<seq<string>>) returns (inserts: seq<Stmt>)
    ensures inserts == JornalStmts(rows, {})
  {
    inserts := [];
    var seen: set<string> := {};
    for k := 0 to |rows|
      invariant inserts + JornalStmts(rows[k..], seen) == JornalStmts(rows, {})
    {
      var row := rows[k];
      if |row| < 3 {
        JornalSkip(rows, k, seen);
        continue;
      }
      var worker := if row[1] != "" then Some(DoubleQuotes(row[1])) else None;
      if worker.None? {
        JornalSkip(rows, k, seen);
        continue;
      }
      var w := worker.value;
      if w !in seen {
        JornalTake(rows, k, seen);
        var pairs := CollectPairs(row, w);
        AppendStep3(inserts, [InsertJornal(w)], pairs, JornalStmts(rows[k + 1..], seen + {w}));
        inserts := inserts + [InsertJornal(w)];
        seen := seen + {w};
        inserts := inserts + pairs;
      } else {
        JornalSkip(rows, k, seen);
      }
    }
  }

  lemma JornalSkip(rows: seq<seq<string>>, k: nat, seen: set<string>)
    requires k < |rows| && (WorkerOf(rows[k]).None? || WorkerOf(rows[k]).value in seen)
    ensures JornalStmts(rows[k..], seen) == JornalStmts(rows[k + 1..], seen)
  {
    assert rows[k..][1..] == rows[k + 1..];
  }

  lemma JornalTake(rows: seq<seq<string>>, k: nat, seen: set<string>)
    requires k < |rows| && WorkerOf(rows[k]).Some? && WorkerOf(rows[k]).value !in seen
    ensures var w := WorkerOf(rows[k]).value;
            JornalStmts(rows[k..], seen) ==
              [InsertJornal(w)] + PairsOfRow(rows[k], w) + JornalStmts(rows[k + 1..], seen + {w})
  {
    assert rows[k..][1..] == rows[k + 1..];
  }

  /** transform_jornales: parse the dump, then normalise its rows. */
  method TransformJornales(content: string) returns (inserts: seq<Stmt>)
    ensures inserts == JornalStmts(ParsedRows(content), {})
  {
    var data := ParseSqlFile(content);
    inserts := TransformJornalRows(data);
  }

  /** st is w's labour pair for the column j >= i that its date names in the 2015 family,
      and the two halves at j and j+1 are non-null (by PairColumnInverse the date is then
      PairDate(j)). */
  predicate PairOf(w: string, cells: seq<Option<Cleaned>>, i: nat, st: Stmt)
  {
    3 <= i && st.LaborUpsert? && st.worker == w && ValidMonth(st.date) && st.date.year >= 2015 &&
    var j := PairColumn(st.date);
    i <= j && j + 1 < |cells| && cells[j] == Some(st.daily) && cells[j + 1] == Some(st.hourly)
  }

  /** Labour pairs whose columns strictly increase. */
  predicate DatesIncrease(r: seq<Stmt>)
  {
    forall a, b :: 0 <= a < b < |r| ==>
      r[a].LaborUpsert? && r[b].LaborUpsert? && PairColumn(r[a].date) < PairColumn(r[b].date)
  }

  /** Labour pairs all at column i or later. */
  predicate DatesFrom(r: seq<Stmt>, i: int)
  {
    forall k :: 0 <= k < |r| ==> r[k].LaborUpsert? && PairColumn(r[k].date) >= i
  }

  /** Some labour pair of r is for column j. */
  predicate HasPairAt(r: seq<Stmt>, j: int)
  {
    exists k :: 0 <= k < |r| && r[k].LaborUpsert? && PairColumn(r[k].date) == j
  }

  /** Each pair comes from two non-null cells, pairs are in column order, and every odd
      column from i on whose two halves are non-null gives a pair. */
  predicate PairsFaithful(w: string, cells: seq<Option<Cleaned>>, i: nat, r: seq<Stmt>)
  {
    (forall k :: 0 <= k < |r| ==> PairOf(w, cells, i, r[k])) &&
    DatesIncrease(r) &&
    (forall j :: i <= j < |cells| && j % 2 == 1 && BothClean(cells, j) ==> HasPairAt(r, j))
  }

  lemma RowPairsSpec(w: string, cells: seq<Option<Cleaned>>, i: nat)
    requires i >= 3 && i % 2 == 1
    ensures PairsFaithful(w, cells, i, RowPairs(w, cells, i))
  {
    RowPairsSound(w, cells, i);
    RowPairsOrdered(w, cells, i);
    RowPairsComplete(w, cells, i);
  }

  /** The pair starting at an odd column i is dated so that PairColumn gives i back. */
  lemma PairAt(w: string, d: Cleaned, h: Cleaned, i: nat)
    requires i >= 3 && i % 2 == 1
    ensures Pair(w, d, h, i).LaborUpsert? && PairColumn(Pair(w, d, h, i).date) == i
  {
    PairDateByIndex(i);
  }

  lemma RowPairsSound(w: string, cells: seq<Option<Cleaned>>, i: nat)
    requires i >= 3 && i % 2 == 1
    ensures forall k :: 0 <= k < |RowPairs(w, cells, i)| ==> PairOf(w, cells, i, RowPairs(w, cells, i)[k])
  {
    forall k | 0 <= k < |RowPairs(w, cells, i)|
      ensures PairOf(w, cells, i, RowPairs(w, cells, i)[k])
    {
      RowPairSound(w, cells, i, k);
    }
  }

  lemma {:induction false} RowPairSound(w: string, cells: seq<Option<Cleaned>>, i: nat, k: nat)
    requires i >= 3 && i % 2 == 1 && k < |RowPairs(w, cells, i)|
    ensures PairOf(w, cells, i, RowPairs(w, cells, i)[k])
    decreases |cells| - i
  {
    if BothClean(cells, i) && k == 0 {
      PairHead(w, cells, i);
    } else {
      var m := if BothClean(cells, i) then k - 1 else k;
      PairTail(w, cells, i, k, m);
      OddStep(i);
      RowPairSound(w, cells, i + 2, m);
      PairOfWeaken(w, cells, i, RowPairs(w, cells, i + 2)[m]);
    }
  }

  lemma PairHead(w: string, cells: seq<Option<Cleaned>>, i: nat)
    requires i >= 3 && i % 2 == 1 && BothClean(cells, i)
    ensures |RowPairs(w, cells, i)| > 0
    ensures RowPairs(w, cells, i)[0] == Pair(w, cells[i].value, cells[i + 1].value, i)
    ensures PairOf(w, cells, i, RowPairs(w, cells, i)[0])
  {
    PairAt(w, cells[i].value, cells[i + 1].value, i);
  }

  lemma PairTail(w: string, cells: seq<Option<Cleaned>>, i: nat, k: nat, m: nat)
    requires i >= 3 && k < |RowPairs(w, cells, i)|
    requires m == if BothClean(cells, i) then k - 1 else k
    requires !(BothClean(cells, i) && k == 0)
    ensures m < |RowPairs(w, cells, i + 2)| && RowPairs(w, cells, i)[k] == RowPairs(w, cells, i + 2)[m]
  {
  }

  lemma PairOfWeaken(w: string, cells: seq<Option<Cleaned>>, i: nat, st: Stmt)
    requires i >= 3 && PairOf(w, cells, i + 2, st)
    ensures PairOf(w, cells, i, st)
  {
  }

  lemma RowPairsFrom(w: string, cells: seq<Option<Cleaned>>, i: nat)
    requires i >= 3 && i % 2 == 1
    ensures DatesFrom(RowPairs(w, cells, i), i)
  {
    var r := RowPairs(w, cells, i);
    forall k | 0 <= k < |r|
      ensures r[k].LaborUpsert? && PairColumn(r[k].date) >= i
    {
      RowPairSound(w, cells, i, k);
    }
  }

  lemma ConsDatesIncrease(p: Stmt, tail: seq<Stmt>, i: int)
    requires p.LaborUpsert? && PairColumn(p.date) == i
    requires DatesIncrease(tail) && DatesFrom(tail, i + 2)
    ensures DatesIncrease([p] + tail)
  {
    var r := [p] + tail;
    forall a, b | 0 <= a < b < |r|
      ensures r[a].LaborUpsert? && r[b].LaborUpsert? && PairColumn(r[a].date) < PairColumn(r[b].date)
    {
      assert r[b] == tail[b - 1];
      if a > 0 {
        assert r[a] == tail[a - 1];
      }
    }
  }

  lemma {:induction false} RowPairsOrdered(w: string, cells: seq<Option<Cleaned>>, i: nat)
    requires i >= 3 && i % 2 == 1
    ensures DatesIncrease(RowPairs(w, cells, i))
    decreases |cells| - i
  {
    if i + 1 < |cells| {
      OddStep(i);
      RowPairsOrdered(w, cells, i + 2);
      RowPairsFrom(w, cells, i + 2);
      if BothClean(cells, i) {
        PairAt(w, cells[i].value, cells[i + 1].value, i);
        ConsDatesIncrease(Pair(w, cells[i].value, cells[i + 1].value, i), RowPairs(w, cells, i + 2), i);
      } else {
        assert RowPairs(w, cells, i) == RowPairs(w, cells, i + 2);
      }
    }
  }

  lemma RowPairsComplete(w: string, cells: seq<Option<Cleaned>>, i: nat)
    requires i >= 3 && i % 2 == 1
    ensures forall j :: i <= j < |cells| && j % 2 == 1 && BothClean(cells, j) ==> HasPairAt(RowPairs(w, cells, i), j)
  {
    forall j | i <= j < |cells| && j % 2 == 1 && BothClean(cells, j)
      ensures HasPairAt(RowPairs(w, cells, i), j)
    {
      var k := RowPairComplete(w, cells, i, j);
      assert 0 <= k < |RowPairs(w, cells, i)| && RowPairs(w, cells, i)[k].LaborUpsert? &&
             PairColumn(RowPairs(w, cells, i)[k].date) == j;
    }
  }

  /** The index, in RowPairs(w, cells, i), of the pair for column j. */
  lemma {:induction false} RowPairComplete(w: string, cells: seq<Option<Cleaned>>, i: nat, j: nat) returns (k: nat)
    requires i >= 3 && i % 2 == 1 && i <= j && j % 2 == 1 && BothClean(cells, j)
    ensures k < |RowPairs(w, cells, i)| && RowPairs(w, cells, i)[k].LaborUpsert? &&
            PairColumn(RowPairs(w, cells, i)[k].date) == j
    decreases |cells| - i
  {
    if j == i {
      PairAt(w, cells[i].value, cells[i + 1].value, i);
      k := 0;
    } else {
      OddStep(i);
      OddGap(i, j);
      var m := RowPairComplete(w, cells, i + 2, j);
      k := if BothClean(cells, i) then m + 1 else m;
      assert RowPairs(w, cells, i)[k] == RowPairs(w, cells, i + 2)[m];
    }
  }

  lemma OddStep(i: int)
    requires i % 2 == 1
    ensures (i + 2) % 2 == 1
  {
    DivMod2(i + 2, i / 2 + 1, 1);
  }

  /** Two different odd columns are at least two apart. */
  lemma OddGap(i: int, j: int)
    requires i % 2 == 1 && j % 2 == 1 && i < j
    ensures i + 2 <= j
  {
    assert i == 2 * (i / 2) + 1 && j == 2 * (j / 2) + 1;
  }

  /** Labour pairs all about worker w. */
  predicate AllPairsOf(r: seq<Stmt>, w: string)
  {
    forall k :: 0 <= k < |r| ==> r[k].LaborUpsert? && r[k].worker == w
  }

  lemma PairsAbout(w: string, cells: seq<Option<Cleaned>>)
    ensures AllPairsOf(RowPairs(w, cells, 3), w)
  {
    var r := RowPairs(w, cells, 3);
    forall k | 0 <= k < |r|
      ensures r[k].LaborUpsert? && r[k].worker == w
    {
      RowPairSound(w, cells, 3, k);
    }
  }

  /** Worker names in row order. */
  function Workers(rows: seq<seq<string>>): seq<string>
  {
    if rows == [] then []
    else (if WorkerOf(rows[0]).Some? then [WorkerOf(rows[0]).value] else []) + Workers(rows[1..])
  }

  function InsertedWorkers(st: seq<Stmt>): seq<string>
  {
    if st == [] then []
    else (if st[0].InsertJornal? then [st[0].worker] else []) + InsertedWorkers(st[1..])
  }

  lemma {:induction false} InsertedWorkersAppend(a: seq<Stmt>, b: seq<Stmt>)
    ensures InsertedWorkers(a + b) == InsertedWorkers(a) + InsertedWorkers(b)
  {
    if a == [] {
      LeftEmpty(a, b);
    } else {
      var head := if a[0].InsertJornal? then [a[0].worker] else [];
      ConsAppend(a, b);
      assert InsertedWorkers(a + b) == head + InsertedWorkers(a[1..] + b);
      InsertedWorkersAppend(a[1..], b);
      AppendAssoc(head, InsertedWorkers(a[1..]), InsertedWorkers(b));
    }
  }

  lemma {:induction false} NoInsertJornal(st: seq<Stmt>)
    requires forall k :: 0 <= k < |st| ==> st[k].LaborUpsert?
    ensures InsertedWorkers(st) == []
  {
    if st != [] {
      NoInsertJornal(st[1..]);
    }
  }

  /** One jornales insert per distinct worker name, in first-seen order. */
  lemma {:induction false} JornalInsertsAreFirstSeenWorkers(rows: seq<seq<string>>, seen: set<string>)
    ensures InsertedWorkers(JornalStmts(rows, seen)) == Dedup(Workers(rows), seen)
  {
    if rows != [] {
      var row := rows[0];
      var rest := rows[1..];
      var wo := WorkerOf(row);
      if wo.None? {
        JornalInsertsAreFirstSeenWorkers(rest, seen);
        assert Workers(rows) == Workers(rest);
      } else if wo.value in seen {
        JornalInsertsAreFirstSeenWorkers(rest, seen);
        assert Workers(rows) == [wo.value] + Workers(rest);
      } else {
        var w := wo.value;
        JornalInsertsAreFirstSeenWorkers(rest, seen + {w});
        var pairs := PairsOfRow(row, w);
        var later := JornalStmts(rest, seen + {w});
        assert JornalStmts(rows, seen) == [InsertJornal(w)] + pairs + later;
        InsertedWorkersAppend([InsertJornal(w)] + pairs, later);
        InsertedWorkersAppend([InsertJornal(w)], pairs);
        PairsAbout(w, Cells(row));
        NoInsertJornal(pairs);
        assert InsertedWorkers([InsertJornal(w)]) == [w];
        assert Workers(rows) == [w] + Workers(rest);
      }
    }
  }

  /** The first row whose worker name is w, if any. */
  function FirstWorkerRow(rows: seq<seq<string>>, w: string): (r: Option<seq<string>>)
    ensures r.Some? ==> WorkerOf(r.value) == Some(w)
  {
    if rows == [] then None
    else if WorkerOf(rows[0]) == Some(w) then Some(rows[0])
    else FirstWorkerRow(rows[1..], w)
  }

  /** The insert and pairs for the first row naming w; none if no row does. */
  function FirstWorkerBlock(rows: seq<seq<string>>, w: string): seq<Stmt>
  {
    var first := FirstWorkerRow(rows, w);
    if first.Some? then [InsertJornal(w)] + PairsOfRow(first.value, w) else []
  }

  /** The statements about worker w. */
  function WorkerStmts(st: seq<Stmt>, w: string): seq<Stmt>
  {
    if st == [] then []
    else (if (st[0].InsertJornal? || st[0].LaborUpsert?) && st[0].worker == w then [st[0]] else [])
         + WorkerStmts(st[1..], w)
  }

  lemma {:induction false} WorkerStmtsAppend(a: seq<Stmt>, b: seq<Stmt>, w: string)
    ensures WorkerStmts(a + b, w) == WorkerStmts(a, w) + WorkerStmts(b, w)
  {
    if a == [] {
      LeftEmpty(a, b);
    } else {
      var head := if (a[0].InsertJornal? || a[0].LaborUpsert?) && a[0].worker == w then [a[0]] else [];
      ConsAppend(a, b);
      assert WorkerStmts(a + b, w) == head + WorkerStmts(a[1..] + b, w);
      WorkerStmtsAppend(a[1..], b, w);
      AppendAssoc(head, WorkerStmts(a[1..], w), WorkerStmts(b, w));
    }
  }

  lemma {:induction false} WorkerStmtsUniform(st: seq<Stmt>, v: string, w: string)
    requires AllPairsOf(st, v)
    ensures WorkerStmts(st, w) == if v == w then st else []
  {
    if st != [] {
      assert AllPairsOf(st[1..], v) by {
        forall k | 0 <= k < |st[1..]|
          ensures st[1..][k].LaborUpsert? && st[1..][k].worker == v
        {
          assert st[1..][k] == st[k + 1];
        }
      }
      WorkerStmtsUniform(st[1..], v, w);
      assert st == [st[0]] + st[1..];
    }
  }

  /** Pairs are emitted only for the first row naming a worker: the statements about w
      are its one insert followed by the pairs of the first row naming w. */
  lemma {:induction false} JornalStmtsForWorker(rows: seq<seq<string>>, seen: set<string>, w: string)
    ensures WorkerStmts(JornalStmts(rows, seen), w) == if w in seen then [] else FirstWorkerBlock(rows, w)
  {
    if rows != [] {
      var row := rows[0];
      var rest := rows[1..];
      var wo := WorkerOf(row);
      if wo.None? || wo.value in seen {
        JornalStmtsForWorker(rest, seen, w);
        assert FirstWorkerBlock(rows, w) == FirstWorkerBlock(rest, w) || w in seen;
      } else {
        var v := wo.value;
        JornalStmtsForWorker(rest, seen + {v}, w);
        var pairs := PairsOfRow(row, v);
        var later := JornalStmts(rest, seen + {v});
        assert JornalStmts(rows, seen) == [InsertJornal(v)] + pairs + later;
        WorkerStmtsAppend([InsertJornal(v)] + pairs, later, w);
        WorkerStmtsAppend([InsertJornal(v)], pairs, w);
        PairsAbout(v, Cells(row));
        WorkerStmtsUniform(pairs, v, w);
        if v == w {
          assert FirstWorkerBlock(rows, w) == [InsertJornal(w)] + pairs;
        } else {
          assert FirstWorkerBlock(rows, w) == FirstWorkerBlock(rest, w);
        }
      }
    }
  }

  // =====================================================================
  // Script assembler: main
  // =====================================================================

  const Header := "BEGIN;\n\n\n-- Materials\n"
  const Footer := "\n\nCOMMIT;\n"

  /** The output text: the four sections, each statement on its own line, inside
      BEGIN/COMMIT. */
  function AssembleScript(materials: seq<string>, indices: seq<string>, items: seq<string>,
                          labor: seq<string>): (out: string)
    ensures StartsWith(out, Header) && EndsWith(out, Footer)
    ensures |Header| + |Join(materials, "\n")| <= |out|
    ensures out[|Header|..|Header| + |Join(materials, "\n")|] == Join(materials, "\n")
  {
    var body := Join(materials, "\n") + "\n\n-- Indices\n" + Join(indices, "\n")
      + "\n\n-- Items\n" + Join(items, "\n") + "\n\n-- Labor rates\n" + Join(labor, "\n");
    assert (Header + body + Footer)[|Header|..|Header| + |Join(materials, "\n")|] == Join(materials, "\n");
    Header + body + Footer
  }

  function RenderAll(st: seq<Stmt>, fmt: real -> string): (r: seq<string>)
    ensures |r| == |st|
  {
    seq(|st|, k requires 0 <= k < |st| => Render(st[k], fmt))
  }

  /** main: the materials, indices, items and labour dumps, in that order. */
  method TransformAll(materiales: string, indices: string, items: string, jornales: string,
                      fmt: real -> string) returns (script: string)
    ensures script == AssembleScript(
      RenderAll(EntityStmts(ParsedRows(materiales), {}, Tables("materiales", "material_prices", "material_id")), fmt),
      RenderAll(EntityStmts(ParsedRows(indices), {}, Tables("indices", "index_values", "index_id")), fmt),
      RenderAll(EntityStmts(ParsedRows(items), {}, Tables("items", "item_prices", "item_id")), fmt),
      RenderAll(JornalStmts(ParsedRows(jornales), {}), fmt))
  {
    var m := TransformEntities(materiales, Tables("materiales", "material_prices", "material_id"));
    var x := TransformEntities(indices, Tables("indices", "index_values", "index_id"));
    var it := TransformEntities(items, Tables("items", "item_prices", "item_id"));
    var j := TransformJornales(jornales);
    script := AssembleScript(RenderAll(m, fmt), RenderAll(x, fmt), RenderAll(it, fmt), RenderAll(j, fmt));
  }
}
