// The SQL upload route: the dump is cut into statements at the semicolons that stand
// outside single- and double-quoted strings, and only the CREATE TABLE and INSERT INTO
// statements are sent to the database.

module SqlUpload {
  import opened Strings

  const SingleQuote: char := '\''
  const DoubleQuote: char := '"'
  const Backslash: char := '\\'

  /** Where the scanner is: outside any string, or inside one opened by `quote`. The
      source keeps two flags that are never set together. */
  datatype Mode = Outside | Inside(quote: char)

  /** A finished statement: trimmed, and kept only when something is left. */
  function Flush(current: string): (r: seq<string>)
    ensures |r| <= 1
    ensures r == [] <==> Trim(current) == ""
  {
    if Trim(current) != "" then [Trim(current)] else []
  }

  /** What one pass of the loop does: how many characters it reads, the mode after it,
      the text it adds to the statement under way, and whether it ends the statement
      (an unquoted `;`). */
  datatype Move = Move(length: nat, mode: Mode, text: string, ends: bool)

  /** One pass of the loop at the start of `rest`. `keepDoubled` chooses what a doubled
      quote inside a string contributes: one quote (`false`, the code as written) or
      both (`true`). */
  function Step(rest: string, mode: Mode, keepDoubled: bool): (m: Move)
    requires rest != []
    ensures 1 <= m.length <= |rest| && (m.ends ==> m.text == "" && rest[0] == ';')
  {
    var c := rest[0];
    if mode.Inside? && c == Backslash then
      if |rest| > 1 then Move(2, mode, [c, rest[1]], false) else Move(1, mode, [c], false)
    else if mode.Outside? then
      if c == SingleQuote || c == DoubleQuote then Move(1, Inside(c), [c], false)
      else if c == ';' then Move(1, Outside, "", true)
      else Move(1, Outside, [c], false)
    else if c == mode.quote then
      if |rest| > 1 && rest[1] == c then Move(2, mode, if keepDoubled then [c, c] else [c], false)
      else Move(1, Outside, [c], false)
    else Move(1, mode, [c], false)
  }

  /** The statements the scanner produces from the text `rest`, in mode `mode`, with
      `current` already collected for the statement under way. */
  function Scan(rest: string, mode: Mode, current: string, keepDoubled: bool): seq<string>
    decreases |rest|
  {
    if rest == [] then Flush(current)
    else
      var m := Step(rest, mode, keepDoubled);
      if m.ends then Flush(current) + Scan(rest[m.length..], m.mode, "", keepDoubled)
      else Scan(rest[m.length..], m.mode, current + m.text, keepDoubled)
  }

  /** `splitSQLStatements` as written. */
  function SplitStatementsAsWritten(sql: string): seq<string>
  {
    Scan(sql, Outside, "", false)
  }

  /** `splitSQLStatements` with a doubled quote copied whole into the statement. */
  function SplitStatements(sql: string): seq<string>
  {
    Scan(sql, Outside, "", true)
  }

  /** The character loop of `splitSQLStatements`. */
  method SplitSQLStatements(sql: string) returns (statements: seq<string>)
    ensures statements == SplitStatementsAsWritten(sql)
  {
    statements := [];
    var current := "";
    var mode := Outside;
    var i := 0;
    while i < |sql|
      invariant 0 <= i <= |sql|
      invariant statements + Scan(sql[i..], mode, current, false) == SplitStatementsAsWritten(sql)
    {
      ghost var m := Step(sql[i..], mode, false);
      ghost var (i0, mode0, current0, statements0) := (i, mode, current, statements);
      var c := sql[i];
      if mode.Inside? && c == Backslash {
        current := current + [c];
        if i + 1 < |sql| {
          current := current + [sql[i + 1]];
          i := i + 1;
        }
      } else if mode.Outside? {
        if c == SingleQuote || c == DoubleQuote {
          mode := Inside(c);
          current := current + [c];
        } else if c == ';' {
          statements := statements + Flush(current);
          current := "";
        } else {
          current := current + [c];
        }
      } else if c == mode.quote {
        if i + 1 < |sql| && sql[i + 1] == c {
          current := current + [c];
          i := i + 1;
        } else {
          mode := Outside;
          current := current + [c];
        }
      } else {
        current := current + [c];
      }
      i := i + 1;
      assert i == i0 + m.length && mode == m.mode;
      assert if m.ends then current == "" && statements == statements0 + Flush(current0)
             else current == current0 + m.text && statements == statements0;
      assert sql[i..] == sql[i0..][m.length..];
    }
    statements := statements + Flush(current);
  }

  // ---------------------------------------------------------------------------
  // Properties of the scanner

  /** Every statement is non-empty and its own trim. */
  predicate AllTrimmed(statements: seq<string>)
  {
    forall k :: 0 <= k < |statements| ==> statements[k] != "" && Trim(statements[k]) == statements[k]
  }

  lemma FlushTrimmed(current: string)
    ensures AllTrimmed(Flush(current))
  {
    TrimOfTrimmed(Trim(current));
  }

  lemma AppendTrimmed(a: seq<string>, b: seq<string>)
    requires AllTrimmed(a) && AllTrimmed(b)
    ensures AllTrimmed(a + b)
  {
    assert forall k :: 0 <= k < |a + b| ==> (a + b)[k] == if k < |a| then a[k] else b[k - |a|];
  }

  /** Every statement is trimmed and non-empty. */
  lemma {:induction false} StatementsTrimmed(rest: string, mode: Mode, current: string, keepDoubled: bool)
    ensures AllTrimmed(Scan(rest, mode, current, keepDoubled))
    decreases |rest|
  {
    FlushTrimmed(current);
    if rest != [] {
      var m := Step(rest, mode, keepDoubled);
      StatementsTrimmed(rest[m.length..], m.mode, if m.ends then "" else current + m.text, keepDoubled);
      if m.ends {
        AppendTrimmed(Flush(current), Scan(rest[m.length..], m.mode, "", keepDoubled));
      }
    }
  }

  /** The semicolons the scanner meets outside any string. */
  function Breaks(rest: string, mode: Mode): nat
    decreases |rest|
  {
    if rest == [] then 0
    else
      var m := Step(rest, mode, false);
      (if m.ends then 1 else 0) + Breaks(rest[m.length..], m.mode)
  }

  /** The doubled-quote choice changes no mode and no statement end. */
  lemma StepModes(rest: string, mode: Mode)
    requires rest != []
    ensures var a := Step(rest, mode, false);
            var b := Step(rest, mode, true);
            a.length == b.length && a.mode == b.mode && a.ends == b.ends
  {
  }

  lemma {:induction false} CountSuffix(s: string, n: nat)
    requires n <= |s|
    ensures Count(s, ';') == Count(s[..n], ';') + Count(s[n..], ';')
  {
    assert s == s[..n] + s[n..];
    CountAppend(s[..n], s[n..], ';');
  }

  /** There are at most as many statements as unquoted semicolons plus one, and those
      are among the text's semicolons. */
  lemma {:induction false} StatementCount(rest: string, mode: Mode, current: string, keepDoubled: bool)
    ensures |Scan(rest, mode, current, keepDoubled)| <= Breaks(rest, mode) + 1
    ensures Breaks(rest, mode) <= Count(rest, ';')
    decreases |rest|
  {
    if rest != [] {
      var m := Step(rest, mode, keepDoubled);
      StepModes(rest, mode);
      StatementCount(rest[m.length..], m.mode, if m.ends then "" else current + m.text, keepDoubled);
      CountSuffix(rest, m.length);
      if m.ends {
        assert rest[..1] == [';'];
      }
    }
  }

  /** The trimmed, non-blank pieces. */
  function NonBlank(pieces: seq<string>): seq<string>
  {
    if pieces == [] then [] else Flush(pieces[0]) + NonBlank(pieces[1..])
  }

  /** Text without quotes is cut at every semicolon: the statements are its trimmed,
      non-blank `;`-separated pieces. */
  lemma {:induction false} UnquotedSplitsAtSemicolons(t: string, current: string, keepDoubled: bool)
    requires SingleQuote !in t && DoubleQuote !in t && ';' !in current
    ensures Scan(t, Outside, current, keepDoubled) == NonBlank(Split(current + t, ';'))
    decreases |t|
  {
    if t == [] {
      assert current + t == current;
      SplitWithout(current, ';');
      assert NonBlank([current]) == Flush(current) + NonBlank([]);
    } else {
      assert t[0] != SingleQuote && t[0] != DoubleQuote by { assert t[0] in t; }
      if t[0] == ';' {
        UnquotedSplitsAtSemicolons(t[1..], "", keepDoubled);
        UnquotedSemicolon(t, current, keepDoubled);
      } else {
        UnquotedSplitsAtSemicolons(t[1..], current + [t[0]], keepDoubled);
        UnquotedOther(t, current, keepDoubled);
      }
    }
  }

  lemma UnquotedSemicolon(t: string, current: string, keepDoubled: bool)
    requires t != [] && t[0] == ';' && ';' !in current
    requires Scan(t[1..], Outside, "", keepDoubled) == NonBlank(Split("" + t[1..], ';'))
    ensures Scan(t, Outside, current, keepDoubled) == NonBlank(Split(current + t, ';'))
  {
    assert "" + t[1..] == t[1..];
    ScanAtSemicolon(t, current, keepDoubled);
    SplitAtSemicolon(t, current);
  }

  lemma ScanAtSemicolon(t: string, current: string, keepDoubled: bool)
    requires t != [] && t[0] == ';'
    ensures Scan(t, Outside, current, keepDoubled) == Flush(current) + Scan(t[1..], Outside, "", keepDoubled)
  {
    assert Step(t, Outside, keepDoubled) == Move(1, Outside, "", true);
  }

  lemma SplitAtSemicolon(t: string, current: string)
    requires t != [] && t[0] == ';' && ';' !in current
    ensures NonBlank(Split(current + t, ';')) == Flush(current) + NonBlank(Split(t[1..], ';'))
  {
    var rest := t[1..];
    assert current + t == current + [';'] + rest;
    SplitAtFirst(current, ';', rest);
    var pieces := [current] + Split(rest, ';');
    assert pieces[1..] == Split(rest, ';');
  }

  lemma UnquotedOther(t: string, current: string, keepDoubled: bool)
    requires t != [] && t[0] != ';' && t[0] != SingleQuote && t[0] != DoubleQuote
    requires Scan(t[1..], Outside, current + [t[0]], keepDoubled) == NonBlank(Split(current + [t[0]] + t[1..], ';'))
    ensures Scan(t, Outside, current, keepDoubled) == NonBlank(Split(current + t, ';'))
  {
    ScanOther(t, current, keepDoubled);
    ConsTail(current, t);
  }

  lemma ConsTail(a: string, t: string)
    requires t != []
    ensures a + [t[0]] + t[1..] == a + t
  {
    assert t == [t[0]] + t[1..];
  }

  lemma ScanOther(t: string, current: string, keepDoubled: bool)
    requires t != [] && t[0] != ';' && t[0] != SingleQuote && t[0] != DoubleQuote
    ensures Scan(t, Outside, current, keepDoubled) == Scan(t[1..], Outside, current + [t[0]], keepDoubled)
  {
    assert Step(t, Outside, keepDoubled) == Move(1, Outside, [t[0]], false);
  }

  /** Inside a string opened by `q`, a backslash and the character after it are read
      together and copied as they are, whatever that character is: an escaped quote
      neither closes the string nor is doubled. */
  lemma InsideBackslash(c: char, rest: string, q: char, current: string, keepDoubled: bool)
    ensures Scan([Backslash, c] + rest, Inside(q), current, keepDoubled) ==
            Scan(rest, Inside(q), current + [Backslash, c], keepDoubled)
  {
    var t := [Backslash, c] + rest;
    assert t[2..] == rest;
    assert Step(t, Inside(q), keepDoubled) == Move(2, Inside(q), [Backslash, c], false);
  }

  /** A piece of the body of a string quoted by `q`, as a dump writes it: a character
      other than `q` and the backslash, a doubled `q`, or a backslash and the character
      it escapes. */
  datatype Piece = Plain(c: char) | DoubledQuote | Escaped(c: char)

  predicate PieceOk(p: Piece, q: char)
  {
    p.Plain? ==> p.c != q && p.c != Backslash
  }

  predicate PiecesOk(ps: seq<Piece>, q: char)
  {
    forall i :: 0 <= i < |ps| ==> PieceOk(ps[i], q)
  }

  function PieceText(p: Piece, q: char): string
  {
    match p
    case Plain(c) => [c]
    case DoubledQuote => [q, q]
    case Escaped(c) => [Backslash, c]
  }

  /** What the scanner adds to the statement for a piece: the piece itself, except that
      the code as written keeps one quote of a doubled pair. */
  function PieceCollected(p: Piece, q: char, keepDoubled: bool): string
  {
    match p
    case DoubledQuote => if keepDoubled then [q, q] else [q]
    case _ => PieceText(p, q)
  }

  /** The body as written in the dump. */
  function Body(ps: seq<Piece>, q: char): string
  {
    if ps == [] then [] else PieceText(ps[0], q) + Body(ps[1..], q)
  }

  /** The body as the scanner collects it. */
  function Collected(ps: seq<Piece>, q: char, keepDoubled: bool): string
  {
    if ps == [] then [] else PieceCollected(ps[0], q, keepDoubled) + Collected(ps[1..], q, keepDoubled)
  }

  /** One piece is read in one pass and leaves the scanner inside the string. */
  lemma PieceStep(p: Piece, q: char, tail: string, current: string, keepDoubled: bool)
    requires PieceOk(p, q) && q != Backslash
    ensures Scan(PieceText(p, q) + tail, Inside(q), current, keepDoubled) ==
            Scan(tail, Inside(q), current + PieceCollected(p, q, keepDoubled), keepDoubled)
  {
    var w := PieceText(p, q);
    assert (w + tail)[|w|..] == tail;
    match p
    case Plain(c) =>
      assert Step(w + tail, Inside(q), keepDoubled) == Move(1, Inside(q), [c], false);
    case DoubledQuote =>
      assert (w + tail)[1] == q;
      assert Step(w + tail, Inside(q), keepDoubled) == Move(2, Inside(q), PieceCollected(p, q, keepDoubled), false);
    case Escaped(c) =>
      assert Step(w + tail, Inside(q), keepDoubled) == Move(2, Inside(q), [Backslash, c], false);
  }

  /** Inside a string opened by `q`, its body and the closing quote are collected and the
      scanner is outside again: neither a `;`, nor the other kind of quote, nor a
      doubled or escaped quote in the body ends the string. */
  lemma {:induction false} InsideLiteral(ps: seq<Piece>, q: char, rest: string, current: string, keepDoubled: bool)
    requires PiecesOk(ps, q) && q != Backslash
    requires rest == [] || rest[0] != q
    ensures Scan(Body(ps, q) + [q] + rest, Inside(q), current, keepDoubled) ==
            Scan(rest, Outside, current + Collected(ps, q, keepDoubled) + [q], keepDoubled)
    decreases |ps|
  {
    if ps == [] {
      var t := Body(ps, q) + [q] + rest;
      assert t == [q] + rest;
      assert t[1..] == rest;
      assert Step(t, Inside(q), keepDoubled) == Move(1, Outside, [q], false);
      assert current + Collected(ps, q, keepDoubled) + [q] == current + [q];
    } else {
      var p := ps[0];
      var w := PieceText(p, q);
      var tail := Body(ps[1..], q) + [q] + rest;
      var text := PieceCollected(p, q, keepDoubled);
      assert PieceOk(p, q) && PiecesOk(ps[1..], q) by { assert ps[1..] == ps[1..]; }
      assert Body(ps, q) + [q] + rest == w + tail;
      PieceStep(p, q, tail, current, keepDoubled);
      InsideLiteral(ps[1..], q, rest, current + text, keepDoubled);
      Regroup(current, text, Collected(ps[1..], q, keepDoubled), [q]);
    }
  }

  lemma Regroup(a: string, b: string, c: string, d: string)
    ensures a + b + c + d == a + (b + c) + d
  {
  }

  /** A semicolon inside a quoted string never ends a statement: the whole string is
      collected into the statement under way, quotes included. */
  lemma QuotedLiteral(ps: seq<Piece>, q: char, rest: string, current: string, keepDoubled: bool)
    requires q == SingleQuote || q == DoubleQuote
    requires PiecesOk(ps, q)
    requires rest == [] || rest[0] != q
    ensures Scan([q] + Body(ps, q) + [q] + rest, Outside, current, keepDoubled) ==
            Scan(rest, Outside, current + [q] + Collected(ps, q, keepDoubled) + [q], keepDoubled)
  {
    var t := [q] + Body(ps, q) + [q] + rest;
    assert t[1..] == Body(ps, q) + [q] + rest;
    assert Step(t, Outside, keepDoubled) == Move(1, Inside(q), [q], false);
    InsideLiteral(ps, q, rest, current + [q], keepDoubled);
  }

  /** With both quotes of a pair kept, the scanner collects the body exactly as written. */
  lemma {:induction false} CollectedKept(ps: seq<Piece>, q: char)
    ensures Collected(ps, q, true) == Body(ps, q)
    decreases |ps|
  {
    if ps != [] {
      CollectedKept(ps[1..], q);
    }
  }

  /** As written, each doubled quote loses one quote: the collected body is shorter than
      the written one by the number of doubled pairs. */
  lemma {:induction false} CollectedShorter(ps: seq<Piece>, q: char)
    requires DoubledQuote in ps
    ensures |Collected(ps, q, false)| < |Body(ps, q)|
    decreases |ps|
  {
    CollectedNoLonger(ps[1..], q);
    if ps[0] != DoubledQuote {
      assert DoubledQuote in ps[1..];
      CollectedShorter(ps[1..], q);
    }
  }

  lemma {:induction false} CollectedNoLonger(ps: seq<Piece>, q: char)
    ensures |Collected(ps, q, false)| <= |Body(ps, q)|
    decreases |ps|
  {
    if ps != [] {
      CollectedNoLonger(ps[1..], q);
    }
  }

  /** As written, a string holding a doubled quote loses one quote of each pair: the
      statement comes out shorter than the string in the dump, so `'it''s'` becomes
      `'it's'`, which no longer closes its string. */
  lemma DoubledQuoteCollapses(ps: seq<Piece>, q: char)
    requires q == SingleQuote || q == DoubleQuote
    requires PiecesOk(ps, q) && DoubledQuote in ps
    ensures SplitStatementsAsWritten([q] + Body(ps, q) + [q]) == [[q] + Collected(ps, q, false) + [q]]
    ensures [q] + Collected(ps, q, false) + [q] != [q] + Body(ps, q) + [q]
  {
    var literal := [q] + Body(ps, q) + [q];
    var collapsed := [q] + Collected(ps, q, false) + [q];
    QuotedLiteral(ps, q, "", "", false);
    Unpadded(q, Body(ps, q));
    Unpadded(q, Collected(ps, q, false));
    assert collapsed[0] == q && collapsed[|collapsed| - 1] == q;
    FlushWhole(collapsed, false);
    CollectedShorter(ps, q);
    assert |collapsed| < |literal|;
  }

  /** With the correction a quoted string, doubled quotes and backslash escapes
      included, reaches the statement exactly as it was written in the dump. */
  lemma DoubledQuoteKept(ps: seq<Piece>, q: char)
    requires q == SingleQuote || q == DoubleQuote
    requires PiecesOk(ps, q)
    ensures SplitStatements([q] + Body(ps, q) + [q]) == [[q] + Body(ps, q) + [q]]
  {
    var literal := [q] + Body(ps, q) + [q];
    QuotedLiteral(ps, q, "", "", true);
    CollectedKept(ps, q);
    Unpadded(q, Body(ps, q));
    assert literal[0] == q && literal[|literal| - 1] == q;
    FlushWhole(literal, true);
  }

  lemma Unpadded(q: char, inner: string)
    ensures [q] + inner + [q] + "" == [q] + inner + [q]
    ensures "" + [q] + inner + [q] == [q] + inner + [q]
  {
  }

  /** At the end of the input a statement without surrounding space is kept whole. */
  lemma FlushWhole(statement: string, keepDoubled: bool)
    requires statement != [] && !IsSpace(statement[0]) && !IsSpace(statement[|statement| - 1])
    ensures Scan("", Outside, statement, keepDoubled) == [statement]
  {
    TrimOfTrimmed(statement);
  }

  // ---------------------------------------------------------------------------
  // Executing the statements

  /** `if (!stmt.trim()) continue; if (lower.includes("create table") || ...)`. */
  predicate Executable(stmt: string)
  {
    Trim(stmt) != "" &&
    (Contains(ToLower(stmt), "create table") || Contains(ToLower(stmt), "insert into"))
  }

  /** The statements sent to the database, in order. */
  function ExecutableStatements(statements: seq<string>): (r: seq<string>)
    ensures forall k :: 0 <= k < |r| ==> Executable(r[k]) && r[k] in statements
  {
    if statements == [] then []
    else
      var n := |statements| - 1;
      ExecutableStatements(statements[..n]) + (if Executable(statements[n]) then [statements[n]] else [])
  }

  /** A statement is sent exactly when it is one of the dump's statements and is a
      CREATE TABLE or INSERT INTO. */
  lemma {:induction false} ExecutableExactly(statements: seq<string>, s: string)
    ensures s in ExecutableStatements(statements) <==> s in statements && Executable(s)
  {
    if statements != [] {
      var n := |statements| - 1;
      ExecutableExactly(statements[..n], s);
      assert statements == statements[..n] + [statements[n]];
    }
  }

  /** What the route reports for one executed statement. */
  datatype Report = Report(success: bool, statement: string, error: Option<string>)

  /** `stmt.substring(0, 100) + "..."`. */
  function Excerpt(stmt: string): (r: string)
    ensures |r| <= 103 && EndsWith(r, "...")
  {
    stmt[..if |stmt| < 100 then |stmt| else 100] + "..."
  }

  /** The report for a statement, given the database's answer (`None` on success, else
      the error the driver gives) to the statement with `;` appended. */
  function ReportOf(stmt: string, database: string -> Option<string>): Report
  {
    var error := database(stmt + ";");
    Report(error.None?, Excerpt(stmt), error)
  }

  /** The reports of the execution loop over `statements`. */
  function Reports(statements: seq<string>, database: string -> Option<string>): seq<Report>
  {
    if statements == [] then []
    else
      var n := |statements| - 1;
      Reports(statements[..n], database) + (if Executable(statements[n]) then [ReportOf(statements[n], database)] else [])
  }

  /** The execution loop, with the database as a parameter. */
  method ExecuteStatements(statements: seq<string>, database: string -> Option<string>) returns (results: seq<Report>)
    ensures results == Reports(statements, database)
  {
    results := [];
    for i := 0 to |statements|
      invariant results == Reports(statements[..i], database)
    {
      var stmt := statements[i];
      assert statements[..i + 1][..i] == statements[..i] && statements[..i + 1][i] == stmt;
      ghost var exec := Executable(stmt);
      assert Reports(statements[..i + 1], database) ==
             Reports(statements[..i], database) + (if exec then [ReportOf(stmt, database)] else []);
      if Executable(stmt) {
        var error := database(stmt + ";");
        results := results + [Report(error.None?, Excerpt(stmt), error)];
      }
    }
    assert statements[..|statements|] == statements;
  }

  /** One report per executed statement, in order, successful exactly when the
      database accepted it. */
  lemma {:induction false} ReportsMatch(statements: seq<string>, database: string -> Option<string>)
    ensures |Reports(statements, database)| == |ExecutableStatements(statements)|
    ensures forall k :: 0 <= k < |Reports(statements, database)| ==>
              Reports(statements, database)[k] == ReportOf(ExecutableStatements(statements)[k], database)
  {
    if statements != [] {
      ReportsMatch(statements[..|statements| - 1], database);
    }
  }
}
