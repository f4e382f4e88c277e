/** Debian control stanzas (Debian Policy section 5.1): parser and printer. A stanza is an
    ordered list of fields with distinct names. */
module ControlStanzas {
  import opened Wrappers

  datatype Field = Field(key: string, value: string)

  type Row = seq<Field>

  // ------------------------------------------------------------------- lexing

  /** str.isspace() of one character. */
  predicate IsSpace(c: char) {
    var n := c as int;
    0x09 <= n <= 0x0d || 0x1c <= n <= 0x20 || n == 0x85 || n == 0xa0 || n == 0x1680 || 0x2000 <= n <= 0x200a
    || n == 0x2028 || n == 0x2029 || n == 0x202f || n == 0x205f || n == 0x3000
  }

  /** Where str.splitlines() breaks. */
  predicate IsBreak(c: char) {
    var n := c as int;
    0x0a <= n <= 0x0d || 0x1c <= n <= 0x1e || n == 0x85 || n == 0x2028 || n == 0x2029
  }

  predicate IsLine(s: string) { forall i :: 0 <= i < |s| ==> !IsBreak(s[i]) }

  /** The length of the first line. */
  function LineLength(s: string): (n: nat)
    ensures n <= |s| && IsLine(s[..n]) && (n < |s| ==> IsBreak(s[n]))
  {
    if s == [] || IsBreak(s[0]) then 0
    else
      var n := LineLength(s[1..]);
      assert s[..n + 1] == [s[0]] + s[1..][..n];
      n + 1
  }

  /** str.splitlines(): a carriage return and a line feed after it are one break. */
  function SplitLines(s: string): (lines: seq<string>)
    ensures forall i :: 0 <= i < |lines| ==> IsLine(lines[i])
    decreases |s|
  {
    if s == [] then []
    else
      var n := LineLength(s);
      if n == |s| then [s[..n]]
      else if s[n] == '\r' && n + 1 < |s| && s[n + 1] == '\n' then [s[..n]] + SplitLines(s[n + 2..])
      else [s[..n]] + SplitLines(s[n + 1..])
  }

  function LStrip(s: string): (r: string)
    ensures r == [] || !IsSpace(r[0])
    ensures IsLine(s) ==> IsLine(r)
    ensures s == [] || !IsSpace(s[0]) ==> r == s
  {
    if s == [] || !IsSpace(s[0]) then s else LStrip(s[1..])
  }

  /** Index of the first colon. */
  function FindColon(s: string): (r: Option<nat>)
    ensures r.Some? ==> r.value < |s| && s[r.value] == ':' && ':' !in s[..r.value]
    ensures r.None? ==> ':' !in s
  {
    if s == [] then None
    else if s[0] == ':' then Some(0)
    else
      var r := FindColon(s[1..]);
      if r.None? then None
      else
        assert s[..r.value + 1] == [s[0]] + s[1..][..r.value];
        Some(r.value + 1)
  }

  lemma {:induction false} ColonAt(key: string, rest: string)
    requires ':' !in key
    ensures FindColon(key + ":" + rest) == Some(|key|)
  {
    var s := key + ":" + rest;
    if key == [] {
      assert s[0] == ':';
    } else {
      assert s[0] == key[0] && s[1..] == key[1..] + ":" + rest;
      ColonAt(key[1..], rest);
    }
  }

  // ------------------------------------------------------------------- parsing

  datatype State = Bad | State(rows: seq<Row>, current: Row, last: string)

  predicate HasKey(row: Row, key: string) { exists i :: 0 <= i < |row| && row[i].key == key }

  /** One iteration of the parser's loop; `Bad` where it raises. */
  function Step(st: State, line: string): State {
    if st.Bad? then Bad
    else if line == [] then (if st.current == [] then st else State(st.rows + [st.current], [], ""))
    else if IsSpace(line[0]) && st.last != "" then
      State(st.rows, Continue(st.current, st.last, line), st.last)
    else
      var colon := FindColon(line);
      if colon.None? then Bad
      else
        var key := line[..colon.value];
        if HasKey(st.current, key) then Bad
        else State(st.rows, st.current + [Field(key, LStrip(line[colon.value + 1..]))], key)
  }

  /** current[last] += "\n" + line */
  function Continue(row: Row, key: string, line: string): (r: Row)
    ensures |r| == |row|
  {
    if row == [] then []
    else if row[0].key == key then [Field(key, row[0].value + "\n" + line)] + row[1..]
    else [row[0]] + Continue(row[1..], key, line)
  }

  function Feed(st: State, lines: seq<string>): State
    decreases |lines|
  {
    if lines == [] then st else Step(Feed(st, lines[..|lines| - 1]), lines[|lines| - 1])
  }

  const BEGIN := State([], [], "")

  function Parse(text: string): Option<seq<Row>> {
    var st := Feed(BEGIN, SplitLines(text) + [""]);
    if st.Bad? then None else Some(st.rows)
  }

  /** parse_stanzas */
  method ParseStanzas(text: string) returns (rows: Option<seq<Row>>)
    ensures rows == Parse(text)
  {
    var lines := SplitLines(text) + [""];
    var done: seq<Row>, current: Row, last := [], [], "";
    for i := 0 to |lines|
      invariant Feed(BEGIN, lines[..i]) == State(done, current, last)
    {
      var line := lines[i];
      assert lines[..i + 1][..i] == lines[..i];
      if line == [] {
        if current != [] { done, current, last := done + [current], [], ""; }
      } else if IsSpace(line[0]) && last != "" {
        current := Continue(current, last, line);
      } else {
        var colon := FindColon(line);
        if colon.None? || HasKey(current, line[..colon.value]) {
          FeedBad(BEGIN, lines[..i + 1], lines[i + 1..]);
          assert lines == lines[..i + 1] + lines[i + 1..];
          return None;
        }
        last := line[..colon.value];
        current := current + [Field(last, LStrip(line[colon.value + 1..]))];
      }
    }
    assert lines[..|lines|] == lines;
    return Some(done);
  }

  lemma {:induction false} FeedAppend(st: State, a: seq<string>, b: seq<string>)
    ensures Feed(st, a + b) == Feed(Feed(st, a), b)
    decreases |b|
  {
    if b == [] {
      assert a + b == a;
    } else {
      assert (a + b)[..|a + b| - 1] == a + b[..|b| - 1];
      FeedAppend(st, a, b[..|b| - 1]);
    }
  }

  lemma {:induction false} FeedBad(st: State, a: seq<string>, b: seq<string>)
    requires Feed(st, a).Bad?
    ensures Feed(st, a + b).Bad?
    decreases |b|
  {
    if b == [] {
      assert a + b == a;
    } else {
      assert (a + b)[..|a + b| - 1] == a + b[..|b| - 1];
      FeedBad(st, a, b[..|b| - 1]);
    }
  }

  // ------------------------------------------------------------------ printing

  function RenderRow(row: Row): string {
    if row == [] then ""
    else if |row| == 1 then row[0].key + ": " + row[0].value
    else RenderRow(row[..|row| - 1]) + "\n" + row[|row| - 1].key + ": " + row[|row| - 1].value
  }

  function JoinBlocks(rows: seq<Row>): string {
    if rows == [] then ""
    else if |rows| == 1 then RenderRow(rows[0])
    else JoinBlocks(rows[..|rows| - 1]) + "\n\n" + RenderRow(rows[|rows| - 1])
  }

  /** render_stanzas */
  function Render(rows: seq<Row>): string { JoinBlocks(rows) + "\n" }

  // --------------------------------------------------------------- well-formed

  /** A value as the lines it occupies. */
  function ValueLines(v: string): (lines: seq<string>)
    ensures |lines| >= 1
  {
    if v == [] then [[]]
    else
      var rest := ValueLines(v[1..]);
      if v[0] == '\n' then [[]] + rest else [[v[0]] + rest[0]] + rest[1..]
  }

  /** A continuation line of a named field. */
  predicate IsContinuation(l: string) { l != [] && IsSpace(l[0]) && IsLine(l) }

  /** A field that can follow a field named `last` ("" at the start of a stanza). */
  predicate FieldOk(last: string, f: Field) {
    var lines := ValueLines(f.value);
    && IsLine(f.key) && ':' !in f.key
    && (f.key != "" && IsSpace(f.key[0]) ==> last == "")
    && IsLine(lines[0]) && (lines[0] != "" ==> !IsSpace(lines[0][0]))
    && (|lines| > 1 ==> f.key != "")
    && (forall i :: 0 < i < |lines| ==> IsContinuation(lines[i]))
  }

  function LastKey(row: Row): string { if row == [] then "" else row[|row| - 1].key }

  predicate FieldsOk(row: Row) {
    row == [] || (FieldsOk(row[..|row| - 1]) && FieldOk(LastKey(row[..|row| - 1]), row[|row| - 1]))
  }

  lemma FieldsAppend(init: Row, f: Field)
    ensures FieldsOk(init + [f]) <==> FieldsOk(init) && FieldOk(LastKey(init), f)
  {
    assert (init + [f])[..|init|] == init;
  }

  predicate DistinctKeys(row: Row) {
    forall i, j :: 0 <= i < j < |row| ==> row[i].key != row[j].key
  }

  predicate RowOk(row: Row) { row != [] && FieldsOk(row) && DistinctKeys(row) }

  predicate WellFormed(rows: seq<Row>) { forall i :: 0 <= i < |rows| ==> RowOk(rows[i]) }

  // ---------------------------------------------------------------- the lines of a text

  /** Every line followed by a line feed. */
  function Unlines(lines: seq<string>): string {
    if lines == [] then "" else lines[0] + "\n" + Unlines(lines[1..])
  }

  lemma {:induction false} UnlinesAppend(a: seq<string>, b: seq<string>)
    ensures Unlines(a + b) == Unlines(a) + Unlines(b)
  {
    if a == [] {
      assert a + b == b;
    } else {
      assert (a + b)[1..] == a[1..] + b;
      UnlinesAppend(a[1..], b);
    }
  }

  lemma {:induction false} FirstLine(l: string, rest: string)
    requires IsLine(l) && (rest == [] || IsBreak(rest[0]))
    ensures LineLength(l + rest) == |l|
  {
    var s := l + rest;
    if l == [] {
      assert s == rest;
    } else {
      assert s[0] == l[0] && s[1..] == l[1..] + rest;
      FirstLine(l[1..], rest);
    }
  }

  /** Exactly how a text splits: one line per break, "\r\n" being a single break, and no empty
      line behind the last one. */
  lemma SplitExactly(l: string, c: char, rest: string)
    requires IsLine(l)
    ensures SplitLines(l) == if l == [] then [] else [l]
    ensures SplitLines(l + "\r\n" + rest) == [l] + SplitLines(rest)
    ensures IsBreak(c) && !(c == '\r' && rest != [] && rest[0] == '\n') ==> SplitLines(l + [c] + rest) == [l] + SplitLines(rest)
  {
    FirstLine(l, []);
    assert l + [] == l;
    var t := "\r\n" + rest;
    FirstLine(l, t);
    assert l + "\r\n" + rest == l + t && (l + t)[..|l|] == l && (l + t)[|l| + 2..] == rest;
    if IsBreak(c) {
      var u := [c] + rest;
      FirstLine(l, u);
      assert l + [c] + rest == l + u && (l + u)[..|l|] == l && (l + u)[|l| + 1..] == rest;
    }
  }

  /** The line breaks and white space of Unicode that Python knows, by code point. */
  lemma Blanks(c: char)
    ensures IsBreak(c) <==> c in "\n\U{0b}\U{0c}\r\U{1c}\U{1d}\U{1e}\U{85}\U{2028}\U{2029}"
    ensures IsSpace(c) <==> IsBreak(c) || c in "\t\U{1f} \U{a0}\U{1680}\U{202f}\U{205f}\U{3000}"
                            || c in "\U{2000}\U{2001}\U{2002}\U{2003}\U{2004}\U{2005}\U{2006}\U{2007}\U{2008}\U{2009}\U{200a}"
  {
  }

  /** Splitting undoes joining. */
  lemma {:induction false} SplitUnlines(lines: seq<string>)
    requires forall i :: 0 <= i < |lines| ==> IsLine(lines[i])
    ensures SplitLines(Unlines(lines)) == lines
  {
    if lines != [] {
      var l, rest := lines[0], Unlines(lines[1..]);
      FirstLine(l, "\n" + rest);
      var s := l + "\n" + rest;
      assert s == l + ("\n" + rest);
      assert s[..|l|] == l && s[|l|] == '\n' && s[|l| + 1..] == rest;
      SplitUnlines(lines[1..]);
    }
  }

  lemma {:induction false} UnlinesValue(v: string)
    ensures Unlines(ValueLines(v)) == v + "\n"
  {
    if v != [] {
      var rest := ValueLines(v[1..]);
      UnlinesValue(v[1..]);
      if v[0] == '\n' {
        assert ([[]] + rest)[1..] == rest;
      } else {
        assert ([[v[0]] + rest[0]] + rest[1..])[1..] == rest[1..];
        assert [v[0]] + rest[0] + "\n" + Unlines(rest[1..]) == [v[0]] + (rest[0] + "\n" + Unlines(rest[1..]));
        assert v == [v[0]] + v[1..];
      }
    }
  }

  function FieldLines(f: Field): seq<string> {
    var lines := ValueLines(f.value);
    [f.key + ": " + lines[0]] + lines[1..]
  }

  function RowLines(row: Row): seq<string> {
    if row == [] then [] else RowLines(row[..|row| - 1]) + FieldLines(row[|row| - 1])
  }

  function RowsLines(rows: seq<Row>): seq<string> {
    if rows == [] then []
    else if |rows| == 1 then RowLines(rows[0])
    else RowsLines(rows[..|rows| - 1]) + [""] + RowLines(rows[|rows| - 1])
  }

  lemma FieldText(f: Field)
    ensures Unlines(FieldLines(f)) == f.key + ": " + f.value + "\n"
  {
    var lines := ValueLines(f.value);
    UnlinesValue(f.value);
    assert FieldLines(f)[1..] == lines[1..];
    assert lines[0] + "\n" + Unlines(lines[1..]) == f.value + "\n";
    calc {
      Unlines(FieldLines(f));
      f.key + ": " + lines[0] + "\n" + Unlines(lines[1..]);
      f.key + ": " + (lines[0] + "\n" + Unlines(lines[1..]));
      f.key + ": " + f.value + "\n";
    }
  }

  lemma {:induction false} RowText(row: Row)
    requires row != []
    ensures Unlines(RowLines(row)) == RenderRow(row) + "\n"
  {
    var init, f := row[..|row| - 1], row[|row| - 1];
    FieldText(f);
    UnlinesAppend(RowLines(init), FieldLines(f));
    if |row| > 1 { RowText(init); }
  }

  lemma {:induction false} RowsText(rows: seq<Row>)
    requires rows != [] && forall i :: 0 <= i < |rows| ==> rows[i] != []
    ensures Unlines(RowsLines(rows)) == Render(rows)
  {
    hide Unlines, RenderRow, RowLines;
    var init, row := rows[..|rows| - 1], rows[|rows| - 1];
    RowText(row);
    if |rows| > 1 {
      RowsText(init);
      BlankLine(RowsLines(init), RowLines(row));
      Blocks(JoinBlocks(init), RenderRow(row));
    }
  }

  lemma BlankLine(a: seq<string>, b: seq<string>)
    ensures Unlines(a + [""] + b) == Unlines(a) + "\n" + Unlines(b)
  {
    UnlinesAppend(a + [""], b);
    UnlinesAppend(a, [""]);
    assert Unlines([""]) == "\n";
  }

  lemma Blocks(a: string, b: string)
    ensures (a + "\n") + "\n" + (b + "\n") == a + "\n\n" + b + "\n"
  {}

  // ---------------------------------------------------------------- reading a row back

  /** The lines of a value joined again. */
  function Join(lines: seq<string>): string
    requires lines != []
  {
    if |lines| == 1 then lines[0] else Join(lines[..|lines| - 1]) + "\n" + lines[|lines| - 1]
  }

  lemma {:induction false} JoinHead(a: string, l: string, rest: seq<string>)
    ensures Join([a + l] + rest) == a + Join([l] + rest)
    decreases |rest|
  {
    if rest != [] {
      var init := rest[..|rest| - 1];
      JoinHead(a, l, init);
      assert ([a + l] + rest)[..|rest|] == [a + l] + init && ([l] + rest)[..|rest|] == [l] + init;
    }
  }

  lemma {:induction false} JoinEmptyHead(rest: seq<string>)
    requires rest != []
    ensures Join([""] + rest) == "\n" + Join(rest)
    decreases |rest|
  {
    var init := rest[..|rest| - 1];
    assert ([""] + rest)[..|rest|] == [""] + init;
    if init != [] { JoinEmptyHead(init); }
  }

  lemma {:induction false} JoinValue(v: string)
    ensures Join(ValueLines(v)) == v
  {
    if v != [] {
      var rest := ValueLines(v[1..]);
      JoinValue(v[1..]);
      if v[0] == '\n' {
        JoinEmptyHead(rest);
      } else {
        JoinHead([v[0]], rest[0], rest[1..]);
        assert [rest[0]] + rest[1..] == rest;
      }
    }
  }

  lemma {:induction false} ContinueLast(init: Row, f: Field, line: string)
    requires forall i :: 0 <= i < |init| ==> init[i].key != f.key
    ensures Continue(init + [f], f.key, line) == init + [Field(f.key, f.value + "\n" + line)]
  {
    var row := init + [f];
    if init == [] {
      assert row[1..] == [];
    } else {
      assert row[1..] == init[1..] + [f];
      ContinueLast(init[1..], f, line);
      assert init == [init[0]] + init[1..];
    }
  }

  lemma {:induction false} FeedValue(rows: seq<Row>, init: Row, key: string, lines: seq<string>)
    requires key != "" || |lines| == 1
    requires lines != [] && forall i :: 0 < i < |lines| ==> IsContinuation(lines[i])
    requires forall i :: 0 <= i < |init| ==> init[i].key != key
    ensures Feed(State(rows, init + [Field(key, lines[0])], key), lines[1..]) == State(rows, init + [Field(key, Join(lines))], key)
    decreases |lines|
  {
    if |lines| > 1 {
      var front, last := lines[..|lines| - 1], lines[|lines| - 1];
      FeedValue(rows, init, key, front);
      assert lines[1..][..|lines| - 2] == front[1..];
      ContinueLast(init, Field(key, Join(front)), last);
    }
  }

  /** A well-formed field's lines, read after `init`, add exactly that field. */
  lemma FeedField(rows: seq<Row>, init: Row, last: string, f: Field)
    requires FieldOk(last, f)
    requires forall i :: 0 <= i < |init| ==> init[i].key != f.key
    ensures Feed(State(rows, init, last), FieldLines(f)) == State(rows, init + [f], f.key)
  {
    var lines := ValueLines(f.value);
    var first := f.key + ": " + lines[0];
    var st := State(rows, init, last);
    ColonAt(f.key, " " + lines[0]);
    assert first == f.key + ":" + (" " + lines[0]);
    assert first[..|f.key|] == f.key && first[|f.key| + 1..] == " " + lines[0];
    assert first[0] == if f.key == "" then ':' else f.key[0];
    assert LStrip(" " + lines[0]) == lines[0] by { assert (" " + lines[0])[1..] == lines[0]; }
    assert Step(st, first) == State(rows, init + [Field(f.key, lines[0])], f.key);
    FeedAppend(st, [first], lines[1..]);
    assert [first][..0] == [];
    assert Feed(st, [first]) == Step(Feed(st, []), first);
    FeedValue(rows, init, f.key, lines);
    JoinValue(f.value);
  }

  lemma LastField(row: Row)
    requires FieldsOk(row) && DistinctKeys(row) && row != []
    ensures var init, f := row[..|row| - 1], row[|row| - 1];
            && FieldsOk(init) && DistinctKeys(init) && FieldOk(LastKey(init), f)
            && forall i :: 0 <= i < |init| ==> init[i].key != f.key
  {
    hide FieldOk;
  }

  lemma {:induction false} FeedRow(rows: seq<Row>, row: Row)
    requires FieldsOk(row) && DistinctKeys(row)
    ensures Feed(State(rows, [], ""), RowLines(row)) == State(rows, row, LastKey(row))
    decreases |row|
  {
    if row != [] {
      var init, f := row[..|row| - 1], row[|row| - 1];
      hide FieldOk, FieldsOk, FieldLines, Step, IsLine, Feed, DistinctKeys;
      LastField(row);
      FeedRow(rows, init);
      FeedField(rows, init, LastKey(init), f);
      FeedAppend(State(rows, [], ""), RowLines(init), FieldLines(f));
      assert init + [f] == row;
    }
  }

  lemma FeedBlank(st: State)
    ensures Feed(st, [""]) == Step(st, "")
  {
    assert [""][..0] == [];
    assert Feed(st, [""]) == Step(Feed(st, []), "");
  }

  lemma {:induction false} FeedRows(rows: seq<Row>)
    requires WellFormed(rows)
    ensures Feed(BEGIN, RowsLines(rows) + [""]) == State(rows, [], "")
    decreases |rows|
  {
    hide Step, RowOk, RowLines, Feed;
    if rows == [] {
      assert RowsLines(rows) + [""] == [""];
      FeedBlank(BEGIN);
      BlankAfter([], []);
    } else {
      var init, row := rows[..|rows| - 1], rows[|rows| - 1];
      var before := if init == [] then [] else RowsLines(init) + [""];
      assert RowsLines(rows) == before + RowLines(row);
      FeedRows(init);
      assert Feed(BEGIN, before) == State(init, [], "") by { FeedNone(BEGIN); }
      RowOkParts(row);
      FeedRow(init, row);
      FeedAppend(BEGIN, before, RowLines(row));
      FeedAppend(BEGIN, RowsLines(rows), [""]);
      FeedBlank(State(init, row, LastKey(row)));
      BlankAfter(init, row);
      assert init + [row] == rows;
    }
  }

  lemma FeedNone(st: State)
    ensures Feed(st, []) == st
  {}

  lemma RowOkParts(row: Row)
    ensures RowOk(row) <==> row != [] && FieldsOk(row) && DistinctKeys(row)
  {}

  lemma BlankAfter(rows: seq<Row>, row: Row)
    ensures Step(State(rows, row, LastKey(row)), "") == if row == [] then State(rows, [], "") else State(rows + [row], [], "")
  {}

  lemma {:induction false} RowLinesAreLines(row: Row)
    requires FieldsOk(row)
    ensures forall i :: 0 <= i < |RowLines(row)| ==> IsLine(RowLines(row)[i])
    decreases |row|
  {
    if row != [] {
      RowLinesAreLines(row[..|row| - 1]);
    }
  }

  lemma {:induction false} RowsLinesAreLines(rows: seq<Row>)
    requires WellFormed(rows)
    ensures forall i :: 0 <= i < |RowsLines(rows)| ==> IsLine(RowsLines(rows)[i])
    decreases |rows|
  {
    if rows != [] {
      RowLinesAreLines(rows[|rows| - 1]);
      RowsLinesAreLines(rows[..|rows| - 1]);
    }
  }

  /** Printing well-formed stanzas and parsing the text gives them back. */
  lemma RoundTrip(rows: seq<Row>)
    requires WellFormed(rows)
    ensures Parse(Render(rows)) == Some(rows)
  {
    if rows == [] {
      SplitUnlines([""]);
      assert Unlines([""]) == "\n" == Render(rows);
      FeedAppend(BEGIN, [""], [""]);
      FeedBlank(BEGIN);
    } else {
      RowsText(rows);
      RowsLinesAreLines(rows);
      SplitUnlines(RowsLines(rows));
      FeedRows(rows);
    }
  }

  // ---------------------------------------------------------------- the parser's range

  ghost predicate StateOk(st: State) {
    st.Bad? || (WellFormed(st.rows) && FieldsOk(st.current) && DistinctKeys(st.current)
                && st.last == LastKey(st.current))
  }

  lemma {:induction false} ValueAppend(v: string, line: string)
    requires IsLine(line)
    ensures ValueLines(v + "\n" + line) == ValueLines(v) + [line]
  {
    var s := v + "\n" + line;
    if v == [] {
      assert s[1..] == line;
      LineValue(line);
    } else {
      assert s[1..] == v[1..] + "\n" + line;
      ValueAppend(v[1..], line);
    }
  }

  lemma {:induction false} LineValue(line: string)
    requires IsLine(line)
    ensures ValueLines(line) == [line]
  {
    if line != [] {
      LineValue(line[1..]);
      assert line == [line[0]] + line[1..];
    }
  }

  lemma NoFields()
    ensures FieldsOk([])
  {}

  /** A continuation line keeps the field well-formed. */
  lemma Continued(last: string, f: Field, line: string)
    requires FieldOk(last, f) && IsContinuation(line) && f.key != ""
    ensures FieldOk(last, Field(f.key, f.value + "\n" + line))
  {
    ValueAppend(f.value, line);
  }

  lemma FirstRead(last: string, line: string, n: nat)
    requires IsLine(line) && line != [] && !(IsSpace(line[0]) && last != "")
    requires FindColon(line) == Some(n)
    ensures FieldOk(last, Field(line[..n], LStrip(line[n + 1..])))
  {
    LineValue(LStrip(line[n + 1..]));
  }

  lemma StepOk(st: State, line: string)
    requires StateOk(st) && IsLine(line)
    ensures StateOk(Step(st, line))
  {
    hide FieldOk, FieldsOk, IsLine, ValueLines, LStrip, FindColon;
    if st.Bad? || line == [] {
      NoFields();
    } else if IsSpace(line[0]) && st.last != "" {
      var init, f := st.current[..|st.current| - 1], st.current[|st.current| - 1];
      assert st.current == init + [f];
      ContinueLast(init, f, line);
      FieldsAppend(init, f);
      Continued(LastKey(init), f, line);
      FieldsAppend(init, Field(f.key, f.value + "\n" + line));
    } else if FindColon(line).Some? {
      var n := FindColon(line).value;
      FirstRead(st.last, line, n);
      FieldsAppend(st.current, Field(line[..n], LStrip(line[n + 1..])));
    }
  }

  lemma {:induction false} FeedOk(st: State, lines: seq<string>)
    requires StateOk(st) && forall i :: 0 <= i < |lines| ==> IsLine(lines[i])
    ensures StateOk(Feed(st, lines))
    decreases |lines|
  {
    if lines != [] {
      FeedOk(st, lines[..|lines| - 1]);
      StepOk(Feed(st, lines[..|lines| - 1]), lines[|lines| - 1]);
    }
  }

  /** Whatever the text, accepted stanzas are well-formed. */
  lemma ParsedIsWellFormed(text: string)
    ensures Parse(text).Some? ==> WellFormed(Parse(text).value)
  {
    FeedOk(BEGIN, SplitLines(text) + [""]);
  }

  /** Exactly the well-formed stanza lists survive printing and parsing. */
  lemma RoundTripExactly(rows: seq<Row>)
    ensures Parse(Render(rows)) == Some(rows) <==> WellFormed(rows)
  {
    if WellFormed(rows) { RoundTrip(rows); }
    ParsedIsWellFormed(Render(rows));
  }

  /** Printing and parsing again is stable from the first accepted parse on. */
  lemma NormalisedText(text: string)
    ensures Parse(text).Some? ==> Parse(Render(Parse(text).value)) == Parse(text)
  {
    ParsedIsWellFormed(text);
    if Parse(text).Some? { RoundTrip(Parse(text).value); }
  }
}
