/** What the lines of a listing are, said of its bytes: rows of text, and the gaps between them. */
module ListingRows {
  import opened ListingLines

  predicate InLine(b: Byte) { b != 0 && b != 10 && b != 13 }

  /** NUL, tab, line feed, carriage return and blank. */
  predicate InGap(b: Byte) { b == 0 || b == 9 || b == 10 || b == 13 || b == 32 }

  predicate AllInGap(s: seq<Byte>) {
    forall i :: 0 <= i < |s| ==> InGap(s[i])
  }

  /** A row starts with a byte that is no blank, and holds none that ends a line. */
  predicate IsRow(raw: seq<Byte>) {
    raw != [] && !InGap(raw[0]) && forall i :: 0 <= i < |raw| ==> InLine(raw[i])
  }

  /** What lies between two rows starts with a byte that ends the first. */
  predicate IsGap(s: seq<Byte>) {
    s != [] && !InLine(s[0]) && AllInGap(s)
  }

  datatype Row = Row(raw: seq<Byte>, gap: seq<Byte>)

  /** Rows with gaps behind them; only the last row may do without. */
  predicate AreRows(rows: seq<Row>) {
    forall i :: 0 <= i < |rows| ==>
      IsRow(rows[i].raw) && (IsGap(rows[i].gap) || (i == |rows| - 1 && rows[i].gap == []))
  }

  predicate AllFit(rows: seq<Row>) {
    forall i :: 0 <= i < |rows| ==> |rows[i].raw| <= 10000
  }

  function Bytes(rows: seq<Row>): seq<Byte> {
    if rows == [] then [] else rows[0].raw + (rows[0].gap + Bytes(rows[1..]))
  }

  /** The text of a row is what it decodes to, but for a byte order mark in front. */
  predicate IsText(decode: Decoder, raw: seq<Byte>, text: string) {
    || decode(raw) == ['\U{FEFF}'] + text
    || (decode(raw) == text && (text == "" || text[0] != '\U{FEFF}'))
  }

  /** The lines are the texts of the rows, in order, without those that are empty. */
  predicate AreTexts(decode: Decoder, rows: seq<Row>, lines: seq<string>)
    decreases |rows|
  {
    if rows == [] then lines == []
    else if lines != [] && lines[0] != "" && IsText(decode, rows[0].raw, lines[0]) then
      AreTexts(decode, rows[1..], lines[1..])
    else IsText(decode, rows[0].raw, "") && AreTexts(decode, rows[1..], lines)
  }

  // ---------- rows and gaps as they are read ----------

  lemma {:induction false} GapTrimmed(gap: seq<Byte>, rest: seq<Byte>)
    requires AllInGap(gap)
    ensures Trimmed(gap + rest) == Trimmed(rest)
    decreases |gap|
  {
    if gap == [] {
      assert gap + rest == rest;
    } else {
      assert (gap + rest)[1..] == gap[1..] + rest;
      GapTrimmed(gap[1..], rest);
    }
  }

  lemma {:induction false} RowLength(raw: seq<Byte>, rest: seq<Byte>)
    requires forall i :: 0 <= i < |raw| ==> InLine(raw[i])
    ensures LineLength(raw + rest) == |raw| + LineLength(rest)
    decreases |raw|
  {
    if raw == [] {
      assert raw + rest == rest;
    } else {
      assert (raw + rest)[1..] == raw[1..] + rest;
      RowLength(raw[1..], rest);
    }
  }

  lemma RowTrimmed(raw: seq<Byte>, rest: seq<Byte>)
    requires IsRow(raw)
    ensures Trimmed(raw + rest) == raw + rest
  {
    assert (raw + rest)[0] == raw[0];
  }

  lemma TextIs(decode: Decoder, raw: seq<Byte>)
    ensures IsText(decode, raw, ListingLines.Text(decode, raw))
  {
    var t := decode(raw);
    if t != "" && t[0] == BYTE_ORDER_MARK { assert t == [t[0]] + t[1..]; }
  }

  lemma OneText(decode: Decoder, raw: seq<Byte>, a: string, b: string)
    requires IsText(decode, raw, a)
    ensures IsText(decode, raw, b) <==> a == b
  {
    if decode(raw) == ['\U{FEFF}'] + a && decode(raw) == ['\U{FEFF}'] + b {
      assert a == decode(raw)[1..] == b;
    }
  }

  lemma TextsPrepend(decode: Decoder, rows: seq<Row>, lines: seq<string>)
    requires rows != [] && AreTexts(decode, rows[1..], lines)
    ensures AreTexts(decode, rows, TextLines(decode, rows[0].raw) + lines)
  {
    var text := ListingLines.Text(decode, rows[0].raw);
    TextIs(decode, rows[0].raw);
    var more := TextLines(decode, rows[0].raw) + lines;
    if text == "" { assert more == lines; } else { assert more[1..] == lines; }
  }

  /** Rows in front of something: their texts are read, and then it is read on behind the last gap. */
  lemma {:induction false} RowsAreRead(decode: Decoder, rows: seq<Row>, rest: seq<Byte>) returns (lines: seq<string>)
    requires AllFit(rows)
    requires forall i :: 0 <= i < |rows| ==> IsRow(rows[i].raw) && IsGap(rows[i].gap)
    ensures AreTexts(decode, rows, lines)
    ensures Read(decode, Bytes(rows) + rest, true) == After(lines, Read(decode, rest, true))
    decreases |rows|
  {
    if rows == [] {
      lines := [];
      assert Bytes(rows) + rest == rest;
      NothingBefore(Read(decode, rest, true));
    } else {
      var raw, gap, behind := rows[0].raw, rows[0].gap, Bytes(rows[1..]) + rest;
      var more := RowsAreRead(decode, rows[1..], rest);
      lines := TextLines(decode, raw) + more;
      TextsPrepend(decode, rows, more);
      assert Bytes(rows) + rest == raw + (gap + behind);
      OneRow(decode, raw, gap, behind);
      AfterAfter(TextLines(decode, raw), more, Read(decode, rest, true));
    }
  }

  lemma OneRow(decode: Decoder, raw: seq<Byte>, gap: seq<Byte>, behind: seq<Byte>)
    requires IsRow(raw) && |raw| <= 10000 && IsGap(gap)
    ensures Read(decode, raw + (gap + behind), true)
         == After(TextLines(decode, raw), Read(decode, behind, true))
  {
    var s := raw + (gap + behind);
    RowTrimmed(raw, gap + behind);
    RowLength(raw, gap + behind);
    assert (gap + behind)[0] == gap[0] && LineLength(gap + behind) == 0;
    ReadStep(decode, s, true);
    assert s[..|raw|] == raw && s[|raw|..] == gap + behind;
    GapTrimmed(gap, behind);
    ReadTrimmed(decode, gap + behind, behind, true);
  }

  lemma LastRow(decode: Decoder, raw: seq<Byte>)
    requires IsRow(raw) && |raw| <= 10000
    ensures Read(decode, raw, true) == Reading(TextLines(decode, raw), [], false)
  {
    assert raw + [] == raw;
    RowTrimmed(raw, []);
    RowLength(raw, []);
    assert raw[..|raw|] == raw && raw[|raw|..] == [];
    assert Read(decode, [], true) == Reading([], [], false);
    assert TextLines(decode, raw) + [] == TextLines(decode, raw);
  }

  // ---------- main results ----------

  /** Rows that are not too long are read as exactly their texts, in order, whatever the gaps. */
  lemma LinesAreRows(decode: Decoder, start: seq<Byte>, rows: seq<Row>)
    requires AllInGap(start) && AreRows(rows) && AllFit(rows)
    ensures var r := Read(decode, start + Bytes(rows), true);
            AreTexts(decode, rows, r.lines) && !r.failed && r.rest == []
  {
    GapTrimmed(start, Bytes(rows));
    ReadTrimmed(decode, start + Bytes(rows), Bytes(rows), true);
    if rows != [] && rows[|rows| - 1].gap == [] {
      var front, last := rows[..|rows| - 1], rows[|rows| - 1];
      var lines := RowsAreRead(decode, front, last.raw);
      BytesLast(rows);
      LastRow(decode, last.raw);
      TextsLast(decode, rows, lines);
    } else {
      var lines := RowsAreRead(decode, rows, []);
      assert Bytes(rows) + [] == Bytes(rows);
      assert Read(decode, [], true) == Reading([], [], false);
      assert lines + [] == lines;
    }
  }

  lemma {:induction false} BytesLast(rows: seq<Row>)
    requires rows != [] && rows[|rows| - 1].gap == []
    ensures Bytes(rows) == Bytes(rows[..|rows| - 1]) + rows[|rows| - 1].raw
    decreases |rows|
  {
    if |rows| > 1 {
      BytesLast(rows[1..]);
      assert rows[1..][..|rows| - 2] == rows[..|rows| - 1][1..];
    } else {
      assert rows[0].raw + ([] + Bytes([])) == rows[0].raw;
      assert Bytes(rows[..0]) + rows[0].raw == rows[0].raw;
    }
  }

  lemma {:induction false} TextsLast(decode: Decoder, rows: seq<Row>, lines: seq<string>)
    requires rows != [] && AreTexts(decode, rows[..|rows| - 1], lines)
    ensures AreTexts(decode, rows, lines + TextLines(decode, rows[|rows| - 1].raw))
    decreases |rows|
  {
    var last := TextLines(decode, rows[|rows| - 1].raw);
    if |rows| == 1 {
      assert AreTexts(decode, rows[1..], []);
      TextsPrepend(decode, rows, []);
      assert lines + last == last && last + [] == last;
    } else {
      var front := rows[..|rows| - 1];
      assert front[1..] == rows[1..][..|rows| - 2];
      if lines != [] && lines[0] != "" && IsText(decode, rows[0].raw, lines[0]) {
        TextsLast(decode, rows[1..], lines[1..]);
        assert (lines + last)[1..] == lines[1..] + last;
      } else {
        TextsLast(decode, rows[1..], lines);
        if lines + last != [] { OneText(decode, rows[0].raw, "", (lines + last)[0]); }
      }
    }
  }

  /** A row of more than 10000 bytes fails, with exactly the rows before it read. */
  lemma LongRowFails(decode: Decoder, start: seq<Byte>, rows: seq<Row>, raw: seq<Byte>, rest: seq<Byte>)
    requires AllInGap(start) && AllFit(rows) && IsRow(raw) && |raw| > 10000
    requires forall i :: 0 <= i < |rows| ==> IsRow(rows[i].raw) && IsGap(rows[i].gap)
    ensures var r := Read(decode, start + (Bytes(rows) + (raw + rest)), true);
            AreTexts(decode, rows, r.lines) && r.failed
  {
    GapTrimmed(start, Bytes(rows) + (raw + rest));
    ReadTrimmed(decode, start + (Bytes(rows) + (raw + rest)), Bytes(rows) + (raw + rest), true);
    var lines := RowsAreRead(decode, rows, raw + rest);
    RowTrimmed(raw, rest);
    RowLength(raw, rest);
    assert lines + [] == lines;
  }

  /** Any bytes at all are rows and gaps. */
  lemma {:induction false} BytesAreRows(s: seq<Byte>) returns (start: seq<Byte>, rows: seq<Row>)
    ensures AllInGap(start) && AreRows(rows) && s == start + Bytes(rows)
    ensures s != [] && !InLine(s[0]) ==> start != []
    decreases |s|
  {
    var t := Trimmed(s);
    TrimmedShape(s);
    start := Skipped(s);
    if t == [] {
      rows := [];
      assert start + [] == start;
    } else {
      var n := LineLength(t);
      LineBytes(t);
      var gap, more := BytesAreRows(t[n..]);
      rows := [Row(t[..n], gap)] + more;
      assert rows[1..] == more;
      assert t == t[..n] + t[n..];
      GapOrEnd(t[n..], gap, more);
    }
  }

  lemma {:induction false} Skipped(s: seq<Byte>) returns (start: seq<Byte>)
    ensures AllInGap(start) && s == start + Trimmed(s)
    ensures s != [] && InGap(s[0]) ==> start != []
  {
    if s != [] && Blank(s[0]) {
      start := Skipped(s[1..]);
      start := [s[0]] + start;
    } else {
      start := [];
    }
  }

  lemma {:induction false} LineBytes(t: seq<Byte>)
    ensures forall i :: 0 <= i < LineLength(t) ==> InLine(t[i])
  {
    if t != [] && !EndsLine(t[0]) {
      LineBytes(t[1..]);
      assert forall i :: 0 < i < LineLength(t) ==> t[i] == t[1..][i - 1];
    }
  }

  lemma GapOrEnd(s: seq<Byte>, gap: seq<Byte>, more: seq<Row>)
    requires AreRows(more) && s == gap + Bytes(more) && AllInGap(gap) && (s != [] ==> gap != [] && !InLine(s[0]))
    ensures IsGap(gap) || (gap == [] && more == [])
  {
    assert forall rows: seq<Row> :: rows != [] ==> |Bytes(rows)| >= |rows[0].raw|;
  }
}
