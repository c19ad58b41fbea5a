/**
 * How the bytes of a directory listing are cut into lines, as one function of the whole input, and
 * why the result does not depend on how the bytes arrived.
 *
 * Decoding a line into text depends on the control socket and stays a parameter.
 */
module ListingLines {
  type Byte = x: int | 0 <= x < 256

  type Decoder = seq<Byte> -> string

  const MAX_LINE := 10000

  const BYTE_ORDER_MARK: char := '\U{FEFF}'

  datatype Encoding = Normal | Ebcdic

  /** Sixteen entries of the conversion table; codes without a character become spaces. */
  function EbcdicRow(row: int): (r: string)
    ensures |r| == 16
  {
    if row == 1 then "     \n         \n"
    else if row == 2 then "     \n          "
    else if row == 4 then "           .<(+|"
    else if row == 5 then "&         !$*); "
    else if row == 6 then "-/        |,%_>?"
    else if row == 7 then "         `:#@'=\""
    else if row == 8 then " abcdefghi      "
    else if row == 9 then " jklmnopqr      "
    else if row == 10 then " ~stuvwxyz      "
    else if row == 11 then "^         []    "
    else if row == 12 then "{ABCDEFGHI      "
    else if row == 13 then "}JKLMNOPQR      "
    else if row == 14 then "\\ STUVWXYZ      "
    else if row == 15 then "0123456789      "
    else "                "
  }

  function FromEbcdic(b: Byte): Byte {
    var c := EbcdicRow(b / 16)[b % 16] as int;
    if c < 256 then c else 32
  }

  function Translate(encoding: Encoding, s: seq<Byte>): (r: seq<Byte>)
    ensures |r| == |s|
    ensures forall i :: 0 <= i < |s| ==> r[i] == if encoding.Ebcdic? then FromEbcdic(s[i]) else s[i]
  {
    seq(|s|, i requires 0 <= i < |s| => if encoding.Ebcdic? then FromEbcdic(s[i]) else s[i])
  }

  lemma TranslateAppend(encoding: Encoding, a: seq<Byte>, b: seq<Byte>)
    ensures Translate(encoding, a + b) == Translate(encoding, a) + Translate(encoding, b)
  {
  }

  lemma RowShape(row: int, col: int)
    requires 0 <= col < 16
    ensures var c := EbcdicRow(row)[col];
            if (row == 1 && (col == 5 || col == 15)) || (row == 2 && col == 5) then c == '\n' else ' ' <= c <= '~'
  {
    if col < 8 {
      if col < 4 { assert col == 0 || col == 1 || col == 2 || col == 3; }
      else { assert col == 4 || col == 5 || col == 6 || col == 7; }
    } else {
      if col < 12 { assert col == 8 || col == 9 || col == 10 || col == 11; }
      else { assert col == 12 || col == 13 || col == 14 || col == 15; }
    }
  }

  /** A converted byte only ever ends a line as a newline, and it does so for just three codes. */
  lemma EbcdicLineEnds(b: Byte)
    ensures EndsLine(FromEbcdic(b)) <==> b == 0x15 || b == 0x1f || b == 0x25
    ensures EndsLine(FromEbcdic(b)) ==> FromEbcdic(b) == 10
    ensures FromEbcdic(b) == 10 || 32 <= FromEbcdic(b) < 127
  {
    RowShape(b / 16, b % 16);
    assert b == b / 16 * 16 + b % 16;
  }

  /** Code number col of a row of the table. */
  lemma InRow(row: nat, col: nat)
    requires row < 16 && col < 16
    ensures FromEbcdic(row * 16 + col) == EbcdicRow(row)[col] as int
  {
    Quotient(row, col);
    AtMostTilde(row, col);
  }

  lemma Quotient(row: nat, col: nat)
    requires col < 16
    ensures (row * 16 + col) / 16 == row && (row * 16 + col) % 16 == col
  {
  }

  lemma AtMostTilde(row: int, col: nat)
    requires col < 16
    ensures EbcdicRow(row)[col] <= '~'
  {
    RowShape(row, col);
  }

  lemma Digits(i: nat)
    requires i < 10
    ensures EbcdicRow(15)[i] as int == 48 + i
  {
    if i < 5 { assert i == 0 || i == 1 || i == 2 || i == 3 || i == 4; }
    else { assert i == 5 || i == 6 || i == 7 || i == 8 || i == 9; }
  }

  lemma LowerLetters(i: nat)
    requires i < 9
    ensures EbcdicRow(8)[1 + i] as int == 97 + i && EbcdicRow(9)[1 + i] as int == 106 + i
    ensures i < 8 ==> EbcdicRow(10)[2 + i] as int == 115 + i
  {
    if i < 5 { assert i == 0 || i == 1 || i == 2 || i == 3 || i == 4; }
    else { assert i == 5 || i == 6 || i == 7 || i == 8; }
  }

  lemma UpperLetters(i: nat)
    requires i < 9
    ensures EbcdicRow(12)[1 + i] as int == 65 + i && EbcdicRow(13)[1 + i] as int == 74 + i
    ensures i < 8 ==> EbcdicRow(14)[2 + i] as int == 83 + i
  {
    if i < 5 { assert i == 0 || i == 1 || i == 2 || i == 3 || i == 4; }
    else { assert i == 5 || i == 6 || i == 7 || i == 8; }
  }

  /** Letters and digits keep their order, in runs of up to ten codes; a blank is a blank. */
  lemma EbcdicLettersAndDigits(i: nat)
    requires i < 10
    ensures FromEbcdic(0xf0 + i) == 48 + i
    ensures i < 9 ==> FromEbcdic(0x81 + i) == 97 + i && FromEbcdic(0x91 + i) == 106 + i
    ensures i < 9 ==> FromEbcdic(0xc1 + i) == 65 + i && FromEbcdic(0xd1 + i) == 74 + i
    ensures i < 8 ==> FromEbcdic(0xa2 + i) == 115 + i && FromEbcdic(0xe2 + i) == 83 + i
    ensures FromEbcdic(0x40) == 32
  {
    Digits(i);
    InRow(15, i);
    if i < 9 {
      LowerLetters(i);
      UpperLetters(i);
      InRow(8, 1 + i); InRow(9, 1 + i); InRow(12, 1 + i); InRow(13, 1 + i);
    }
    if i < 8 { InRow(10, 2 + i); InRow(14, 2 + i); }
  }

  predicate EndsLine(b: Byte) {
    b == 0 || b == 10 || b == 13
  }

  predicate Blank(b: Byte) {
    EndsLine(b) || b == 32 || b == 9
  }

  function Trimmed(s: seq<Byte>): seq<Byte> {
    if s != [] && Blank(s[0]) then Trimmed(s[1..]) else s
  }

  /** How many bytes come before the first one that ends a line. */
  function LineLength(s: seq<Byte>): (n: nat)
    ensures n <= |s|
    ensures n < |s| ==> EndsLine(s[n])
  {
    if s == [] || EndsLine(s[0]) then 0 else 1 + LineLength(s[1..])
  }

  /** A line as it is handed on: decoded, without a byte order mark. */
  function Text(decode: Decoder, raw: seq<Byte>): string {
    var t := decode(raw);
    if t != "" && t[0] == BYTE_ORDER_MARK then t[1..] else t
  }

  /** The texts read from a buffer, what stays in it, and whether a line was too long. */
  datatype Reading = Reading(lines: seq<string>, rest: seq<Byte>, failed: bool)

  function After(lines: seq<string>, r: Reading): Reading {
    Reading(lines + r.lines, r.rest, r.failed)
  }

  /** Everything that can be read from `s`; an unfinished last line only counts when `final`. */
  function Read(decode: Decoder, s: seq<Byte>, final: bool): Reading
    decreases |s|
  {
    var t := Trimmed(s);
    TrimmedShape(s);
    var n := LineLength(t);
    if n > MAX_LINE then Reading([], t, true)
    else if n == |t| && (!final || t == []) then Reading([], t, false)
    else
      After(TextLines(decode, t[..n]), Read(decode, t[n..], final))
  }

  /** A line whose text is empty is skipped. */
  function TextLines(decode: Decoder, raw: seq<Byte>): seq<string> {
    if Text(decode, raw) == "" then [] else [Text(decode, raw)]
  }

  lemma ReadStep(decode: Decoder, s: seq<Byte>, final: bool)
    requires LineLength(Trimmed(s)) <= MAX_LINE && LineLength(Trimmed(s)) < |Trimmed(s)|
    ensures var t := Trimmed(s);
            var n := LineLength(t);
            Read(decode, s, final) == After(TextLines(decode, t[..n]), Read(decode, t[n..], final))
  {
  }

  lemma AfterAfter(a: seq<string>, b: seq<string>, r: Reading)
    ensures After(a, After(b, r)) == After(a + b, r)
  {
    assert a + (b + r.lines) == (a + b) + r.lines;
  }

  /** Only the trimmed bytes matter. */
  lemma ReadTrimmed(decode: Decoder, a: seq<Byte>, b: seq<Byte>, final: bool)
    requires Trimmed(a) == Trimmed(b)
    ensures Read(decode, a, final) == Read(decode, b, final)
  {
  }

  lemma NothingBefore(r: Reading)
    ensures After([], r) == r
  {
  }

  lemma {:induction false} TrimmedShape(s: seq<Byte>)
    ensures |Trimmed(s)| <= |s|
    ensures Trimmed(s) != [] ==> !Blank(Trimmed(s)[0]) && LineLength(Trimmed(s)) > 0
    ensures Trimmed(s) != [] ==> Trimmed(s) == s[|s| - |Trimmed(s)|..]
  {
    if s != [] && Blank(s[0]) {
      TrimmedShape(s[1..]);
    }
  }

  lemma {:induction false} TrimmedAppend(a: seq<Byte>, b: seq<Byte>)
    ensures Trimmed(a + b) == if Trimmed(a) == [] then Trimmed(b) else Trimmed(a) + b
  {
    if a == [] {
      assert a + b == b;
    } else if Blank(a[0]) {
      assert (a + b)[1..] == a[1..] + b;
      TrimmedAppend(a[1..], b);
    }
  }

  lemma {:induction false} LineLengthAppend(a: seq<Byte>, b: seq<Byte>)
    ensures LineLength(a + b) == if LineLength(a) < |a| then LineLength(a) else |a| + LineLength(b)
  {
    if a == [] {
      assert a + b == b;
    } else if !EndsLine(a[0]) {
      assert (a + b)[1..] == a[1..] + b;
      LineLengthAppend(a[1..], b);
    }
  }

  /** A finished first line is read alike, whatever follows. */
  lemma FirstLineFixed(decode: Decoder, a: seq<Byte>, b: seq<Byte>, final: bool)
    requires LineLength(Trimmed(a)) <= MAX_LINE && LineLength(Trimmed(a)) < |Trimmed(a)|
    ensures var t := Trimmed(a);
            var n := LineLength(t);
            Read(decode, a + b, final) == After(TextLines(decode, t[..n]), Read(decode, t[n..] + b, final))
  {
    var t := Trimmed(a);
    var n := LineLength(t);
    TrimmedAppend(a, b);
    LineLengthAppend(t, b);
    ReadStep(decode, a + b, final);
    assert (t + b)[..n] == t[..n];
    assert (t + b)[n..] == t[n..] + b;
  }

  lemma UnfinishedLineKept(decode: Decoder, a: seq<Byte>, b: seq<Byte>, final: bool)
    requires LineLength(Trimmed(a)) > MAX_LINE || LineLength(Trimmed(a)) == |Trimmed(a)|
    ensures Read(decode, a, false).lines == [] && Read(decode, a, false).rest == Trimmed(a)
    ensures Read(decode, a + b, final) == Read(decode, Trimmed(a) + b, final)
  {
    var t := Trimmed(a);
    TrimmedShape(a);
    TrimmedAppend(a, b);
    TrimmedAppend(t, b);
    assert [] + b == b;
    ReadTrimmed(decode, a + b, t + b, final);
  }

  /** Reading resumes where it stopped: what was left over is all that matters of the past. */
  lemma {:induction false} ReadingResumes(decode: Decoder, a: seq<Byte>, b: seq<Byte>, final: bool)
    ensures var r := Read(decode, a, false);
            Read(decode, a + b, final) == After(r.lines, Read(decode, r.rest + b, final))
    decreases |a|
  {
    var t := Trimmed(a);
    var n := LineLength(t);
    if n < |t| && n <= MAX_LINE {
      TrimmedShape(a);
      FirstLineFixed(decode, a, b, final);
      ReadStep(decode, a, false);
      ReadingResumes(decode, t[n..], b, final);
      var r := Read(decode, t[n..], false);
      AfterAfter(TextLines(decode, t[..n]), r.lines, Read(decode, r.rest + b, final));
    } else {
      UnfinishedLineKept(decode, a, b, final);
      NothingBefore(Read(decode, t + b, final));
    }
  }

  /** What stays in the buffer is an unfinished line, or the one that was too long. */
  lemma {:induction false} RestShape(decode: Decoder, s: seq<Byte>, final: bool)
    ensures var r := Read(decode, s, final);
            && Trimmed(r.rest) == r.rest
            && (r.failed <==> LineLength(r.rest) > MAX_LINE)
            && (!r.failed ==> LineLength(r.rest) == |r.rest|)
            && (!r.failed && final ==> r.rest == [])
    decreases |s|
  {
    var t := Trimmed(s);
    var n := LineLength(t);
    TrimmedShape(s);
    if n <= MAX_LINE && !(n == |t| && (!final || t == [])) {
      RestShape(decode, t[n..], final);
    }
  }

  // ---------------------------------------------------------------------------------------------
  // Data that arrives in pieces

  function Joined(chunks: seq<seq<Byte>>): seq<Byte> {
    if chunks == [] then [] else chunks[0] + Joined(chunks[1..])
  }

  /** Reads piece by piece, then ends; `rest` is what an earlier piece left over. */
  function ReadInPieces(decode: Decoder, rest: seq<Byte>, chunks: seq<seq<Byte>>): Reading
    decreases |chunks|
  {
    if chunks == [] then Read(decode, rest, true)
    else
      var r := Read(decode, rest + chunks[0], false);
      if r.failed then r else After(r.lines, ReadInPieces(decode, r.rest, chunks[1..]))
  }

  lemma OnceTooLong(decode: Decoder, rest: seq<Byte>, more: seq<Byte>, final: bool)
    requires Trimmed(rest) == rest && LineLength(rest) > MAX_LINE
    ensures Read(decode, rest + more, final) == Reading([], rest + more, true)
  {
    TrimmedAppend(rest, more);
    LineLengthAppend(rest, more);
  }

  /** The lines and the failure depend on the bytes alone, not on where they were split. */
  lemma {:induction false} ChunkingIsInvisible(decode: Decoder, rest: seq<Byte>, chunks: seq<seq<Byte>>)
    ensures var pieces := ReadInPieces(decode, rest, chunks);
            var whole := Read(decode, rest + Joined(chunks), true);
            pieces.lines == whole.lines && pieces.failed == whole.failed
    decreases |chunks|
  {
    if chunks == [] {
      assert rest + [] == rest;
    } else {
      var a, b := rest + chunks[0], Joined(chunks[1..]);
      var r := Read(decode, a, false);
      assert rest + Joined(chunks) == a + b;
      ReadingResumes(decode, a, b, true);
      RestShape(decode, a, false);
      if r.failed {
        OnceTooLong(decode, r.rest, b, true);
      } else {
        ChunkingIsInvisible(decode, r.rest, chunks[1..]);
      }
    }
  }

  /** Two ways of splitting the same bytes cannot be told apart. */
  lemma AnySplitReadsAlike(decode: Decoder, a: seq<seq<Byte>>, b: seq<seq<Byte>>)
    requires Joined(a) == Joined(b)
    ensures ReadInPieces(decode, [], a).lines == ReadInPieces(decode, [], b).lines
    ensures ReadInPieces(decode, [], a).failed == ReadInPieces(decode, [], b).failed
  {
    ChunkingIsInvisible(decode, [], a);
    ChunkingIsInvisible(decode, [], b);
  }

  // ---------------------------------------------------------------------------------------------
  // Entries that span two lines

  /** A call of the line parser; `joined` when the previous line was put in front. */
  datatype Call = Call(line: string, joined: bool)

  /** Whether the line parser accepts a line, which may depend on everything it saw before. */
  type Acceptor = (seq<Call>, string, bool) -> bool

  datatype Progress = Progress(calls: seq<Call>, kept: string)

  function Feed(accept: Acceptor, p: Progress, line: string): Progress {
    var calls := p.calls + [Call(line, false)];
    if accept(p.calls, line, false) then Progress(calls, "")
    else if p.kept == "" then Progress(calls, line)
    else
      var both := p.kept + " " + line;
      Progress(calls + [Call(both, true)], if accept(calls, both, true) then "" else line)
  }

  function FeedAll(accept: Acceptor, p: Progress, lines: seq<string>): Progress
    decreases |lines|
  {
    if lines == [] then p else FeedAll(accept, Feed(accept, p, lines[0]), lines[1..])
  }

  lemma {:induction false} FeedAppend(accept: Acceptor, p: Progress, a: seq<string>, b: seq<string>)
    ensures FeedAll(accept, p, a + b) == FeedAll(accept, FeedAll(accept, p, a), b)
    decreases |a|
  {
    if a == [] {
      assert a + b == b;
    } else {
      assert (a + b)[1..] == a[1..] + b;
      FeedAppend(accept, Feed(accept, p, a[0]), a[1..], b);
    }
  }

  /** Every line is offered once on its own, in order. */
  lemma {:induction false} EachLineOfferedOnce(accept: Acceptor, p: Progress, lines: seq<string>)
    ensures Single(FeedAll(accept, p, lines).calls) == Single(p.calls) + lines
    decreases |lines|
  {
    if lines != [] {
      var q := Feed(accept, p, lines[0]);
      EachLineOfferedOnce(accept, q, lines[1..]);
      SingleAppend(p.calls, [Call(lines[0], false)]);
      if !accept(p.calls, lines[0], false) && p.kept != "" {
        SingleAppend(p.calls + [Call(lines[0], false)], [Call(p.kept + " " + lines[0], true)]);
      }
      assert Single(q.calls) == Single(p.calls) + [lines[0]];
      assert [lines[0]] + lines[1..] == lines;
    }
  }

  function Single(calls: seq<Call>): seq<string> {
    if calls == [] then []
    else (if calls[0].joined then [] else [calls[0].line]) + Single(calls[1..])
  }

  lemma {:induction false} SingleAppend(a: seq<Call>, b: seq<Call>)
    ensures Single(a + b) == Single(a) + Single(b)
  {
    if a == [] {
      assert a + b == b;
    } else {
      assert (a + b)[1..] == a[1..] + b;
      SingleAppend(a[1..], b);
    }
  }

  /** The calls of the line parser for a whole listing. */
  function Calls(accept: Acceptor, lines: seq<string>): seq<Call> {
    FeedAll(accept, Progress([], ""), lines).calls
  }

  /** The last call was refused. */
  predicate LastRefused(accept: Acceptor, calls: seq<Call>) {
    calls != [] && !accept(calls[..|calls| - 1], calls[|calls| - 1].line, calls[|calls| - 1].joined)
  }

  lemma FeedLast(accept: Acceptor, lines: seq<string>, i: nat)
    requires i < |lines|
    ensures var p := FeedAll(accept, Progress([], ""), lines[..i]);
            FeedAll(accept, Progress([], ""), lines[..i + 1]) == Feed(accept, p, lines[i])
  {
    assert lines[..i + 1] == lines[..i] + [lines[i]];
    FeedAppend(accept, Progress([], ""), lines[..i], [lines[i]]);
    assert [lines[i]][1..] == [];
  }

  lemma CutLast<T>(a: seq<T>, x: T)
    ensures (a + [x])[..|a + [x]| - 1] == a
  {
  }

  /** What is kept is the line before, if the last call was refused. */
  lemma KeptIsLast(accept: Acceptor, lines: seq<string>, i: nat)
    requires i <= |lines|
    ensures var p := FeedAll(accept, Progress([], ""), lines[..i]);
            p.kept == if i > 0 && LastRefused(accept, p.calls) then lines[i - 1] else ""
  {
    if i > 0 {
      var p := FeedAll(accept, Progress([], ""), lines[..i - 1]);
      FeedLast(accept, lines, i - 1);
      CutLast(p.calls, Call(lines[i - 1], false));
      CutLast(p.calls + [Call(lines[i - 1], false)], Call(p.kept + " " + lines[i - 1], true));
    } else {
      assert lines[..0] == [];
    }
  }

  /** Each line makes one call of the line parser, and a second one, behind the line before and a blank,
      exactly if that call and the one before it were refused. */
  lemma RefusedTwiceIsJoined(accept: Acceptor, lines: seq<string>, i: nat)
    requires i < |lines|
    ensures var before, again := Calls(accept, lines[..i]), i > 0 && lines[i - 1] != "";
            Calls(accept, lines[..i + 1]) == before + [Call(lines[i], false)]
              + if again && LastRefused(accept, before) && !accept(before, lines[i], false)
                then [Call(lines[i - 1] + " " + lines[i], true)] else []
  {
    FeedLast(accept, lines, i);
    KeptIsLast(accept, lines, i);
  }
}
