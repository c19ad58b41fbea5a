/** The line layer of the directory listing parser: a buffer that is filled in pieces. */
module ListingParsers {
  import opened ListingLines

  class ListingParser {
    const encoding: Encoding
    const decode: Decoder
    const accept: Acceptor
    var inbuf: seq<Byte>
    var parseOffset: nat
    var converted: nat
    var prevLine: string
    var calls: seq<Call>
    /** The bytes parsed so far, and how many bytes of the buffer are left over from them. */
    ghost var seen: seq<Byte>
    ghost var held: nat

    ghost predicate Scanned()
      reads this
    {
      && parseOffset <= |inbuf|
      && (forall i :: 0 <= i < parseOffset ==> !EndsLine(inbuf[i]))
      && (parseOffset > 0 ==> !Blank(inbuf[0]))
    }

    ghost function Pending(): seq<Byte>
      reads this
      requires held <= |inbuf|
    {
      inbuf[held..]
    }

    ghost function SoFar(): Reading
      reads this
    {
      Read(decode, Translate(encoding, seen), false)
    }

    ghost predicate Valid()
      reads this
    {
      && held <= |inbuf|
      && parseOffset <= held
      && converted == (if encoding.Ebcdic? then held else 0)
      && Scanned()
      && inbuf[..held] == SoFar().rest
      && Progress(calls, prevLine) == FeedAll(accept, Progress([], ""), SoFar().lines)
    }

    constructor (encoding: Encoding, decode: Decoder, accept: Acceptor)
      ensures Valid() && seen == [] && inbuf == [] && calls == [] && held == 0
      ensures this.encoding == encoding && this.decode == decode && this.accept == accept
    {
      this.encoding, this.decode, this.accept := encoding, decode, accept;
      inbuf, parseOffset, converted, prevLine, calls := [], 0, 0, "", [];
      seen, held := [], 0;
    }

    /** What the owner of the parser does with `GetInputBuffer`. */
    method AppendInput(data: seq<Byte>)
      requires Valid()
      modifies `inbuf
      ensures Valid()
      ensures inbuf == old(inbuf) + data && Pending() == old(Pending()) + data
    {
      inbuf := inbuf + data;
      assert inbuf[..held] == old(inbuf)[..held];
    }

    /** Converts what has not been converted yet, and nothing twice. */
    method ConvertEncoding()
      requires converted <= |inbuf|
      modifies `inbuf, `converted
      ensures inbuf == old(inbuf[..converted]) + Translate(encoding, old(inbuf[converted..])) || !encoding.Ebcdic?
      ensures !encoding.Ebcdic? ==> inbuf == old(inbuf) && converted == old(converted)
      ensures encoding.Ebcdic? ==> converted == |inbuf|
    {
      if encoding != Ebcdic {
        return;
      }
      var i := converted;
      while i < |inbuf|
        invariant converted <= i <= |inbuf| == |old(inbuf)|
        invariant converted == old(converted)
        invariant inbuf[..converted] == old(inbuf)[..converted]
        invariant forall k :: converted <= k < i ==> inbuf[k] == FromEbcdic(old(inbuf)[k])
        invariant forall k :: i <= k < |inbuf| ==> inbuf[k] == old(inbuf)[k]
      {
        inbuf := inbuf[i := FromEbcdic(inbuf[i])];
        i := i + 1;
      }
      converted := |inbuf|;
      assert inbuf == old(inbuf[..converted]) + Translate(encoding, old(inbuf[converted..]));
    }

    method TrimLeadingWhitespace()
      requires Scanned()
      modifies `inbuf
      ensures Scanned()
      ensures inbuf == Trimmed(old(inbuf))
    {
      if parseOffset != 0 {
        return;
      }
      var i := 0;
      while i < |inbuf|
        invariant 0 <= i <= |inbuf|
        invariant Trimmed(inbuf[i..]) == Trimmed(inbuf)
      {
        if !Blank(inbuf[i]) {
          break;
        }
        assert inbuf[i..][1..] == inbuf[i + 1..];
        i := i + 1;
      }
      inbuf := inbuf[i..];
    }

    method SkipToLineEnd()
      requires Scanned()
      modifies `parseOffset
      ensures parseOffset == LineLength(inbuf) <= |inbuf|
      ensures forall i :: 0 <= i < parseOffset ==> !EndsLine(inbuf[i])
    {
      while parseOffset < |inbuf|
        invariant parseOffset <= |inbuf|
        invariant forall i :: 0 <= i < parseOffset ==> !EndsLine(inbuf[i])
      {
        if EndsLine(inbuf[parseOffset]) {
          break;
        }
        parseOffset := parseOffset + 1;
      }
      LineLengthIs(inbuf, parseOffset);
    }

    /** The next line with text, or an empty one when there is none; reports an overlong line. */
    method GetLine(breakAtEnd: bool) returns (line: string, error: bool)
      requires Scanned()
      modifies `inbuf, `parseOffset
      ensures Scanned()
      ensures var was, now := Read(decode, old(inbuf), !breakAtEnd), Read(decode, inbuf, !breakAtEnd);
              if line == "" then was == Reading([], inbuf, error) else was == After([line], now) && !error
    {
      ghost var before := inbuf;
      while true
        invariant Scanned()
        invariant Read(decode, before, !breakAtEnd) == Read(decode, inbuf, !breakAtEnd)
        decreases |inbuf|
      {
        ghost var untrimmed := inbuf;
        TrimmedShape(inbuf);
        TrimLeadingWhitespace();
        SkipToLineEnd();
        if parseOffset > MAX_LINE {
          return "", true;
        }
        if parseOffset >= |inbuf| {
          if breakAtEnd || inbuf == [] {
            return "", false;
          }
        }
        var raw := inbuf[..parseOffset];
        line := Text(decode, raw);
        ghost var t := inbuf;
        inbuf := inbuf[parseOffset..];
        parseOffset := 0;
        assert Read(decode, untrimmed, !breakAtEnd)
            == After(TextLines(decode, raw), Read(decode, inbuf, !breakAtEnd));
        if line != "" {
          return line, false;
        }
        NothingBefore(Read(decode, inbuf, !breakAtEnd));
      }
    }

    /** Offers a line to the line parser, on its own and then behind the one kept from before. */
    method Offer(line: string)
      modifies `prevLine, `calls
      ensures Progress(calls, prevLine) == Feed(accept, Progress(old(calls), old(prevLine)), line)
    {
      var res := accept(calls, line, false);
      calls := calls + [Call(line, false)];
      if !res {
        if prevLine != "" {
          prevLine := prevLine + " ";
          prevLine := prevLine + line;
          assert prevLine == old(prevLine) + " " + line;
          res := accept(calls, prevLine, true);
          calls := calls + [Call(prevLine, true)];
          if res {
            prevLine := "";
          } else {
            prevLine := line;
          }
        } else {
          prevLine := line;
        }
      } else {
        prevLine := "";
      }
    }

    /** Reads and offers all lines of the converted buffer. */
    method OfferLines(partial: bool) returns (ok: bool)
      requires Scanned()
      modifies `inbuf, `parseOffset, `prevLine, `calls
      ensures Scanned() && |inbuf| <= |old(inbuf)|
      ensures var r := Read(decode, old(inbuf), !partial);
              && ok == !r.failed && inbuf == r.rest
              && Progress(calls, prevLine) == FeedAll(accept, Progress(old(calls), old(prevLine)), r.lines)
    {
      ghost var all := Read(decode, inbuf, !partial);
      ghost var start := Progress(calls, prevLine);
      ghost var done := [];
      RestIsSuffix(decode, inbuf, !partial);
      var rawLine, error := GetLine(partial);
      while rawLine != ""
        invariant Scanned()
        invariant if rawLine == "" then all == Reading(done, inbuf, error)
                  else all == After(done + [rawLine], Read(decode, inbuf, !partial)) && !error
        invariant Progress(calls, prevLine) == FeedAll(accept, start, done)
        decreases |all.lines| - |done|
      {
        FeedAppend(accept, start, done, [rawLine]);
        Offer(rawLine);
        done := done + [rawLine];
        rawLine, error := GetLine(partial);
        if rawLine != "" {
          AfterAfter(done, [rawLine], Read(decode, inbuf, !partial));
        }
      }
      ok := !error;
    }

    /** What is left over with the new data behind it, converted. */
    method ConvertPending()
      requires Valid()
      modifies `inbuf, `converted
      ensures inbuf == SoFar().rest + Translate(encoding, old(Pending()))
      ensures converted == if encoding.Ebcdic? then |inbuf| else 0
    {
      assert inbuf == inbuf[..held] + inbuf[held..];
      ConvertEncoding();
    }

    /** Converts and reads what is pending behind what was left over. */
    method ReadPending(partial: bool) returns (ok: bool)
      requires Valid()
      modifies `inbuf, `parseOffset, `converted, `prevLine, `calls
      ensures Scanned() && converted == (if encoding.Ebcdic? then |inbuf| else 0)
      ensures var r := Read(decode, SoFar().rest + Translate(encoding, old(Pending())), !partial);
              && ok == !r.failed && inbuf == r.rest
              && Progress(calls, prevLine) == FeedAll(accept, Progress(old(calls), old(prevLine)), r.lines)
    {
      ConvertPending();
      ok := OfferLines(partial);
      if converted > |inbuf| {
        converted := |inbuf|;
      }
    }

    method ParseData(partial: bool) returns (ok: bool)
      requires Valid()
      modifies this
      ensures partial ==> Valid() && seen == old(seen) + old(Pending()) && held == |inbuf| && ok == !SoFar().failed
      ensures var r := Read(decode, Translate(encoding, old(seen) + old(Pending())), !partial);
              && ok == !r.failed && calls == FeedAll(accept, Progress([], ""), r.lines).calls
    {
      ghost var pending := Pending();
      ResumeReading(encoding, decode, accept, seen, pending, !partial);
      ok := ReadPending(partial);
      seen := seen + pending;
      held := |inbuf|;
    }

    /** Called after each piece of data that arrived. */
    method ProcessAddedData() returns (ok: bool)
      requires Valid()
      modifies this
      ensures Valid() && seen == old(seen) + old(Pending()) && held == |inbuf|
      ensures ok == !SoFar().failed
    {
      if |inbuf| < parseOffset {
        return false;
      }
      ok := ParseData(true);
    }

    /** Called once after all data: also reads a last line that nothing ends. */
    method Parse() returns (ok: bool)
      requires Valid()
      modifies this
      ensures var r := Read(decode, Translate(encoding, old(seen) + old(Pending())), true);
              && ok == !r.failed && calls == FeedAll(accept, Progress([], ""), r.lines).calls
    {
      ok := ParseData(false);
    }
  }

  method Receive(parser: ListingParser, data: seq<Byte>) returns (ok: bool)
    requires parser.Valid() && parser.held == |parser.inbuf|
    modifies parser
    ensures parser.Valid() && parser.seen == old(parser.seen) + data && parser.held == |parser.inbuf|
    ensures ok == !Read(parser.decode, Translate(parser.encoding, parser.seen), false).failed
    ensures !ok ==>
              parser.calls == FeedAll(parser.accept, Progress([], ""),
                                      Read(parser.decode, Translate(parser.encoding, parser.seen), false).lines).calls
  {
    parser.AppendInput(data);
    assert parser.Pending() == data;
    ok := parser.ProcessAddedData();
  }

  /** Reading goes on from what was left over, and so does the line parser. */
  lemma ResumeReading(encoding: Encoding, decode: Decoder, accept: Acceptor, seen: seq<Byte>, pending: seq<Byte>,
                      final: bool)
    ensures var left := Read(decode, Translate(encoding, seen), false);
            var next := Read(decode, left.rest + Translate(encoding, pending), final);
            && Read(decode, Translate(encoding, seen + pending), final) == After(left.lines, next)
            && FeedAll(accept, Progress([], ""), left.lines + next.lines)
               == FeedAll(accept, FeedAll(accept, Progress([], ""), left.lines), next.lines)
  {
    var left := Read(decode, Translate(encoding, seen), false);
    TranslateAppend(encoding, seen, pending);
    ReadingResumes(decode, Translate(encoding, seen), Translate(encoding, pending), final);
    FeedAppend(accept, Progress([], ""), left.lines,
               Read(decode, left.rest + Translate(encoding, pending), final).lines);
  }

  /** Whether a whole listing can be read, and what the line parser is asked. */
  function Outcome(encoding: Encoding, decode: Decoder, accept: Acceptor, bytes: seq<Byte>): (bool, seq<Call>) {
    var r := Read(decode, Translate(encoding, bytes), true);
    (!r.failed, FeedAll(accept, Progress([], ""), r.lines).calls)
  }

  method Finish(parser: ListingParser) returns (ok: bool, calls: seq<Call>)
    requires parser.Valid() && parser.held == |parser.inbuf|
    modifies parser
    ensures (ok, calls) == Outcome(parser.encoding, parser.decode, parser.accept, old(parser.seen))
  {
    assert parser.seen + parser.Pending() == parser.seen;
    ok := parser.Parse();
    calls := parser.calls;
  }

  /** The rest of a listing arrives as `chunks`; a failure ends the transfer early. What the line
      parser is asked, and whether all is well, is a function of the bytes put together. */
  method ReceiveListing(parser: ListingParser, chunks: seq<seq<Byte>>) returns (ok: bool, calls: seq<Call>)
    requires parser.Valid() && parser.held == |parser.inbuf|
    modifies parser
    ensures (ok, calls) == Outcome(parser.encoding, parser.decode, parser.accept, old(parser.seen) + Joined(chunks))
    decreases |chunks|
  {
    ghost var bytes := parser.seen;
    if chunks == [] {
      assert bytes + [] == bytes;
      ok, calls := Finish(parser);
    } else {
      assert bytes + Joined(chunks) == bytes + chunks[0] + Joined(chunks[1..]);
      ok := Receive(parser, chunks[0]);
      if ok {
        ok, calls := ReceiveListing(parser, chunks[1..]);
      } else {
        calls := parser.calls;
        StaysFailed(parser.decode, parser.encoding, parser.accept, parser.seen, Joined(chunks[1..]));
      }
    }
  }

  lemma StaysFailed(decode: Decoder, encoding: Encoding, accept: Acceptor, a: seq<Byte>, b: seq<Byte>)
    requires Read(decode, Translate(encoding, a), false).failed
    ensures Outcome(encoding, decode, accept, a + b)
         == (false, FeedAll(accept, Progress([], ""), Read(decode, Translate(encoding, a), false).lines).calls)
  {
    var x, y := Translate(encoding, a), Translate(encoding, b);
    TranslateAppend(encoding, a, b);
    ReadingResumes(decode, x, y, true);
    RestShape(decode, x, false);
    OnceTooLong(decode, Read(decode, x, false).rest, y, true);
    assert Read(decode, x, false).lines + [] == Read(decode, x, false).lines;
  }

  lemma {:induction false} LineLengthIs(s: seq<Byte>, n: nat)
    requires n <= |s| && (n < |s| ==> EndsLine(s[n]))
    requires forall i :: 0 <= i < n ==> !EndsLine(s[i])
    ensures LineLength(s) == n
  {
    if n > 0 {
      LineLengthIs(s[1..], n - 1);
    }
  }

  lemma {:induction false} RestIsSuffix(decode: Decoder, s: seq<Byte>, final: bool)
    ensures |Read(decode, s, final).rest| <= |s|
    decreases |s|
  {
    var t := Trimmed(s);
    var n := LineLength(t);
    TrimmedShape(s);
    if n <= MAX_LINE && !(n == |t| && (!final || t == [])) {
      RestIsSuffix(decode, t[n..], final);
    }
  }
}
