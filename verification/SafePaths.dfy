/**
 * The form in which server paths are stored: numbers in decimal, and each text preceded by its length.
 * What can be read back, and which paths survive being stored and loaded.
 */
module SafePaths {
  import opened Text
  import opened ServerPaths

  /** The longest text, and the largest server type number, that a stored path may name. */
  const LIMIT: nat := 32767

  predicate IsDigit(c: char) {
    '0' <= c <= '9'
  }

  predicate AllDigits(s: string) {
    forall i :: 0 <= i < |s| ==> IsDigit(s[i])
  }

  function DigitOf(c: char): (d: int)
    requires IsDigit(c)
    ensures 0 <= d <= 9
  {
    c as int - '0' as int
  }

  function DigitChar(d: int): (c: char)
    requires 0 <= d <= 9
    ensures IsDigit(c) && DigitOf(c) == d
  {
    '0' + d as char
  }

  function Decimal(n: nat): (r: string)
    ensures r != "" && AllDigits(r)
  {
    (if n < 10 then "" else Decimal(n / 10)) + [DigitChar(n % 10)]
  }

  function SegmentText(segment: string): string {
    " " + Decimal(|segment|) + " " + segment
  }

  function SegmentsText(segments: seq<string>): string {
    if segments == [] then "" else SegmentsText(segments[..|segments| - 1]) + SegmentText(segments[|segments| - 1])
  }

  function PrefixText(prefix: Option<string>): string {
    match prefix
    case None => Decimal(0)
    case Some(p) => Decimal(|p|) + " " + p
  }

  function Stored(p: ServerPath): string {
    if p.Empty() then ""
    else Decimal(Number(p.kind) + 1) + " " + PrefixText(p.data.value.prefix) + SegmentsText(p.data.value.segments)
  }

  // ---------------------------------------------------------------------------------------------
  // Reading

  /** A number, and the text from the character that ended it. */
  datatype Reading = Bad | Read(value: nat, rest: string)

  predicate Ends(rest: string, endAllowed: bool) {
    (rest != "" && rest[0] == ' ') || (endAllowed && (rest == "" || rest[0] == '\0'))
  }

  function ReadNumber(s: string, v: nat, limit: nat, endAllowed: bool): (r: Reading)
    ensures r.Read? ==> Ends(r.rest, endAllowed) && |r.rest| < |s| && r.value <= limit
  {
    if s == "" || !IsDigit(s[0]) then Bad
    else
      var next := v * 10 + DigitOf(s[0]);
      if next > limit then Bad
      else if Ends(s[1..], endAllowed) then Read(next, s[1..])
      else ReadNumber(s[1..], next, limit, endAllowed)
  }

  /** What follows a text of length n and the one character behind it. */
  function Skip(s: string, n: nat): string {
    if n < |s| then s[n + 1..] else ""
  }

  function ReadSegments(s: string): Option<seq<string>>
    decreases |s|
  {
    if s == "" then Some([])
    else
      match ReadNumber(s, 0, LIMIT, false)
      case Bad => None
      case Read(n, rest) =>
        if n == 0 || n > |rest| - 1 then None
        else
          match ReadSegments(Skip(rest[1..], n))
          case None => None
          case Some(more) => Some([rest[1..n + 1]] + more)
  }

  function TypeOf(n: nat): ServerType
    requires n <= SERVERTYPE_MAX
  {
    var k := if n > 0 then n - 1 else 0;
    if k == 0 then UNIX else if k == 1 then VMS else if k == 2 then DOS else if k == 3 then MVS
    else if k == 4 then VXWORKS else if k == 5 then ZVM else if k == 6 then HPNONSTOP
    else if k == 7 then DOS_VIRTUAL else if k == 8 then CYGWIN else DOS_FWD_SLASHES
  }

  /** What loading leaves: `kind` is kept if not even the type can be read. */
  function LoadedData(s: string): Option<PathData> {
    match ReadNumber(s, 0, LIMIT, true)
    case Bad => None
    case Read(n, rest) =>
      if rest == "" || rest[0] == '\0' then if n != 0 then None else Some(PathData([], None))
      else if n > |rest| - 1 then None
      else
        match ReadSegments(if n == 0 then rest[1..] else Skip(rest[1..], n))
        case None => None
        case Some(segments) => Some(PathData(segments, if n == 0 then None else Some(rest[1..n + 1])))
  }

  function Loaded(kind: ServerType, s: string): ServerPath {
    match ReadNumber(s, 0, SERVERTYPE_MAX, false)
    case Bad => ServerPath(kind, None)
    case Read(n, rest) => ServerPath(TypeOf(n), LoadedData(rest[1..]))
  }

  // ---------------------------------------------------------------------------------------------
  // What is printed is what is read

  /** The value of digits read from the left behind a value v. */
  function Continued(v: nat, t: string): nat
    requires AllDigits(t)
    decreases |t|
  {
    if t == "" then v else Continued(v * 10 + DigitOf(t[0]), t[1..])
  }

  lemma {:induction false} ContinuedAppend(v: nat, t: string, c: char)
    requires IsDigit(c) && AllDigits(t)
    ensures Continued(v, t + [c]) == Continued(v, t) * 10 + DigitOf(c)
    decreases |t|
  {
    if t == "" {
      assert t + [c] == [c] && [c][1..] == "";
    } else {
      assert (t + [c])[1..] == t[1..] + [c];
      ContinuedAppend(v * 10 + DigitOf(t[0]), t[1..], c);
    }
  }

  /** Digits that were taken off from the right are put together again from the left. */
  lemma {:induction false} DecimalReads(n: nat)
    ensures Continued(0, Decimal(n)) == n
  {
    var front := if n < 10 then "" else Decimal(n / 10);
    if n >= 10 {
      DecimalReads(n / 10);
    }
    ContinuedAppend(0, front, DigitChar(n % 10));
  }

  lemma {:induction false} ContinuedGrows(v: nat, t: string)
    requires AllDigits(t)
    ensures Continued(v, t) >= v
    decreases |t|
  {
    if t != "" {
      ContinuedGrows(v * 10 + DigitOf(t[0]), t[1..]);
    }
  }

  lemma ReadDigit(c: char, rest: string, v: nat, limit: nat, endAllowed: bool)
    requires IsDigit(c)
    ensures ReadNumber([c] + rest, v, limit, endAllowed)
         == if v * 10 + DigitOf(c) > limit then Bad
            else if Ends(rest, endAllowed) then Read(v * 10 + DigitOf(c), rest)
            else ReadNumber(rest, v * 10 + DigitOf(c), limit, endAllowed)
  {
    assert ([c] + rest)[1..] == rest;
  }

  lemma {:induction false} ReadNumberOf(t: string, rest: string, v: nat, limit: nat, endAllowed: bool)
    requires t != "" && AllDigits(t) && Ends(rest, endAllowed)
    ensures ReadNumber(t + rest, v, limit, endAllowed)
         == if Continued(v, t) <= limit then Read(Continued(v, t), rest) else Bad
    decreases |t|
  {
    var next := v * 10 + DigitOf(t[0]);
    assert t + rest == [t[0]] + (t[1..] + rest);
    ReadDigit(t[0], t[1..] + rest, v, limit, endAllowed);
    ContinuedGrows(next, t[1..]);
    if |t| == 1 {
      assert t[1..] + rest == rest;
    } else {
      assert (t[1..] + rest)[0] == t[1];
      ReadNumberOf(t[1..], rest, next, limit, endAllowed);
    }
  }

  lemma ReadDecimal(n: nat, rest: string, limit: nat, endAllowed: bool)
    requires Ends(rest, endAllowed)
    ensures ReadNumber(Decimal(n) + rest, 0, limit, endAllowed) == if n <= limit then Read(n, rest) else Bad
  {
    DecimalReads(n);
    ReadNumberOf(Decimal(n), rest, 0, limit, endAllowed);
  }

  // ---------------------------------------------------------------------------------------------
  // Which paths can be stored

  predicate StorableSegments(segments: seq<string>) {
    forall i :: 0 <= i < |segments| ==> 0 < |segments[i]| <= 32767
  }

  predicate StorableData(d: PathData) {
    StorableSegments(d.segments) && (d.prefix.Some? ==> 0 < |d.prefix.value| <= 32767)
  }

  predicate Storable(p: ServerPath) {
    p.data.Some? && StorableData(p.data.value)
  }

  lemma {:induction false} ReadSegmentsStorable(s: string)
    ensures ReadSegments(s).Some? ==> StorableSegments(ReadSegments(s).value)
    decreases |s|
  {
    if s != "" {
      match ReadNumber(s, 0, LIMIT, false) {
        case Bad =>
        case Read(n, rest) =>
          if n != 0 && n <= |rest| - 1 {
            ReadSegmentsStorable(Skip(rest[1..], n));
          }
      }
    }
  }

  /** Whatever is loaded, of any text, can be stored. */
  lemma LoadedStorable(kind: ServerType, s: string)
    ensures var p := Loaded(kind, s); p.data.Some? ==> Storable(p)
  {
    match ReadNumber(s, 0, SERVERTYPE_MAX, false) {
      case Bad =>
      case Read(_, rest) => LoadedDataStorable(rest[1..]);
    }
  }

  lemma LoadedDataStorable(s: string)
    ensures LoadedData(s).Some? ==> StorableData(LoadedData(s).value)
  {
    match ReadNumber(s, 0, LIMIT, true) {
      case Bad =>
      case Read(n, rest) =>
        if rest != "" {
          ReadSegmentsStorable(if n == 0 then rest[1..] else Skip(rest[1..], n));
        }
    }
  }

  /** The segments from the left: each behind its length, with spaces between. */
  function Listed(segments: seq<string>): string
    decreases |segments|, 0
  {
    if segments == [] then "" else Item(segments[0]) + ListedTail(segments[1..])
  }

  function Item(segment: string): string {
    Decimal(|segment|) + " " + segment
  }

  function ListedTail(segments: seq<string>): string
    decreases |segments|, 1
  {
    if segments == [] then "" else " " + Listed(segments)
  }

  lemma SegmentTextItem(segment: string)
    ensures SegmentText(segment) == " " + Item(segment)
  {
    assert " " + Decimal(|segment|) + " " + segment == " " + (Decimal(|segment|) + " " + segment);
  }

  /** The text of segments as it is read: from the left, each behind a separating space. */
  lemma {:induction false} SegmentsTextListed(segments: seq<string>)
    ensures SegmentsText(segments) == ListedTail(segments)
    decreases |segments|
  {
    if segments != [] {
      var front, last := segments[..|segments| - 1], segments[|segments| - 1];
      SegmentsTextListed(front);
      ListedTailAppend(front, last);
      SegmentTextItem(last);
      assert front + [last] == segments;
    }
  }

  lemma {:induction false} ListedTailAppend(segments: seq<string>, last: string)
    ensures ListedTail(segments + [last]) == ListedTail(segments) + (" " + Item(last))
    decreases |segments|
  {
    var all := segments + [last];
    if segments == [] {
      assert all == [last] && all[1..] == [];
      assert " " + (Item(last) + "") == "" + (" " + Item(last));
    } else {
      assert all[0] == segments[0] && all[1..] == segments[1..] + [last];
      ListedTailAppend(segments[1..], last);
      Regroup(Item(segments[0]), ListedTail(segments[1..]), " " + Item(last));
      Regroup(" ", Item(segments[0]) + ListedTail(segments[1..]), " " + Item(last));
    }
  }

  lemma ReadFirst(first: string, tail: string)
    requires 0 < |first| <= LIMIT && (tail == "" || tail[0] == ' ')
    ensures ReadSegments(Decimal(|first|) + (" " + first + tail))
         == match ReadSegments(if tail == "" then "" else tail[1..])
            case None => None
            case Some(more) => Some([first] + more)
  {
    var rest := " " + first + tail;
    ReadDecimal(|first|, rest, LIMIT, false);
    TakenText(first, tail);
  }

  lemma TakenText(first: string, tail: string)
    ensures var rest := " " + first + tail;
            && |rest| - 1 >= |first| && rest[1..|first| + 1] == first
            && Skip(rest[1..], |first|) == if tail == "" then "" else tail[1..]
  {
    var rest := " " + first + tail;
    assert rest[1..] == first + tail;
    assert tail != "" ==> (first + tail)[|first| + 1..] == tail[1..];
  }

  lemma ListedAsTail(segments: seq<string>)
    ensures var tail := ListedTail(segments);
            && (tail == "" || tail[0] == ' ') && Listed(segments) == if tail == "" then "" else tail[1..]
  {
  }

  lemma ListedStarts(segments: seq<string>)
    requires segments != []
    ensures Listed(segments) == Decimal(|segments[0]|) + (" " + segments[0] + ListedTail(segments[1..]))
  {
  }

  lemma {:induction false} ReadListed(segments: seq<string>)
    requires StorableSegments(segments)
    ensures ReadSegments(Listed(segments)) == Some(segments)
    decreases |segments|
  {
    if segments != [] {
      ListedStarts(segments);
      ListedAsTail(segments[1..]);
      ReadFirst(segments[0], ListedTail(segments[1..]));
      ReadListed(segments[1..]);
      assert [segments[0]] + segments[1..] == segments;
    }
  }

  lemma LoadStoredData(d: PathData)
    requires StorableData(d)
    ensures LoadedData(PrefixText(d.prefix) + SegmentsText(d.segments)) == Some(d)
  {
    SegmentsTextListed(d.segments);
    ReadListed(d.segments);
    var tail := SegmentsText(d.segments);
    assert tail != "" ==> tail[1..] == Listed(d.segments);
    match d.prefix {
      case None => LoadWithoutPrefix(tail);
      case Some(p) =>
        assert Decimal(|p|) + " " + p + tail == Decimal(|p|) + (" " + p + tail);
        LoadWithPrefix(p, tail);
    }
  }

  lemma LoadWithoutPrefix(tail: string)
    requires tail == "" || tail[0] == ' '
    ensures LoadedData(Decimal(0) + tail)
         == match ReadSegments(if tail == "" then "" else tail[1..])
            case None => None
            case Some(segments) => Some(PathData(segments, None))
  {
    ReadDecimal(0, tail, LIMIT, true);
  }

  lemma LoadedBehindPrefix(s: string, n: nat, rest: string)
    requires ReadNumber(s, 0, LIMIT, true) == Read(n, rest) && rest != "" && rest[0] == ' ' && 0 < n <= |rest| - 1
    ensures LoadedData(s) == match ReadSegments(Skip(rest[1..], n))
                             case None => None
                             case Some(segments) => Some(PathData(segments, Some(rest[1..n + 1])))
  {
  }

  lemma LoadWithPrefix(p: string, tail: string)
    requires 0 < |p| <= LIMIT && (tail == "" || tail[0] == ' ')
    ensures LoadedData(Decimal(|p|) + (" " + p + tail))
         == match ReadSegments(if tail == "" then "" else tail[1..])
            case None => None
            case Some(segments) => Some(PathData(segments, Some(p)))
  {
    var rest := " " + p + tail;
    ReadDecimal(|p|, rest, LIMIT, true);
    TakenText(p, tail);
    LoadedBehindPrefix(Decimal(|p|) + rest, |p|, rest);
  }

  lemma TypeOfNumber(t: ServerType)
    ensures TypeOf(Number(t) + 1) == t
  {
  }

  /** Storing and loading gives a path back exactly if its segments are not empty, its prefix is
      absent or not empty, and none of them is too long. */
  lemma StoredRoundTrip(p: ServerPath, kind: ServerType)
    requires p.data.Some?
    ensures Loaded(kind, Stored(p)) == p <==> Storable(p)
  {
    if Storable(p) {
      var d := p.data.value;
      var rest := " " + (PrefixText(d.prefix) + SegmentsText(d.segments));
      assert Stored(p) == Decimal(Number(p.kind) + 1) + rest;
      ReadDecimal(Number(p.kind) + 1, rest, SERVERTYPE_MAX, false);
      assert rest[1..] == PrefixText(d.prefix) + SegmentsText(d.segments);
      LoadStoredData(d);
      TypeOfNumber(p.kind);
    } else {
      LoadedStorable(kind, Stored(p));
    }
  }

  /** So no two paths that can be stored are stored alike. */
  lemma StoredIsInjective(p: ServerPath, q: ServerPath)
    requires Storable(p) && Storable(q) && Stored(p) == Stored(q)
    ensures p == q
  {
    StoredRoundTrip(p, UNIX);
    StoredRoundTrip(q, UNIX);
  }

  /** The empty path is not loaded, but the path stays empty. */
  lemma EmptyIsRefused(kind: ServerType)
    ensures Stored(ServerPath(kind, None)) == "" && Loaded(kind, "") == ServerPath(kind, None)
  {
  }

  lemma SmallDecimals(n: nat)
    requires n < 10
    ensures Decimal(n) == ["0123456789"[n]]
  {
  }

  lemma {:induction false} DecimalMeans(n: nat)
    ensures Decimal(n) == if n < 10 then ["0123456789"[n]] else Decimal(n / 10) + ["0123456789"[n % 10]]
    ensures n > 0 ==> Decimal(n)[0] != '0'
  {
    SmallDecimals(n % 10);
    if n >= 10 { DecimalMeans(n / 10); }
  }

  lemma OneSegment(name: string)
    ensures SegmentsText([name]) == " " + Decimal(|name|) + " " + name
  {
    assert [name][..0] == [];
  }

  lemma DecimalsToTen()
    ensures Decimal(0) == "0" && Decimal(1) == "1" && Decimal(2) == "2" && Decimal(3) == "3" && Decimal(4) == "4"
    ensures Decimal(5) == "5" && Decimal(6) == "6" && Decimal(7) == "7" && Decimal(8) == "8" && Decimal(9) == "9"
    ensures Decimal(10) == "10"
  {
    assert DigitChar(0) == '0';
  }

  lemma TypesLookLike(t: ServerType)
    ensures Stored(ServerPath(t, Some(PathData([], None)))) ==
              match t
              case UNIX => "1 0" case VMS => "2 0" case DOS => "3 0" case MVS => "4 0"
              case VXWORKS => "5 0" case ZVM => "6 0" case HPNONSTOP => "7 0" case DOS_VIRTUAL => "8 0"
              case CYGWIN => "9 0" case DOS_FWD_SLASHES => "10 0"
  {
    DecimalsToTen();
    assert Stored(ServerPath(t, Some(PathData([], None)))) == Decimal(Number(t) + 1) + " " + "0" + "";
  }

  lemma TwoSegments(a: string, b: string)
    ensures SegmentsText([a, b]) == " " + Decimal(|a|) + " " + a + (" " + Decimal(|b|) + " " + b)
  {
    OneSegment(a);
    assert [a, b][..1] == [a];
  }

  /** Each text is preceded by its length in decimal, and by a blank on either side of that. */
  lemma TextsLookLike(p: string, a: string, b: string)
    requires |p| < 10 && |a| < 10 && |b| < 10
    ensures Stored(ServerPath(VMS, Some(PathData([a, b], Some(p)))))
         == "2" + " " + (["0123456789"[|p|]] + " " + p)
            + (" " + ["0123456789"[|a|]] + " " + a + (" " + ["0123456789"[|b|]] + " " + b))
  {
    SmallDecimals(|p|);
    SmallDecimals(|a|);
    SmallDecimals(|b|);
    DecimalsToTen();
    TwoSegments(a, b);
  }
}
