/** Storing and loading server paths as it is done: a buffer of precomputed size filled from the front,
    and an index that moves through a NUL-terminated text. */
module SafePathObject {
  import opened Text
  import opened ServerPaths
  import opened SafePaths

  const INT_LENGTH: nat := 20

  const MAX_SIZE: nat := 0x1_0000_0000_0000_0000

  function Pow10(k: nat): nat {
    if k == 0 then 1 else 10 * Pow10(k - 1)
  }

  lemma SizesAreShort()
    ensures MAX_SIZE <= Pow10(20)
  {
    var p5 := 100000;
    assert Pow10(5) == p5;
    assert Pow10(10) == p5 * Pow10(5);
    assert Pow10(15) == p5 * Pow10(10);
    assert Pow10(20) == p5 * Pow10(15);
  }

  lemma {:induction false} DecimalLength(n: nat, k: nat)
    requires 0 < k && n < Pow10(k)
    ensures |Decimal(n)| <= k
  {
    if n >= 10 {
      assert Pow10(1) == 10;
      DecimalLength(n / 10, k - 1);
    }
  }

  function Reversed(s: string): (r: string)
    ensures |r| == |s|
  {
    if s == "" then "" else [s[|s| - 1]] + Reversed(s[..|s| - 1])
  }

  method PutDigit(tmp: array<char>, c: nat, digit: char)
    requires c < tmp.Length
    modifies tmp
    ensures Reversed(tmp[..c + 1]) == [digit] + Reversed(old(tmp[..c]))
  {
    ghost var before := tmp[..c];
    tmp[c] := digit;
    assert tmp[..c + 1] == before + [digit];
    assert (before + [digit])[..c] == before;
  }

  /** The last digit first: the digits that were taken off and those that are left make up the number. */
  ghost predicate Peeled(n: nat, left: nat, more: bool, taken: string) {
    Decimal(n) == (if more then Decimal(left) else "") + Reversed(taken)
  }

  lemma PeelDigit(n: nat, left: nat, taken: string, next: string)
    requires Peeled(n, left, true, taken)
    requires Reversed(next) == [DigitChar(left % 10)] + Reversed(taken)
    ensures Peeled(n, left / 10, left / 10 > 0, next)
  {
    var front := if left / 10 > 0 then Decimal(left / 10) else "";
    assert Decimal(left) == front + [DigitChar(left % 10)];
    Regroup(front, [DigitChar(left % 10)], Reversed(taken));
  }

  lemma Shorter(c: nat, m: nat)
    requires c <= 20 && m < Pow10(20 - c) && (c == 0 || m > 0)
    ensures c < 20 && m / 10 < Pow10(20 - c - 1)
  {
    assert Pow10(0) == 1;
    assert Pow10(20 - c) == 10 * Pow10(20 - c - 1);
  }

  /** Writes a number, its digits turned around in a scratch buffer that any 64-bit number fits. */
  method PrintNumber(buffer: array<char>, at: nat, n: nat) returns (end: nat)
    requires n < MAX_SIZE && at + |Decimal(n)| <= buffer.Length
    modifies buffer
    ensures end == at + |Decimal(n)|
    ensures buffer[..end] == old(buffer[..at]) + Decimal(n)
  {
    var tmp := new char[20](i => ' ');
    var c := PeelDigits(tmp, n);
    end := CopyReversed(buffer, at, tmp, c);
  }

  method PeelDigits(tmp: array<char>, n: nat) returns (c: nat)
    requires n < MAX_SIZE && tmp.Length == 20
    modifies tmp
    ensures 0 < c <= 20 && Reversed(tmp[..c]) == Decimal(n)
  {
    var more := true;
    var m: nat := n;
    c := 0;
    SizesAreShort();
    assert Reversed(tmp[..0]) == "" && Decimal(n) + "" == Decimal(n);
    while more
      invariant 0 <= c <= 20 && m < Pow10(20 - c)
      invariant more == (c == 0 || m > 0)
      invariant Peeled(n, m, more, tmp[..c])
      decreases m, more
    {
      Shorter(c, m);
      ghost var taken := tmp[..c];
      PutDigit(tmp, c, DigitChar(m % 10));
      PeelDigit(n, m, taken, tmp[..c + 1]);
      c := c + 1;
      m := m / 10;
      more := m > 0;
    }
    assert "" + Reversed(tmp[..c]) == Decimal(n);
  }

  method CopyReversed(buffer: array<char>, at: nat, tmp: array<char>, count: nat) returns (end: nat)
    requires 0 < count <= tmp.Length && at + count <= buffer.Length && tmp != buffer
    modifies buffer
    ensures end == at + count
    ensures buffer[..end] == old(buffer[..at]) + Reversed(tmp[..count])
  {
    var c := count;
    end := at;
    while c != 0
      invariant 0 <= c <= count && end == at + (count - c)
      invariant tmp[..] == old(tmp[..])
      invariant buffer[..end] + Reversed(tmp[..c]) == old(buffer[..at]) + Reversed(tmp[..count])
      decreases c
    {
      ghost var before := buffer[..end];
      assert tmp[..c][..c - 1] == tmp[..c - 1];
      c := c - 1;
      buffer[end] := tmp[c];
      assert buffer[..end + 1] == before + [tmp[c]];
      assert before + ([tmp[c]] + Reversed(tmp[..c])) == before + [tmp[c]] + Reversed(tmp[..c]);
      end := end + 1;
    }
    assert Reversed(tmp[..c]) == "";
    assert buffer[..end] + "" == buffer[..end];
  }

  /** Copies a text and the NUL behind it; `end` is where the NUL is. */
  method CopyText(buffer: array<char>, at: nat, text: string) returns (end: nat)
    requires at + |text| < buffer.Length
    modifies buffer
    ensures end == at + |text| && buffer[..end] == old(buffer[..at]) + text
  {
    var i := 0;
    while i < |text|
      invariant 0 <= i <= |text|
      invariant buffer[..at + i] == old(buffer[..at]) + text[..i]
    {
      ghost var before := buffer[..at + i];
      buffer[at + i] := text[i];
      assert buffer[..at + i + 1] == before + [text[i]];
      assert text[..i + 1] == text[..i] + [text[i]];
      i := i + 1;
    }
    end := at + |text|;
    assert text[..i] == text;
    ghost var written := buffer[..end];
    buffer[end] := '\0';
    assert buffer[..end] == written;
  }

  method PutSpace(buffer: array<char>, at: nat) returns (end: nat)
    requires at < buffer.Length
    modifies buffer
    ensures end == at + 1 && buffer[..end] == old(buffer[..at]) + " "
  {
    ghost var before := buffer[..at];
    buffer[at] := ' ';
    end := at + 1;
    assert buffer[..end] == before + [' '];
  }

  predicate Sizes(d: PathData) {
    && (d.prefix.Some? ==> |d.prefix.value| < MAX_SIZE)
    && forall i :: 0 <= i < |d.segments| ==> |d.segments[i]| < MAX_SIZE
  }

  /** Room for the segments: each with two spaces and a number. */
  function Room(segments: seq<string>): nat {
    if segments == [] then 0
    else Room(segments[..|segments| - 1]) + |segments[|segments| - 1]| + 2 + INT_LENGTH
  }

  method MeasureSegments(segments: seq<string>, before: nat) returns (len: nat)
    ensures len == before + Room(segments)
  {
    len := before;
    var i := 0;
    assert segments[..0] == [];
    while i < |segments|
      invariant 0 <= i <= |segments|
      invariant len == before + Room(segments[..i])
    {
      assert segments[..i + 1][..i] == segments[..i];
      len := len + |segments[i]| + 2 + INT_LENGTH;
      i := i + 1;
    }
    assert segments[..i] == segments;
  }

  method PutSegment(buffer: array<char>, at: nat, segment: string) returns (t: nat)
    requires |segment| < MAX_SIZE && at + |segment| + 2 + INT_LENGTH < buffer.Length
    modifies buffer
    ensures at <= t <= at + |segment| + 2 + INT_LENGTH
    ensures buffer[..t] == old(buffer[..at]) + SegmentText(segment)
  {
    SizesAreShort();
    DecimalLength(|segment|, 20);
    t := PutSpace(buffer, at);
    t := PrintNumber(buffer, t, |segment|);
    t := PutSpace(buffer, t);
    t := CopyText(buffer, t, segment);
    assert buffer[..t] == old(buffer[..at]) + SegmentText(segment);
  }

  method PutSegments(buffer: array<char>, at: nat, segments: seq<string>) returns (t: nat)
    requires at + Room(segments) < buffer.Length
    requires forall i :: 0 <= i < |segments| ==> |segments[i]| < MAX_SIZE
    modifies buffer
    ensures t <= at + Room(segments)
    ensures buffer[..t] == old(buffer[..at]) + SegmentsText(segments)
  {
    t := at;
    var i := 0;
    assert segments[..0] == [];
    while i < |segments|
      invariant 0 <= i <= |segments|
      invariant t <= at + Room(segments[..i]) && t <= buffer.Length
      invariant buffer[..t] == old(buffer[..at]) + SegmentsText(segments[..i])
    {
      assert segments[..i + 1][..i] == segments[..i];
      RoomGrows(segments, i + 1);
      t := PutSegment(buffer, t, segments[i]);
      i := i + 1;
    }
    assert segments[..i] == segments;
  }

  lemma {:induction false} RoomGrows(segments: seq<string>, i: nat)
    requires i <= |segments|
    ensures Room(segments[..i]) <= Room(segments)
    decreases |segments|
  {
    if i == |segments| {
      assert segments[..i] == segments;
    } else {
      var front := segments[..|segments| - 1];
      RoomGrows(front, i);
      assert front[..i] == segments[..i];
    }
  }

  method PutPrefix(buffer: array<char>, at: nat, prefix: Option<string>) returns (t: nat)
    requires prefix.Some? ==> |prefix.value| < MAX_SIZE
    requires at + 2 + INT_LENGTH + (if prefix.Some? then |prefix.value| else 0) <= buffer.Length
    modifies buffer
    ensures at <= t <= at + 1 + INT_LENGTH + if prefix.Some? then |prefix.value| else 0
    ensures buffer[..t] == old(buffer[..at]) + PrefixText(prefix)
  {
    var size := if prefix.Some? then |prefix.value| else 0;
    SizesAreShort();
    DecimalLength(size, 20);
    t := PrintNumber(buffer, at, size);
    if prefix.Some? {
      t := PutSpace(buffer, t);
      t := CopyText(buffer, t, prefix.value);
      assert buffer[..t] == old(buffer[..at]) + (Decimal(size) + " " + prefix.value);
    }
  }

  method PutHead(buffer: array<char>, kind: ServerType, prefix: Option<string>) returns (t: nat)
    requires prefix.Some? ==> |prefix.value| < MAX_SIZE
    requires buffer.Length >= 5 + INT_LENGTH + if prefix.Some? then |prefix.value| else 0
    modifies buffer
    ensures t <= 4 + INT_LENGTH + if prefix.Some? then |prefix.value| else 0
    ensures buffer[..t] == Decimal(Number(kind) + 1) + " " + PrefixText(prefix)
  {
    assert Pow10(2) == 100;
    DecimalLength(Number(kind) + 1, 2);
    t := PrintNumber(buffer, 0, Number(kind) + 1);
    assert buffer[..t] == Decimal(Number(kind) + 1);
    t := PutSpace(buffer, t);
    t := PutPrefix(buffer, t, prefix);
  }

  /** A server path as far as storing it is concerned. */
  class StoredPath {
    var kind: ServerType
    var data: Option<PathData>

    function Value(): ServerPath
      reads this
    {
      ServerPath(kind, data)
    }

    constructor (p: ServerPath)
      ensures Value() == p
    {
      kind, data := p.kind, p.data;
    }

    method GetSafePath() returns (text: string)
      requires data.Some? ==> Sizes(data.value)
      ensures text == Stored(Value())
    {
      if data.None? {
        return "";
      }
      var d := data.value;
      var len := MeasureSegments(d.segments, 5 + INT_LENGTH + if d.prefix.Some? then |d.prefix.value| else 0);
      var buffer := new char[len](i => ' ');
      var t := PutHead(buffer, kind, d.prefix);
      t := PutSegments(buffer, t, d.segments);
      text := buffer[..t];
    }

    /** Reads digits up to a space, or also up to the end where that is allowed. */
    method ReadDigits(path: string, start: nat, limit: nat, endAllowed: bool) returns (ok: bool, v: nat, p: nat)
      requires start <= |path|
      ensures start <= p <= |path|
      ensures ReadNumber(path[start..], 0, limit, endAllowed) == if ok then Read(v, path[p..]) else Bad
    {
      v, p := 0, start;
      ok := true;
      var more := true;
      while more
        invariant start <= p <= |path| && ok
        invariant ReadNumber(path[start..], 0, limit, endAllowed)
               == if more then ReadNumber(path[p..], v, limit, endAllowed) else Read(v, path[p..])
        decreases |path| - p, more
      {
        if !(p < |path| && '0' <= path[p] <= '9') {
          ok := false;
          return;
        }
        ghost var rest := path[p..];
        assert rest[1..] == path[p + 1..];
        v := v * 10 + (path[p] as int - '0' as int);
        if v > limit {
          ok := false;
          return;
        }
        p := p + 1;
        more := !(p < |path| && path[p] == ' ') && !(endAllowed && (p == |path| || path[p] == '\0'));
      }
    }

    /** The text of one segment behind its length, and the position behind the character after it. */
    method TakeSegment(path: string, size: nat, at: nat) returns (ok: bool, segment: string, next: nat)
      requires at < |path|
      ensures SegmentsAt(path, size, at) == if !ok then None else With([segment], ReadSegments(From(path, next)))
      ensures ok ==> at < next
    {
      segment, next := "", at;
      if size == 0 {
        return false, segment, next;
      }
      var p := at + 1;
      if size > |path| - p {
        return false, segment, next;
      }
      segment := path[p..p + size];
      next := p + size + 1;
      ok := true;
    }

    method ReadSegment(path: string, start: nat) returns (ok: bool, segment: string, next: nat)
      requires start < |path|
      ensures ReadSegments(path[start..]) == if !ok then None else With([segment], ReadSegments(From(path, next)))
      ensures ok ==> start < next
    {
      var size, p: nat;
      ok, size, p := ReadDigits(path, start, LIMIT, false);
      if !ok {
        return false, "", start;
      }
      SegmentsPositioned(path, start, size, p);
      ok, segment, next := TakeSegment(path, size, p);
    }

    method ReadSegmentList(path: string, start: nat) returns (ok: bool, segments: seq<string>)
      ensures ReadSegments(From(path, start)) == if ok then Some(segments) else None
    {
      var p := start;
      segments := [];
      ghost var all := ReadSegments(From(path, start));
      WithNone(all);
      while p < |path|
        invariant all == With(segments, ReadSegments(From(path, p)))
      {
        var segment: string;
        ghost var s := From(path, p);
        ok, segment, p := ReadSegment(path, p);
        if !ok {
          return;
        }
        WithOneMore(segments, segment, ReadSegments(From(path, p)));
        segments := segments + [segment];
      }
      ok := true;
      assert segments + [] == segments;
    }

    method DoSetSafePath(path: string) returns (ok: bool)
      modifies this
      ensures kind == Loaded(old(kind), path).kind && ok == Loaded(old(kind), path).data.Some?
      ensures ok ==> data == Loaded(old(kind), path).data
    {
      data := Some(PathData([], None));
      var n, p: nat;
      assert path[0..] == path;
      ok, n, p := ReadDigits(path, 0, SERVERTYPE_MAX, false);
      if !ok {
        return;
      }
      kind := TypeOf(n);
      assert path[p..][1..] == path[p + 1..];
      p := p + 1;
      ok := SetData(path, p);
    }

    method SetData(path: string, start: nat) returns (ok: bool)
      requires start <= |path| && data == Some(PathData([], None))
      modifies `data
      ensures ok == LoadedData(path[start..]).Some? && (ok ==> data == LoadedData(path[start..]))
    {
      var size, p: nat;
      ok, size, p := ReadDigits(path, start, LIMIT, true);
      if !ok {
        return;
      }
      DataPositioned(path, start, size, p);
      ok := TakeData(path, size, p);
    }

    /** The prefix behind its length, and the segments. */
    method TakeData(path: string, size: nat, at: nat) returns (ok: bool)
      requires at <= |path| && data == Some(PathData([], None))
      modifies `data
      ensures ok == DataAt(path, size, at).Some? && (ok ==> data == DataAt(path, size, at))
    {
      if at == |path| || path[at] == '\0' {
        return size == 0;
      }
      var p := at + 1;
      if size > |path| - p {
        return false;
      }
      var prefix := None;
      if size != 0 {
        prefix := Some(path[p..p + size]);
        p := p + size + 1;
      }
      assert DataAt(path, size, at) == WithPrefix(prefix, ReadSegments(From(path, p)));
      ok := TakeSegments(path, prefix, p);
    }

    method TakeSegments(path: string, prefix: Option<string>, p: nat) returns (ok: bool)
      modifies `data
      ensures var d := WithPrefix(prefix, ReadSegments(From(path, p))); ok == d.Some? && (ok ==> data == d)
    {
      var segments: seq<string>;
      ok, segments := ReadSegmentList(path, p);
      data := Some(PathData(segments, prefix));
    }

    /** Loading never reads past the end; on failure it leaves the empty path. */
    method SetSafePath(path: string) returns (ok: bool)
      modifies this
      ensures Value() == Loaded(old(kind), path) && ok == data.Some?
    {
      ok := DoSetSafePath(path);
      if !ok {
        data := None;
      }
    }
  }

  /** The text from a position, which may lie behind the end. */
  function From(path: string, p: nat): string {
    if p <= |path| then path[p..] else ""
  }

  /** A text of length n behind the character at p, and what follows it. */
  lemma TextAt(path: string, p: nat, n: nat)
    requires p + 1 + n <= |path|
    ensures path[p..][1..n + 1] == path[p + 1..p + 1 + n]
    ensures Skip(path[p..][1..], n) == From(path, p + n + 2)
  {
    assert path[p..][1..] == path[p + 1..];
    if n < |path| - p - 1 {
      assert path[p + 1..][n + 1..] == path[p + n + 2..];
    }
  }

  /** `ReadSegments` and `LoadedData` once the number is read, in terms of the position behind it. */
  function SegmentsAt(path: string, n: nat, p: nat): Option<seq<string>>
    requires p < |path|
  {
    if n == 0 || n > |path| - p - 1 then None
    else With([path[p + 1..p + 1 + n]], ReadSegments(From(path, p + n + 2)))
  }

  function DataAt(path: string, n: nat, p: nat): Option<PathData>
    requires p <= |path|
  {
    if p == |path| || path[p] == '\0' then if n != 0 then None else Some(PathData([], None))
    else if n > |path| - p - 1 then None
    else
      WithPrefix(if n == 0 then None else Some(path[p + 1..p + 1 + n]),
                 ReadSegments(From(path, if n == 0 then p + 1 else p + n + 2)))
  }

  function WithPrefix(prefix: Option<string>, segments: Option<seq<string>>): Option<PathData> {
    match segments
    case None => None
    case Some(s) => Some(PathData(s, prefix))
  }

  lemma SegmentsPositioned(path: string, start: nat, n: nat, p: nat)
    requires start < |path| && p < |path| && ReadNumber(path[start..], 0, LIMIT, false) == Read(n, path[p..])
    ensures ReadSegments(path[start..]) == SegmentsAt(path, n, p)
  {
    if n <= |path| - p - 1 {
      TextAt(path, p, n);
    }
  }

  lemma DataPositioned(path: string, start: nat, n: nat, p: nat)
    requires start <= |path| && p <= |path| && ReadNumber(path[start..], 0, LIMIT, true) == Read(n, path[p..])
    ensures LoadedData(path[start..]) == DataAt(path, n, p)
  {
    if p < |path| {
      assert path[p..][0] == path[p] && path[p..][1..] == path[p + 1..];
      if n <= |path| - p - 1 {
        TextAt(path, p, n);
      }
    }
  }

  /** A path that is stored by one object and loaded by another. */
  method Transfer(source: StoredPath, target: StoredPath) returns (ok: bool)
    requires source.data.Some? && Sizes(source.data.value) && source != target
    modifies target
    ensures (ok && target.Value() == source.Value()) <==> Storable(source.Value())
  {
    var text := source.GetSafePath();
    StoredRoundTrip(source.Value(), target.kind);
    ok := target.SetSafePath(text);
  }
}
