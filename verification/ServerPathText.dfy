/** Printing a server path and parsing it back, for all ten syntaxes. */
module ServerPathText {
  import opened Text
  import opened ServerPaths

  // ---------- printing ----------

  function EscapeSeparator(s: string, sep: char, esc: char): string {
    if s == "" then ""
    else (if s[0] == sep then [esc, sep] else [s[0]]) + EscapeSeparator(s[1..], sep, esc)
  }

  /** A segment as it is printed: VMS puts ^ before each dot. */
  function Shown(t: ServerType, segment: string): string {
    match TraitsOf(t).escape
    case None => segment
    case Some(esc) => EscapeSeparator(segment, Sep(t), esc)
  }

  function Join(t: ServerType, segments: seq<string>): string {
    if segments == [] then ""
    else if |segments| == 1 then Shown(t, segments[0])
    else Shown(t, segments[0]) + [Sep(t)] + Join(t, segments[1..])
  }

  function Shape(c: Option<char>): string {
    match c case None => "" case Some(ch) => [ch]
  }

  /** What GetPath prints before the segments. */
  function Head(t: ServerType, d: PathData): string {
    var tr := TraitsOf(t);
    (if !tr.suffixPrefix && d.prefix.Some? then d.prefix.value else "") + Shape(tr.left)
    + (if (if d.segments == [] then !tr.hasRoot || d.prefix.None? || tr.separatorAfterPrefix
           else tr.hasRoot && (d.prefix.None? || tr.separatorAfterPrefix)) then [Sep(t)] else "")
  }

  /** What GetPath prints after the segments. */
  function Tail(t: ServerType, d: PathData): string {
    var tr := TraitsOf(t);
    (if tr.suffixPrefix && d.prefix.Some? then d.prefix.value else "") + Shape(tr.right)
    + (if IsDos(t) && |d.segments| == 1 then [Sep(t)] else "")
  }

  function PathText(p: ServerPath): string {
    if p.Empty() then ""
    else Head(p.kind, p.data.value) + Join(p.kind, p.data.value.segments) + Tail(p.kind, p.data.value)
  }

  // ---------- parsing ----------

  /** SegmentizeAddSegment: dots are folded, an escaped segment is glued to the next one. */
  function AddSegment(t: ServerType, segment: string, segments: seq<string>, append: bool): (r: (seq<string>, bool))
    requires append ==> t == VMS && segments != []
    ensures r.1 ==> t == VMS && r.0 != []
  {
    var tr := TraitsOf(t);
    if tr.hasDots && segment == "." then (segments, append)
    else if tr.hasDots && segment == ".." then
      (if segments == [] then segments else segments[..|segments| - 1], append)
    else
      var escaped := segment != "" && tr.escape == Some(segment[|segment| - 1]);
      var s := if escaped then segment[|segment| - 1 := Sep(t)] else segment;
      (if append then segments[|segments| - 1 := segments[|segments| - 1] + s] else segments + [s], escaped)
  }

  /** The non-empty pieces of cur + str between separators, cur being the begun piece. */
  function Pieces(t: ServerType, cur: string, str: string): seq<string>
    decreases |str|
  {
    var begun := if cur == "" then [] else [cur];
    if str == "" then begun
    else if IsSeparator(t, str[0]) then begun + Pieces(t, "", str[1..])
    else Pieces(t, cur + [str[0]], str[1..])
  }

  function AddAll(t: ServerType, pieces: seq<string>, segments: seq<string>, append: bool): (r: (seq<string>, bool))
    requires append ==> t == VMS && segments != []
    ensures r.1 ==> t == VMS && r.0 != []
    decreases |pieces|
  {
    if pieces == [] then (segments, append)
    else
      var r := AddSegment(t, pieces[0], segments, append);
      AddAll(t, pieces[1..], r.0, r.1)
  }

  function Segmentize(t: ServerType, str: string, segments: seq<string>): Option<seq<string>> {
    var r := AddAll(t, Pieces(t, "", str), segments, false);
    if r.1 then None else Some(r.0)
  }

  function WithSegments(t: ServerType, str: string, d: PathData): Option<PathData> {
    match Segmentize(t, str, d.segments)
    case None => None
    case Some(segments) => Some(d.(segments := segments))
  }

  function ChangeVms(d: PathData, dir: string): Option<PathData> {
    var pos1 := FindFirst(dir, '[');
    var pos2 := FindLast(dir, ']');
    if pos1 == |dir| then
      if pos2 < |dir| then None else WithSegments(VMS, dir, d)
    else if pos2 == |dir| || pos2 <= pos1 + 1 || pos2 != |dir| - 1 then None
    else WithSegments(VMS, dir[pos1 + 1..pos2], PathData([], if pos1 > 0 then Some(dir[..pos1]) else d.prefix))
  }

  function ChangeDos(t: ServerType, d: PathData, dir: string): Option<PathData>
    requires IsDos(t) && dir != ""
  {
    var sep := FindSeparator(t, dir);
    var colon := FindFirst(dir, ':');
    if colon == 0 then None
    else if colon < |dir| && colon > sep then None
    else if colon < |dir| && colon + 1 < sep then
      if d.segments == [] || d.segments[0] != dir[..colon + 1] then None
      else RelativeDos(t, d, dir[colon + 1..])
    else if colon < |dir| then WithSegments(t, dir, d.(segments := []))
    else RelativeDos(t, d, dir)
  }

  function RelativeDos(t: ServerType, d: PathData, dir: string): Option<PathData>
    requires dir != ""
  {
    if IsSeparator(t, dir[0]) then
      if d.segments == [] then None else WithSegments(t, dir[1..], d.(segments := [d.segments[0]]))
    else WithSegments(t, dir, d)
  }

  const MVS_QUOTE: char := '\U{DC}'

  function StripFront(s: string): string {
    if s != "" && s[0] == MVS_QUOTE then StripFront(s[1..]) else s
  }

  function StripBack(s: string): string {
    if s != "" && s[|s| - 1] == MVS_QUOTE then StripBack(s[..|s| - 1]) else s
  }

  function ChangeMvs(d: PathData, wasEmpty: bool, quoted: string): Option<PathData> {
    var dir := StripBack(StripFront(quoted));
    if dir == "" then None
    else if dir[0] == '\'' then
      if dir[|dir| - 1] != '\'' then None
      else MvsBody(d.(segments := []), wasEmpty, if |dir| == 1 then "" else dir[1..|dir| - 1])
    else if dir[|dir| - 1] == '\'' || wasEmpty then None
    else MvsBody(d, wasEmpty, dir)
  }

  function MvsBody(d: PathData, wasEmpty: bool, dir: string): Option<PathData> {
    if dir != "" && dir[|dir| - 1] == ')' then None
    else if !wasEmpty && d.prefix.None? then None
    else WithSegments(MVS, dir, d.(prefix := if dir != "" && dir[|dir| - 1] == '.' then Some(".") else None))
  }

  function ChangeVxworks(d: PathData, wasEmpty: bool, dir: string): Option<PathData>
    requires dir != ""
  {
    if dir[0] != ':' then
      if wasEmpty then None else WithSegments(VXWORKS, dir, d)
    else
      var colon2 := 1 + FindFirst(dir[1..], ':');
      if colon2 == |dir| || colon2 == 1 then None
      else WithSegments(VXWORKS, dir[colon2 + 1..], PathData([], Some(dir[..colon2 + 1])))
  }

  function ChangeCygwin(d: PathData, wasEmpty: bool, dir: string): Option<PathData>
    requires dir != ""
  {
    if dir[0] == '/' then
      if |dir| > 1 && dir[1] == '/' then WithSegments(CYGWIN, dir[1..], PathData([], Some("/")))
      else WithSegments(CYGWIN, dir, PathData([], None))
    else if wasEmpty then None
    else WithSegments(CYGWIN, dir, d)
  }

  function ChangePlain(t: ServerType, d: PathData, wasEmpty: bool, dir: string): Option<PathData>
    requires dir != ""
  {
    if IsSeparator(t, dir[0]) then WithSegments(t, dir, d.(segments := []))
    else if wasEmpty then None
    else WithSegments(t, dir, d)
  }

  function ChangeHpNonstop(d: PathData, dir: string): Option<PathData>
    requires dir != ""
  {
    WithSegments(HPNONSTOP, dir, if dir[0] == '\\' then d.(segments := []) else d)
  }

  /** DoChangePath for a directory name; None is failure. */
  function Changed(p: ServerPath, dir: string): Option<PathData> {
    if dir == "" then p.data
    else
      var d := if p.Empty() then PathData([], None) else p.data.value;
      var r := match p.kind
        case VMS => ChangeVms(d, dir)
        case DOS => ChangeDos(DOS, d, dir)
        case DOS_FWD_SLASHES => ChangeDos(DOS_FWD_SLASHES, d, dir)
        case MVS => ChangeMvs(d, p.Empty(), dir)
        case HPNONSTOP => ChangeHpNonstop(d, dir)
        case VXWORKS => ChangeVxworks(d, p.Empty(), dir)
        case CYGWIN => ChangeCygwin(d, p.Empty(), dir)
        case UNIX => ChangePlain(UNIX, d, p.Empty(), dir)
        case ZVM => ChangePlain(ZVM, d, p.Empty(), dir)
        case DOS_VIRTUAL => ChangePlain(DOS_VIRTUAL, d, p.Empty(), dir);
      if r.Some? && !TraitsOf(p.kind).hasRoot && r.value.segments == [] then None else r
  }

  /** The path a fresh object of type t holds after SetPath(s). */
  function Parsed(t: ServerType, s: string): ServerPath {
    ServerPath(t, if s == "" then None else Changed(ServerPath(t, None), s))
  }

  // ---------- well-formed paths ----------

  function Last(s: string): char
    requires s != ""
  {
    s[|s| - 1]
  }

  predicate GoodSegment(t: ServerType, s: string) {
    && s != ""
    && if t == VMS then Last(s) != '.' && Last(s) != '^'
       else (forall i :: 0 <= i < |s| ==> !IsSeparator(t, s[i])) && (TraitsOf(t).hasDots ==> s != "." && s != "..")
  }

  predicate GoodSegments(t: ServerType, segments: seq<string>) {
    forall i :: 0 <= i < |segments| ==> GoodSegment(t, segments[i])
  }

  /** A DOS path starts with a drive, or contains no colon at all. */
  predicate GoodDrive(segments: seq<string>)
    requires segments != []
  {
    var first := segments[0];
    if ':' in first then |first| > 1 && Last(first) == ':' && ':' !in first[..|first| - 1]
    else forall i :: 0 <= i < |segments| ==> ':' !in segments[i]
  }

  predicate GoodPrefix(t: ServerType, d: PathData) {
    match t
    case VMS => d.prefix.Some? ==> d.prefix.value != "" && '[' !in d.prefix.value
    case VXWORKS =>
      && d.prefix.Some? && |d.prefix.value| > 2 && d.prefix.value[0] == ':' && Last(d.prefix.value) == ':'
      && ':' !in d.prefix.value[1..|d.prefix.value| - 1]
    case CYGWIN => d.prefix.Some? ==> d.prefix.value == "/"
    case MVS =>
      if d.prefix.Some? then d.prefix.value == "."
      else d.segments != [] && d.segments[|d.segments| - 1] != "" && Last(d.segments[|d.segments| - 1]) != ')'
    case _ => d.prefix.None?
  }

  predicate WellFormed(p: ServerPath) {
    p.Empty() ||
    var d := p.data.value;
    && GoodSegments(p.kind, d.segments)
    && (!TraitsOf(p.kind).hasRoot ==> d.segments != [])
    && (IsDos(p.kind) ==> GoodDrive(d.segments))
    && GoodPrefix(p.kind, d)
  }

  // ---------- segments survive ----------

  predicate NoSeparator(t: ServerType, s: string) {
    forall i :: 0 <= i < |s| ==> !IsSeparator(t, s[i])
  }

  lemma {:induction false} PiecesSingle(t: ServerType, cur: string, s: string)
    requires NoSeparator(t, s) && cur + s != ""
    ensures Pieces(t, cur, s) == [cur + s]
    decreases |s|
  {
    if s != "" {
      PiecesSingle(t, cur + [s[0]], s[1..]);
      assert cur + [s[0]] + s[1..] == cur + s;
    } else {
      assert cur + s == cur;
    }
  }

  lemma PieceWhole(t: ServerType, s: string)
    requires NoSeparator(t, s) && s != ""
    ensures Pieces(t, "", s) == [s]
  {
    assert "" + s == s;
    PiecesSingle(t, "", s);
  }

  lemma {:induction false} PiecesConcat(t: ServerType, cur: string, a: string, sep: char, b: string)
    requires IsSeparator(t, sep)
    ensures Pieces(t, cur, a + [sep] + b) == Pieces(t, cur, a) + Pieces(t, "", b)
    decreases |a|
  {
    var str := a + [sep] + b;
    if a == "" {
      assert str[1..] == b;
    } else {
      assert str[1..] == a[1..] + [sep] + b;
      PiecesConcat(t, if IsSeparator(t, a[0]) then "" else cur + [a[0]], a[1..], sep, b);
    }
  }

  lemma {:induction false} AddAllConcat(t: ServerType, a: seq<string>, b: seq<string>, acc: seq<string>, append: bool)
    requires append ==> t == VMS && acc != []
    ensures var r := AddAll(t, a, acc, append); AddAll(t, a + b, acc, append) == AddAll(t, b, r.0, r.1)
    decreases |a|
  {
    if a == [] {
      assert a + b == b;
    } else {
      assert (a + b)[1..] == a[1..] + b;
      var r := AddSegment(t, a[0], acc, append);
      AddAllConcat(t, a[1..], b, r.0, r.1);
    }
  }

  lemma {:induction false} JoinedPieces(t: ServerType, xs: seq<string>)
    requires t != VMS && GoodSegments(t, xs)
    ensures Pieces(t, "", Join(t, xs)) == xs
    decreases |xs|
  {
    if xs != [] {
      PieceWhole(t, xs[0]);
      if |xs| > 1 {
        JoinedPieces(t, xs[1..]);
        PiecesConcat(t, "", xs[0], Sep(t), Join(t, xs[1..]));
      }
    }
  }

  lemma {:induction false} AddAllPlain(t: ServerType, xs: seq<string>, acc: seq<string>)
    requires t != VMS && GoodSegments(t, xs)
    ensures AddAll(t, xs, acc, false) == (acc + xs, false)
    decreases |xs|
  {
    if xs == [] {
      assert acc + xs == acc;
    } else {
      AddAllPlain(t, xs[1..], acc + [xs[0]]);
      assert acc + [xs[0]] + xs[1..] == acc + xs;
    }
  }

  lemma {:induction false} EscapeConcat(a: string, b: string)
    ensures EscapeSeparator(a + b, '.', '^') == EscapeSeparator(a, '.', '^') + EscapeSeparator(b, '.', '^')
  {
    if a == "" {
      assert a + b == b;
    } else {
      assert (a + b)[1..] == a[1..] + b;
      EscapeConcat(a[1..], b);
    }
  }

  lemma {:induction false} EscapePlain(a: string)
    requires '.' !in a
    ensures EscapeSeparator(a, '.', '^') == a
  {
    if a != "" { EscapePlain(a[1..]); }
  }

  /** The printed form of a VMS segment, split at its first dot. */
  lemma ShownAtDot(y: string, z: string)
    requires '.' !in y
    ensures Shown(VMS, y) == y
    ensures Shown(VMS, y + "." + z) == y + "^" + "." + Shown(VMS, z)
  {
    EscapePlain(y);
    assert y + "." + z == y + ("." + z) && ("." + z)[1..] == z;
    EscapeConcat(y, "." + z);
  }

  /** acc with x glued on (when append) or added. */
  function Glued(acc: seq<string>, append: bool, x: string): seq<string>
    requires append ==> acc != []
  {
    if append then acc[|acc| - 1 := acc[|acc| - 1] + x] else acc + [x]
  }

  lemma GluedTwice(acc: seq<string>, append: bool, y: string, z: string)
    requires append ==> acc != []
    ensures Glued(Glued(acc, append, y), true, z) == Glued(acc, append, y + z)
  {
    if append { assert acc[|acc| - 1] + y + z == acc[|acc| - 1] + (y + z); }
  }

  lemma AddVms(x: string, acc: seq<string>, append: bool)
    requires x != "" && (append ==> acc != [])
    ensures AddAll(VMS, [x], acc, append)
         == if Last(x) == '^' then (Glued(acc, append, x[..|x| - 1] + "."), true) else (Glued(acc, append, x), false)
  {
    assert x[|x| - 1 := '.'] == x[..|x| - 1] + ".";
    assert [x][1..] == [];
  }

  /** The piece before a segment's first dot leaves the dot behind and asks for more. */
  lemma AddAtDot(y: string, z: string, acc: seq<string>, append: bool)
    requires '.' !in y && (append ==> acc != [])
    ensures AddAll(VMS, Pieces(VMS, "", Shown(VMS, y + "." + z)), acc, append)
         == AddAll(VMS, Pieces(VMS, "", Shown(VMS, z)), Glued(acc, append, y + "."), true)
  {
    ShownAtDot(y, z);
    var piece := y + "^";
    assert piece[..|piece| - 1] == y;
    PiecesConcat(VMS, "", piece, '.', Shown(VMS, z));
    PieceWhole(VMS, piece);
    AddVms(piece, acc, append);
    AddAllConcat(VMS, [piece], Pieces(VMS, "", Shown(VMS, z)), acc, append);
  }

  lemma SplitAtDot(x: string) returns (y: string, z: string)
    requires GoodSegment(VMS, x) && FindFirst(x, '.') < |x|
    ensures x == y + "." + z && '.' !in y && |z| < |x| && GoodSegment(VMS, z)
  {
    var dot := FindFirst(x, '.');
    y, z := x[..dot], x[dot + 1..];
  }

  /** An escaped VMS segment is put together again from its dot-separated pieces. */
  lemma {:induction false} AddAllEscaped(x: string, acc: seq<string>, append: bool)
    requires GoodSegment(VMS, x)
    requires append ==> acc != []
    ensures AddAll(VMS, Pieces(VMS, "", Shown(VMS, x)), acc, append) == (Glued(acc, append, x), false)
    decreases |x|
  {
    var dot := FindFirst(x, '.');
    if dot == |x| {
      EscapePlain(x);
      PieceWhole(VMS, x);
      AddVms(x, acc, append);
    } else {
      var y, z := SplitAtDot(x);
      AddAtDot(y, z, acc, append);
      AddAllEscaped(z, Glued(acc, append, y + "."), true);
      GluedTwice(acc, append, y + ".", z);
    }
  }

  lemma {:induction false} AddAllVms(xs: seq<string>, acc: seq<string>)
    requires GoodSegments(VMS, xs)
    ensures AddAll(VMS, Pieces(VMS, "", Join(VMS, xs)), acc, false) == (acc + xs, false)
    decreases |xs|
  {
    if xs == [] {
      assert acc + xs == acc;
    } else {
      AddAllEscaped(xs[0], acc, false);
      assert acc + [xs[0]] + xs[1..] == acc + xs;
      if |xs| > 1 {
        AddAllVms(xs[1..], acc + [xs[0]]);
        PiecesConcat(VMS, "", Shown(VMS, xs[0]), '.', Join(VMS, xs[1..]));
        AddAllConcat(VMS, Pieces(VMS, "", Shown(VMS, xs[0])), Pieces(VMS, "", Join(VMS, xs[1..])), acc, false);
      } else {
        assert acc + xs == acc + [xs[0]];
      }
    }
  }

  /** Printed segments are read back, also when a separator follows or precedes them. */
  lemma SegmentizeVms(xs: seq<string>)
    requires GoodSegments(VMS, xs)
    ensures Segmentize(VMS, Join(VMS, xs), []) == Some(xs)
  {
    AddAllVms(xs, []);
    assert [] + xs == xs;
  }

  lemma SegmentizeJoined(t: ServerType, xs: seq<string>)
    requires t != VMS && GoodSegments(t, xs)
    ensures Segmentize(t, Join(t, xs), []) == Some(xs)
    ensures Segmentize(t, Join(t, xs) + [Sep(t)], []) == Some(xs)
    ensures Segmentize(t, [Sep(t)] + Join(t, xs), []) == Some(xs)
  {
    var j := Join(t, xs);
    JoinedPieces(t, xs);
    AddAllPlain(t, xs, []);
    PiecesConcat(t, "", j, Sep(t), "");
    PiecesConcat(t, "", "", Sep(t), j);
    assert j + [Sep(t)] + "" == j + [Sep(t)] && "" + [Sep(t)] + j == [Sep(t)] + j;
    assert xs + [] == xs && [] + xs == xs;
  }

  // ---------- what the parser produces ----------

  ghost predicate Partial(t: ServerType, segments: seq<string>, append: bool) {
    if append then segments != [] && GoodSegments(t, segments[..|segments| - 1]) && segments[|segments| - 1] != ""
    else GoodSegments(t, segments)
  }

  ghost predicate AllPieces(t: ServerType, pieces: seq<string>) {
    forall i :: 0 <= i < |pieces| ==> pieces[i] != "" && NoSeparator(t, pieces[i])
  }

  lemma AddSegmentGood(t: ServerType, s: string, segments: seq<string>)
    requires t != VMS && GoodSegments(t, segments) && s != "" && NoSeparator(t, s)
    ensures GoodSegments(t, AddSegment(t, s, segments, false).0)
  {}

  lemma AddSegmentGoodVms(s: string, segments: seq<string>, append: bool)
    requires append ==> segments != []
    requires Partial(VMS, segments, append) && s != "" && NoSeparator(VMS, s)
    ensures var r := AddSegment(VMS, s, segments, append); Partial(VMS, r.0, r.1)
  {
    AddVms(s, segments, append);
    var x := if Last(s) == '^' then s[..|s| - 1] + "." else s;
    var r := Glued(segments, append, x);
    GluedShape(segments, append, x);
    assert forall i :: 0 <= i < |r| - 1 ==> r[i] == r[..|r| - 1][i];
  }

  lemma GluedShape(segments: seq<string>, append: bool, x: string)
    requires (append ==> segments != []) && x != ""
    ensures var r := Glued(segments, append, x);
            && r != [] && r[..|r| - 1] == (if append then segments[..|segments| - 1] else segments)
            && r[|r| - 1] != "" && Last(r[|r| - 1]) == Last(x)
  {
  }

  lemma {:induction false} PiecesGood(t: ServerType, cur: string, str: string)
    requires NoSeparator(t, cur)
    ensures AllPieces(t, Pieces(t, cur, str))
    decreases |str|
  {
    if str != "" {
      if IsSeparator(t, str[0]) { PiecesGood(t, "", str[1..]); } else { PiecesGood(t, cur + [str[0]], str[1..]); }
    }
  }

  lemma {:induction false} AddAllGood(t: ServerType, pieces: seq<string>, segments: seq<string>, append: bool)
    requires append ==> t == VMS && segments != []
    requires Partial(t, segments, append)
    requires AllPieces(t, pieces)
    ensures var r := AddAll(t, pieces, segments, append); Partial(t, r.0, r.1)
    decreases |pieces|
  {
    if pieces != [] {
      if t == VMS { AddSegmentGoodVms(pieces[0], segments, append); } else { AddSegmentGood(t, pieces[0], segments); }
      var r := AddSegment(t, pieces[0], segments, append);
      AddAllGood(t, pieces[1..], r.0, r.1);
    }
  }

  lemma SegmentizeGood(t: ServerType, str: string, segments: seq<string>)
    requires GoodSegments(t, segments)
    ensures var r := Segmentize(t, str, segments); r.Some? ==> GoodSegments(t, r.value)
  {
    PiecesGood(t, "", str);
    AddAllGood(t, Pieces(t, "", str), segments, false);
  }

  lemma {:induction false} AddAllMvs(pieces: seq<string>, segments: seq<string>)
    ensures AddAll(MVS, pieces, segments, false) == (segments + pieces, false)
    decreases |pieces|
  {
    if pieces == [] {
      assert segments + pieces == segments;
    } else {
      AddAllMvs(pieces[1..], segments + [pieces[0]]);
      assert segments + [pieces[0]] + pieces[1..] == segments + pieces;
    }
  }

  /** The last character of two texts put together. */
  function LastOf(cur: string, str: string): char
    requires cur != "" || str != ""
  {
    if str == "" then Last(cur) else Last(str)
  }

  lemma LastMoves(cur: string, str: string)
    requires str != ""
    ensures LastOf(cur + [str[0]], str[1..]) == LastOf(cur, str)
    ensures |str| > 1 ==> LastOf("", str[1..]) == LastOf(cur, str)
  {}

  lemma {:induction false} PiecesLast(t: ServerType, cur: string, str: string)
    requires (cur != "" || str != "") && !IsSeparator(t, LastOf(cur, str))
    ensures var ps := Pieces(t, cur, str); ps != [] && ps[|ps| - 1] != "" && Last(ps[|ps| - 1]) == LastOf(cur, str)
    decreases |str|
  {
    if str != "" {
      LastMoves(cur, str);
      if IsSeparator(t, str[0]) { PiecesLast(t, "", str[1..]); } else { PiecesLast(t, cur + [str[0]], str[1..]); }
    }
  }

  // ---------- each syntax parses only well-formed paths ----------

  lemma ParsedVmsGood(s: string)
    ensures WellFormed(Parsed(VMS, s))
  {
    var pos1 := FindFirst(s, '[');
    var pos2 := FindLast(s, ']');
    SegmentizeGood(VMS, s, []);
    if pos1 + 1 < pos2 < |s| { SegmentizeGood(VMS, s[pos1 + 1..pos2], []); }
  }

  lemma MvsBodyGood(body: string)
    ensures var r := MvsBody(PathData([], None), true, body);
            r.Some? && r.value.segments != [] ==> WellFormed(ServerPath(MVS, r))
  {
    SegmentizeGood(MVS, body, []);
    AddAllMvs(Pieces(MVS, "", body), []);
    if body != "" && Last(body) != '.' { PiecesLast(MVS, "", body); }
  }

  lemma ParsedMvsGood(s: string)
    ensures WellFormed(Parsed(MVS, s))
  {
    var dir := StripBack(StripFront(s));
    if dir != "" { MvsBodyGood(if |dir| == 1 then "" else dir[1..|dir| - 1]); }
  }

  lemma ParsedVxworksGood(s: string)
    ensures WellFormed(Parsed(VXWORKS, s))
  {
    if s != "" && s[0] == ':' {
      var colon2 := 1 + FindFirst(s[1..], ':');
      if 1 < colon2 < |s| {
        var prefix := s[..colon2 + 1];
        assert prefix[1..|prefix| - 1] == s[1..][..colon2 - 1];
        SegmentizeGood(VXWORKS, s[colon2 + 1..], []);
      }
    }
  }

  lemma ParsedRestGood(t: ServerType, s: string)
    requires t != VMS && t != MVS && t != VXWORKS && !IsDos(t)
    ensures WellFormed(Parsed(t, s))
  {
    SegmentizeGood(t, s, []);
    if s != "" { SegmentizeGood(t, s[1..], []); }
  }

  lemma ParsedDosGood(t: ServerType, s: string)
    requires IsDos(t)
    ensures var p := Parsed(t, s);
            p.data.Some? ==>
              GoodSegments(t, p.data.value.segments) && p.data.value.segments != [] && p.data.value.prefix.None?
  {
    SegmentizeGood(t, s, []);
    if s != "" { SegmentizeGood(t, s[1..], []); }
  }

  // ---------- each syntax reads its own output ----------

  lemma FindFirstAt(pre: string, c: char, rest: string)
    requires c !in pre
    ensures FindFirst(pre + [c] + rest, c) == |pre|
  {
    var s := pre + [c] + rest;
    assert s[|pre|] == c && forall k :: 0 <= k < |pre| ==> s[k] == pre[k];
  }

  lemma FindLastAtEnd(s: string)
    requires s != ""
    ensures FindLast(s, Last(s)) == |s| - 1
  {}

  lemma ChangeVmsBracketed(pre: string, body: string)
    requires '[' !in pre && body != ""
    ensures ChangeVms(PathData([], None), pre + "[" + (body + "]"))
         == WithSegments(VMS, body, PathData([], if pre != "" then Some(pre) else None))
  {
    var s := pre + "[" + (body + "]");
    FindFirstAt(pre, '[', body + "]");
    FindLastAtEnd(s);
    assert s[|pre| + 1..|s| - 1] == body && s[..|pre|] == pre;
  }

  lemma VmsTextIs(p: ServerPath)
    requires p.kind == VMS && p.data.Some? && p.data.value.segments != []
    ensures var pre := if p.data.value.prefix.Some? then p.data.value.prefix.value else "";
            PathText(p) == pre + "[" + (Join(VMS, p.data.value.segments) + "]")
  {
    var pre := if p.data.value.prefix.Some? then p.data.value.prefix.value else "";
    var body := Join(VMS, p.data.value.segments);
    assert Head(VMS, p.data.value) == pre + "[";
    assert Tail(VMS, p.data.value) == "]";
    assert pre + "[" + body + "]" == pre + "[" + (body + "]");
  }

  lemma RoundTripVms(p: ServerPath)
    requires p.kind == VMS && p.data.Some? && WellFormed(p)
    ensures Parsed(VMS, PathText(p)) == p
  {
    var d := p.data.value;
    var body := Join(VMS, d.segments);
    var pre := if d.prefix.Some? then d.prefix.value else "";
    SegmentizeVms(d.segments);
    JoinNonEmpty(VMS, d.segments);
    VmsTextIs(p);
    ChangeVmsBracketed(pre, body);
  }

  lemma JoinNonEmpty(t: ServerType, xs: seq<string>)
    requires xs != [] && GoodSegments(t, xs)
    ensures Join(t, xs) != ""
  {
    assert Shown(t, xs[0]) != "";
  }

  lemma ChangeMvsQuoted(body: string)
    ensures ChangeMvs(PathData([], None), true, "'" + body + "'") == MvsBody(PathData([], None), true, body)
  {
    var s := "'" + body + "'";
    assert s[0] == '\'' && s[|s| - 1] == '\'' && s[1..|s| - 1] == body;
  }

  lemma RoundTripMvs(p: ServerPath)
    requires p.kind == MVS && p.data.Some? && WellFormed(p)
    ensures Parsed(MVS, PathText(p)) == p
  {
    var d := p.data.value;
    var j := Join(MVS, d.segments);
    var body := j + (if d.prefix.Some? then "." else "");
    assert PathText(p) == "'" + body + "'";
    ChangeMvsQuoted(body);
    MvsBodyJoined(d);
  }

  lemma MvsBodyJoined(d: PathData)
    requires GoodSegments(MVS, d.segments) && d.segments != [] && GoodPrefix(MVS, d)
    ensures MvsBody(PathData([], None), true, Join(MVS, d.segments) + (if d.prefix.Some? then "." else "")) == Some(d)
  {
    var j := Join(MVS, d.segments);
    SegmentizeJoined(MVS, d.segments);
    JoinLast(d.segments);
    assert GoodSegment(MVS, d.segments[|d.segments| - 1]);
    assert j + "" == j && Last(j + ".") == '.';
  }

  lemma {:induction false} JoinLast(xs: seq<string>)
    requires xs != [] && GoodSegments(MVS, xs)
    ensures Join(MVS, xs) != "" && Last(Join(MVS, xs)) == Last(xs[|xs| - 1])
    decreases |xs|
  {
    if |xs| > 1 {
      JoinLast(xs[1..]);
      assert xs[1..][|xs| - 2] == xs[|xs| - 1];
    }
  }

  /** The prefix :inner: is found at the start of a text. */
  lemma VxworksPrefixAt(pre: string, body: string)
    requires |pre| > 2 && pre[0] == ':' && Last(pre) == ':' && ':' !in pre[1..|pre| - 1]
    ensures var s := pre + body;
            && s != "" && s[0] == ':' && FindFirst(s[1..], ':') == |pre| - 2
            && s[..|pre|] == pre && s[|pre|..] == body
  {
    var inner := pre[1..|pre| - 1];
    FindFirstAt(inner, ':', body);
    assert (pre + body)[1..] == inner + [':'] + body;
  }

  lemma RoundTripVxworks(p: ServerPath)
    requires p.kind == VXWORKS && p.data.Some? && WellFormed(p)
    ensures Parsed(VXWORKS, PathText(p)) == p
  {
    var d := p.data.value;
    var body := Join(VXWORKS, d.segments);
    assert PathText(p) == d.prefix.value + body;
    SegmentizeJoined(VXWORKS, d.segments);
    VxworksPrefixAt(d.prefix.value, body);
  }

  lemma CygwinTextIs(p: ServerPath)
    requires p.kind == CYGWIN && p.data.Some? && WellFormed(p)
    ensures var body := [Sep(CYGWIN)] + Join(CYGWIN, p.data.value.segments);
            PathText(p) == if p.data.value.prefix.Some? then "/" + body else body
  {
    var d := p.data.value;
    assert Tail(CYGWIN, d) == "";
    assert Head(CYGWIN, d) == (if d.prefix.Some? then "/" else "") + [Sep(CYGWIN)];
  }

  lemma RoundTripCygwin(p: ServerPath)
    requires p.kind == CYGWIN && p.data.Some? && WellFormed(p)
    ensures Parsed(CYGWIN, PathText(p)) == p
  {
    var d := p.data.value;
    var j := Join(CYGWIN, d.segments);
    var body := [Sep(CYGWIN)] + j;
    SegmentizeJoined(CYGWIN, d.segments);
    if d.segments != [] { JoinFirst(CYGWIN, d.segments); }
    CygwinTextIs(p);
    if d.prefix.Some? {
      assert ("/" + body)[1..] == body;
    } else {
      assert |body| > 1 ==> body[1] == j[0];
    }
  }

  lemma JoinFirst(t: ServerType, xs: seq<string>)
    requires t != VMS && xs != [] && GoodSegments(t, xs)
    ensures Join(t, xs) != "" && Join(t, xs)[0] == xs[0][0] && !IsSeparator(t, xs[0][0])
  {}

  lemma RoundTripPlain(p: ServerPath)
    requires p.kind in {UNIX, ZVM, DOS_VIRTUAL} && p.data.Some? && WellFormed(p)
    ensures Parsed(p.kind, PathText(p)) == p
  {
    var d := p.data.value;
    assert PathText(p) == [Sep(p.kind)] + Join(p.kind, d.segments);
    SegmentizeJoined(p.kind, d.segments);
  }

  lemma RoundTripHpNonstop(p: ServerPath)
    requires p.kind == HPNONSTOP && p.data.Some? && WellFormed(p)
    ensures Parsed(HPNONSTOP, PathText(p)) == p
  {
    var d := p.data.value;
    assert PathText(p) == Join(HPNONSTOP, d.segments);
    SegmentizeJoined(HPNONSTOP, d.segments);
    JoinNonEmpty(HPNONSTOP, d.segments);
  }

  lemma {:induction false} JoinHas(t: ServerType, xs: seq<string>, c: char)
    requires t != VMS && c != Sep(t)
    ensures c in Join(t, xs) <==> exists i :: 0 <= i < |xs| && c in xs[i]
    decreases |xs|
  {
    if xs != [] {
      JoinHas(t, xs[1..], c);
      assert forall i :: 0 <= i < |xs| - 1 ==> xs[1..][i] == xs[i + 1];
      assert (exists i :: 0 <= i < |xs| && c in xs[i])
        <==> c in xs[0] || exists i :: 0 <= i < |xs[1..]| && c in xs[1..][i] by {
        if i :| 0 <= i < |xs| && c in xs[i] && i != 0 { assert c in xs[1..][i - 1]; }
        if i :| 0 <= i < |xs[1..]| && c in xs[1..][i] { assert c in xs[i + 1]; }
      }
    }
  }

  /** A DOS text has its first separator right after the drive. */
  lemma DosTextIs(p: ServerPath)
    requires IsDos(p.kind) && p.data.Some? && p.data.value.prefix.None? && p.data.value.segments != []
    ensures var t, segments := p.kind, p.data.value.segments;
            && PathText(p) == Join(t, segments) + (if |segments| == 1 then [Sep(t)] else "")
            && PathText(p) == segments[0] + [Sep(t)] + Join(t, segments[1..])
  {
    var t, segments := p.kind, p.data.value.segments;
    assert Join(t, segments) + "" == Join(t, segments);
    assert |segments| == 1 ==> Join(t, segments[1..]) == "";
  }

  lemma DosText(p: ServerPath) returns (rest: string)
    requires IsDos(p.kind) && p.data.Some? && p.data.value.prefix.None? && p.data.value.segments != []
    requires GoodSegments(p.kind, p.data.value.segments)
    ensures var first := p.data.value.segments[0];
            && PathText(p) == first + [Sep(p.kind)] + rest
            && FindSeparator(p.kind, PathText(p)) == |first|
            && !IsSeparator(p.kind, PathText(p)[0])
    ensures ':' in rest <==> exists i :: 1 <= i < |p.data.value.segments| && ':' in p.data.value.segments[i]
    ensures Segmentize(p.kind, PathText(p), []) == Some(p.data.value.segments)
  {
    var t, segments := p.kind, p.data.value.segments;
    var first := segments[0];
    rest := Join(t, segments[1..]);
    DosTextIs(p);
    assert GoodSegment(t, first);
    DosFirst(t, first, rest);
    JoinHas(t, segments[1..], ':');
    assert forall i :: 1 <= i < |segments| ==> segments[i] == segments[1..][i - 1];
    assert forall i :: 0 <= i < |segments[1..]| ==> segments[1..][i] == segments[i + 1];
    SegmentizeJoined(t, segments);
    assert Join(t, segments) + "" == Join(t, segments);
  }

  lemma DosFirst(t: ServerType, first: string, rest: string)
    requires IsDos(t) && GoodSegment(t, first)
    ensures FindSeparator(t, first + [Sep(t)] + rest) == |first|
    ensures !IsSeparator(t, (first + [Sep(t)] + rest)[0])
  {
    var text := first + [Sep(t)] + rest;
    assert text[|first|] == Sep(t) && forall k :: 0 <= k < |first| ==> text[k] == first[k];
  }

  /** Where the first colon of a DOS text is found. */
  lemma DosColon(first: string, sep: char, rest: string)
    requires sep != ':'
    ensures var s := first + [sep] + rest; var colon := FindFirst(s, ':');
            if ':' in first then colon == FindFirst(first, ':') < |first|
            else if ':' in rest then |first| < colon < |s|
            else colon == |s|
  {
    var s := first + [sep] + rest;
    assert forall k :: 0 <= k < |first| ==> s[k] == first[k];
    assert s[|first|] == sep && s[|first| + 1..] == rest;
    assert forall k :: |first| < k < |s| ==> s[k] == rest[k - |first| - 1];
    if ':' !in first && ':' in rest {
      var k :| 0 <= k < |rest| && rest[k] == ':';
      assert s[|first| + 1 + k] == ':';
    }
  }

  lemma DriveColon(segments: seq<string>)
    requires segments != [] && ':' in segments[0]
    ensures GoodDrive(segments) <==> 0 < FindFirst(segments[0], ':') == |segments[0]| - 1
  {
    var first, c := segments[0], FindFirst(segments[0], ':');
    if c < |first| - 1 { assert first[..|first| - 1][c] == ':'; }
  }

  /** A DOS text is read back exactly when its colons are where a drive has them. */
  lemma RoundTripDos(p: ServerPath)
    requires IsDos(p.kind) && p.data.Some? && p.data.value.prefix.None? && p.data.value.segments != []
    requires GoodSegments(p.kind, p.data.value.segments)
    ensures Parsed(p.kind, PathText(p)) == p <==> GoodDrive(p.data.value.segments)
  {
    var segments := p.data.value.segments;
    var first := segments[0];
    var rest := DosText(p);
    DosColon(first, Sep(p.kind), rest);
    if ':' in first {
      DriveColon(segments);
    } else {
      assert GoodDrive(segments) <==> ':' !in rest;
    }
  }

  // ---------- main results ----------

  predicate RoundTrips(p: ServerPath) {
    Parsed(p.kind, PathText(p)) == p
  }

  lemma WellFormedRoundTrips(p: ServerPath)
    requires p.data.Some? && WellFormed(p)
    ensures RoundTrips(p)
  {
    match p.kind
    case VMS => RoundTripVms(p);
    case MVS => RoundTripMvs(p);
    case VXWORKS => RoundTripVxworks(p);
    case CYGWIN => RoundTripCygwin(p);
    case HPNONSTOP => RoundTripHpNonstop(p);
    case DOS => RoundTripDos(p);
    case DOS_FWD_SLASHES => RoundTripDos(p);
    case UNIX => RoundTripPlain(p);
    case ZVM => RoundTripPlain(p);
    case DOS_VIRTUAL => RoundTripPlain(p);
  }

  /** Whatever text is parsed, the resulting path is well-formed, except that on DOS the
      segment .. can remove the drive. */
  lemma ParsedGood(t: ServerType, s: string)
    requires !IsDos(t)
    ensures WellFormed(Parsed(t, s))
  {
    match t
    case VMS => ParsedVmsGood(s);
    case MVS => ParsedMvsGood(s);
    case VXWORKS => ParsedVxworksGood(s);
    case _ => ParsedRestGood(t, s);
  }

  /** Printing and parsing again gives the path back exactly for the well-formed paths. */
  lemma TextRoundTrip(p: ServerPath)
    ensures RoundTrips(p) <==> WellFormed(p)
  {
    if p.data.Some? {
      if WellFormed(p) {
        WellFormedRoundTrips(p);
      } else if RoundTrips(p) {
        if IsDos(p.kind) {
          ParsedDosGood(p.kind, PathText(p));
          RoundTripDos(p);
        } else {
          ParsedGood(p.kind, PathText(p));
        }
      }
    }
  }

  lemma {:induction false} NothingEscaped(s: string, sep: char, esc: char)
    requires sep !in s
    ensures EscapeSeparator(s, sep, esc) == s
  {
    if s != "" {
      NothingEscaped(s[1..], sep, esc);
      assert [s[0]] + s[1..] == s;
    }
  }

  lemma JoinTwo(t: ServerType, a: string, b: string)
    requires t == VMS ==> '.' !in a && '.' !in b
    ensures Join(t, [a, b]) == a + [Sep(t)] + b && Join(t, [a]) == a && Join(t, []) == ""
  {
    if t == VMS {
      NothingEscaped(a, '.', '^');
      NothingEscaped(b, '.', '^');
    }
    assert [a, b][1..] == [b];
  }

  /** The printed text of a path, with or without a prefix. */
  function Printed(t: ServerType, prefix: Option<string>, segments: seq<string>): string {
    PathText(ServerPath(t, Some(PathData(segments, prefix))))
  }

  lemma SlashesLookLike(t: ServerType, a: string, b: string)
    requires t in {UNIX, VXWORKS, ZVM, CYGWIN}
    ensures Printed(t, None, []) == "/" && Printed(t, None, [a, b]) == "/" + a + "/" + b
  {
    JoinTwo(t, a, b);
    assert "" + "" + "/" == "/" && "/" + "" + "" == "/";
  }

  lemma DosLooksLike(a: string, b: string)
    ensures Printed(DOS, None, [a]) == a + "\\" && Printed(DOS, None, [a, b]) == a + "\\" + b
  {
    JoinTwo(DOS, a, b);
  }

  lemma DosFwdLooksLike(a: string, b: string)
    ensures Printed(DOS_FWD_SLASHES, None, [a]) == a + "/" && Printed(DOS_FWD_SLASHES, None, [a, b]) == a + "/" + b
  {
    JoinTwo(DOS_FWD_SLASHES, a, b);
  }

  lemma DosVirtualLooksLike(a: string, b: string)
    ensures Printed(DOS_VIRTUAL, None, []) == "\\" && Printed(DOS_VIRTUAL, None, [a, b]) == "\\" + a + "\\" + b
  {
    JoinTwo(DOS_VIRTUAL, a, b);
  }

  lemma DotsLookLike(a: string, b: string)
    ensures Printed(MVS, None, [a, b]) == "'" + a + "." + b + "'"
    ensures Printed(HPNONSTOP, None, [a, b]) == a + "." + b
  {
    JoinTwo(MVS, a, b);
    JoinTwo(HPNONSTOP, a, b);
  }

  lemma MvsPrefixLooksLike(a: string, b: string)
    ensures Printed(MVS, Some("."), [a, b]) == "'" + a + "." + b + ".'"
  {
    JoinTwo(MVS, a, b);
    assert "." + "'" + "" == ".'";
  }

  lemma VmsLooksLike(p: string, a: string, b: string)
    requires '.' !in a && '.' !in b
    ensures Printed(VMS, Some(p), [a, b]) == p + "[" + a + "." + b + "]"
  {
    JoinTwo(VMS, a, b);
  }

  lemma VxworksLooksLike(p: string, a: string, b: string)
    ensures Printed(VXWORKS, Some(p), [a, b]) == p + a + "/" + b
  {
    JoinTwo(VXWORKS, a, b);
  }

  lemma CygwinLooksLike(p: string, a: string, b: string)
    ensures Printed(CYGWIN, Some(p), [a, b]) == p + "/" + a + "/" + b
  {
    JoinTwo(CYGWIN, a, b);
  }

  /** What paths look like in each syntax, from segments that need no escaping: without a prefix, and with
      a disk on VMS, a device on VxWorks or a host on Cygwin. */
  lemma PathsLookLike(p: string, a: string, b: string)
    requires '.' !in a && '.' !in b
    ensures forall t :: t in {UNIX, VXWORKS, ZVM, CYGWIN} ==>
              Printed(t, None, []) == "/" && Printed(t, None, [a, b]) == "/" + a + "/" + b
    ensures Printed(DOS, None, [a]) == a + "\\" && Printed(DOS, None, [a, b]) == a + "\\" + b
    ensures Printed(DOS_FWD_SLASHES, None, [a]) == a + "/" && Printed(DOS_FWD_SLASHES, None, [a, b]) == a + "/" + b
    ensures Printed(DOS_VIRTUAL, None, []) == "\\" && Printed(DOS_VIRTUAL, None, [a, b]) == "\\" + a + "\\" + b
    ensures Printed(MVS, None, [a, b]) == "'" + a + "." + b + "'"
    ensures Printed(MVS, Some("."), [a, b]) == "'" + a + "." + b + ".'"
    ensures Printed(HPNONSTOP, None, [a, b]) == a + "." + b
    ensures Printed(VMS, Some(p), [a, b]) == p + "[" + a + "." + b + "]"
    ensures Printed(VXWORKS, Some(p), [a, b]) == p + a + "/" + b
    ensures Printed(CYGWIN, Some(p), [a, b]) == p + "/" + a + "/" + b
  {
    forall t | t in {UNIX, VXWORKS, ZVM, CYGWIN}
      ensures Printed(t, None, []) == "/" && Printed(t, None, [a, b]) == "/" + a + "/" + b
    {
      SlashesLookLike(t, a, b);
    }
    DosLooksLike(a, b);
    DosFwdLooksLike(a, b);
    DosVirtualLooksLike(a, b);
    DotsLookLike(a, b);
    MvsPrefixLooksLike(a, b);
    VmsLooksLike(p, a, b);
    VxworksLooksLike(p, a, b);
    CygwinLooksLike(p, a, b);
  }
}
