/** Changing a server path by a text: what a name, a dot, and absolute and relative texts lead to. */
module ServerPathRelative {
  import opened Text
  import opened ServerPaths
  import opened ServerPathText

  /** A segment whose printed form stands for nothing but itself in a change of directory. */
  predicate PlainName(t: ServerType, name: string) {
    && GoodSegment(t, name)
    && match t
       case VMS => '[' !in name && ']' !in name
       case DOS => ':' !in name
       case DOS_FWD_SLASHES => ':' !in name
       case MVS =>
         && '.' !in name && name[0] != '\'' && Last(name) != '\'' && Last(name) != ')'
         && name[0] != MVS_QUOTE && Last(name) != MVS_QUOTE
       case VXWORKS => name[0] != ':'
       case HPNONSTOP => name[0] != '\\'
       case _ => true
  }

  // ---------- one segment ----------

  lemma SegmentizeOne(t: ServerType, name: string, segments: seq<string>)
    requires t != VMS && GoodSegment(t, name)
    ensures Segmentize(t, name, segments) == Some(segments + [name])
  {
    PieceWhole(t, name);
    AddAllPlain(t, [name], segments);
  }

  lemma SegmentizeOneVms(name: string, segments: seq<string>)
    requires GoodSegment(VMS, name)
    ensures Segmentize(VMS, Shown(VMS, name), segments) == Some(segments + [name])
  {
    AddAllEscaped(name, segments, false);
  }

  lemma {:induction false} EscapeHasNo(name: string, c: char)
    requires c !in name && c != '^' && c != '.'
    ensures c !in EscapeSeparator(name, '.', '^')
  {
    if name != "" { EscapeHasNo(name[1..], c); }
  }

  lemma FindNone(s: string, c: char)
    requires c !in s
    ensures FindFirst(s, c) == |s| && FindLast(s, c) == |s|
  {
    assert forall i :: 0 <= i < |s| ==> s[i] in s;
  }

  lemma NameVms(p: ServerPath, name: string)
    requires p.kind == VMS && p.data.Some? && PlainName(VMS, name)
    ensures Changed(p, Shown(VMS, name)) == Some(p.data.value.(segments := p.data.value.segments + [name]))
  {
    var dir := Shown(VMS, name);
    EscapeHasNo(name, '[');
    EscapeHasNo(name, ']');
    FindNone(dir, '[');
    FindNone(dir, ']');
    SegmentizeOneVms(name, p.data.value.segments);
  }

  lemma NameDos(p: ServerPath, name: string)
    requires IsDos(p.kind) && p.data.Some? && PlainName(p.kind, name)
    ensures Changed(p, name) == Some(p.data.value.(segments := p.data.value.segments + [name]))
  {
    FindNone(name, ':');
    SegmentizeOne(p.kind, name, p.data.value.segments);
  }

  lemma NameMvs(p: ServerPath, name: string)
    requires p.kind == MVS && p.data.Some? && PlainName(MVS, name)
    ensures Changed(p, name) == if p.data.value.prefix.None? then None
                                else Some(PathData(p.data.value.segments + [name], None))
  {
    assert StripFront(name) == name && StripBack(name) == name;
    assert Last(name) != '.' by { assert Last(name) in name; }
    SegmentizeOne(MVS, name, p.data.value.segments);
  }

  /** Changing by a name appends exactly that segment and keeps the prefix; on MVS the prefix, which
      says that more may follow, goes, and without it nothing can follow. */
  lemma NameAppends(p: ServerPath, name: string)
    requires p.data.Some? && PlainName(p.kind, name)
    ensures var d := p.data.value;
            Changed(p, Shown(p.kind, name))
            == if p.kind != MVS then Some(PathData(d.segments + [name], d.prefix))
               else if d.prefix.Some? then Some(PathData(d.segments + [name], None)) else None
    ensures p.kind != MVS ==> ServerPath(p.kind, Changed(p, Shown(p.kind, name))) == p.Child(name)
  {
    match p.kind
    case VMS => NameVms(p, name);
    case MVS => NameMvs(p, name);
    case DOS => NameDos(p, name);
    case DOS_FWD_SLASHES => NameDos(p, name);
    case _ => SegmentizeOne(p.kind, name, p.data.value.segments);
  }

  // ---------- dots ----------

  lemma SegmentizeDots(t: ServerType, segments: seq<string>)
    requires TraitsOf(t).hasDots
    ensures Segmentize(t, ".", segments) == Some(segments)
    ensures Segmentize(t, "..", segments) == Some(if segments == [] then [] else segments[..|segments| - 1])
  {
    PieceWhole(t, ".");
    PieceWhole(t, "..");
    assert ["."][1..] == [] && [".."][1..] == [];
  }

  /** A text that no syntax with dots takes for absolute is added to the segments. */
  lemma DotsAdd(p: ServerPath, dots: string)
    requires TraitsOf(p.kind).hasDots && p.data.Some? && (dots == "." || dots == "..")
    ensures var r := Segmentize(p.kind, dots, p.data.value.segments);
            Changed(p, dots) == if r.None? || (r.value == [] && !TraitsOf(p.kind).hasRoot) then None
                                else Some(p.data.value.(segments := r.value))
  {
    FindNone(dots, ':');
  }

  /** A dot changes nothing; two dots lead to the parent, or nowhere from the top. */
  lemma DotsLeadUp(p: ServerPath)
    requires TraitsOf(p.kind).hasDots && p.data.Some? && WellFormed(p)
    ensures Changed(p, ".") == p.data
    ensures ServerPath(p.kind, Changed(p, "..")) == if p.HasParent() || !TraitsOf(p.kind).hasRoot then p.Parent() else p
  {
    SegmentizeDots(p.kind, p.data.value.segments);
    DotsAdd(p, ".");
    DotsAdd(p, "..");
  }

  // ---------- longer texts ----------

  /** The text is an absolute path of its own. */
  predicate Absolute(t: ServerType, dir: string)
    requires dir != ""
  {
    match t
    case VMS => '[' in dir
    case MVS => StripBack(StripFront(dir)) != "" && StripBack(StripFront(dir))[0] == '\''
    case DOS => FindFirst(dir, ':') < |dir| && FindFirst(dir, ':') + 1 == FindSeparator(t, dir)
    case DOS_FWD_SLASHES => FindFirst(dir, ':') < |dir| && FindFirst(dir, ':') + 1 == FindSeparator(t, dir)
    case VXWORKS => dir[0] == ':'
    case HPNONSTOP => dir[0] == '\\'
    case _ => IsSeparator(t, dir[0])
  }

  /** On MVS, a path to which nothing can be appended is never left again. */
  lemma MvsSticks(p: ServerPath, dir: string)
    requires p.kind == MVS && p.data.Some? && p.data.value.prefix.None? && dir != ""
    ensures Changed(p, dir) == None
  {
  }

  /** An absolute text replaces the path; only the device of a VMS path stays unless another is named. */
  lemma AbsoluteReplaces(p: ServerPath, dir: string)
    requires p.data.Some? && WellFormed(p) && dir != "" && Absolute(p.kind, dir)
    requires p.kind == MVS ==> p.data.value.prefix.Some?
    ensures var r := Parsed(p.kind, dir).data;
            Changed(p, dir) == if r.Some? && p.kind == VMS && FindFirst(dir, '[') == 0
                               then Some(r.value.(prefix := p.data.value.prefix)) else r
  {
  }

  lemma SegmentizeBehind(t: ServerType, xs: seq<string>, sep: char, dir: string)
    requires t != VMS && GoodSegments(t, xs) && IsSeparator(t, sep)
    ensures Segmentize(t, Join(t, xs) + [sep] + dir, []) == Segmentize(t, dir, xs)
  {
    JoinedPieces(t, xs);
    PiecesConcat(t, "", Join(t, xs), sep, dir);
    AddAllPlain(t, xs, []);
    AddAllConcat(t, xs, Pieces(t, "", dir), [], false);
    assert [] + xs == xs;
  }

  lemma SegmentizeFrom(t: ServerType, sep: char, text: string, xs: seq<string>)
    requires IsSeparator(t, sep)
    ensures Segmentize(t, [sep] + text, xs) == Segmentize(t, text, xs)
  {
    assert ([sep] + text)[1..] == text;
    assert [] + Pieces(t, "", text) == Pieces(t, "", text);
  }

  /** A text that starts with a separator, then has the segments, then more. */
  lemma SegmentizeWithin(t: ServerType, xs: seq<string>, dir: string)
    requires t != VMS && GoodSegments(t, xs)
    ensures Segmentize(t, [Sep(t)] + (Join(t, xs) + [Sep(t)] + dir), []) == Segmentize(t, dir, xs)
  {
    SegmentizeFrom(t, Sep(t), Join(t, xs) + [Sep(t)] + dir, []);
    SegmentizeBehind(t, xs, Sep(t), dir);
  }

  lemma Regrouped(a: string, sep: string, b: string, c: string)
    ensures a + b + sep + c == a + (b + sep + c)
  {}

  /** The printed path, a separator and the text. */
  function Continued(p: ServerPath, dir: string): string {
    PathText(p) + [Sep(p.kind)] + dir
  }

  lemma PlainContinued(p: ServerPath, dir: string)
    requires p.kind in {UNIX, ZVM, DOS_VIRTUAL} && p.data.Some? && WellFormed(p)
    ensures Continued(p, dir) == [Sep(p.kind)] + (Join(p.kind, p.data.value.segments) + [Sep(p.kind)] + dir)
  {
    var t, xs := p.kind, p.data.value.segments;
    assert PathText(p) == [Sep(t)] + Join(t, xs);
    Regrouped([Sep(t)], [Sep(t)], Join(t, xs), dir);
  }

  lemma PlainParses(t: ServerType, rest: string)
    requires t in {UNIX, ZVM, DOS_VIRTUAL}
    ensures Parsed(t, [Sep(t)] + rest).data == match Segmentize(t, [Sep(t)] + rest, [])
                                               case None => None
                                               case Some(xs) => Some(PathData(xs, None))
  {
  }

  lemma WalksOnPlain(p: ServerPath, dir: string)
    requires p.kind in {UNIX, ZVM, DOS_VIRTUAL} && p.data.Some? && WellFormed(p)
    requires dir != "" && !Absolute(p.kind, dir)
    ensures ServerPath(p.kind, Changed(p, dir)) == Parsed(p.kind, Continued(p, dir))
  {
    PlainContinued(p, dir);
    PlainParses(p.kind, Join(p.kind, p.data.value.segments) + [Sep(p.kind)] + dir);
    SegmentizeWithin(p.kind, p.data.value.segments, dir);
  }

  lemma WalksOnVxworks(p: ServerPath, dir: string)
    requires p.kind == VXWORKS && p.data.Some? && WellFormed(p) && dir != "" && !Absolute(p.kind, dir)
    ensures ServerPath(p.kind, Changed(p, dir)) == Parsed(p.kind, Continued(p, dir))
  {
    var d := p.data.value;
    var body := Join(VXWORKS, d.segments) + [Sep(VXWORKS)] + dir;
    assert PathText(p) + [Sep(VXWORKS)] + dir == d.prefix.value + body;
    VxworksPrefixAt(d.prefix.value, body);
    SegmentizeBehind(VXWORKS, d.segments, Sep(VXWORKS), dir);
  }

  lemma WalksOnHpNonstop(p: ServerPath, dir: string)
    requires p.kind == HPNONSTOP && p.data.Some? && WellFormed(p) && dir != "" && !Absolute(p.kind, dir)
    ensures ServerPath(p.kind, Changed(p, dir)) == Parsed(p.kind, Continued(p, dir))
  {
    var d := p.data.value;
    assert PathText(p) == Join(HPNONSTOP, d.segments);
    SegmentizeBehind(HPNONSTOP, d.segments, Sep(HPNONSTOP), dir);
  }

  lemma CygwinParses(prefix: Option<string>, rest: string)
    requires prefix.Some? ==> prefix.value == "/"
    requires prefix.None? ==> rest != "" && rest[0] != '/'
    ensures var text := (if prefix.Some? then "/" else "") + (['/'] + rest);
            Parsed(CYGWIN, text).data == match Segmentize(CYGWIN, ['/'] + rest, [])
                                         case None => None
                                         case Some(xs) => Some(PathData(xs, prefix))
  {
    var text := (if prefix.Some? then "/" else "") + (['/'] + rest);
    if prefix.Some? {
      assert text[0] == '/' && text[1] == '/' && text[1..] == ['/'] + rest;
    } else {
      assert text == ['/'] + rest && (|text| > 1 ==> text[1] == rest[0]);
    }
  }

  lemma FrontOfAll(a: string, b: string, c: string, d: string, e: string)
    ensures a + (b + c) + d + e == a + (b + (c + d + e))
  {}

  lemma CygwinContinued(p: ServerPath, dir: string)
    requires p.kind == CYGWIN && p.data.Some? && WellFormed(p)
    ensures var d := p.data.value;
            Continued(p, dir)
            == (if d.prefix.Some? then "/" else "") + (['/'] + (Join(CYGWIN, d.segments) + [Sep(CYGWIN)] + dir))
  {
    var d := p.data.value;
    var front, joined := if d.prefix.Some? then "/" else "", Join(CYGWIN, d.segments);
    CygwinTextIs(p);
    assert PathText(p) == front + (['/'] + joined);
    FrontOfAll(front, ['/'], joined, ['/'], dir);
  }

  lemma WalksOnCygwin(p: ServerPath, dir: string)
    requires p.kind == CYGWIN && p.data.Some? && WellFormed(p) && dir != "" && !Absolute(p.kind, dir)
    requires p.data.value.segments != [] || p.data.value.prefix.Some?
    ensures ServerPath(p.kind, Changed(p, dir)) == Parsed(p.kind, Continued(p, dir))
  {
    var d := p.data.value;
    CygwinContinued(p, dir);
    if d.segments != [] { JoinFirst(CYGWIN, d.segments); }
    CygwinParses(d.prefix, Join(CYGWIN, d.segments) + [Sep(CYGWIN)] + dir);
    SegmentizeWithin(CYGWIN, d.segments, dir);
  }

  lemma SegmentizeBehindDos(p: ServerPath, dir: string)
    requires IsDos(p.kind) && p.data.Some? && WellFormed(p)
    ensures Segmentize(p.kind, PathText(p) + [Sep(p.kind)] + dir, []) == Segmentize(p.kind, dir, p.data.value.segments)
  {
    var t, xs := p.kind, p.data.value.segments;
    DosTextIs(p);
    SegmentizeFrom(t, Sep(t), dir, xs);
    SegmentizeBehind(t, xs, Sep(t), dir);
    SegmentizeBehind(t, xs, Sep(t), [Sep(t)] + dir);
    assert Join(t, xs) + [Sep(t)] + [Sep(t)] + dir == Join(t, xs) + [Sep(t)] + ([Sep(t)] + dir);
    assert Join(t, xs) + "" == Join(t, xs);
  }

  /** A DOS text whose colons, if any, are where a drive has them is segmented as a whole. */
  lemma DosParsesWhole(t: ServerType, first: string, rest: string)
    requires IsDos(t) && GoodSegment(t, first)
    requires if ':' in first then 0 < FindFirst(first, ':') == |first| - 1 else ':' !in rest
    ensures var text := first + [Sep(t)] + rest;
            Parsed(t, text).data == match Segmentize(t, text, [])
                                    case None => None
                                    case Some(xs) => if xs == [] then None else Some(PathData(xs, None))
  {
    DosFirst(t, first, rest);
    DosColon(first, Sep(t), rest);
  }

  lemma ChangedDosRelative(p: ServerPath, dir: string)
    requires IsDos(p.kind) && p.data.Some? && p.data.value.prefix.None?
    requires dir != "" && ':' !in dir && !IsSeparator(p.kind, dir[0])
    ensures Changed(p, dir) == match Segmentize(p.kind, dir, p.data.value.segments)
                               case None => None
                               case Some(xs) => if xs == [] then None else Some(PathData(xs, None))
  {
    FindNone(dir, ':');
  }

  lemma ColonsStay(p: ServerPath, rest: string)
    requires IsDos(p.kind) && p.data.Some? && WellFormed(p) && ':' !in rest
    ensures var first := p.data.value.segments[0];
            if ':' in first then 0 < FindFirst(first, ':') == |first| - 1
            else ':' !in Join(p.kind, p.data.value.segments[1..]) + [Sep(p.kind)] + rest
  {
    var xs := p.data.value.segments;
    if ':' in xs[0] {
      DriveColon(xs);
    } else {
      JoinHas(p.kind, xs[1..], ':');
    }
  }

  lemma DosContinuedParses(p: ServerPath, dir: string)
    requires IsDos(p.kind) && p.data.Some? && WellFormed(p) && ':' !in dir
    ensures Parsed(p.kind, Continued(p, dir)).data
         == match Segmentize(p.kind, Continued(p, dir), [])
            case None => None
            case Some(xs) => if xs == [] then None else Some(PathData(xs, None))
  {
    var t, xs := p.kind, p.data.value.segments;
    var rest := Join(t, xs[1..]) + [Sep(t)] + dir;
    DosTextIs(p);
    assert Continued(p, dir) == xs[0] + [Sep(t)] + rest;
    ColonsStay(p, dir);
    DosParsesWhole(t, xs[0], rest);
  }

  lemma WalksOnDos(p: ServerPath, dir: string)
    requires IsDos(p.kind) && p.data.Some? && WellFormed(p)
    requires dir != "" && ':' !in dir && !IsSeparator(p.kind, dir[0])
    ensures ServerPath(p.kind, Changed(p, dir)) == Parsed(p.kind, Continued(p, dir))
  {
    DosContinuedParses(p, dir);
    SegmentizeBehindDos(p, dir);
    ChangedDosRelative(p, dir);
  }

  /** The printed root of a CYGWIN path and a separator look like the start of a network path. */
  predicate LooksLikeNetwork(p: ServerPath) {
    p.kind == CYGWIN && p.data.Some? && p.data.value.segments == [] && p.data.value.prefix.None?
  }

  lemma CygwinRootDiffers(p: ServerPath, dir: string)
    requires LooksLikeNetwork(p) && dir != "" && !Absolute(p.kind, dir)
    ensures ServerPath(p.kind, Changed(p, dir)) != Parsed(p.kind, Continued(p, dir))
  {
    CygwinTextIs(p);
    var text := Continued(p, dir);
    assert text == ['/', '/'] + dir && text[0] == '/' && text[1] == '/';
    assert Changed(p, dir).Some? ==> Changed(p, dir).value.prefix.None?;
  }

  /** A relative change is what one gets by setting the printed path, a separator and the text,
      exactly unless the path is the root on CYGWIN. */
  lemma RelativeWalksOn(p: ServerPath, dir: string)
    requires p.kind != VMS && p.kind != MVS && p.data.Some? && WellFormed(p) && dir != ""
    requires if IsDos(p.kind) then ':' !in dir && !IsSeparator(p.kind, dir[0]) else !Absolute(p.kind, dir)
    ensures ServerPath(p.kind, Changed(p, dir)) == Parsed(p.kind, Continued(p, dir)) <==> !LooksLikeNetwork(p)
  {
    match p.kind
    case VXWORKS => WalksOnVxworks(p, dir);
    case HPNONSTOP => WalksOnHpNonstop(p, dir);
    case CYGWIN => if LooksLikeNetwork(p) { CygwinRootDiffers(p, dir); } else { WalksOnCygwin(p, dir); }
    case DOS => WalksOnDos(p, dir);
    case DOS_FWD_SLASHES => WalksOnDos(p, dir);
    case _ => WalksOnPlain(p, dir);
  }

  // ---------- drives, and brackets ----------

  /** A drive as it is typed: a name and a colon. */
  predicate IsDrive(t: ServerType, s: string) {
    |s| >= 2 && s[|s| - 1] == ':' && ':' !in s[..|s| - 1] && forall i :: 0 <= i < |s| ==> !IsSeparator(t, s[i])
  }

  lemma DriveIsAt(t: ServerType, drive: string, dir: string)
    requires IsDrive(t, drive)
    ensures FindFirst(drive + dir, ':') == |drive| - 1
    ensures FindSeparator(t, drive + dir) == |drive| + FindSeparator(t, dir)
  {
    var s, at := drive + dir, |drive| + FindSeparator(t, dir);
    assert s[|drive| - 1] == ':';
    assert forall k :: 0 <= k < |drive| - 1 ==> s[k] == drive[..|drive| - 1][k];
    assert forall k :: |drive| <= k < at ==> s[k] == dir[k - |drive|];
    assert at < |s| ==> s[at] == dir[at - |drive|];
  }

  /** A text that begins with a drive: relative to the path if the drive is the path's and no separator
      follows, refused if it is another one, and a new path if it ends there or a separator follows. */
  lemma DriveDecides(p: ServerPath, drive: string, dir: string)
    requires IsDos(p.kind) && p.data.Some? && IsDrive(p.kind, drive) && ':' !in dir
    ensures dir != "" && !IsSeparator(p.kind, dir[0]) ==>
              Changed(p, drive + dir)
              == if p.data.value.segments != [] && p.data.value.segments[0] == drive then Changed(p, dir) else None
    ensures p.data.value.prefix.None? && (dir == "" || IsSeparator(p.kind, dir[0])) ==>
              ServerPath(p.kind, Changed(p, drive + dir)) == Parsed(p.kind, drive + dir)
  {
    DriveIsAt(p.kind, drive, dir);
    FindNone(dir, ':');
    assert (drive + dir)[..|drive|] == drive && (drive + dir)[|drive|..] == dir;
    assert (drive + dir)[0] == drive[0];
  }

  lemma PiecesAfterSeparator(t: ServerType, first: string, dir: string)
    requires first != "" && dir != "" && IsSeparator(t, dir[0])
    requires forall i :: 0 <= i < |first| ==> !IsSeparator(t, first[i])
    ensures Pieces(t, "", first + dir) == [first] + Pieces(t, "", dir[1..])
  {
    PiecesBegun(t, "", first, dir);
    assert "" + first == first;
  }

  lemma {:induction false} PiecesBegun(t: ServerType, cur: string, first: string, dir: string)
    requires dir != "" && IsSeparator(t, dir[0]) && cur + first != ""
    requires forall i :: 0 <= i < |first| ==> !IsSeparator(t, first[i])
    ensures Pieces(t, cur, first + dir) == [cur + first] + Pieces(t, "", dir[1..])
    decreases |first|
  {
    if first == "" {
      assert first + dir == dir && cur + first == cur;
    } else {
      assert (first + dir)[1..] == first[1..] + dir;
      assert cur + first == (cur + [first[0]]) + first[1..];
      PiecesBegun(t, cur + [first[0]], first[1..], dir);
    }
  }

  /** A separator in front leads to the top of the drive the path is on. */
  lemma SeparatorKeepsDrive(p: ServerPath, dir: string)
    requires IsDos(p.kind) && p.data.Some? && WellFormed(p)
    requires dir != "" && IsSeparator(p.kind, dir[0]) && ':' !in dir
    ensures ServerPath(p.kind, Changed(p, dir)) == Parsed(p.kind, p.data.value.segments[0] + dir)
  {
    var t, first := p.kind, p.data.value.segments[0];
    assert GoodSegment(t, first);
    PiecesAfterSeparator(t, first, dir);
    assert [] + [first] == [first];
    assert AddSegment(t, first, [], false) == ([first], false);
    assert ([first] + Pieces(t, "", dir[1..]))[1..] == Pieces(t, "", dir[1..]);
    assert Segmentize(t, first + dir, []) == Segmentize(t, dir[1..], [first]);
    FindNone(dir, ':');
    if ':' in first {
      DriveIsAt(t, first, dir);
    } else {
      FindNone(first + dir, ':');
    }
    assert (first + dir)[0] == first[0];
  }

  /** On VMS a closing bracket needs an opening one, and with an opening one it is the last character. */
  lemma BracketsMatch(p: ServerPath, dir: string)
    requires p.kind == VMS && dir != ""
    ensures '[' !in dir && ']' in dir ==> Changed(p, dir) == None
    ensures '[' in dir && dir[|dir| - 1] != ']' ==> Changed(p, dir) == None
  {
  }

  lemma {:induction false} StripFrontAppend(s: string, c: char)
    ensures StripFront(s + [c]) == if StripFront(s) != "" then StripFront(s) + [c] else StripFront([c])
  {
    if s == "" {
      assert s + [c] == [c];
    } else {
      assert (s + [c])[1..] == s[1..] + [c];
      StripFrontAppend(s[1..], c);
    }
  }

  /** On MVS, characters number 220 at either end are ignored. */
  lemma UmlautsAreIgnored(p: ServerPath, dir: string)
    requires p.kind == MVS && dir != ""
    ensures Changed(p, "\U{00DC}" + dir) == Changed(p, dir) == Changed(p, dir + "\U{00DC}")
  {
    var c := '\U{00DC}';
    assert ([c] + dir)[1..] == dir;
    StripFrontAppend(dir, c);
    assert [c][1..] == "";
    assert (StripFront(dir) + [c])[..|StripFront(dir) + [c]| - 1] == StripFront(dir);
  }
}
