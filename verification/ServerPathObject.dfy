/** The path object: fields changed in place by loops, proved against the functions on values. */
module ServerPathObject {
  import opened Text
  import opened ServerPaths
  import opened ServerPathText

  lemma JoinUnfold(t: ServerType, xs: seq<string>)
    requires |xs| > 1
    ensures Join(t, xs) == Shown(t, xs[0]) + [Sep(t)] + Join(t, xs[1..])
  {
  }

  lemma {:induction false} JoinAppend(t: ServerType, xs: seq<string>, x: string)
    requires xs != []
    ensures Join(t, xs + [x]) == Join(t, xs) + ([Sep(t)] + Shown(t, x))
    decreases |xs|
  {
    var head, last := Shown(t, xs[0]) + [Sep(t)], [Sep(t)] + Shown(t, x);
    assert (xs + [x])[0] == xs[0] && (xs + [x])[1..] == xs[1..] + [x];
    JoinUnfold(t, xs + [x]);
    if |xs| > 1 {
      JoinUnfold(t, xs);
      JoinAppend(t, xs[1..], x);
      Regroup(head, Join(t, xs[1..]), last);
    } else {
      assert xs[1..] + [x] == [x];
      Regroup(Shown(t, xs[0]), [Sep(t)], Shown(t, x));
    }
  }

  lemma JoinSnoc(t: ServerType, xs: seq<string>, i: nat)
    requires i < |xs|
    ensures Join(t, xs[..i + 1]) == (if i == 0 then "" else Join(t, xs[..i]) + [Sep(t)]) + Shown(t, xs[i])
  {
    if i > 0 {
      assert xs[..i + 1] == xs[..i] + [xs[i]];
      JoinAppend(t, xs[..i], xs[i]);
      Regroup(Join(t, xs[..i]), [Sep(t)], Shown(t, xs[i]));
    } else {
      assert xs[..i + 1] == [xs[0]];
    }
  }

  /** Position of the first separator of str at or after start. */
  method FindSeparatorFrom(t: ServerType, str: string, start: nat) returns (pos: nat)
    requires start <= |str|
    ensures start <= pos <= |str| && NoSeparator(t, str[start..pos])
    ensures pos < |str| ==> IsSeparator(t, str[pos])
  {
    pos := start;
    while pos < |str| && !IsSeparator(t, str[pos])
      invariant start <= pos <= |str| && NoSeparator(t, str[start..pos])
    {
      assert str[start..pos + 1] == str[start..pos] + [str[pos]];
      pos := pos + 1;
    }
  }

  lemma JoinedBehind(t: ServerType, head: string, segments: seq<string>, i: nat)
    requires i < |segments|
    ensures head + Join(t, segments[..i + 1])
         == if i == 0 then head + Shown(t, segments[0])
            else head + Join(t, segments[..i]) + [Sep(t)] + Shown(t, segments[i])
  {
    JoinSnoc(t, segments, i);
    if i > 0 {
      Regroup(head, Join(t, segments[..i]), [Sep(t)]);
      Regroup(head, Join(t, segments[..i]) + [Sep(t)], Shown(t, segments[i]));
    }
  }

  /** The piece in front of a separator is added first. */
  lemma PieceNext(t: ServerType, str: string, start: nat, pos: nat, segments: seq<string>, append: bool)
    requires start <= pos < |str| && IsSeparator(t, str[pos]) && NoSeparator(t, str[start..pos])
    requires append ==> t == VMS && segments != []
    ensures var rest := Pieces(t, "", str[pos + 1..]);
            var r := AddSegment(t, str[start..pos], segments, append);
            AddAll(t, Pieces(t, "", str[start..]), segments, append)
            == (if pos == start then AddAll(t, rest, segments, append) else AddAll(t, rest, r.0, r.1))
  {
    var piece, rest := str[start..pos], str[pos + 1..];
    assert str[start..] == piece + [str[pos]] + rest;
    PiecesConcat(t, "", piece, str[pos], rest);
    if pos == start {
      assert piece == "" && [] + Pieces(t, "", rest) == Pieces(t, "", rest);
    } else {
      PieceWhole(t, piece);
      assert ([piece] + Pieces(t, "", rest))[1..] == Pieces(t, "", rest);
    }
  }

  lemma PieceLast(t: ServerType, str: string, segments: seq<string>, append: bool)
    requires NoSeparator(t, str) && (append ==> t == VMS && segments != [])
    ensures AddAll(t, Pieces(t, "", str), segments, append)
         == if str == "" then (segments, append) else AddSegment(t, str, segments, append)
  {
    if str != "" {
      PieceWhole(t, str);
      assert [str][1..] == [];
    }
  }

  /** Segmentize: cuts str at its separators and adds the pieces to segments. */
  method SegmentizeInto(t: ServerType, str: string, segments: seq<string>) returns (ok: bool, out: seq<string>)
    ensures ok == Segmentize(t, str, segments).Some?
    ensures ok ==> out == Segmentize(t, str, segments).value
  {
    out := segments;
    var append, start := false, 0;
    ghost var goal := AddAll(t, Pieces(t, "", str), segments, false);
    assert str[0..] == str;
    while true
      invariant start <= |str|
      invariant append ==> t == VMS && out != []
      invariant AddAll(t, Pieces(t, "", str[start..]), out, append) == goal
      decreases |str| - start
    {
      var pos := FindSeparatorFrom(t, str, start);
      if pos == |str| {
        assert str[start..pos] == str[start..];
        break;
      }
      PieceNext(t, str, start, pos, out, append);
      if pos == start {
        start := start + 1;
        continue;
      }
      var r := AddSegment(t, str[start..pos], out, append);
      start, out, append := pos + 1, r.0, r.1;
    }
    PieceLast(t, str[start..], out, append);
    if start < |str| {
      var r := AddSegment(t, str[start..], out, append);
      out, append := r.0, r.1;
    }
    ok := !append;
  }

  /** What is left to segmentize, and the data to which the segments are added. */
  datatype Start = Refused | Go(dir: string, d: PathData)

  ghost function Finish(t: ServerType, s: Start): Option<PathData> {
    match s case Refused => None case Go(dir, d) => WithSegments(t, dir, d)
  }

  method StartVms(d: PathData, subdir: string) returns (s: Start)
    ensures Finish(VMS, s) == ChangeVms(d, subdir)
  {
    var pos1, pos2 := FindFirst(subdir, '['), FindLast(subdir, ']');
    if pos1 == |subdir| {
      if pos2 < |subdir| { return Refused; }
      return Go(subdir, d);
    }
    if pos2 == |subdir| || pos2 <= pos1 + 1 || pos2 != |subdir| - 1 { return Refused; }
    var prefix := d.prefix;
    if pos1 > 0 { prefix := Some(subdir[..pos1]); }
    return Go(subdir[pos1 + 1..pos2], PathData([], prefix));
  }

  method StartDos(t: ServerType, d: PathData, subdir: string) returns (s: Start)
    requires IsDos(t) && subdir != ""
    ensures Finish(t, s) == ChangeDos(t, d, subdir)
  {
    var dir, segments := subdir, d.segments;
    var sep, colon := FindSeparator(t, dir), FindFirst(dir, ':');
    if colon == 0 || (colon < |dir| && colon > sep) { return Refused; }
    var absolute := colon < |dir| && colon + 1 == sep;
    if colon < |dir| && colon + 1 < sep {
      if segments == [] || segments[0] != dir[..colon + 1] { return Refused; }
      dir := dir[colon + 1..];
    }
    if absolute {
      segments := [];
    } else if IsSeparator(t, dir[0]) {
      if segments == [] { return Refused; }
      segments := [segments[0]];
      dir := dir[1..];
    }
    return Go(dir, d.(segments := segments));
  }

  method StartMvs(d: PathData, wasEmpty: bool, subdir: string) returns (s: Start)
    ensures Finish(MVS, s) == ChangeMvs(d, wasEmpty, subdir)
  {
    var dir, segments := subdir, d.segments;
    while dir != "" && dir[0] == MVS_QUOTE
      invariant StripFront(dir) == StripFront(subdir)
      decreases |dir|
    {
      dir := dir[1..];
    }
    while dir != "" && dir[|dir| - 1] == MVS_QUOTE
      invariant StripBack(dir) == StripBack(StripFront(subdir))
      decreases |dir|
    {
      dir := dir[..|dir| - 1];
    }
    if dir == "" { return Refused; }
    if dir[0] == '\'' {
      if dir[|dir| - 1] != '\'' { return Refused; }
      dir := if |dir| == 1 then "" else dir[1..|dir| - 1];
      segments := [];
    } else if dir[|dir| - 1] == '\'' || wasEmpty {
      return Refused;
    }
    if dir != "" && dir[|dir| - 1] == ')' { return Refused; }
    if !wasEmpty && d.prefix.None? { return Refused; }
    return Go(dir, PathData(segments, if dir != "" && dir[|dir| - 1] == '.' then Some(".") else None));
  }

  method StartVxworks(d: PathData, wasEmpty: bool, subdir: string) returns (s: Start)
    requires subdir != ""
    ensures Finish(VXWORKS, s) == ChangeVxworks(d, wasEmpty, subdir)
  {
    if subdir[0] != ':' {
      if wasEmpty { return Refused; }
      return Go(subdir, d);
    }
    var colon2 := 1 + FindFirst(subdir[1..], ':');
    if colon2 == |subdir| || colon2 == 1 { return Refused; }
    return Go(subdir[colon2 + 1..], PathData([], Some(subdir[..colon2 + 1])));
  }

  method StartCygwin(d: PathData, wasEmpty: bool, subdir: string) returns (s: Start)
    requires subdir != ""
    ensures Finish(CYGWIN, s) == ChangeCygwin(d, wasEmpty, subdir)
  {
    var dir, segments, prefix := subdir, d.segments, d.prefix;
    if IsSeparator(CYGWIN, dir[0]) {
      segments, prefix := [], None;
    } else if wasEmpty {
      return Refused;
    }
    if dir[0] == '/' && |dir| > 1 && dir[1] == '/' {
      prefix := Some("/");
      dir := dir[1..];
    }
    return Go(dir, PathData(segments, prefix));
  }

  method StartPlain(t: ServerType, d: PathData, wasEmpty: bool, subdir: string) returns (s: Start)
    requires subdir != ""
    ensures Finish(t, s) == ChangePlain(t, d, wasEmpty, subdir)
  {
    if IsSeparator(t, subdir[0]) { return Go(subdir, d.(segments := [])); }
    if wasEmpty { return Refused; }
    return Go(subdir, d);
  }

  class PathObject {
    const kind: ServerType
    var data: Option<PathData>

    function Value(): ServerPath
      reads this
    {
      ServerPath(kind, data)
    }

    constructor (t: ServerType)
      ensures Value() == ServerPath(t, None)
    {
      kind := t;
      data := None;
    }

    /** ChangePath for a directory: on failure the object is left empty. */
    method ChangePath(subdir: string) returns (ok: bool)
      modifies this
      ensures Value() == ServerPath(kind, Changed(old(Value()), subdir))
      ensures ok == Changed(old(Value()), subdir).Some?
    {
      if subdir == "" { return data.Some?; }
      var wasEmpty := data.None?;
      var d := if wasEmpty then PathData([], None) else data.value;
      data := None;
      var start: Start;
      match kind {
        case VMS => start := StartVms(d, subdir);
        case DOS => start := StartDos(DOS, d, subdir);
        case DOS_FWD_SLASHES => start := StartDos(DOS_FWD_SLASHES, d, subdir);
        case MVS => start := StartMvs(d, wasEmpty, subdir);
        case HPNONSTOP => start := Go(subdir, if subdir[0] == '\\' then d.(segments := []) else d);
        case VXWORKS => start := StartVxworks(d, wasEmpty, subdir);
        case CYGWIN => start := StartCygwin(d, wasEmpty, subdir);
        case UNIX => start := StartPlain(UNIX, d, wasEmpty, subdir);
        case ZVM => start := StartPlain(ZVM, d, wasEmpty, subdir);
        case DOS_VIRTUAL => start := StartPlain(DOS_VIRTUAL, d, wasEmpty, subdir);
      }
      if start.Refused? { return false; }
      var good, out := SegmentizeInto(kind, start.dir, start.d.segments);
      if !good || (!TraitsOf(kind).hasRoot && out == []) { return false; }
      data := Some(start.d.(segments := out));
      ok := true;
    }

    /** SetPath: the empty text is refused and changes nothing. */
    method SetPath(newPath: string) returns (ok: bool)
      modifies this
      ensures newPath == "" ==> !ok && Value() == old(Value())
      ensures newPath != "" ==> Value() == Parsed(kind, newPath) && ok == Value().data.Some?
    {
      if newPath == "" { return false; }
      data := None;
      ok := ChangePath(newPath);
    }

    /** The segments behind `start`, with a separator in front of every one but perhaps the first. */
    method PrintSegments(start: string, segments: seq<string>, leading: bool) returns (path: string)
      ensures path == start + (if leading && segments != [] then [Sep(kind)] else "") + Join(kind, segments)
    {
      path := start;
      ghost var head := start + if leading && segments != [] then [Sep(kind)] else "";
      assert segments[..0] == [];
      for i := 0 to |segments|
        invariant path == if i == 0 && segments != [] then start else head + Join(kind, segments[..i])
      {
        JoinedBehind(kind, head, segments, i);
        path := PrintSegment(path, segments[i], i > 0 || leading);
      }
      assert segments[..|segments|] == segments;
    }

    method PrintSegment(before: string, segment: string, separated: bool) returns (path: string)
      ensures path == before + (if separated then [Sep(kind)] else "") + Shown(kind, segment)
    {
      path := before;
      if separated {
        path := path + [Sep(kind)];
      }
      path := path + Shown(kind, segment);
    }

    method GetPath() returns (path: string)
      ensures path == PathText(Value())
    {
      if data.None? { return ""; }
      var tr := TraitsOf(kind);
      var d := data.value;
      path := if !tr.suffixPrefix && d.prefix.Some? then d.prefix.value else "";
      path := path + Shape(tr.left);
      if d.segments == [] && (!tr.hasRoot || d.prefix.None? || tr.separatorAfterPrefix) {
        path := path + [tr.separator];
      }
      path := PrintSegments(path, d.segments, tr.hasRoot && (d.prefix.None? || tr.separatorAfterPrefix));
      assert path == Head(kind, d) + Join(kind, d.segments);
      path := AppendTail(path, d);
    }

    method AppendTail(before: string, d: PathData) returns (path: string)
      ensures path == before + Tail(kind, d)
    {
      var tr := TraitsOf(kind);
      path := before;
      if tr.suffixPrefix && d.prefix.Some? { path := path + d.prefix.value; }
      path := path + Shape(tr.right);
      if IsDos(kind) && |d.segments| == 1 { path := path + [tr.separator]; }
    }

    method MakeParent()
      modifies this
      ensures Value() == old(Value()).Parent()
    {
      if !Value().HasParent() {
        data := None;
      } else {
        data := Some(data.value.(segments := data.value.segments[..|data.value.segments| - 1]));
        if kind == MVS { data := Some(data.value.(prefix := Some("."))); }
      }
    }

    method AddSegmentTo(segment: string) returns (ok: bool)
      modifies this
      ensures Value() == old(Value()).Child(segment) && ok == old(Value()).data.Some?
    {
      if data.None? { return false; }
      data := Some(data.value.(segments := data.value.segments + [segment]));
      ok := true;
    }
  }

  /** SetPath after GetPath, as calls on two objects. */
  method Reparse(p: PathObject) returns (q: PathObject, ok: bool)
    requires p.data.Some?
    ensures fresh(q) && unchanged(p)
    ensures WellFormed(p.Value()) ==> ok && q.Value() == p.Value()
    ensures !WellFormed(p.Value()) ==> !(ok && q.Value() == p.Value())
  {
    var s := p.GetPath();
    q := new PathObject(p.kind);
    ok := q.SetPath(s);
    TextRoundTrip(p.Value());
  }
}
