/** The normaliser of local paths: one pass over the text, writing into a buffer from which segments
    are taken back again. */
module LocalPathObjects {
  import opened Text
  import opened LocalPaths

  /** What was read since the last separator. */
  datatype Last = AtSeparator | Dot | DotDot | Segment

  function LastOf(part: string): Last {
    if part == "" then AtSeparator else if part == "." then Dot else if part == ".." then DotDot else Segment
  }

  /** The buffer holds the canonical path of `segs` and behind it, up to `out`, the part `part`;
      `starts` are the positions where the segments, and that part, begin. */
  ghost predicate Layout(buffer: seq<char>, starts: seq<nat>, out: nat, segs: seq<string>, part: string) {
    && |starts| == |segs| + 1
    && (forall k :: 0 <= k < |starts| ==> starts[k] == |Canonical(segs[..k])|)
    && starts[|segs|] <= out <= |buffer|
    && buffer[..starts[|segs|]] == Canonical(segs)
    && buffer[starts[|segs|]..out] == part
  }

  lemma LayoutDropped(buffer: seq<char>, starts: seq<nat>, out: nat, segs: seq<string>, part: string)
    requires Layout(buffer, starts, out, segs, part)
    ensures Layout(buffer, starts, starts[|segs|], segs, "")
  {
  }

  lemma LayoutPopped(buffer: seq<char>, starts: seq<nat>, out: nat, segs: seq<string>, part: string)
    requires Layout(buffer, starts, out, segs, part) && segs != []
    ensures Layout(buffer, starts[..|segs|], starts[|segs| - 1], segs[..|segs| - 1], "")
    ensures starts[|segs| - 1] <= out
  {
    var front := segs[..|segs| - 1];
    forall k | 0 <= k < |segs| ensures starts[k] == |Canonical(front[..k])| {
      assert front[..k] == segs[..k];
    }
    assert segs[..|segs|] == segs;
    assert starts[|segs|] == |Canonical(segs)|;
    assert Canonical(segs)[..starts[|segs| - 1]] == Canonical(front);
    assert buffer[..starts[|segs|]][..starts[|segs| - 1]] == buffer[..starts[|segs| - 1]];
  }

  lemma LayoutPushed(before: seq<char>, buffer: seq<char>, starts: seq<nat>, out: nat, segs: seq<string>, part: string)
    requires Layout(before, starts, out, segs, part)
    requires |buffer| == |before| > out && buffer[..out] == before[..out] && buffer[out] == SEPARATOR
    ensures Layout(buffer, starts + [out + 1], out + 1, segs + [part], "")
  {
    var more, at := segs + [part], starts[|segs|];
    forall k | 0 <= k <= |segs| ensures starts[k] == |Canonical(more[..k])| {
      assert more[..k] == segs[..k];
    }
    assert more[..|more| - 1] == segs && more[..|more|] == more && segs[..|segs|] == segs;
    assert before[..out] == before[..at] + before[at..out];
    assert buffer[..out + 1] == buffer[..out] + [SEPARATOR];
  }

  lemma LayoutGrown(before: seq<char>, buffer: seq<char>, starts: seq<nat>, out: nat, segs: seq<string>, part: string)
    requires Layout(before, starts, out, segs, part)
    requires |buffer| == |before| > out && buffer[..out] == before[..out]
    ensures Layout(buffer, starts, out + 1, segs, part + [buffer[out]])
  {
    var at := starts[|segs|];
    assert buffer[..at] == buffer[..out][..at] == before[..out][..at] == before[..at];
    assert buffer[at..out] == buffer[..out][at..] == before[..out][at..] == before[at..out];
    assert buffer[at..out + 1] == buffer[at..out] + [buffer[out]];
  }

  // ---------- reading a text part by part and character by character ----------

  /** The parts with one more character behind the last of them. */
  function Grown(p: seq<string>, c: char): seq<string>
    requires p != []
  {
    if c == SEPARATOR then p + [""] else p[..|p| - 1] + [p[|p| - 1] + [c]]
  }

  /** Growing at the end and putting a character in front do not disturb each other. */
  lemma GrownBehind(x: char, p: seq<string>, c: char)
    requires p != []
    ensures var q := [[x] + p[0]] + p[1..]; Grown(q, c) == [[x] + Grown(p, c)[0]] + Grown(p, c)[1..]
  {
    var q := [[x] + p[0]] + p[1..];
    if c != SEPARATOR && |p| == 1 {
      assert [x] + p[0] + [c] == [x] + (p[0] + [c]);
      assert Grown(q, c) == [[x] + p[0] + [c]];
    }
  }

  lemma {:induction false} PartsSnoc(s: string, c: char)
    ensures Parts(s + [c]) == Grown(Parts(s), c)
  {
    if s == "" {
      assert s + [c] == [c] && [c][1..] == "";
      assert Parts("") == [""];
      assert [c] + "" == [c] && "" + [c] == [c];
      assert c != SEPARATOR ==> Parts([c]) == [[c]];
    } else {
      assert (s + [c])[1..] == s[1..] + [c];
      PartsSnoc(s[1..], c);
      if s[0] == SEPARATOR {
        assert [""] + Grown(Parts(s[1..]), c) == Grown([""] + Parts(s[1..]), c);
      } else {
        GrownBehind(s[0], Parts(s[1..]), c);
      }
    }
  }

  ghost function Closed(s: string): seq<string> {
    Parts(s)[..|Parts(s)| - 1]
  }

  ghost function Open(s: string): string {
    Parts(s)[|Parts(s)| - 1]
  }

  /** The buffer after reading `s` behind the root. */
  ghost predicate After(buffer: seq<char>, starts: seq<nat>, out: nat, s: string) {
    Layout(buffer, starts, out, Walk([], Closed(s)), Open(s))
  }

  lemma NothingRead(buffer: seq<char>)
    requires buffer != [] && buffer[0] == SEPARATOR
    ensures After(buffer, [1], 1, "") && LastOf(Open("")) == AtSeparator
  {
    var none: seq<string> := [];
    assert Closed("") == none && Open("") == "";
    assert none[..0] == none && Walk(none, none) == none;
    assert buffer[..1] == [SEPARATOR];
  }

  lemma WalkOne(s: string)
    ensures Walk([], Closed(s) + [Open(s)]) == Enter(Walk([], Closed(s)), Open(s))
    ensures Closed(s) + [Open(s)] == Parts(s)
  {
    WalkAppend([], Closed(s), [Open(s)]);
    assert [Open(s)][1..] == [];
  }

  lemma SeparatorRead(s: string)
    ensures Walk([], Closed(s + [SEPARATOR])) == Enter(Walk([], Closed(s)), Open(s))
    ensures Open(s + [SEPARATOR]) == ""
  {
    PartsSnoc(s, SEPARATOR);
    WalkOne(s);
    assert Closed(s + [SEPARATOR]) == Parts(s);
  }

  /** An empty part or `.` leaves nothing behind. */
  lemma AfterNothing(buffer: seq<char>, starts: seq<nat>, out: nat, s: string)
    requires After(buffer, starts, out, s) && (Open(s) == "" || Open(s) == ".")
    ensures starts != [] && After(buffer, starts, starts[|starts| - 1], s + [SEPARATOR]) && starts[|starts| - 1] <= out
    ensures Open(s) == "" ==> out == starts[|starts| - 1]
  {
    SeparatorRead(s);
    LayoutDropped(buffer, starts, out, Walk([], Closed(s)), Open(s));
  }

  /** `..` takes a segment back, if there is one. */
  lemma AfterDotDot(buffer: seq<char>, starts: seq<nat>, out: nat, s: string, left: seq<nat>)
    requires After(buffer, starts, out, s) && Open(s) == ".."
    requires left == if |starts| > 1 then starts[..|starts| - 1] else starts
    ensures left != [] && After(buffer, left, left[|left| - 1], s + [SEPARATOR]) && left[|left| - 1] <= out
  {
    SeparatorRead(s);
    if |starts| > 1 {
      LayoutPopped(buffer, starts, out, Walk([], Closed(s)), Open(s));
    } else {
      LayoutDropped(buffer, starts, out, Walk([], Closed(s)), Open(s));
    }
  }

  lemma AfterSegment(before: seq<char>, buffer: seq<char>, starts: seq<nat>, out: nat, s: string)
    requires After(before, starts, out, s) && LastOf(Open(s)) == Segment
    requires |buffer| == |before| > out && buffer[..out] == before[..out] && buffer[out] == SEPARATOR
    ensures After(buffer, starts + [out + 1], out + 1, s + [SEPARATOR])
  {
    SeparatorRead(s);
    LayoutPushed(before, buffer, starts, out, Walk([], Closed(s)), Open(s));
  }

  lemma CharacterRead(s: string, c: char)
    requires c != SEPARATOR
    ensures Closed(s + [c]) == Closed(s) && Open(s + [c]) == Open(s) + [c]
  {
    PartsSnoc(s, c);
  }

  class LocalPath {
    var path: string

    ghost predicate Valid()
      reads this
    {
      path == "" || exists segs: seq<string> :: AllSegments(segs) && path == Canonical(segs)
    }

    constructor ()
      ensures Valid() && path == ""
    {
      path := "";
    }

    /** A separator behind an ordinary part: the part becomes a segment. */
    method CloseSegment(buffer: array<char>, starts: seq<nat>, out: nat, ghost s: string)
      returns (newStarts: seq<nat>, newOut: nat)
      requires After(buffer[..], starts, out, s) && LastOf(Open(s)) == Segment && out < buffer.Length
      modifies buffer
      ensures After(buffer[..], newStarts, newOut, s + [SEPARATOR]) && newOut == out + 1
    {
      ghost var before := buffer[..];
      buffer[out] := SEPARATOR;
      newStarts, newOut := starts + [out + 1], out + 1;
      AfterSegment(before, buffer[..], starts, out, s);
    }

    /** A separator behind anything else: `..` takes a segment back, and the part itself is dropped. */
    method TakeBack(starts: seq<nat>, last: Last, ghost buffer: seq<char>, ghost out: nat, ghost s: string)
      returns (newStarts: seq<nat>, newOut: nat)
      requires After(buffer, starts, out, s) && last == LastOf(Open(s)) && last != Segment
      ensures After(buffer, newStarts, newOut, s + [SEPARATOR])
      ensures newOut <= out && (last == AtSeparator ==> newOut == out)
    {
      if last == DotDot {
        newStarts := starts;
        if |starts| > 1 {
          newStarts := starts[..|starts| - 1];
        }
        AfterDotDot(buffer, starts, out, s, newStarts);
        newOut := newStarts[|newStarts| - 1];
      } else {
        AfterNothing(buffer, starts, out, s);
        newStarts, newOut := starts, starts[|starts| - 1];
      }
    }

    method EndPart(buffer: array<char>, starts: seq<nat>, out: nat, last: Last, ghost s: string)
      returns (newStarts: seq<nat>, newOut: nat)
      requires After(buffer[..], starts, out, s) && last == LastOf(Open(s)) && out < buffer.Length
      modifies buffer
      ensures After(buffer[..], newStarts, newOut, s + [SEPARATOR]) && newOut <= out + 1
    {
      if last == Segment {
        newStarts, newOut := CloseSegment(buffer, starts, out, s);
      } else {
        newStarts, newOut := TakeBack(starts, last, buffer[..], out, s);
      }
    }

    /** Any other character was read: it is appended, and may turn the part into something else. */
    method AddCharacter(buffer: array<char>, starts: seq<nat>, out: nat, last: Last, c: char, ghost s: string)
      returns (newLast: Last)
      requires After(buffer[..], starts, out, s) && last == LastOf(Open(s)) && out < buffer.Length
      requires c != SEPARATOR
      modifies buffer
      ensures After(buffer[..], starts, out + 1, s + [c]) && newLast == LastOf(Open(s + [c]))
    {
      ghost var before := buffer[..];
      CharacterRead(s, c);
      newLast := last;
      if c == '.' {
        if last == AtSeparator {
          newLast := Dot;
        } else if last == Dot {
          newLast := DotDot;
        } else if last == DotDot {
          newLast := Segment;
        }
      } else {
        newLast := Segment;
      }
      buffer[out] := c;
      LayoutGrown(before, buffer[..], starts, out, Walk([], Closed(s)), Open(s));
    }

    method ReadCharacter(buffer: array<char>, starts: seq<nat>, out: nat, last: Last, c: char, ghost s: string)
      returns (newStarts: seq<nat>, newOut: nat, newLast: Last)
      requires After(buffer[..], starts, out, s) && last == LastOf(Open(s)) && out < buffer.Length
      modifies buffer
      ensures After(buffer[..], newStarts, newOut, s + [c]) && newLast == LastOf(Open(s + [c]))
      ensures newOut <= out + 1
    {
      if c == SEPARATOR {
        newStarts, newOut := EndPart(buffer, starts, out, last, s);
        SeparatorRead(s);
        newLast := AtSeparator;
      } else {
        newLast := AddCharacter(buffer, starts, out, last, c, s);
        newStarts, newOut := starts, out + 1;
      }
    }

    /** Reads the text behind the root into the buffer. */
    method ReadParts(text: string, buffer: array<char>) returns (starts: seq<nat>, out: nat, last: Last)
      requires Absolute(text) && buffer.Length == |text| + 1
      modifies buffer
      ensures var s := Terminated(text)[1..];
              After(buffer[..], starts, out, s) && last == LastOf(Open(s)) && out <= |text|
    {
      var i := 1;
      buffer[0] := SEPARATOR;
      out, starts, last := 1, [1], AtSeparator;
      NothingRead(buffer[..]);
      ghost var s := "";
      TerminatedAt(text, 0);
      while i < |text| && text[i] != '\0'
        invariant 1 <= i <= |Terminated(text)| && out <= i
        invariant s == text[1..i]
        invariant After(buffer[..], starts, out, s) && last == LastOf(Open(s))
      {
        starts, out, last := ReadCharacter(buffer, starts, out, last, text[i], s);
        s := s + [text[i]];
        TerminatedAt(text, i);
        i := i + 1;
      }
      TerminatedIs(text, i);
      assert text[..i][1..] == text[1..i];
    }

    /** What `.` or `..` at the end does to the buffer, and an ordinary last part. */
    method EndText(buffer: array<char>, starts: seq<nat>, out: nat, last: Last, fileWanted: bool, ghost s: string)
      returns (length: nat, file: Option<string>)
      requires After(buffer[..], starts, out, s) && last == LastOf(Open(s)) && out < buffer.Length
      modifies buffer
      ensures length <= buffer.Length && file == FileIn(Parts(s), fileWanted)
      ensures buffer[..length] == Canonical(Walk([], Directories(Parts(s), fileWanted)))
    {
      ghost var segs, part := Walk([], Closed(s)), Open(s);
      ghost var before := buffer[..];
      WalkOne(s);
      length, file := out, None;
      match last
      case AtSeparator =>
        assert buffer[..out] == buffer[..][..out];
      case Dot =>
        length := starts[|starts| - 1];
      case DotDot =>
        if |starts| > 1 {
          length := starts[|starts| - 2];
          LayoutPopped(before, starts, out, segs, part);
        } else {
          length := starts[|starts| - 1];
        }
      case Segment =>
        if fileWanted {
          file := Some(buffer[starts[|starts| - 1]..out]);
          length := starts[|starts| - 1];
        } else {
          buffer[out] := SEPARATOR;
          length := out + 1;
          LayoutPushed(before, buffer[..], starts, out, segs, part);
        }
    }

    method SetPath(text: string, fileWanted: bool) returns (ok: bool, file: Option<string>)
      modifies this
      ensures Valid()
      ensures ok == Absolute(text) && (path, file) == Set(text, fileWanted)
    {
      if text == "" {
        path := "";
        return false, None;
      }
      var buffer := new char[|text| + 1](i => ' ');
      if text[0] != SEPARATOR {
        path := "";
        return false, None;
      }
      var starts, out, last := ReadParts(text, buffer);
      var length: nat;
      length, file := EndText(buffer, starts, out, last, fileWanted, Terminated(text)[1..]);
      path := buffer[..length];
      SetIsCanonical(text, fileWanted);
      ok := true;
    }

    /** The position of the separator in front of the last segment. */
    method FindParent() returns (at: Option<nat>)
      requires Valid()
      ensures at.Some? <==> path != "" && path != [SEPARATOR]
      ensures at.Some? ==> at.value <= |path| - 2 && path[at.value] == SEPARATOR
                           && (forall k :: at.value < k < |path| - 1 ==> path[k] != SEPARATOR)
    {
      var i := |path| - 2;
      ghost var end := |path| - 1;
      while i >= 0
        invariant -1 <= i <= |path| - 2 || (i == -2 && path == "")
        invariant forall k :: 0 <= k && i < k < end ==> path[k] != SEPARATOR
      {
        if path[i] == SEPARATOR {
          return Some(i);
        }
        i := i - 1;
      }
      return None;
    }

    /** Goes to the parent: drops the last segment, if there is one. */
    method MakeParent(ghost segs: seq<string>) returns (ok: bool, lastSegment: string)
      requires path == "" || (AllSegments(segs) && path == Canonical(segs))
      modifies this
      ensures ok == (old(path) != "" && segs != [])
      ensures if ok then path == Canonical(segs[..|segs| - 1]) && lastSegment == segs[|segs| - 1]
              else path == old(path)
    {
      if path != "" { RootOnly(segs); }
      var at := FindParent();
      lastSegment := "";
      if at.None? {
        return false, "";
      }
      LastSegmentAt(segs, at.value);
      lastSegment := path[at.value + 1..|path| - 1];
      path := path[..at.value + 1];
      ok := true;
    }

    method HasParent(ghost segs: seq<string>) returns (r: bool)
      requires path == "" || (AllSegments(segs) && path == Canonical(segs))
      ensures r == (path != "" && segs != [])
    {
      if path != "" { RootOnly(segs); }
      var at := FindParent();
      r := at.Some?;
    }

    method AddSegment(segment: string, ghost segs: seq<string>)
      requires AllSegments(segs) && path == Canonical(segs) && Plain(segment)
      modifies this
      ensures path == if segment == "" then old(path) else Canonical(segs + [segment])
    {
      if segment != "" {
        path := path + segment;
        path := path + [SEPARATOR];
        assert (segs + [segment])[..|segs|] == segs;
      }
    }

    method ChangePath(text: string, fileWanted: bool) returns (ok: bool, file: Option<string>)
      requires Valid()
      modifies this
      ensures Valid()
      ensures ok == (text != "" && (Absolute(text) || old(path) != ""))
      ensures if !ok then path == old(path) && file == None
              else (path, file) == Set(if Absolute(text) then text else old(path) + text, fileWanted)
    {
      if text == "" {
        return false, None;
      }
      if text[0] == SEPARATOR {
        ok, file := SetPath(text, fileWanted);
      } else {
        if path == "" {
          return false, None;
        }
        ok, file := SetPath(path + text, fileWanted);
      }
    }

    method IsParentOf(other: LocalPath) returns (r: bool)
      requires Valid() && other.Valid()
      ensures r == (path != "" && path < other.path)
    {
      if path == "" || other.path == "" {
        return false;
      }
      if |other.path| <= |path| {
        return false;
      }
      if path != other.path[..|path|] {
        return false;
      }
      r := true;
    }
  }

  lemma {:induction false} TerminatedAt(s: string, i: nat)
    requires i <= |Terminated(s)| && i < |s| && s[i] != '\0'
    ensures i < |Terminated(s)|
  {
  }

  lemma TerminatedIs(s: string, i: nat)
    requires i <= |Terminated(s)| && (i < |s| ==> s[i] == '\0')
    ensures Terminated(s) == s[..i]
  {
  }

  lemma RootOnly(segs: seq<string>)
    requires AllSegments(segs)
    ensures Canonical(segs) == [SEPARATOR] <==> segs == []
  {
  }

  lemma LastSegmentAt(segs: seq<string>, at: nat)
    requires AllSegments(segs) && segs != [] && at <= |Canonical(segs)| - 2
    requires Canonical(segs)[at] == SEPARATOR
    requires forall k :: at < k < |Canonical(segs)| - 1 ==> Canonical(segs)[k] != SEPARATOR
    ensures Canonical(segs)[..at + 1] == Canonical(segs[..|segs| - 1])
    ensures Canonical(segs)[at + 1..|Canonical(segs)| - 1] == segs[|segs| - 1]
  {
    var c, front, last := Canonical(segs), Canonical(segs[..|segs| - 1]), segs[|segs| - 1];
    assert c == front + last + [SEPARATOR];
    assert c[|front| - 1] == SEPARATOR;
    assert forall k :: |front| <= k < |c| - 1 ==> c[k] == last[k - |front|];
    assert at == |front| - 1;
  }

  lemma SetByParts(text: string, fileWanted: bool, parts: seq<string>)
    requires Absolute(text) && NoNul(text) && Parts(text[1..]) == parts
    ensures parts != []
    ensures Set(text, fileWanted) == (Canonical(Walk([], Directories(parts, fileWanted))), FileIn(parts, fileWanted))
  {
    TerminatedWhole(text);
  }

  lemma DirectoriesBehind(segs: seq<string>, parts: seq<string>, fileWanted: bool)
    requires parts != []
    ensures FileIn(segs + parts, fileWanted) == FileIn(parts, fileWanted)
    ensures Directories(segs + parts, fileWanted) == segs + Directories(parts, fileWanted)
  {
    var all := segs + parts;
    assert all[|all| - 1] == parts[|parts| - 1];
    assert all[..|all| - 1] == segs + parts[..|parts| - 1];
  }

  /** A text behind a path walks on from where the path is; so does a relative change. */
  lemma ChangingWalks(segs: seq<string>, text: string, fileWanted: bool)
    requires AllSegments(segs) && NoNul(Canonical(segs)) && NoNul(text)
    ensures var parts := Parts(text);
            Set(Canonical(segs) + text, fileWanted)
            == (Canonical(Walk(segs, Directories(parts, fileWanted))), FileIn(parts, fileWanted))
  {
    var parts := Parts(text);
    var dirs := Directories(parts, fileWanted);
    BehindCanonical(segs, text);
    SetByParts(Canonical(segs) + text, fileWanted, segs + parts);
    DirectoriesBehind(segs, parts, fileWanted);
    WalkAppend([], segs, dirs);
    WalkSegments([], segs);
    assert [] + segs == segs;
  }

  lemma BehindCanonical(segs: seq<string>, text: string)
    requires AllSegments(segs)
    ensures Parts((Canonical(segs) + text)[1..]) == segs + Parts(text)
  {
    CanonicalParts(segs);
    DropFirst(Canonical(segs), text);
    PartsBehindText(Canonical(segs)[1..], text, segs);
  }

  /** Adding a name keeps a path canonical exactly if the name is not one of the two special ones. */
  lemma AddingKeepsCanonical(segs: seq<string>, segment: string)
    requires AllSegments(segs) && Plain(segment) && segment != ""
    ensures (exists more: seq<string> :: AllSegments(more) && Canonical(segs + [segment]) == Canonical(more))
       <==> segment != "." && segment != ".."
  {
    if segment != "." && segment != ".." {
      assert AllSegments(segs + [segment]);
    } else {
      forall more: seq<string> | Canonical(segs + [segment]) == Canonical(more) ensures !AllSegments(more) {
        if forall i :: 0 <= i < |more| ==> Plain(more[i]) {
          CanonicalParts(segs + [segment]);
          CanonicalParts(more);
          SameFront(segs + [segment], more);
          assert !IsSegment(more[|segs|]);
        }
      }
    }
  }

  /** The test on the texts of two paths is the one on their segments. */
  lemma ParentMeansStrictPrefix(a: seq<string>, b: seq<string>)
    requires AllSegments(a) && AllSegments(b)
    ensures Canonical(a) < Canonical(b) <==> a < b
  {
    PrefixIsAncestry(a, b);
  }
}
