/** Paths of sites in the site manager: segments escaped and joined, and taken apart again. */
module SitePaths {
  import opened Text

  /** A text in which every `c` is replaced. */
  function Replaced(s: string, c: char, with: string): string {
    if s == "" then "" else (if s[0] == c then with else [s[0]]) + Replaced(s[1..], c, with)
  }

  function EscapeSegment(segment: string): string {
    Replaced(Replaced(segment, '\\', "\\\\"), '/', "\\/")
  }

  /** A text with a backslash in front of every backslash and every slash. */
  function Escaped(s: string): string {
    if s == "" then ""
    else (if s[0] == '\\' || s[0] == '/' then "\\" + [s[0]] else [s[0]]) + Escaped(s[1..])
  }

  lemma {:induction false} ReplacedAppend(a: string, b: string, c: char, with: string)
    ensures Replaced(a + b, c, with) == Replaced(a, c, with) + Replaced(b, c, with)
  {
    if a == "" {
      assert a + b == b;
    } else {
      assert (a + b)[1..] == a[1..] + b;
      ReplacedAppend(a[1..], b, c, with);
    }
  }

  /** The two replacements, one after the other, do not touch what the first one put in. */
  lemma {:induction false} EscapingOnePass(s: string)
    ensures EscapeSegment(s) == Escaped(s)
  {
    if s != "" {
      EscapingOnePass(s[1..]);
      var first := if s[0] == '\\' then "\\\\" else [s[0]];
      ReplacedAppend(first, Replaced(s[1..], '\\', "\\\\"), '/', "\\/");
      assert first[1..] == if s[0] == '\\' then "\\" else "";
      assert Replaced("", '/', "\\/") == "";
      assert Replaced("\\", '/', "\\/") == "\\" + "";
      assert Replaced(first, '/', "\\/") == if s[0] == '\\' || s[0] == '/' then "\\" + [s[0]] else [s[0]];
    }
  }

  function Joined(segments: seq<string>): string {
    if segments == [] then "" else Joined(segments[..|segments| - 1]) + "/" + Escaped(segments[|segments| - 1])
  }

  method BuildPath(root: char, segments: seq<string>) returns (ret: string)
    ensures ret == [root] + Joined(segments)
  {
    ret := "";
    ret := ret + [root];
    var i := 0;
    while i < |segments|
      invariant 0 <= i <= |segments|
      invariant ret == [root] + Joined(segments[..i])
    {
      assert segments[..i + 1][..i] == segments[..i];
      EscapingOnePass(segments[i]);
      ret := ret + ("/" + EscapeSegment(segments[i]));
      i := i + 1;
    }
    assert segments[..i] == segments;
  }

  // ---------------------------------------------------------------------------------------------
  // Taking a path apart

  datatype State = State(name: string, result: seq<string>, lastBackslash: bool)

  function Close(s: State): State {
    s.(result := if s.name != "" then s.result + [s.name] else s.result, name := "")
  }

  /** What one character does; an ordinary one leaves a pending backslash pending. */
  function Step(s: State, c: char): State {
    if c == '\\' then
      if s.lastBackslash then State(s.name + "\\", s.result, false) else s.(lastBackslash := true)
    else if c == '/' then
      if s.lastBackslash then State(s.name + "/", s.result, false) else Close(s)
    else s.(name := s.name + [c])
  }

  function Steps(s: State, text: string): State
    decreases |text|
  {
    if text == "" then s else Steps(Step(s, text[0]), text[1..])
  }

  /** The segments of a path, if it is well-formed and has any. */
  function Unescaped(path: string): (bool, seq<string>) {
    var s := Steps(State("", [], false), Terminated(path));
    if s.lastBackslash then (false, s.result) else (Close(s).result != [], Close(s).result)
  }

  method UnescapeSitePath(path: string) returns (ok: bool, result: seq<string>)
    ensures (ok, result) == Unescaped(path)
  {
    result := [];
    var name, lastBackslash, p := "", false, 0;
    assert path[..0] == "";
    while p < |path| && path[p] != '\0'
      invariant 0 <= p <= |Terminated(path)|
      invariant Steps(State("", [], false), path[..p]) == State(name, result, lastBackslash)
    {
      var c := path[p];
      StepsAppend(State("", [], false), path[..p], [c]);
      assert path[..p + 1] == path[..p] + [c];
      assert [c][1..] == "";
      if c == '\\' {
        if lastBackslash {
          name := name + "\\";
          lastBackslash := false;
        } else {
          lastBackslash := true;
        }
      } else if c == '/' {
        if lastBackslash {
          name := name + "/";
          lastBackslash := false;
        } else {
          if name != "" {
            result := result + [name];
          }
          name := "";
        }
      } else {
        name := name + [c];
      }
      p := p + 1;
    }
    assert path[..p] == Terminated(path);
    if lastBackslash {
      return false, result;
    }
    if name != "" {
      result := result + [name];
    }
    ok := result != [];
  }

  lemma {:induction false} StepsAppend(s: State, a: string, b: string)
    ensures Steps(s, a + b) == Steps(Steps(s, a), b)
    decreases |a|
  {
    if a == "" {
      assert a + b == b;
    } else {
      assert (a + b)[1..] == a[1..] + b;
      StepsAppend(Step(s, a[0]), a[1..], b);
    }
  }

  lemma StepsOne(s: State, c: char)
    ensures Steps(s, [c]) == Step(s, c)
  {
    assert [c][1..] == "";
  }

  /** Escaped characters are read back one by one. */
  lemma {:induction false} StepsEscaped(s: State, segment: string)
    requires !s.lastBackslash
    ensures Steps(s, Escaped(segment)) == s.(name := s.name + segment)
    decreases |segment|
  {
    if segment == "" {
      assert s.name + segment == s.name;
    } else {
      var c := segment[0];
      var first := if c == '\\' || c == '/' then "\\" + [c] else [c];
      StepsAppend(s, first, Escaped(segment[1..]));
      StepsAppend(s, "\\", [c]);
      StepsOne(s, '\\');
      StepsOne(s, c);
      StepsOne(Step(s, '\\'), c);
      assert Steps(s, first) == s.(name := s.name + [c]);
      StepsEscaped(s.(name := s.name + [c]), segment[1..]);
      assert s.name + [c] + segment[1..] == s.name + segment;
    }
  }

  function NonEmpty(segments: seq<string>): seq<string> {
    if segments == [] then []
    else
      var last := segments[|segments| - 1];
      NonEmpty(segments[..|segments| - 1]) + if last == "" then [] else [last]
  }

  const START := State("", [], false)

  /** A slash and a segment behind a finished part. */
  lemma StepsSegment(s: State, segment: string)
    requires !s.lastBackslash
    ensures Steps(s, "/" + Escaped(segment)) == State(segment, Close(s).result, false)
  {
    assert ("/" + Escaped(segment))[1..] == Escaped(segment);
    StepsEscaped(Close(s), segment);
    assert "" + segment == segment;
  }

  lemma {:induction false} StepsJoined(segments: seq<string>)
    ensures var s := Steps(START, Joined(segments)); !s.lastBackslash && Close(s).result == NonEmpty(segments)
    decreases |segments|
  {
    if segments != [] {
      var front, last := segments[..|segments| - 1], segments[|segments| - 1];
      StepsJoined(front);
      StepsAppend(START, Joined(front), "/" + Escaped(last));
      StepsSegment(Steps(START, Joined(front)), last);
      assert Joined(segments) == Joined(front) + ("/" + Escaped(last));
    }
  }

  predicate NoNul(s: string) {
    forall i :: 0 <= i < |s| ==> s[i] != '\0'
  }

  lemma {:induction false} EscapedNoNul(s: string)
    requires NoNul(s)
    ensures NoNul(Escaped(s))
  {
    if s != "" {
      EscapedNoNul(s[1..]);
    }
  }

  lemma {:induction false} JoinedNoNul(segments: seq<string>)
    requires forall i :: 0 <= i < |segments| ==> NoNul(segments[i])
    ensures Terminated(Joined(segments)) == Joined(segments)
    ensures NoNul(Joined(segments))
    decreases |segments|
  {
    if segments != [] {
      JoinedNoNul(segments[..|segments| - 1]);
      EscapedNoNul(segments[|segments| - 1]);
    }
  }

  lemma {:induction false} NonEmptyShape(segments: seq<string>)
    ensures |NonEmpty(segments)| <= |segments|
    ensures NonEmpty(segments) == segments <==> forall i :: 0 <= i < |segments| ==> segments[i] != ""
    decreases |segments|
  {
    if segments != [] {
      var front, last := segments[..|segments| - 1], segments[|segments| - 1];
      NonEmptyShape(front);
      assert front + [last] == segments;
      assert (forall i :: 0 <= i < |front| ==> front[i] != "")
          <==> (forall i :: 0 <= i < |front| ==> segments[i] != "");
      if NonEmpty(segments) == segments {
        assert |NonEmpty(front)| == |front| && last != "";
        assert NonEmpty(segments)[..|front|] == NonEmpty(front);
      }
    }
  }

  /** What is built from segments (without its root) comes apart into those that are not empty. */
  lemma BuiltComesApart(segments: seq<string>)
    requires forall i :: 0 <= i < |segments| ==> NoNul(segments[i])
    ensures Unescaped(Joined(segments)) == (NonEmpty(segments) != [], NonEmpty(segments))
  {
    JoinedNoNul(segments);
    StepsJoined(segments);
  }

  /** So the segments come back exactly if there are any and none is empty. */
  lemma SitePathRoundTrip(segments: seq<string>)
    requires forall i :: 0 <= i < |segments| ==> NoNul(segments[i])
    ensures Unescaped(Joined(segments)) == (true, segments)
       <==> segments != [] && forall i :: 0 <= i < |segments| ==> segments[i] != ""
  {
    BuiltComesApart(segments);
    NonEmptyShape(segments);
  }

  lemma {:induction false} PlainSteps(s: State, text: string)
    requires forall i :: 0 <= i < |text| ==> text[i] != '/' && text[i] != '\\'
    ensures Steps(s, text) == s.(name := s.name + text)
    decreases |text|
  {
    if text == "" {
      assert s.name + text == s.name;
    } else {
      PlainSteps(s.(name := s.name + [text[0]]), text[1..]);
      assert s.name + [text[0]] + text[1..] == s.name + text;
    }
  }

  /** A backslash waits for the next backslash or slash, whatever comes between. */
  lemma PendingBackslash(s: State, text: string, c: char)
    requires s.lastBackslash && (c == '/' || c == '\\')
    requires forall i :: 0 <= i < |text| ==> text[i] != '/' && text[i] != '\\'
    ensures Steps(s, text + [c]) == State(s.name + text + [c], s.result, false)
  {
    StepsAppend(s, text, [c]);
    PlainSteps(s, text);
    StepsOne(s.(name := s.name + text), c);
  }

  lemma {:induction false} TerminatedWhole(s: string)
    requires NoNul(s)
    ensures Terminated(s) == s
  {
    if s != "" {
      TerminatedWhole(s[1..]);
    }
  }

  /** A path in which a backslash is followed by neither a backslash nor a slash is refused. */
  lemma DanglingBackslash(segments: seq<string>, text: string)
    requires forall i :: 0 <= i < |segments| ==> NoNul(segments[i])
    requires '/' !in text && '\\' !in text && '\0' !in text
    ensures !Unescaped(Joined(segments) + ("\\" + text)).0
  {
    JoinedNoNul(segments);
    StepsJoined(segments);
    var s := Steps(START, Joined(segments));
    TerminatedWhole(Joined(segments) + ("\\" + text));
    StepsAppend(START, Joined(segments), "\\" + text);
    assert ("\\" + text)[1..] == text;
    PlainSteps(Step(s, '\\'), text);
  }
}
