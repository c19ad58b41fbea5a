/**
 * Local paths on systems where they look like /foo/bar/: what the canonical form of a path is, in
 * terms of the list of its segments.
 */
module LocalPaths {
  import opened Text

  const SEPARATOR := '/'

  predicate Plain(s: string) {
    forall i :: 0 <= i < |s| ==> s[i] != SEPARATOR
  }

  /** A directory's own name. */
  predicate IsSegment(s: string) {
    s != "" && s != "." && s != ".." && Plain(s)
  }

  predicate AllSegments(segs: seq<string>) {
    forall i :: 0 <= i < |segs| ==> IsSegment(segs[i])
  }

  /** The canonical path: each segment, and the root itself, is followed by a separator. */
  function Canonical(segs: seq<string>): (r: string)
    ensures r != "" && r[0] == SEPARATOR && r[|r| - 1] == SEPARATOR
  {
    if segs == [] then [SEPARATOR] else Canonical(segs[..|segs| - 1]) + segs[|segs| - 1] + [SEPARATOR]
  }

  /** The parts between separators; always at least one. */
  function Parts(s: string): (r: seq<string>)
    ensures r != []
  {
    if s == "" then [""]
    else if s[0] == SEPARATOR then [""] + Parts(s[1..])
    else
      var rest := Parts(s[1..]);
      [[s[0]] + rest[0]] + rest[1..]
  }

  function Enter(segs: seq<string>, part: string): seq<string> {
    if part == "" || part == "." then segs
    else if part == ".." then if segs == [] then segs else segs[..|segs| - 1]
    else segs + [part]
  }

  /** Walks from one directory along some parts. */
  function Walk(segs: seq<string>, parts: seq<string>): seq<string>
    decreases |parts|
  {
    if parts == [] then segs else Walk(Enter(segs, parts[0]), parts[1..])
  }

  /** The last part names a file if it is a segment and a file is wanted. */
  function FileIn(parts: seq<string>, wanted: bool): Option<string>
    requires parts != []
  {
    var last := parts[|parts| - 1];
    if wanted && last != "" && last != "." && last != ".." then Some(last) else None
  }

  function Directories(parts: seq<string>, wanted: bool): seq<string>
    requires parts != []
  {
    if FileIn(parts, wanted).Some? then parts[..|parts| - 1] else parts
  }

  predicate Absolute(s: string) {
    s != "" && s[0] == SEPARATOR
  }

  /** What a path is set to, and the file named by its text; an empty path if the text is relative. */
  function Set(text: string, fileWanted: bool): (string, Option<string>) {
    if !Absolute(text) then ("", None)
    else
      var parts := Parts(Terminated(text)[1..]);
      (Canonical(Walk([], Directories(parts, fileWanted))), FileIn(parts, fileWanted))
  }

  // ---------------------------------------------------------------------------------------------
  // Parts and segments

  lemma {:induction false} PartsPlain(s: string)
    ensures forall i :: 0 <= i < |Parts(s)| ==> Plain(Parts(s)[i])
  {
    if s != "" {
      PartsPlain(s[1..]);
    }
  }

  lemma {:induction false} WalkKeepsSegments(segs: seq<string>, parts: seq<string>)
    requires AllSegments(segs) && forall i :: 0 <= i < |parts| ==> Plain(parts[i])
    ensures AllSegments(Walk(segs, parts))
    decreases |parts|
  {
    if parts != [] {
      WalkKeepsSegments(Enter(segs, parts[0]), parts[1..]);
    }
  }

  lemma {:induction false} WalkAppend(segs: seq<string>, a: seq<string>, b: seq<string>)
    ensures Walk(segs, a + b) == Walk(Walk(segs, a), b)
    decreases |a|
  {
    if a == [] {
      assert a + b == b;
    } else {
      assert (a + b)[1..] == a[1..] + b;
      WalkAppend(Enter(segs, a[0]), a[1..], b);
    }
  }

  /** Cutting behind a separator cuts between two parts. */
  lemma {:induction false} PartsAfterSeparator(a: string, b: string)
    ensures Parts(a + [SEPARATOR] + b) == Parts(a) + Parts(b)
  {
    var s := a + [SEPARATOR] + b;
    if a == "" {
      assert s == [SEPARATOR] + b && s[1..] == b;
    } else {
      assert s[1..] == a[1..] + [SEPARATOR] + b;
      PartsAfterSeparator(a[1..], b);
    }
  }

  lemma {:induction false} PartsOfPlain(s: string)
    requires Plain(s)
    ensures Parts(s) == [s]
  {
    if s != "" {
      PartsOfPlain(s[1..]);
      assert [s[0]] + s[1..] == s;
    }
  }

  /** The parts of a canonical path behind its root are its segments and an empty rest. */
  lemma {:induction false} CanonicalParts(segs: seq<string>)
    requires forall i :: 0 <= i < |segs| ==> Plain(segs[i])
    ensures Parts(Canonical(segs)[1..]) == segs + [""]
    decreases |segs|
  {
    if segs == [] {
      assert [SEPARATOR][1..] == "";
    } else {
      var front, last := segs[..|segs| - 1], segs[|segs| - 1];
      CanonicalParts(front);
      CanonicalTail(segs);
      PartsWithSegment(Canonical(front)[1..], last, front);
      assert front + [last] == segs;
    }
  }

  lemma CanonicalTail(segs: seq<string>)
    requires segs != []
    ensures Canonical(segs)[1..] == Canonical(segs[..|segs| - 1])[1..] + segs[|segs| - 1] + [SEPARATOR]
  {
    DropFirst(Canonical(segs[..|segs| - 1]), segs[|segs| - 1]);
    DropFirst(Canonical(segs[..|segs| - 1]) + segs[|segs| - 1], [SEPARATOR]);
  }

  lemma DropFirst(a: string, b: string)
    requires a != ""
    ensures (a + b)[1..] == a[1..] + b
  {
  }

  /** Parts behind a separator, or behind nothing at all. */
  lemma PartsBehindText(c: string, text: string, segs: seq<string>)
    requires Parts(c) == segs + [""]
    requires c == "" || c[|c| - 1] == SEPARATOR
    ensures Parts(c + text) == segs + Parts(text)
  {
    if c == "" {
      assert |segs + [""]| == 1;
      assert c + text == text && segs + Parts(text) == Parts(text);
    } else {
      var a := c[..|c| - 1];
      assert c == a + [SEPARATOR];
      PartsAfterSeparator(a, text);
      PartsBeforeSeparator(a, segs);
    }
  }

  lemma PartsWithSegment(c: string, last: string, front: seq<string>)
    requires Parts(c) == front + [""] && Plain(last)
    requires c == "" || c[|c| - 1] == SEPARATOR
    ensures Parts(c + last + [SEPARATOR]) == front + [last] + [""]
  {
    PartsBehind(c, last, front);
    PartsAfterSeparator(c + last, "");
    assert c + last + [SEPARATOR] + "" == c + last + [SEPARATOR];
    assert Parts("") == [""];
  }

  lemma PartsBehind(s: string, last: string, front: seq<string>)
    requires Parts(s) == front + [""] && Plain(last)
    requires s == "" || s[|s| - 1] == SEPARATOR
    ensures Parts(s + last) == front + [last]
  {
    PartsOfPlain(last);
    if s == "" {
      assert s + last == last;
      assert |front + [""]| == 1;
      assert front + [last] == [last];
    } else {
      assert s == s[..|s| - 1] + [SEPARATOR];
      PartsBehindSeparator(s[..|s| - 1], last, front);
    }
  }

  lemma PartsBehindSeparator(a: string, last: string, front: seq<string>)
    requires Parts(a + [SEPARATOR]) == front + [""] && Parts(last) == [last]
    ensures Parts(a + [SEPARATOR] + last) == front + [last]
  {
    PartsAfterSeparator(a, last);
    PartsBeforeSeparator(a, front);
  }

  lemma PartsBeforeSeparator(a: string, front: seq<string>)
    requires Parts(a + [SEPARATOR]) == front + [""]
    ensures Parts(a) == front
  {
    PartsAfterSeparator(a, "");
    assert a + [SEPARATOR] + "" == a + [SEPARATOR];
    assert Parts("") == [""];
    SameFront(Parts(a), front);
  }

  lemma SameFront(a: seq<string>, b: seq<string>)
    requires a + [""] == b + [""]
    ensures a == b
  {
    assert (a + [""])[..|a|] == a && (b + [""])[..|b|] == b;
  }

  /** Walking along segments enters each of them. */
  lemma {:induction false} WalkSegments(segs: seq<string>, more: seq<string>)
    requires AllSegments(more)
    ensures Walk(segs, more) == segs + more
    decreases |more|
  {
    if more != [] {
      WalkSegments(segs + [more[0]], more[1..]);
      assert segs + [more[0]] + more[1..] == segs + more;
    } else {
      assert segs + [] == segs;
    }
  }

  // ---------------------------------------------------------------------------------------------
  // What is promised of paths

  /** A path never contains anything but its root and its segments. */
  lemma SetIsCanonical(text: string, fileWanted: bool)
    requires Absolute(text)
    ensures exists segs: seq<string> :: AllSegments(segs) && Set(text, fileWanted).0 == Canonical(segs)
  {
    var parts := Parts(Terminated(text)[1..]);
    PartsPlain(Terminated(text)[1..]);
    WalkKeepsSegments([], Directories(parts, fileWanted));
    assert AllSegments(Walk([], Directories(parts, fileWanted)));
  }

  lemma {:induction false} TerminatedWhole(s: string)
    requires forall i :: 0 <= i < |s| ==> s[i] != '\0'
    ensures Terminated(s) == s
  {
    if s != "" {
      TerminatedWhole(s[1..]);
    }
  }

  predicate NoNul(s: string) {
    forall i :: 0 <= i < |s| ==> s[i] != '\0'
  }

  /** Setting a path to a canonical path keeps it, and finds no file in it. */
  lemma CanonicalIsKept(segs: seq<string>, fileWanted: bool)
    requires AllSegments(segs) && NoNul(Canonical(segs))
    ensures Set(Canonical(segs), fileWanted) == (Canonical(segs), None)
  {
    TerminatedWhole(Canonical(segs));
    CanonicalParts(segs);
    var parts := segs + [""];
    assert parts[|parts| - 1] == "";
    WalkAppend([], segs, [""]);
    WalkSegments([], segs);
    assert [] + segs == segs;
    assert Walk(segs, [""]) == Walk(Enter(segs, ""), []) by { assert [""][1..] == []; }
  }

  lemma {:induction false} PartsNoNul(s: string)
    requires NoNul(s)
    ensures forall i :: 0 <= i < |Parts(s)| ==> NoNul(Parts(s)[i])
  {
    if s != "" {
      PartsNoNul(s[1..]);
    }
  }

  lemma {:induction false} WalkNoNul(segs: seq<string>, parts: seq<string>)
    requires NoNul(Canonical(segs)) && forall i :: 0 <= i < |parts| ==> NoNul(parts[i])
    ensures NoNul(Canonical(Walk(segs, parts)))
    decreases |parts|
  {
    if parts != [] {
      if parts[0] == ".." && segs != [] {
        assert Canonical(segs)[..|Canonical(segs[..|segs| - 1])|] == Canonical(segs[..|segs| - 1]);
        assert NoNul(Canonical(segs[..|segs| - 1])) by {
          var c := Canonical(segs[..|segs| - 1]);
          assert forall i :: 0 <= i < |c| ==> c[i] == Canonical(segs)[i];
        }
      } else if parts[0] != "" && parts[0] != "." && parts[0] != ".." {
        assert (segs + [parts[0]])[..|segs|] == segs;
      }
      WalkNoNul(Enter(segs, parts[0]), parts[1..]);
    }
  }

  /** Setting is idempotent: what a path was set to can be set again without a change. */
  lemma SetIsIdempotent(text: string, fileWanted: bool, wantedAgain: bool)
    ensures Set(Set(text, fileWanted).0, wantedAgain) == (Set(text, fileWanted).0, None)
  {
    if Absolute(text) {
      var rest := Terminated(text)[1..];
      var parts := Parts(rest);
      PartsPlain(rest);
      PartsNoNul(rest);
      WalkKeepsSegments([], Directories(parts, fileWanted));
      WalkNoNul([], Directories(parts, fileWanted));
      CanonicalIsKept(Walk([], Directories(parts, fileWanted)), wantedAgain);
    }
  }

  /** One canonical path is a prefix of another one exactly if its segments are. */
  lemma PrefixIsAncestry(a: seq<string>, b: seq<string>)
    requires AllSegments(a) && AllSegments(b)
    ensures Canonical(a) <= Canonical(b) <==> a <= b
    ensures Canonical(a) == Canonical(b) <==> a == b
  {
    if a <= b {
      CanonicalExtends(a, b[|a|..]);
      assert a + b[|a|..] == b;
    }
    if Canonical(a) <= Canonical(b) {
      PrefixParts(a, b);
    }
    if Canonical(a) == Canonical(b) {
      PrefixParts(a, b);
      PrefixParts(b, a);
    }
  }

  lemma {:induction false} CanonicalExtends(a: seq<string>, more: seq<string>)
    ensures Canonical(a) <= Canonical(a + more)
    decreases |more|
  {
    if more == [] {
      assert a + more == a;
    } else {
      CanonicalExtends(a, more[..|more| - 1]);
      assert (a + more)[..|a + more| - 1] == a + more[..|more| - 1];
    }
  }

  lemma PrefixParts(a: seq<string>, b: seq<string>)
    requires AllSegments(a) && AllSegments(b) && Canonical(a) <= Canonical(b)
    ensures a <= b
  {
    var ca, cb := Canonical(a), Canonical(b);
    CanonicalParts(a);
    CanonicalParts(b);
    if a != [] {
      var front, rest := ca[1..|ca| - 1], cb[|ca|..];
      TakenApart(ca, cb);
      PartsAfterSeparator(front, "");
      PartsAfterSeparator(front, rest);
      SameFront(Parts(front), a);
      PrefixOf(a, Parts(rest), b);
    }
  }

  lemma TakenApart(ca: string, cb: string)
    requires |ca| >= 2 && ca[|ca| - 1] == SEPARATOR && ca <= cb
    ensures ca[1..] == ca[1..|ca| - 1] + [SEPARATOR] + ""
    ensures cb[1..] == ca[1..|ca| - 1] + [SEPARATOR] + cb[|ca|..]
  {
    assert cb == ca + cb[|ca|..];
  }

  lemma PrefixOf(a: seq<string>, x: seq<string>, b: seq<string>)
    requires a + x == b + [""] && x != []
    ensures a <= b
  {
    assert |a| <= |b|;
    assert (a + x)[..|a|] == a && (b + [""])[..|a|] == b[..|a|];
  }
}
