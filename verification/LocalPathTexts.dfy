/**
 * What the texts of local paths mean, step by step: any text takes as many steps as it has parts, and
 * each single step has a known result.
 */
module LocalPathTexts {
  import opened Text
  import opened LocalPaths
  import opened LocalPathObjects

  /** The segments of what a text is set to. */
  lemma SegmentsOf(text: string) returns (segs: seq<string>)
    requires Absolute(text)
    ensures AllSegments(segs) && NoNul(Canonical(segs)) && Set(text, false).0 == Canonical(segs)
    ensures segs == Walk([], Parts(Terminated(text)[1..]))
  {
    var rest := Terminated(text)[1..];
    segs := Walk([], Parts(rest));
    PartsPlain(rest);
    PartsNoNul(rest);
    WalkKeepsSegments([], Parts(rest));
    WalkNoNul([], Parts(rest));
  }

  lemma WalkOne(segs: seq<string>, part: string)
    ensures Walk(segs, [part]) == Enter(segs, part)
  {
    assert [part][1..] == [];
  }

  lemma WalkTwo(segs: seq<string>, a: string, b: string)
    ensures Walk(segs, [a, b]) == Enter(Enter(segs, a), b)
  {
    assert [a, b][1..] == [b];
    WalkOne(Enter(segs, a), b);
  }

  lemma LastPart(parts: seq<string>, last: string)
    ensures (parts + [last])[..|parts|] == parts
  {
  }

  /** A name at the end names a file, or a directory if no file is wanted. */
  lemma NameBehind(segs: seq<string>, name: string)
    requires AllSegments(segs) && NoNul(Canonical(segs)) && IsSegment(name) && NoNul(name)
    ensures Set(Canonical(segs) + name, true) == (Canonical(segs), Some(name))
    ensures Set(Canonical(segs) + name, false) == (Canonical(segs) + name + "/", None)
  {
    PartsOfPlain(name);
    ChangingWalks(segs, name, true);
    ChangingWalks(segs, name, false);
    LastPart([], name);
    assert [] + [name] == [name];
    WalkOne(segs, name);
    LastPart(segs, name);
  }

  /** A name and a separator name a directory. */
  lemma DirectoryBehind(segs: seq<string>, name: string, fileWanted: bool)
    requires AllSegments(segs) && NoNul(Canonical(segs)) && IsSegment(name) && NoNul(name)
    ensures Set(Canonical(segs) + (name + "/"), fileWanted) == (Canonical(segs) + name + "/", None)
  {
    PartsOfPlain(name);
    PartsAfterSeparator(name, "");
    assert name + [SEPARATOR] + "" == name + "/" && [name] + [""] == [name, ""];
    ChangingWalks(segs, name + "/", fileWanted);
    WalkTwo(segs, name, "");
    LastPart(segs, name);
  }

  lemma UpBehind(segs: seq<string>, name: string, fileWanted: bool)
    requires AllSegments(segs) && NoNul(Canonical(segs)) && IsSegment(name) && NoNul(name)
    ensures Set(Canonical(segs) + (name + "/.."), fileWanted) == (Canonical(segs), None)
  {
    PartsOfPlain(name);
    PartsOfPlain("..");
    PartsAfterSeparator(name, "..");
    assert name + [SEPARATOR] + ".." == name + "/.." && [name] + [".."] == [name, ".."];
    ChangingWalks(segs, name + "/..", fileWanted);
    WalkTwo(segs, name, "..");
    LastPart(segs, name);
  }

  lemma NothingBehind(segs: seq<string>, fileWanted: bool)
    requires AllSegments(segs) && NoNul(Canonical(segs))
    ensures Set(Canonical(segs) + ".", fileWanted) == (Canonical(segs), None)
    ensures Set(Canonical(segs) + "/", fileWanted) == (Canonical(segs), None)
  {
    PartsOfPlain(".");
    ChangingWalks(segs, ".", fileWanted);
    WalkOne(segs, ".");
    PartsAfterSeparator("", "");
    assert "" + [SEPARATOR] + "" == "/" && Parts("") == [""] && [""] + [""] == ["", ""];
    ChangingWalks(segs, "/", fileWanted);
    WalkTwo(segs, "", "");
  }

  /** A single step from any path: down into a directory, to a file in it, up again, or nowhere. */
  lemma StepsMean(text: string, name: string, fileWanted: bool)
    requires text != "" && text[0] == '/'
    requires name != "" && name != "." && name != ".." && '/' !in name && '\0' !in name
    ensures var c := Set(text, false).0;
            && Set(c, fileWanted) == (c, None)
            && Set(c + name, true) == (c, Some(name))
            && Set(c + name, false) == (c + name + "/", None)
            && Set(c + (name + "/"), fileWanted) == (c + name + "/", None)
            && Set(c + (name + "/.."), fileWanted) == (c, None)
            && Set(c + ".", fileWanted) == (c, None)
            && Set(c + "/", fileWanted) == (c, None)
  {
    var segs := SegmentsOf(text);
    StepsBehind(segs, Set(text, false).0, name, fileWanted);
  }

  lemma StepsBehind(segs: seq<string>, c: string, name: string, fileWanted: bool)
    requires AllSegments(segs) && NoNul(c) && c == Canonical(segs)
    requires name != "" && name != "." && name != ".." && '/' !in name && '\0' !in name
    ensures Set(c, fileWanted) == (c, None)
    ensures Set(c + name, true) == (c, Some(name))
    ensures Set(c + name, false) == (c + name + "/", None)
    ensures Set(c + (name + "/"), fileWanted) == (c + name + "/", None)
    ensures Set(c + (name + "/.."), fileWanted) == (c, None)
    ensures Set(c + ".", fileWanted) == (c, None)
    ensures Set(c + "/", fileWanted) == (c, None)
  {
    CanonicalIsKept(segs, fileWanted);
    NameBehind(segs, name);
    DirectoryBehind(segs, name, fileWanted);
    UpBehind(segs, name, fileWanted);
    NothingBehind(segs, fileWanted);
  }

  /** At the root, a step up leads nowhere. */
  lemma RootMeans(fileWanted: bool)
    ensures Set("/", fileWanted) == ("/", None) && Set("/..", fileWanted) == ("/", None)
  {
    CanonicalIsKept([], fileWanted);
    assert Canonical([]) == "/" && "/" + ".." == "/..";
    PartsOfPlain("..");
    ChangingWalks([], "..", fileWanted);
    WalkOne([], "..");
  }

  /** A text may be cut behind any separator: the rest walks on from where the front leads. What
      follows a NUL is ignored. */
  lemma TextsCompose(a: string, b: string, fileWanted: bool)
    requires a != "" && a[0] == '/' && '\0' !in a && '\0' !in b
    ensures Set(a + "/" + b, fileWanted) == Set(Set(a, false).0 + b, fileWanted)
  {
    var segs := SegmentsOf(a);
    TerminatedWhole(a);
    var text := a + "/" + b;
    assert text[1..] == a[1..] + [SEPARATOR] + b;
    PartsAfterSeparator(a[1..], b);
    SetByParts(text, fileWanted, Parts(a[1..]) + Parts(b));
    DirectoriesBehind(Parts(a[1..]), Parts(b), fileWanted);
    WalkAppend([], Parts(a[1..]), Directories(Parts(b), fileWanted));
    ChangingWalks(segs, b, fileWanted);
  }

  lemma {:induction false} NulEnds(a: string, b: string)
    requires '\0' !in a
    ensures Terminated(a + "\0" + b) == a
  {
    var s := a + "\0" + b;
    if a == "" {
      assert s == "\0" + b;
    } else {
      assert s[1..] == a[1..] + "\0" + b;
      NulEnds(a[1..], b);
    }
  }

  lemma NulEndsText(a: string, b: string, fileWanted: bool)
    requires a != "" && '\0' !in a
    ensures Set(a + "\0" + b, fileWanted) == Set(a, fileWanted)
  {
    NulEnds(a, b);
    TerminatedWhole(a);
  }

  /** A text that does not begin with a separator leaves the path empty. */
  lemma RelativeIsRefused(text: string, fileWanted: bool)
    ensures Set(text, fileWanted).0 == "" <==> text == "" || text[0] != '/'
  {
    if text != "" && text[0] == '/' {
      var segs := SegmentsOf(text);
    }
  }
}
