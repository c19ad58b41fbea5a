/** Parsing a text and printing the path again: which texts come to a path that parses back, and
    how the segment .. can take the drive off a DOS path. */
module ServerPathDrives {
  import opened Text
  import opened ServerPaths
  import opened ServerPathText

  // ---------- a walk over the parts of a text ----------

  /** The parts lead up from where they start, depth levels below the top. */
  predicate Climbs(pieces: seq<string>, depth: nat) {
    pieces != [] &&
    if pieces[0] == "." then Climbs(pieces[1..], depth)
    else if pieces[0] == ".." then depth == 0 || Climbs(pieces[1..], depth - 1)
    else Climbs(pieces[1..], depth + 1)
  }

  /** The segments that the parts come to when nothing is below them. */
  function Folded(t: ServerType, pieces: seq<string>): seq<string> {
    AddAll(t, pieces, [], false).0
  }

  /** A drive at the bottom is taken off exactly by parts that climb; the rest is as without it. */
  lemma {:induction false} WalkAbove(t: ServerType, pieces: seq<string>, drive: string, above: seq<string>)
    requires IsDos(t)
    ensures AddAll(t, pieces, [drive] + above, false).0
         == var rest := AddAll(t, pieces, above, false).0; if Climbs(pieces, |above|) then rest else [drive] + rest
    decreases |pieces|
  {
    if pieces == [] {
    } else if pieces[0] == "." {
      WalkAbove(t, pieces[1..], drive, above);
    } else if pieces[0] == ".." {
      if above == [] {
        assert ([drive] + above)[..0] == [];
        assert AddAll(t, pieces, [drive] + above, false) == AddAll(t, pieces[1..], [], false);
      } else {
        assert ([drive] + above)[..|above|] == [drive] + above[..|above| - 1];
        WalkAbove(t, pieces[1..], drive, above[..|above| - 1]);
      }
    } else {
      assert [drive] + above + [pieces[0]] == [drive] + (above + [pieces[0]]);
      WalkAbove(t, pieces[1..], drive, above + [pieces[0]]);
    }
  }

  // ---------- the drive of a text ----------

  /** The text starts with a drive, which a separator or the end follows. */
  predicate HasDrive(t: ServerType, s: string) {
    0 < FindFirst(s, ':') < |s| && FindFirst(s, ':') + 1 == FindSeparator(t, s)
  }

  /** The parts of the text behind its drive. */
  function Parts(t: ServerType, s: string): seq<string> {
    Pieces(t, "", s[FindSeparator(t, s)..])
  }

  lemma PiecesBehind(t: ServerType, a: string, sep: char, b: string)
    requires IsSeparator(t, sep) && NoSeparator(t, a) && a != ""
    ensures Pieces(t, "", a + [sep] + b) == [a] + Pieces(t, "", [sep] + b)
  {
    PieceWhole(t, a);
    PiecesConcat(t, "", a, sep, b);
    assert ([sep] + b)[1..] == b;
  }

  lemma PiecesAfterDrive(t: ServerType, s: string)
    requires HasDrive(t, s)
    ensures Pieces(t, "", s) == [s[..FindSeparator(t, s)]] + Parts(t, s)
  {
    var sep := FindSeparator(t, s);
    if sep < |s| {
      SplitAt(s, sep);
      PiecesBehind(t, s[..sep], s[sep], s[sep + 1..]);
    } else {
      assert s[..sep] == s && s[sep..] == "";
      PieceWhole(t, s);
    }
  }

  lemma SplitAt(s: string, i: nat)
    requires i < |s|
    ensures s == s[..i] + [s[i]] + s[i + 1..] && s[i..] == [s[i]] + s[i + 1..]
  {}

  lemma DriveIsPushed(t: ServerType, drive: string)
    requires IsDos(t) && ':' in drive
    ensures AddSegment(t, drive, [], false) == ([drive], false)
  {
    assert drive != "." && drive != "..";
    assert [] + [drive] == [drive];
  }

  /** What a text with a drive comes to. */
  lemma WithDrive(t: ServerType, s: string)
    requires IsDos(t) && HasDrive(t, s)
    ensures var drive, rest := s[..FindSeparator(t, s)], Folded(t, Parts(t, s));
            var segments := if Climbs(Parts(t, s), 0) then rest else [drive] + rest;
            Parsed(t, s) == ServerPath(t, if segments == [] then None else Some(PathData(segments, None)))
  {
    var drive, pieces := s[..FindSeparator(t, s)], Parts(t, s);
    PiecesAfterDrive(t, s);
    assert drive[FindFirst(s, ':')] == ':';
    DriveIsPushed(t, drive);
    assert ([drive] + pieces)[1..] == pieces;
    WalkAbove(t, pieces, drive, []);
    assert [drive] + [] == [drive];
  }

  // ---------- texts without a colon ----------

  predicate NoColons(segments: seq<string>) {
    forall i :: 0 <= i < |segments| ==> ':' !in segments[i]
  }

  lemma {:induction false} PiecesNoColons(t: ServerType, cur: string, s: string)
    requires ':' !in cur && ':' !in s
    ensures NoColons(Pieces(t, cur, s))
    decreases |s|
  {
    if s != "" {
      if IsSeparator(t, s[0]) { PiecesNoColons(t, "", s[1..]); } else { PiecesNoColons(t, cur + [s[0]], s[1..]); }
    }
  }

  lemma {:induction false} FoldedNoColons(t: ServerType, pieces: seq<string>, segments: seq<string>)
    requires IsDos(t) && NoColons(pieces) && NoColons(segments)
    ensures NoColons(AddAll(t, pieces, segments, false).0)
    decreases |pieces|
  {
    if pieces != [] {
      FoldedNoColons(t, pieces[1..], AddSegment(t, pieces[0], segments, false).0);
    }
  }

  lemma WithoutColon(t: ServerType, s: string)
    requires IsDos(t) && ':' !in s
    ensures var p := Parsed(t, s); p.data.Some? ==> NoColons(p.data.value.segments)
  {
    PiecesNoColons(t, "", s);
    FoldedNoColons(t, Pieces(t, "", s), []);
  }

  /** A text with a colon is refused, unless the colon ends its drive. */
  lemma WithoutDrive(t: ServerType, s: string)
    requires IsDos(t) && ':' in s && !HasDrive(t, s)
    ensures Parsed(t, s).Empty()
  {
  }

  // ---------- main results ----------

  /** A DOS text whose parts climb above its drive to a path with misplaced colons. */
  predicate LosesDrive(t: ServerType, s: string) {
    && IsDos(t) && HasDrive(t, s) && Climbs(Parts(t, s), 0)
    && Folded(t, Parts(t, s)) != [] && !GoodDrive(Folded(t, Parts(t, s)))
  }

  lemma DriveStays(drive: string, segments: seq<string>)
    requires |drive| > 1 && FindFirst(drive, ':') == |drive| - 1
    ensures GoodDrive([drive] + segments)
  {
    assert forall k :: 0 <= k < |drive| - 1 ==> drive[..|drive| - 1][k] == drive[k];
  }

  lemma DosRoundTrips(t: ServerType, s: string)
    requires IsDos(t)
    ensures var p := Parsed(t, s); p.data.Some? ==> p.data.value.segments != []
    ensures var p := Parsed(t, s); RoundTrips(p) <==> p.Empty() || GoodDrive(p.data.value.segments)
  {
    ParsedDosGood(t, s);
    TextRoundTrip(Parsed(t, s));
  }

  lemma DosNormalizes(t: ServerType, s: string)
    requires IsDos(t)
    ensures RoundTrips(Parsed(t, s)) <==> !LosesDrive(t, s)
  {
    DosRoundTrips(t, s);
    if !HasDrive(t, s) {
      if ':' in s { WithoutDrive(t, s); } else { WithoutColon(t, s); }
    } else {
      WithDrive(t, s);
      if !Climbs(Parts(t, s), 0) {
        var sep := FindSeparator(t, s);
        assert forall k :: 0 <= k < sep ==> s[..sep][k] == s[k];
        DriveStays(s[..sep], Folded(t, Parts(t, s)));
      }
    }
  }

  /** Any text SetPath accepts can be replaced by the printed form of what it was parsed to,
      exactly unless it is a DOS text that loses its drive. */
  lemma ParsingNormalizes(t: ServerType, s: string)
    ensures Parsed(t, PathText(Parsed(t, s))) == Parsed(t, s) <==> !LosesDrive(t, s)
  {
    if IsDos(t) {
      DosNormalizes(t, s);
    } else {
      ParsedGood(t, s);
      TextRoundTrip(Parsed(t, s));
    }
  }

  lemma FourPieces(t: ServerType, a: string, b: string, c: string, d: string)
    requires forall s :: s in {a, b, c, d} ==> s != "" && NoSeparator(t, s)
    ensures Pieces(t, "", a + [Sep(t)] + (b + [Sep(t)] + (c + [Sep(t)] + d))) == [a, b, c, d]
  {
    PieceWhole(t, a); PieceWhole(t, b); PieceWhole(t, c); PieceWhole(t, d);
    PiecesConcat(t, "", c, Sep(t), d);
    PiecesConcat(t, "", b, Sep(t), c + [Sep(t)] + d);
    PiecesConcat(t, "", a, Sep(t), b + [Sep(t)] + (c + [Sep(t)] + d));
  }

  /** After a drive and the segment .. come x and y: the drive is gone. */
  lemma DosDriveDropped(drive: string, x: string, y: string)
    requires |drive| > 1 && Last(drive) == ':' && ':' !in drive[..|drive| - 1] && NoSeparator(DOS, drive)
    requires GoodSegment(DOS, x) && GoodSegment(DOS, y)
    ensures Parsed(DOS, drive + [Sep(DOS)] + (".." + [Sep(DOS)] + (x + [Sep(DOS)] + y)))
         == ServerPath(DOS, Some(PathData([x, y], None)))
  {
    var rest := ".." + [Sep(DOS)] + (x + [Sep(DOS)] + y);
    var s := drive + [Sep(DOS)] + rest;
    DosColon(drive, Sep(DOS), rest);
    assert FindFirst(drive, ':') == |drive| - 1 by {
      assert forall k :: 0 <= k < |drive| - 1 ==> drive[k] == drive[..|drive| - 1][k];
    }
    assert s[|drive|] == Sep(DOS) && forall k :: 0 <= k < |drive| ==> s[k] == drive[k];
    assert FindSeparator(DOS, s) == |drive|;
    FourPieces(DOS, drive, "..", x, y);
    var xs := [drive, "..", x, y];
    AddAllConcat(DOS, [drive, ".."], [x, y], [], false);
    assert xs == [drive, ".."] + [x, y];
    assert AddSegment(DOS, drive, [], false) == ([drive], false);
    assert AddSegment(DOS, "..", [drive], false) == ([], false);
    assert [drive, ".."][1..] == [".."] && [".."][1..] == [];
    assert AddAll(DOS, [drive, ".."], [], false) == ([], false);
    AddAllPlain(DOS, [x, y], []);
    assert [] + [x, y] == [x, y];
    assert Segmentize(DOS, s, []) == Some([x, y]);
  }

  /** On DOS the segment .. can remove the drive; what remains is then printed as a text
      that SetPath refuses. */
  lemma DosDriveRemoved()
    ensures var p := Parsed(DOS, "C:" + ['\\'] + (".." + ['\\'] + ("x" + ['\\'] + "b:c")));
            p.data.Some? && Parsed(DOS, PathText(p)).Empty()
  {
    DosDriveDropped("C:", "x", "b:c");
    var p := ServerPath(DOS, Some(PathData(["x", "b:c"], None)));
    var rest := DosText(p);
    DosColon("x", '\\', rest);
    assert ':' in p.data.value.segments[1];
  }
}
