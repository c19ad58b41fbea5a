/** The lowest directory that two server paths have in common. */
module ServerPathCommon {
  import opened Text
  import opened ServerPaths

  const NOWHERE := ServerPath(UNIX, None)

  function Common(a: seq<string>, b: seq<string>): (r: seq<string>)
    ensures r <= a && r <= b
  {
    if a != [] && b != [] && a[0] == b[0] then [a[0]] + Common(a[1..], b[1..]) else []
  }

  lemma {:induction false} CommonIsLongest(a: seq<string>, b: seq<string>, x: seq<string>)
    requires x <= a && x <= b
    ensures x <= Common(a, b)
    decreases |a|
  {
    if x != [] {
      assert x[1..] <= a[1..] && x[1..] <= b[1..] && a[0] == x[0] == b[0];
      CommonIsLongest(a[1..], b[1..], x[1..]);
      assert x == [x[0]] + x[1..];
    }
  }

  /** On MVS the last segment of a path without a prefix names a file. */
  function Directories(p: ServerPath): seq<string>
    requires p.data.Some?
  {
    var d := p.data.value;
    if TraitsOf(p.kind).suffixPrefix && d.prefix.None? && d.segments != [] then d.segments[..|d.segments| - 1]
    else d.segments
  }

  /** Where the loop over the segments stops: at the first difference. */
  function Shared(p: ServerPath, q: ServerPath): ServerPath
    requires p.data.Some? && q.data.Some? && p.HasParent()
  {
    var common := Common(Directories(p), Directories(q));
    if common == [] && !TraitsOf(p.kind).hasRoot && Directories(p) != [] && Directories(q) != [] then NOWHERE
    else
      var prefix := if TraitsOf(p.kind).suffixPrefix then p.Parent().data.value.prefix else p.data.value.prefix;
      ServerPath(p.kind, Some(PathData(common, prefix)))
  }

  function CommonParent(p: ServerPath, q: ServerPath): ServerPath {
    if p == q then p
    else if p.Empty() || q.Empty() then NOWHERE
    else if p.kind != q.kind then NOWHERE
    else if !TraitsOf(p.kind).suffixPrefix && p.data.value.prefix != q.data.value.prefix then NOWHERE
    else if !p.HasParent() then if IsSubdirOf(q, p, false, false) then p else NOWHERE
    else if !q.HasParent() then if IsSubdirOf(p, q, false, false) then q else NOWHERE
    else Shared(p, q)
  }

  method GetCommonParent(p: ServerPath, q: ServerPath) returns (r: ServerPath)
    ensures r == CommonParent(p, q)
  {
    if p == q {
      return p;
    }
    if p.Empty() || q.Empty() {
      return NOWHERE;
    }
    var ld, rd := p.data.value, q.data.value;
    if p.kind != q.kind || (!TraitsOf(p.kind).suffixPrefix && ld.prefix != rd.prefix) {
      return NOWHERE;
    }
    if !p.HasParent() {
      var below := CheckSubdir(q, p, false, false);
      return if below then p else NOWHERE;
    } else if !q.HasParent() {
      var below := CheckSubdir(p, q, false, false);
      return if below then q else NOWHERE;
    }
    var last, last2 := |ld.segments|, |rd.segments|;
    var prefix := ld.prefix;
    if TraitsOf(p.kind).suffixPrefix {
      if ld.prefix.None? {
        last := last - 1;
      }
      if rd.prefix.None? {
        last2 := last2 - 1;
      }
      prefix := p.Parent().data.value.prefix;
    }
    assert Directories(p) == ld.segments[..last] && Directories(q) == rd.segments[..last2];
    var segments, differ := CommonSegments(ld.segments, last, rd.segments, last2);
    if differ && !TraitsOf(p.kind).hasRoot && segments == [] {
      return NOWHERE;
    }
    r := ServerPath(p.kind, Some(PathData(segments, prefix)));
  }

  lemma CommonUnfold(a: seq<string>, i: nat, b: seq<string>)
    requires i <= |a| && i <= |b|
    ensures Common(a[i..], b[i..])
         == if i < |a| && i < |b| && a[i] == b[i] then [a[i]] + Common(a[i + 1..], b[i + 1..]) else []
  {
    if i < |a| && i < |b| {
      assert a[i..][1..] == a[i + 1..] && b[i..][1..] == b[i + 1..];
    }
  }

  method CommonSegments(a: seq<string>, last: nat, b: seq<string>, last2: nat)
    returns (segments: seq<string>, differ: bool)
    requires last <= |a| && last2 <= |b|
    ensures segments == Common(a[..last], b[..last2])
    ensures differ <==> |segments| < last && |segments| < last2
  {
    var i := 0;
    segments := [];
    ghost var s, t := a[..last], b[..last2];
    ghost var all := Common(s, t);
    assert s[0..] == s && t[0..] == t && [] + all == all;
    while i != last && i != last2
      invariant 0 <= i <= last && i <= last2
      invariant |segments| == i
      invariant all == segments + Common(s[i..], t[i..])
      decreases last - i
    {
      CommonUnfold(s, i, t);
      if a[i] != b[i] {
        assert segments + [] == segments;
        return segments, true;
      }
      Regroup(segments, [a[i]], Common(s[i + 1..], t[i + 1..]));
      segments := segments + [a[i]];
      i := i + 1;
    }
    CommonUnfold(s, i, t);
    assert segments + [] == segments;
    differ := false;
  }

  // ---------------------------------------------------------------------------------------------
  // It is the lowest common ancestor

  /** Types without a root have no path without segments, and MVS knows just one prefix. */
  predicate Regular(p: ServerPath) {
    && p.data.Some?
    && (!TraitsOf(p.kind).hasRoot ==> p.data.value.segments != [])
    && (TraitsOf(p.kind).suffixPrefix ==> p.data.value.prefix.None? || p.data.value.prefix == Some("."))
  }

  predicate AtOrAbove(x: ServerPath, p: ServerPath) {
    x == p || IsSubdirOf(p, x, false, false)
  }

  lemma AboveByPrefix(x: ServerPath, p: ServerPath)
    requires Regular(x) && Regular(p) && !TraitsOf(p.kind).suffixPrefix
    ensures AtOrAbove(x, p) <==>
            && x.kind == p.kind && x.data.value.prefix == p.data.value.prefix
            && x.data.value.segments <= p.data.value.segments
  {
    var a, b := x.data.value.segments, p.data.value.segments;
    if x.kind == p.kind && IsSubdirOf(p, x, false, false) {
      assert forall i :: 0 <= i < |a| ==> SameSegment(b[i], a[i], false);
      assert a == b[..|a|];
    }
    if a <= b && |a| == |b| {
      assert a == b;
    }
  }

  lemma AboveByDirectories(x: ServerPath, p: ServerPath)
    requires Regular(x) && Regular(p) && TraitsOf(p.kind).suffixPrefix
    ensures AtOrAbove(x, p) <==>
            || x == p
            || (x.kind == p.kind && x.data.value.prefix.Some? && x.data.value.segments < p.data.value.segments)
  {
    var a, b := x.data.value.segments, p.data.value.segments;
    if x.kind == p.kind && IsSubdirOf(p, x, false, false) {
      assert forall i :: 0 <= i < |a| ==> SameSegment(b[i], a[i], false);
      assert a == b[..|a|];
    }
  }

  lemma SharedByPrefix(p: ServerPath, q: ServerPath, x: ServerPath)
    requires Regular(p) && Regular(q) && Regular(x) && p != q && !TraitsOf(p.kind).suffixPrefix
    ensures AtOrAbove(x, p) && AtOrAbove(x, q) <==>
            !CommonParent(p, q).Empty() && AtOrAbove(x, CommonParent(p, q))
  {
    AboveByPrefix(x, p);
    if q.kind == p.kind {
      AboveByPrefix(x, q);
      AboveByPrefix(p, q);
      AboveByPrefix(q, p);
      var a, b, c := p.data.value.segments, q.data.value.segments, x.data.value.segments;
      if c <= a && c <= b {
        CommonIsLongest(a, b, c);
      }
      if p.HasParent() && q.HasParent() && !CommonParent(p, q).Empty() {
        AboveByPrefix(x, CommonParent(p, q));
      }
      SmallPaths(p, q, x);
    } else {
      assert AtOrAbove(x, q) ==> x.kind == q.kind;
    }
  }

  /** Where one path has no parent, only that path itself can be common. */
  lemma SmallPaths(p: ServerPath, q: ServerPath, x: ServerPath)
    requires Regular(p) && Regular(q) && Regular(x)
    ensures !p.HasParent() && AtOrAbove(x, p) ==> x == p
    ensures !q.HasParent() && AtOrAbove(x, q) ==> x == q
  {
  }

  /** What lies at or above both paths is exactly what lies at or above their common parent. */
  lemma LowestCommonAncestor(p: ServerPath, q: ServerPath, x: ServerPath)
    requires Regular(p) && Regular(q) && Regular(x)
    ensures AtOrAbove(x, p) && AtOrAbove(x, q) <==>
            !CommonParent(p, q).Empty() && AtOrAbove(x, CommonParent(p, q))
  {
    if p != q {
      if TraitsOf(p.kind).suffixPrefix {
        SharedByDirectories(p, q, x);
      } else {
        SharedByPrefix(p, q, x);
      }
    }
  }

  lemma SharedByDirectories(p: ServerPath, q: ServerPath, x: ServerPath)
    requires Regular(p) && Regular(q) && Regular(x) && p != q && TraitsOf(p.kind).suffixPrefix
    ensures AtOrAbove(x, p) && AtOrAbove(x, q) <==>
            !CommonParent(p, q).Empty() && AtOrAbove(x, CommonParent(p, q))
  {
    AboveByDirectories(x, p);
    if q.kind == p.kind {
      AboveByDirectories(x, q);
      AboveByDirectories(p, q);
      AboveByDirectories(q, p);
      SmallPaths(p, q, x);
      if p.HasParent() && q.HasParent() {
        BothDeep(p, q, x);
      }
    } else {
      assert AtOrAbove(x, q) ==> x.kind == q.kind;
    }
  }

  lemma BothDeep(p: ServerPath, q: ServerPath, x: ServerPath)
    requires Regular(p) && Regular(q) && Regular(x) && p != q && p.kind == q.kind && TraitsOf(p.kind).suffixPrefix
    requires p.HasParent() && q.HasParent()
    ensures AtOrAbove(x, p) && AtOrAbove(x, q) <==> !Shared(p, q).Empty() && AtOrAbove(x, Shared(p, q))
  {
    AboveByDirectories(x, p);
    AboveByDirectories(x, q);
    var r := Shared(p, q);
    if AtOrAbove(x, p) && AtOrAbove(x, q) {
      InDirectories(x, p, q);
      CommonIsLongest(Directories(p), Directories(q), x.data.value.segments);
    }
    if !r.Empty() {
      SharedAbove(p, q);
      AboveByDirectories(x, r);
      var a, b := x.data.value.segments, r.data.value.segments;
      assert a <= b && |a| == |b| ==> a == b;
      assert r.data.value.prefix == Some(".") && r.kind == p.kind;
    }
  }

  lemma SharedAbove(p: ServerPath, q: ServerPath)
    requires Regular(p) && Regular(q) && p.kind == q.kind && TraitsOf(p.kind).suffixPrefix
    requires p.HasParent() && q.HasParent() && !Shared(p, q).Empty()
    ensures Regular(Shared(p, q))
    ensures Shared(p, q) == p || Shared(p, q).data.value.segments < p.data.value.segments
    ensures Shared(p, q) == q || Shared(p, q).data.value.segments < q.data.value.segments
  {
    var r := Shared(p, q);
    Shorter(r.data.value.segments, p);
    Shorter(r.data.value.segments, q);
  }

  lemma Shorter(a: seq<string>, p: ServerPath)
    requires Regular(p) && TraitsOf(p.kind).suffixPrefix && a <= Directories(p)
    ensures a < p.data.value.segments || (a == p.data.value.segments && p.data.value.prefix == Some("."))
  {
    var b := p.data.value.segments;
    assert a == Directories(p)[..|a|];
    if |a| == |b| {
      assert a == b;
    }
  }

  lemma InDirectories(x: ServerPath, p: ServerPath, q: ServerPath)
    requires Regular(p) && Regular(q) && Regular(x) && p != q && p.kind == q.kind && TraitsOf(p.kind).suffixPrefix
    requires AtOrAbove(x, p) && AtOrAbove(x, q)
    ensures x.kind == p.kind && x.data.value.prefix == Some(".")
    ensures x.data.value.segments <= Directories(p) && x.data.value.segments <= Directories(q)
  {
    AboveByDirectories(x, p);
    AboveByDirectories(x, q);
  }
}
