/** Server paths of ten syntaxes: structure, ordering, ancestry, printing and parsing. */
module ServerPaths {
  import opened Text

  datatype ServerType =
    | UNIX | VMS | DOS | MVS | VXWORKS | ZVM | HPNONSTOP | DOS_VIRTUAL | CYGWIN | DOS_FWD_SLASHES

  const SERVERTYPE_MAX: nat := 10

  function Number(t: ServerType): (n: nat)
    ensures n < SERVERTYPE_MAX
  {
    match t
    case UNIX => 0 case VMS => 1 case DOS => 2 case MVS => 3 case VXWORKS => 4
    case ZVM => 5 case HPNONSTOP => 6 case DOS_VIRTUAL => 7 case CYGWIN => 8 case DOS_FWD_SLASHES => 9
  }

  /** What distinguishes the path syntaxes. The first separator is the printed one. */
  datatype Traits = Traits(
    separator: char, otherSeparator: char, hasRoot: bool, left: Option<char>, right: Option<char>,
    suffixPrefix: bool, escape: Option<char>, hasDots: bool, separatorAfterPrefix: bool)

  function TraitsOf(t: ServerType): Traits {
    match t
    case UNIX            => Traits('/',  '/',  true,  None,       None,       false, None,      true,  false)
    case VMS             => Traits('.',  '.',  false, Some('['),  Some(']'),  false, Some('^'), false, false)
    case DOS             => Traits('\\', '/',  false, None,       None,       false, None,      true,  false)
    case MVS             => Traits('.',  '.',  false, Some('\''), Some('\''), true,  None,      false, false)
    case VXWORKS         => Traits('/',  '/',  true,  None,       None,       false, None,      true,  false)
    case ZVM             => Traits('/',  '/',  true,  None,       None,       false, None,      true,  false)
    case HPNONSTOP       => Traits('.',  '.',  false, None,       None,       false, None,      false, false)
    case DOS_VIRTUAL     => Traits('\\', '\\', true,  None,       None,       false, None,      true,  false)
    case CYGWIN          => Traits('/',  '/',  true,  None,       None,       false, None,      true,  true)
    case DOS_FWD_SLASHES => Traits('/',  '\\', false, None,       None,       false, None,      true,  false)
  }

  function Sep(t: ServerType): char { TraitsOf(t).separator }

  predicate IsSeparator(t: ServerType, c: char) {
    c == TraitsOf(t).separator || c == TraitsOf(t).otherSeparator
  }

  /** Position of the first separator in s, or |s| when there is none. */
  function FindSeparator(t: ServerType, s: string): (i: nat)
    ensures i <= |s|
    ensures forall k :: 0 <= k < i ==> !IsSeparator(t, s[k])
    ensures i < |s| ==> IsSeparator(t, s[i])
  {
    if s == [] || IsSeparator(t, s[0]) then 0 else 1 + FindSeparator(t, s[1..])
  }

  predicate IsDos(t: ServerType) { t == DOS || t == DOS_FWD_SLASHES }

  datatype PathData = PathData(segments: seq<string>, prefix: Option<string>)

  /** A path without data is the empty path; it still has a type. */
  datatype ServerPath = ServerPath(kind: ServerType, data: Option<PathData>) {
    predicate Empty() { data.None? }

    predicate HasParent() {
      data.Some? &&
      if TraitsOf(kind).hasRoot then data.value.segments != [] else |data.value.segments| > 1
    }

    function Cleared(): ServerPath { ServerPath(kind, None) }

    function Parent(): ServerPath {
      if !HasParent() then Cleared()
      else
        var d := data.value;
        ServerPath(kind, Some(PathData(d.segments[..|d.segments| - 1],
                                       if kind == MVS then Some(".") else d.prefix)))
    }

    /** AddSegment: fails, leaving the path alone, on the empty path. */
    function Child(segment: string): ServerPath {
      if data.None? then this
      else ServerPath(kind, Some(data.value.(segments := data.value.segments + [segment])))
    }
  }

  // ---------- ancestry ----------

  predicate SameSegment(a: string, b: string, noCase: bool) {
    if noCase then EqualNoCase(a, b) else a == b
  }

  predicate SamePrefix(a: Option<string>, b: Option<string>, noCase: bool) {
    if noCase then a.Some? == b.Some? && (a.Some? ==> EqualNoCase(a.value, b.value)) else a == b
  }

  /** p lies below q (or at q, when allowEqual). */
  predicate IsSubdirOf(p: ServerPath, q: ServerPath, noCase: bool, allowEqual: bool) {
    && p.data.Some? && q.data.Some? && p.kind == q.kind && p.HasParent()
    && (if TraitsOf(p.kind).suffixPrefix then q.data.value.prefix.Some?
        else SamePrefix(p.data.value.prefix, q.data.value.prefix, noCase))
    && (|q.data.value.segments| < |p.data.value.segments|
        || (allowEqual && |q.data.value.segments| == |p.data.value.segments|))
    && forall i :: 0 <= i < |q.data.value.segments| ==>
         SameSegment(p.data.value.segments[i], q.data.value.segments[i], noCase)
  }

  predicate IsParentOf(q: ServerPath, p: ServerPath, noCase: bool, allowEqual: bool) {
    IsSubdirOf(p, q, noCase, allowEqual)
  }

  /** The comparison loop of IsSubdirOf. */
  method CheckSubdir(p: ServerPath, q: ServerPath, noCase: bool, allowEqual: bool) returns (r: bool)
    ensures r == IsSubdirOf(p, q, noCase, allowEqual)
  {
    if p.Empty() || q.Empty() || p.kind != q.kind || !p.HasParent() { return false; }
    var ld, rd := p.data.value, q.data.value;
    if !TraitsOf(p.kind).suffixPrefix {
      if !SamePrefix(ld.prefix, rd.prefix, noCase) { return false; }
    } else if rd.prefix.None? {
      return false;
    }
    var i := 0;
    while i < |ld.segments|
      invariant 0 <= i <= |ld.segments| && i <= |rd.segments|
      invariant forall k :: 0 <= k < i ==> SameSegment(ld.segments[k], rd.segments[k], noCase)
    {
      if i == |rd.segments| { return true; }
      if !SameSegment(ld.segments[i], rd.segments[i], noCase) { return false; }
      i := i + 1;
    }
    return allowEqual && i == |rd.segments|;
  }

  /** p strictly below q: as many more segments as one likes behind those of q. */
  predicate Below(p: ServerPath, q: ServerPath) {
    && p.data.Some? && q.data.Some? && p.kind == q.kind
    && q.data.value.segments < p.data.value.segments
    && (p.kind in {UNIX, VXWORKS, ZVM, DOS_VIRTUAL, CYGWIN} || |p.data.value.segments| >= 2)
    && (if p.kind == MVS then q.data.value.prefix != None else p.data.value.prefix == q.data.value.prefix)
  }

  function LowerPath(p: ServerPath): ServerPath {
    match p.data
    case None => p
    case Some(d) =>
      var segments := seq(|d.segments|, i requires 0 <= i < |d.segments| => Lower(d.segments[i]));
      ServerPath(p.kind, Some(PathData(segments, if d.prefix.Some? then Some(Lower(d.prefix.value)) else None)))
  }

  /** Ancestry is a matter of what a path starts with; without regard to case, of what it starts
      with in lower case. A prefix on MVS only has to be there. */
  lemma AncestryMeans(p: ServerPath, q: ServerPath)
    ensures IsSubdirOf(p, q, false, false) <==> Below(p, q)
    ensures IsSubdirOf(p, q, true, false) <==> Below(LowerPath(p), LowerPath(q))
    ensures IsSubdirOf(p, p, false, true) <==> p.HasParent() && (p.kind == MVS ==> p.data.value.prefix != None)
  {
    RootedTypes(p.kind);
    if p.data.Some? && q.data.Some? {
      var a, b := LowerPath(p).data.value, LowerPath(q).data.value;
      PrefixMeans(p.data.value.segments, q.data.value.segments);
      PrefixMeans(a.segments, b.segments);
      assert forall i :: 0 <= i < |q.data.value.segments| && i < |a.segments| ==>
        (a.segments[i] == b.segments[i] <==> EqualNoCase(p.data.value.segments[i], q.data.value.segments[i]));
    }
  }

  lemma RootedTypes(t: ServerType)
    ensures TraitsOf(t).hasRoot <==> t in {UNIX, VXWORKS, ZVM, DOS_VIRTUAL, CYGWIN}
    ensures TraitsOf(t).suffixPrefix <==> t == MVS
  {
  }

  lemma PrefixMeans<T>(a: seq<T>, b: seq<T>)
    ensures b < a <==> |b| < |a| && forall i :: 0 <= i < |b| ==> a[i] == b[i]
  {
  }

  /** Going up undoes going down; below the top of a path without a root there is nothing. On MVS the
      way up always leaves a single dot as the prefix. */
  lemma ParentOfChild(p: ServerPath, name: string)
    requires p.data.Some?
    ensures var q := p.Child(name).Parent();
            if p.data.value.segments == [] && p.kind !in {UNIX, VXWORKS, ZVM, DOS_VIRTUAL, CYGWIN} then q.Empty()
            else if p.kind == MVS then q == ServerPath(MVS, Some(PathData(p.data.value.segments, Some("."))))
            else q == p
    ensures Below(p.Child(name), p) <==>
              && (p.data.value.segments != [] || p.kind in {UNIX, VXWORKS, ZVM, DOS_VIRTUAL, CYGWIN})
              && (p.kind == MVS ==> p.data.value.prefix != None)
  {
    RootedTypes(p.kind);
    var all := p.data.value.segments + [name];
    assert all[..|all| - 1] == p.data.value.segments;
  }

  predicate EqualNoCasePath(p: ServerPath, q: ServerPath) {
    && p.Empty() == q.Empty()
    && (!p.Empty() ==>
          && p.kind == q.kind
          && |p.data.value.segments| == |q.data.value.segments|
          && SamePrefix(p.data.value.prefix, q.data.value.prefix, true)
          && forall i :: 0 <= i < |p.data.value.segments| ==>
               EqualNoCase(p.data.value.segments[i], q.data.value.segments[i]))
  }

  // ---------- ordering ----------

  predicate LessPrefix(a: Option<string>, b: Option<string>) {
    b.Some? && (a.None? || Less(a.value, b.value))
  }

  /** operator<: the order of the directory cache's per-server sets. */
  predicate PathLess(p: ServerPath, q: ServerPath) {
    if p.Empty() then !q.Empty()
    else if q.Empty() then false
    else
      var ld, rd := p.data.value, q.data.value;
      if LessPrefix(ld.prefix, rd.prefix) then true
      else if LessPrefix(rd.prefix, ld.prefix) then false
      else if p.kind != q.kind then Number(p.kind) < Number(q.kind)
      else LessList(ld.segments, rd.segments)
  }

  lemma NumberInjective(s: ServerType, t: ServerType)
    ensures Number(s) == Number(t) ==> s == t
  {}

  lemma LessPrefixOrder(a: Option<string>, b: Option<string>, c: Option<string>)
    ensures !LessPrefix(a, a)
    ensures LessPrefix(a, b) || a == b || LessPrefix(b, a)
    ensures LessPrefix(a, b) && LessPrefix(b, c) ==> LessPrefix(a, c)
    ensures LessPrefix(a, b) ==> !LessPrefix(b, a)
  {
    if a.Some? { LessIrreflexive(a.value); }
    if a.Some? && b.Some? {
      LessTotal(a.value, b.value);
      if Less(a.value, b.value) && Less(b.value, a.value) { LessTransitive(a.value, b.value, a.value); }
      if c.Some? && Less(a.value, b.value) && Less(b.value, c.value) { LessTransitive(a.value, b.value, c.value); }
    }
  }

  /** operator< is a strict order whose incomparable paths are the equal ones and, its one
      quirk, any two empty paths, which operator== tells apart by type. */
  lemma PathLessTrichotomy(p: ServerPath, q: ServerPath)
    ensures !(PathLess(p, q) && PathLess(q, p))
    ensures !PathLess(p, q) && !PathLess(q, p) <==> p == q || (p.Empty() && q.Empty())
  {
    NumberInjective(p.kind, q.kind);
    if !p.Empty() && !q.Empty() {
      var ld, rd := p.data.value, q.data.value;
      LessPrefixOrder(ld.prefix, rd.prefix, ld.prefix);
      LessListTotal(ld.segments, rd.segments);
      LessListIrreflexive(ld.segments);
      if LessList(ld.segments, rd.segments) && LessList(rd.segments, ld.segments) {
        LessListTransitive(ld.segments, rd.segments, ld.segments);
      }
      if ld.prefix == rd.prefix { LessPrefixOrder(ld.prefix, ld.prefix, ld.prefix); }
    }
  }

  lemma PathLessTransitive(p: ServerPath, q: ServerPath, r: ServerPath)
    requires PathLess(p, q) && PathLess(q, r)
    ensures PathLess(p, r)
  {
    if !p.Empty() && !q.Empty() && !r.Empty() {
      var a, b, c := p.data.value, q.data.value, r.data.value;
      LessPrefixOrder(a.prefix, b.prefix, c.prefix);
      LessPrefixOrder(b.prefix, c.prefix, a.prefix);
      LessPrefixOrder(a.prefix, c.prefix, b.prefix);
      if p.kind == q.kind == r.kind && LessList(a.segments, b.segments) && LessList(b.segments, c.segments) {
        LessListTransitive(a.segments, b.segments, c.segments);
      }
    }
  }

  /** The empty paths of two types: neither less than the other, yet different. */
  lemma EmptyPathsQuirk()
    ensures var p, q := ServerPath(UNIX, None), ServerPath(DOS, None);
            !PathLess(p, q) && !PathLess(q, p) && p != q
  {}

  lemma LowerPrefix(a: Option<string>, b: Option<string>)
    ensures SamePrefix(a, b, true) <==>
              match (a, b)
              case (None, None) => true
              case (Some(x), Some(y)) => Lower(x) == Lower(y)
              case _ => false
  {
  }

  /** Two paths are equal without regard to case exactly if both are empty, whatever their types, or they
      are equal in lower case. */
  lemma EqualNoCaseMeans(p: ServerPath, q: ServerPath)
    ensures EqualNoCasePath(p, q) <==>
              (p.data.None? && q.data.None?) || (p.data.Some? && q.data.Some? && LowerPath(p) == LowerPath(q))
  {
    if p.data.Some? && q.data.Some? {
      var a, b := LowerPath(p).data.value, LowerPath(q).data.value;
      LowerPrefix(p.data.value.prefix, q.data.value.prefix);
      if EqualNoCasePath(p, q) { assert a.segments == b.segments; }
      if a.segments == b.segments {
        forall i | 0 <= i < |p.data.value.segments|
          ensures EqualNoCase(p.data.value.segments[i], q.data.value.segments[i])
        {
          assert a.segments[i] == b.segments[i];
        }
      }
    }
  }

  const IN_ORDER := [UNIX, VMS, DOS, MVS, VXWORKS, ZVM, HPNONSTOP, DOS_VIRTUAL, CYGWIN, DOS_FWD_SLASHES]

  /** Paths are ordered by prefix, none being the least; then by type, in the order of the types; then
      by their segments, of which the first that differ decide. */
  lemma PathLessMeans(p: ServerPath, q: ServerPath)
    requires p.data.Some? && q.data.Some?
    ensures var a, b := p.data.value, q.data.value;
            && (a.prefix == None && b.prefix != None ==> PathLess(p, q))
            && (a.prefix != None && b.prefix != None && Less(a.prefix.value, b.prefix.value) ==> PathLess(p, q))
            && (a.prefix == b.prefix && p.kind == q.kind ==> (PathLess(p, q) <==> LessList(a.segments, b.segments)))
    ensures p.data.value.prefix == q.data.value.prefix && p.kind != q.kind ==>
              (PathLess(p, q) <==> exists i, k :: 0 <= i < k < 10 && IN_ORDER[i] == p.kind && IN_ORDER[k] == q.kind)
  {
    LessPrefixOrder(p.data.value.prefix, q.data.value.prefix, p.data.value.prefix);
    TypesInOrder(p.kind);
    TypesInOrder(q.kind);
  }

  lemma TypesInOrder(t: ServerType)
    ensures IN_ORDER[Number(t)] == t && forall i :: 0 <= i < 10 && IN_ORDER[i] == t ==> i == Number(t)
  {
  }
}
