/** What the operations of the directory cache do to the entries of the listings: which one goes, which
    one comes, which one is renamed, and that all others stay. */
module DirectoryCacheEdits {
  import opened Text
  import opened ServerPaths
  import ServerPathText
  import opened DirectoryListings
  import opened DirectoryCaches
  import opened DirectoryCacheOps

  // ---------- said of two lists of entries ----------

  /** Entry i is the first of that name. */
  predicate FirstOf(entries: seq<Entry>, i: int, name: string) {
    0 <= i < |entries| && entries[i].name == name && forall k :: 0 <= k < i ==> entries[k].name != name
  }

  predicate Absent(entries: seq<Entry>, name: string) {
    forall k :: 0 <= k < |entries| ==> entries[k].name != name
  }

  predicate DistinctNames(entries: seq<Entry>) {
    forall i, k :: 0 <= i < k < |entries| ==> entries[i].name != entries[k].name
  }

  /** The same entry, marked as unsure or not. */
  predicate Alike(a: Entry, b: Entry) {
    b.(unsure := a.unsure) == a
  }

  /** The first n entries of that name in any case are marked as unsure, and nothing else is changed. */
  predicate MarkedFrom(before: seq<Entry>, after: seq<Entry>, name: string, n: int) {
    && |after| == |before|
    && forall k :: 0 <= k < |before| ==>
         Alike(after[k], before[k])
         && (after[k].unsure <==> before[k].unsure || (k < n && EqualNoCase(before[k].name, name)))
  }

  /** Entry i is gone, and the others are as they were and in order. */
  predicate WithoutAt(before: seq<Entry>, after: seq<Entry>, i: int) {
    && 0 <= i < |before| && |after| == |before| - 1
    && forall k :: 0 <= k < |after| ==> after[k] == before[if k < i then k else k + 1]
  }

  /** RemoveFile: the first entry of that name goes; if there is none, those of that name in another
      case become unsure. */
  ghost predicate Removed(before: seq<Entry>, after: seq<Entry>, name: string) {
    if Absent(before, name) then MarkedFrom(before, after, name, |before|)
    else exists i :: FirstOf(before, i, name) && WithoutAt(before, after, i)
  }

  predicate IsNew(e: Entry, name: string, kind: Filetype, size: int, ownerGroup: string) {
    && e.name == name && e.size == size && e.ownerGroup == ownerGroup && e.permissions == ""
    && (e.isDir <==> kind == Dir) && !e.isLink && e.unsure
  }

  /** UpdateFile: an entry of that name becomes unsure; if there is none, one is added if its kind is
      known and it may be created. */
  ghost predicate Updated(before: seq<Entry>, after: seq<Entry>, name: string, mayCreate: bool, kind: Filetype,
                          size: int, ownerGroup: string) {
    if !Absent(before, name) then
      exists i :: FirstOf(before, i, name) && MarkedFrom(before, after, name, i + 1)
    else if mayCreate && kind != Unknown then
      && |after| == |before| + 1 && IsNew(after[|before|], name, kind, size, ownerGroup)
      && MarkedFrom(before, after[..|before|], name, |before|)
    else MarkedFrom(before, after, name, |before|)
  }

  // ---------- one listing ----------

  lemma FirstNamedIs(entries: seq<Entry>, name: string)
    ensures var i := FirstNamed(entries, name);
            if Absent(entries, name) then i == |entries| else FirstOf(entries, i, name)
  {
  }

  lemma EditRemoves(l: Listing, name: string)
    ensures Removed(l.entries, Edited(l, Remove(name)).entries, name)
  {
    FirstNamedIs(l.entries, name);
    var i := FirstNamed(l.entries, name);
    if !Absent(l.entries, name) { assert WithoutAt(l.entries, Edited(l, Remove(name)).entries, i); }
  }

  lemma EditUpdates(l: Listing, name: string, mayCreate: bool, kind: Filetype, size: int, ownerGroup: string)
    ensures Updated(l.entries, Edited(l, Update(name, mayCreate, kind, size, ownerGroup)).entries,
                    name, mayCreate, kind, size, ownerGroup)
  {
    FirstNamedIs(l.entries, name);
    var i := FirstNamed(l.entries, name);
    var after := Edited(l, Update(name, mayCreate, kind, size, ownerGroup)).entries;
    if !Absent(l.entries, name) {
      assert MarkedFrom(l.entries, after, name, i + 1);
    } else {
      assert Marked(l.entries, name, true, i + 1) == Marked(l.entries, name, true, |l.entries|);
    }
  }

  lemma WithoutCounts(before: seq<Entry>, after: seq<Entry>, i: int)
    requires WithoutAt(before, after, i)
    ensures multiset(after) == multiset(before) - multiset{before[i]}
  {
    assert before == before[..i] + [before[i]] + before[i + 1..];
    assert after == before[..i] + before[i + 1..];
  }

  lemma WithoutHolds(before: seq<Entry>, after: seq<Entry>, i: int)
    requires WithoutAt(before, after, i) && DistinctNames(before)
    ensures forall e :: e in after <==> e in before && e.name != before[i].name
  {
    forall e | e in before && e.name != before[i].name ensures e in after {
      var j :| 0 <= j < |before| && before[j] == e;
      assert after[if j < i then j else j - 1] == e;
    }
    forall e | e in after ensures e in before && e.name != before[i].name {
      var j :| 0 <= j < |after| && after[j] == e;
      assert before[if j < i then j else j + 1] == e;
    }
  }

  /** The entries as a whole: one less, and with distinct names none of that name and all others. */
  lemma RemovedMeans(before: seq<Entry>, after: seq<Entry>, name: string, i: int)
    requires FirstOf(before, i, name) && Removed(before, after, name)
    ensures multiset(after) == multiset(before) - multiset{before[i]}
    ensures DistinctNames(before) ==> forall e :: e in after <==> e in before && e.name != name
  {
    var k :| FirstOf(before, k, name) && WithoutAt(before, after, k);
    WithoutCounts(before, after, k);
    if DistinctNames(before) { WithoutHolds(before, after, k); }
  }

  // ---------- the operations ----------

  /** RemoveFile, on every listing of that path in any case, and on no other. */
  lemma RemoveFileEffect(s: State, t: State, server: Server, path: ServerPath, name: string)
    requires server in s.servers && UpdateFileRel(s, t, server, path, Remove(name))
    ensures t.cache.Keys == s.cache.Keys
    ensures forall k :: k in s.cache && k.server == server && EqualNoCasePath(path, k.path) ==>
              Removed(s.cache[k].listing.entries, t.cache[k].listing.entries, name)
    ensures forall k :: k in s.cache && !(k.server == server && EqualNoCasePath(path, k.path)) ==>
              t.cache[k] == s.cache[k]
  {
    forall k | k in s.cache && k.server == server && EqualNoCasePath(path, k.path)
      ensures Removed(s.cache[k].listing.entries, t.cache[k].listing.entries, name)
    {
      EditRemoves(s.cache[k].listing, name);
    }
  }

  /** UpdateFile, on every listing of that path in any case, and on no other. */
  lemma UpdateFileEffect(s: State, t: State, server: Server, path: ServerPath, name: string, mayCreate: bool,
                         kind: Filetype, size: int, ownerGroup: string)
    requires server in s.servers && UpdateFileRel(s, t, server, path, Update(name, mayCreate, kind, size, ownerGroup))
    ensures t.cache.Keys == s.cache.Keys
    ensures forall k :: k in s.cache && k.server == server && EqualNoCasePath(path, k.path) ==>
              Updated(s.cache[k].listing.entries, t.cache[k].listing.entries, name, mayCreate, kind, size, ownerGroup)
    ensures forall k :: k in s.cache && !(k.server == server && EqualNoCasePath(path, k.path)) ==>
              t.cache[k] == s.cache[k]
  {
    forall k | k in s.cache && k.server == server && EqualNoCasePath(path, k.path)
      ensures Updated(s.cache[k].listing.entries, t.cache[k].listing.entries, name, mayCreate, kind, size, ownerGroup)
    {
      EditUpdates(s.cache[k].listing, name, mayCreate, kind, size, ownerGroup);
    }
  }

  /** Entry i got another name, and is unsure. */
  predicate RenamedAt(before: seq<Entry>, after: seq<Entry>, i: int, name: string) {
    && 0 <= i < |before| && |after| == |before|
    && after[i] == before[i].(name := name, unsure := true)
    && forall k :: 0 <= k < |before| && k != i ==> after[k] == before[k]
  }

  lemma RenamedEntryIs(l: Listing, i: nat, name: string)
    requires i < |l.entries|
    ensures RenamedAt(l.entries, RenamedEntry(l, i, name).entries, i, name)
  {
  }

  /** The two halves of renaming within a directory. */
  lemma RenameMiddle(a: State, t: State, server: Server, path: ServerPath, from: string, to: string) returns (m: State)
    requires RenameWithinRel(a, t, server, path, from, to) && server in a.servers && CacheKey(server, path) in a.cache
    ensures CacheKey(server, path) in m.cache && RenameEntryRel(m, t, server, path, from, to)
    ensures Removed(a.cache[CacheKey(server, path)].listing.entries,
                    m.cache[CacheKey(server, path)].listing.entries, to)
  {
    m :| UpdateFileRel(a, m, server, path, Remove(to)) && CacheKey(server, path) in m.cache
      && RenameEntryRel(m, t, server, path, from, to);
    assert EqualNoCasePath(path, path);
    RemoveFileEffect(a, m, server, path, to);
  }

  lemma RenameEntryEffect(m: State, t: State, server: Server, path: ServerPath, from: string, to: string, k: int)
    requires CacheKey(server, path) in m.cache && RenameEntryRel(m, t, server, path, from, to)
    requires FirstOf(m.cache[CacheKey(server, path)].listing.entries, k, from)
    requires !m.cache[CacheKey(server, path)].listing.entries[k].isDir
    ensures CacheKey(server, path) in t.cache
    ensures RenamedAt(m.cache[CacheKey(server, path)].listing.entries,
                      t.cache[CacheKey(server, path)].listing.entries, k, to)
  {
    FirstNamedIs(m.cache[CacheKey(server, path)].listing.entries, from);
    RenamedEntryIs(m.cache[CacheKey(server, path)].listing, k, to);
  }

  /** Renaming a file within its directory: the new name is removed first, and then the first entry of
      the old name gets the new one. */
  lemma RenameFileEffect(s: State, t: State, server: Server, path: ServerPath, from: string, to: string, i: int)
    returns (middle: seq<Entry>)
    requires Inv(s) && server in s.servers && CacheKey(server, path) in s.cache
    requires RenameRel(s, t, server, path, from, path, to)
    requires FirstOf(s.cache[CacheKey(server, path)].listing.entries, i, from)
    requires !s.cache[CacheKey(server, path)].listing.entries[i].isDir && from != to
    ensures CacheKey(server, path) in t.cache
    ensures var before := s.cache[CacheKey(server, path)].listing.entries;
            var after := t.cache[CacheKey(server, path)].listing.entries;
            Removed(before, middle, to) && exists k :: FirstOf(middle, k, from) && RenamedAt(middle, after, k, to)
  {
    var key := CacheKey(server, path);
    TouchedSame(s, key);
    var m := RenameMiddle(Touched(s, key), t, server, path, from, to);
    middle := m.cache[key].listing.entries;
    var k := FirstStays(s.cache[key].listing.entries, middle, from, to, i);
    RenameEntryEffect(m, t, server, path, from, to, k);
  }

  /** Removing another name leaves the first entry of this one, perhaps marked. */
  lemma FirstStays(before: seq<Entry>, after: seq<Entry>, name: string, removed: string, i: int) returns (k: int)
    requires FirstOf(before, i, name) && Removed(before, after, removed) && name != removed
    ensures FirstOf(after, k, name) && Alike(after[k], before[i])
  {
    if Absent(before, removed) {
      k := i;
    } else {
      var j :| FirstOf(before, j, removed) && WithoutAt(before, after, j);
      k := if i < j then i else i - 1;
      assert after[k] == before[i];
    }
  }

  /** Every entry but number k of the one list is, up to its mark, an entry of the other, of a name that
      is neither of the two; and the other way round. */
  ghost predicate OthersAlike(before: seq<Entry>, after: seq<Entry>, k: int, from: string, to: string) {
    && (forall x :: 0 <= x < |after| && x != k ==>
          after[x].name != from && after[x].name != to && exists y :: 0 <= y < |before| && Alike(after[x], before[y]))
    && (forall y :: 0 <= y < |before| && before[y].name != from && before[y].name != to ==>
          exists x :: 0 <= x < |after| && x != k && Alike(after[x], before[y]))
  }

  lemma RenamedOverNothing(before: seq<Entry>, middle: seq<Entry>, after: seq<Entry>, from: string, to: string, k: int)
    requires DistinctNames(before) && FirstOf(before, k, from) && Absent(before, to)
    requires MarkedFrom(before, middle, to, |before|) && RenamedAt(middle, after, k, to)
    ensures OthersAlike(before, after, k, from, to)
  {
    assert forall x :: 0 <= x < |after| && x != k ==> Alike(after[x], before[x]);
  }

  lemma RenamedOverOne(before: seq<Entry>, middle: seq<Entry>, after: seq<Entry>, from: string, to: string, j: int,
                       k: int)
    requires DistinctNames(before) && FirstOf(before, j, to) && from != to
    requires WithoutAt(before, middle, j) && FirstOf(middle, k, from) && RenamedAt(middle, after, k, to)
    ensures OthersAlike(before, after, k, from, to)
  {
    assert forall x :: 0 <= x < |after| && x != k ==> Alike(after[x], before[if x < j then x else x + 1]);
    forall y | 0 <= y < |before| && before[y].name != to && before[y].name != from
      ensures exists x :: 0 <= x < |after| && x != k && Alike(after[x], before[y])
    {
      assert Alike(after[if y < j then y else y - 1], before[y]);
    }
  }

  /** With distinct names: the new name has the attributes of the old one, which is gone, and the
      entries of all other names are there, up to their marks. */
  lemma RenamedMeans(before: seq<Entry>, middle: seq<Entry>, after: seq<Entry>, from: string, to: string, i: int,
                     k: int)
    requires DistinctNames(before) && FirstOf(before, i, from) && from != to
    requires Removed(before, middle, to) && FirstOf(middle, k, from) && RenamedAt(middle, after, k, to)
    ensures Alike(after[k], before[i].(name := to)) && Absent(after, from) && OthersAlike(before, after, k, from, to)
  {
    var n := FirstStays(before, middle, from, to, i);
    assert n == k;
    if Absent(before, to) {
      RenamedOverNothing(before, middle, after, from, to, k);
    } else {
      var j :| FirstOf(before, j, to) && WithoutAt(before, middle, j);
      RenamedOverOne(before, middle, after, from, to, j, k);
    }
  }

  lemma TouchedSame(s: State, key: CacheKey)
    requires Inv(s) && key in s.cache
    ensures Touched(s, key).cache == s.cache && Touched(s, key).servers == s.servers
  {
  }

  /** The state between the two halves of moving a file. */
  lemma MoveMiddle(a: State, t: State, server: Server, pathFrom: ServerPath, from: string,
                   pathTo: ServerPath, to: string, i: int) returns (m: State)
    requires CacheKey(server, pathFrom) in a.cache && server in a.servers
    requires RenameAcrossRel(a, t, server, pathFrom, from, pathTo, to)
    requires FirstOf(a.cache[CacheKey(server, pathFrom)].listing.entries, i, from)
    requires !a.cache[CacheKey(server, pathFrom)].listing.entries[i].isDir
    ensures UpdateFileRel(a, m, server, pathFrom, Remove(from)) && server in m.servers
    ensures UpdateFileRel(m, t, server, pathTo, Update(to, true, File, -1, ""))
  {
    FirstNamedIs(a.cache[CacheKey(server, pathFrom)].listing.entries, from);
    m :| UpdateFileRel(a, m, server, pathFrom, Remove(from))
        && UpdateFileRel(m, t, server, pathTo, Update(to, true, File, -1, ""));
  }

  /** Moving a file to another directory: the listings of the one lose it, those of the other get it. */
  lemma MoveFileEffect(s: State, t: State, server: Server, pathFrom: ServerPath, from: string,
                       pathTo: ServerPath, to: string, i: int, k: CacheKey)
    requires Inv(s) && server in s.servers && CacheKey(server, pathFrom) in s.cache && pathFrom != pathTo
    requires RenameRel(s, t, server, pathFrom, from, pathTo, to)
    requires FirstOf(s.cache[CacheKey(server, pathFrom)].listing.entries, i, from)
    requires !s.cache[CacheKey(server, pathFrom)].listing.entries[i].isDir
    requires k in s.cache && k.server == server
    ensures k in t.cache
    ensures var before, after := s.cache[k].listing.entries, t.cache[k].listing.entries;
            && (EqualNoCasePath(pathFrom, k.path) && !EqualNoCasePath(pathTo, k.path) ==> Removed(before, after, from))
            && (EqualNoCasePath(pathTo, k.path) && !EqualNoCasePath(pathFrom, k.path) ==>
                  Updated(before, after, to, true, File, -1, ""))
  {
    var a := Touched(s, CacheKey(server, pathFrom));
    TouchedSame(s, CacheKey(server, pathFrom));
    var m := MoveMiddle(a, t, server, pathFrom, from, pathTo, to, i);
    RemoveFileEffect(a, m, server, pathFrom, from);
    UpdateFileEffect(m, t, server, pathTo, to, true, File, -1, "");
  }

  /** The entries of that name, in any case or in exactly this one, are marked as unsure. */
  predicate Invalidated(before: seq<Entry>, after: seq<Entry>, name: string, caseSensitive: bool) {
    && |after| == |before|
    && forall j :: 0 <= j < |before| ==>
         && Alike(after[j], before[j])
         && (after[j].unsure <==>
               || before[j].unsure
               || (if caseSensitive then before[j].name == name else EqualNoCase(before[j].name, name)))
  }

  lemma EditInvalidates(l: Listing, name: string, caseSensitive: bool)
    ensures Invalidated(l.entries, Edited(l, Invalidate(name, !caseSensitive)).entries, name, caseSensitive)
  {
  }

  /** The same listings with the same entries. */
  ghost predicate SameEntries(s: State, t: State) {
    && t.cache.Keys == s.cache.Keys
    && forall k :: k in s.cache ==> t.cache[k].listing.entries == s.cache[k].listing.entries
  }

  lemma FlaggedSame(s: State, keys: set<CacheKey>)
    ensures SameEntries(s, FlaggedAll(s, keys)) && SameEntries(s, s)
  {
  }

  lemma InvalidateParts(s: State, t: State, server: Server, path: ServerPath, name: string) returns (m: State)
    requires server in s.servers && InvalidateFileRel(s, t, server, path, name)
    ensures Rewrote(s, m, InvalidateKeys(s, server, path), Invalidate(name, !server.caseSensitive))
    ensures SameEntries(m, t)
  {
    var keys, noCase := InvalidateKeys(s, server, path), !server.caseSensitive;
    m :| Rewrote(s, m, keys, Invalidate(name, noCase))
      && t == if NamesDir(s, keys, name, noCase) && ServerPathText.Changed(path, name).Some?
              then FlaggedAll(m, BelowKeys(m, server, path, noCase, true)) else m;
    FlaggedSame(m, BelowKeys(m, server, path, noCase, true));
  }

  /** The listings of the path, by the server's rule for the case of names. */
  predicate Concerned(s: State, server: Server, path: ServerPath, k: CacheKey) {
    && k in s.cache && k.server == server
    && (k.path == path || (!server.caseSensitive && EqualNoCasePath(path, k.path)))
  }

  /** One of these listings has a directory of that name. */
  ghost predicate KnownDir(s: State, server: Server, path: ServerPath, name: string) {
    exists k, i :: Concerned(s, server, path, k) && HasDirAt(s.cache[k].listing.entries, i, name, server.caseSensitive)
  }

  predicate HasDirAt(entries: seq<Entry>, i: int, name: string, caseSensitive: bool) {
    && 0 <= i < |entries| && entries[i].isDir
    && if caseSensitive then entries[i].name == name else EqualNoCase(entries[i].name, name)
  }

  lemma EqualPathsNoCase(path: ServerPath)
    ensures EqualNoCasePath(path, path)
  {
  }

  lemma ConcernedKeys(s: State, server: Server, path: ServerPath)
    ensures forall k :: k in InvalidateKeys(s, server, path) <==> Concerned(s, server, path, k)
  {
    EqualPathsNoCase(path);
  }

  lemma KnownDirIs(s: State, server: Server, path: ServerPath, name: string)
    ensures NamesDir(s, InvalidateKeys(s, server, path), name, !server.caseSensitive)
        <==> KnownDir(s, server, path, name)
  {
    ConcernedKeys(s, server, path);
    var keys := InvalidateKeys(s, server, path);
    if k :| k in keys && k in s.cache && HoldsDir(s.cache[k].listing, name, !server.caseSensitive) {
      var i :| 0 <= i < |s.cache[k].listing.entries|
        && HasKey(s.cache[k].listing.entries[i], name, !server.caseSensitive) && s.cache[k].listing.entries[i].isDir;
      assert HasDirAt(s.cache[k].listing.entries, i, name, server.caseSensitive);
    }
    if k, i :| Concerned(s, server, path, k) && HasDirAt(s.cache[k].listing.entries, i, name, server.caseSensitive) {
      assert HoldsDir(s.cache[k].listing, name, !server.caseSensitive);
    }
  }

  /** InvalidateFile marks the entries of that name, by the server's rule for the case of names; the
      entries of other listings stay. */
  lemma InvalidateFileEffect(s: State, t: State, server: Server, path: ServerPath, name: string)
    requires server in s.servers && InvalidateFileRel(s, t, server, path, name)
    ensures t.cache.Keys == s.cache.Keys
    ensures forall k :: k in s.cache ==>
              if Concerned(s, server, path, k)
              then Invalidated(s.cache[k].listing.entries, t.cache[k].listing.entries, name, server.caseSensitive)
              else t.cache[k].listing.entries == s.cache[k].listing.entries
  {
    var m := InvalidateParts(s, t, server, path, name);
    ConcernedKeys(s, server, path);
    forall k | Concerned(s, server, path, k)
      ensures Invalidated(s.cache[k].listing.entries, t.cache[k].listing.entries, name, server.caseSensitive)
    {
      EditInvalidates(s.cache[k].listing, name, server.caseSensitive);
    }
  }

  lemma InvalidateSteps(s: State, t: State, server: Server, path: ServerPath, name: string) returns (m: State)
    requires server in s.servers && InvalidateFileRel(s, t, server, path, name)
    ensures Rewrote(s, m, InvalidateKeys(s, server, path), Invalidate(name, !server.caseSensitive))
    ensures t == if KnownDir(s, server, path, name) && ServerPathText.Changed(path, name) != None
                 then FlaggedAll(m, BelowKeys(m, server, path, !server.caseSensitive, true)) else m
  {
    KnownDirIs(s, server, path, name);
    var keys, noCase := InvalidateKeys(s, server, path), !server.caseSensitive;
    m :| Rewrote(s, m, keys, Invalidate(name, noCase))
      && t == if NamesDir(s, keys, name, noCase) && ServerPathText.Changed(path, name).Some?
              then FlaggedAll(m, BelowKeys(m, server, path, noCase, true)) else m;
  }

  lemma RewrittenAt(s: State, m: State, keys: set<CacheKey>, e: Edit, k: CacheKey)
    requires Rewrote(s, m, keys, e) && e.Invalidate? && k in s.cache
    ensures k in m.cache && (k !in keys ==> m.cache[k] == s.cache[k])
    ensures k in keys ==> UnsureUnknown in m.cache[k].listing.flags
  {
  }

  lemma FlaggedAt(m: State, keys: set<CacheKey>, k: CacheKey)
    requires k in m.cache
    ensures k in FlaggedAll(m, keys).cache && m.cache[k].listing.flags <= FlaggedAll(m, keys).cache[k].listing.flags
    ensures if k in keys then UnsureUnknown in FlaggedAll(m, keys).cache[k].listing.flags
            else FlaggedAll(m, keys).cache[k] == m.cache[k]
  {
  }

  /** If the name is known as that of a directory, every listing at or below the path becomes unsure; if
      not, only those of the path do, and all others stay as they are. */
  lemma InvalidateDirEffect(s: State, t: State, server: Server, path: ServerPath, name: string, k: CacheKey)
    requires server in s.servers && InvalidateFileRel(s, t, server, path, name) && k in s.cache
    ensures k in t.cache
    ensures Concerned(s, server, path, k) ==> UnsureUnknown in t.cache[k].listing.flags
    ensures KnownDir(s, server, path, name) && ServerPathText.Changed(path, name) != None && k.server == server
              && IsSubdirOf(k.path, path, !server.caseSensitive, true) ==>
            UnsureUnknown in t.cache[k].listing.flags
    ensures !Concerned(s, server, path, k)
              && !(KnownDir(s, server, path, name) && ServerPathText.Changed(path, name) != None && k.server == server
                   && IsSubdirOf(k.path, path, !server.caseSensitive, true)) ==>
            t.cache[k] == s.cache[k]
  {
    var m := InvalidateSteps(s, t, server, path, name);
    ConcernedKeys(s, server, path);
    RewrittenAt(s, m, InvalidateKeys(s, server, path), Invalidate(name, !server.caseSensitive), k);
    FlaggedAt(m, BelowKeys(m, server, path, !server.caseSensitive, true), k);
  }

  /** UpdateOwnerGroup sets the owner of the first entry of that name, if it is no directory. */
  lemma OwnerEffect(s: State, t: State, server: Server, path: ServerPath, name: string, ownerGroup: string, i: int)
    requires Inv(s) && server in s.servers && CacheKey(server, path) in s.cache
    requires UpdateOwnerRel(s, t, server, path, name, ownerGroup)
    requires FirstOf(s.cache[CacheKey(server, path)].listing.entries, i, name)
    ensures CacheKey(server, path) in t.cache
    ensures var before := s.cache[CacheKey(server, path)].listing.entries;
            var after := t.cache[CacheKey(server, path)].listing.entries;
            && |after| == |before| && (forall k :: 0 <= k < |before| && k != i ==> after[k] == before[k])
            && after[i] == if before[i].isDir then before[i] else before[i].(ownerGroup := ownerGroup)
  {
    FirstNamedIs(s.cache[CacheKey(server, path)].listing.entries, name);
    assert Touched(s, CacheKey(server, path)).cache == s.cache;
  }

  /** Renaming a file to its own name makes the cache forget it. */
  lemma SelfRenameForgets(s: State, t: State, server: Server, path: ServerPath, name: string, i: int)
    requires Inv(s) && server in s.servers && CacheKey(server, path) in s.cache
    requires RenameRel(s, t, server, path, name, path, name)
    requires var entries := s.cache[CacheKey(server, path)].listing.entries;
             DistinctNames(entries) && FirstOf(entries, i, name)
    ensures CacheKey(server, path) in t.cache
    ensures WithoutAt(s.cache[CacheKey(server, path)].listing.entries,
                      t.cache[CacheKey(server, path)].listing.entries, i)
  {
    var key := CacheKey(server, path);
    var a := Touched(s, key);
    TouchedSame(s, key);
    var m :| UpdateFileRel(a, m, server, path, Remove(name)) && key in m.cache
        && RenameEntryRel(m, t, server, path, name, name);
    RemoveFileEffect(a, m, server, path, name);
    RemovedIsAbsent(s.cache[key].listing.entries, m.cache[key].listing.entries, name, i);
    FirstNamedIs(m.cache[key].listing.entries, name);
  }

  lemma RemovedIsAbsent(before: seq<Entry>, after: seq<Entry>, name: string, i: int)
    requires DistinctNames(before) && FirstOf(before, i, name) && Removed(before, after, name)
    ensures WithoutAt(before, after, i) && Absent(after, name)
  {
  }

  /** RemoveDir removes the name of the directory from the listings of its parent that stay. */
  lemma RemoveDirEffect(s: State, t: State, server: Server, path: ServerPath, name: string, k: CacheKey)
    requires server in s.servers && RemoveDirRel(s, t, server, path, name) && k in t.cache
    ensures k in s.cache && t.servers == s.servers
    ensures k.server == server && EqualNoCasePath(path, k.path) ==>
              Removed(s.cache[k].listing.entries, t.cache[k].listing.entries, name)
    ensures !(k.server == server && EqualNoCasePath(path, k.path)) ==> t.cache[k] == s.cache[k]
  {
    var m :| DroppedAll(s, m, RemovedKeys(s, server, path, name)) && UpdateFileRel(m, t, server, path, Remove(name));
    RemoveFileEffect(m, t, server, path, name);
  }

  /** Renaming a directory within its parent: both names go, and the new one comes as a directory. */
  lemma RenameDirEffect(s: State, t: State, server: Server, path: ServerPath, from: string, to: string, k: CacheKey)
    returns (first: seq<Entry>, second: seq<Entry>)
    requires server in s.servers && RenameDirRel(s, t, server, path, from, to)
    requires k in t.cache && k.server == server && EqualNoCasePath(path, k.path)
    ensures k in s.cache && Removed(s.cache[k].listing.entries, first, from) && Removed(first, second, to)
    ensures Updated(second, t.cache[k].listing.entries, to, true, Dir, -1, "")
  {
    var u, v :| RemoveDirRel(s, u, server, path, from) && RemoveDirRel(u, v, server, path, to)
      && UpdateFileRel(v, t, server, path, Update(to, true, Dir, -1, ""));
    KeepsServers(s, u, server, path, from);
    KeepsServers(u, v, server, path, to);
    UpdateFileEffect(v, t, server, path, to, true, Dir, -1, "");
    RemoveDirEffect(u, v, server, path, to, k);
    RemoveDirEffect(s, u, server, path, from, k);
    first, second := u.cache[k].listing.entries, v.cache[k].listing.entries;
  }

  lemma KeepsServers(s: State, t: State, server: Server, path: ServerPath, name: string)
    requires RemoveDirRel(s, t, server, path, name)
    ensures t.servers == s.servers
  {
  }

  // ---------- flags ----------

  /** A listing with a directory in it says so. */
  predicate ShowsDirs(l: Listing) {
    (exists i :: 0 <= i < |l.entries| && l.entries[i].isDir) ==> HasDirs in l.flags
  }

  lemma EditKeepsDirs(l: Listing, e: Edit)
    requires ShowsDirs(l)
    ensures ShowsDirs(Edited(l, e))
  {
    var r := Edited(l, e);
    forall i | 0 <= i < |r.entries| && r.entries[i].isDir ensures HasDirs in r.flags {
      if e.Remove? {
        assert i < |l.entries| && (l.entries[i].isDir || l.entries[i + 1].isDir);
      } else if i < |l.entries| {
        assert l.entries[i].isDir;
      }
    }
  }

  /** New entries settle what a listing says of its contents, and nothing else it says. */
  lemma AssignedMeans(l: Listing, entries: seq<Entry>)
    ensures var r := Assigned(l, entries);
            && r.entries == entries && ShowsDirs(r)
            && (HasDirs in r.flags <==> exists i :: 0 <= i < |entries| && entries[i].isDir)
            && (HasPerms in r.flags <==> exists i :: 0 <= i < |entries| && entries[i].permissions != "")
            && (HasUsergroup in r.flags <==> exists i :: 0 <= i < |entries| && entries[i].ownerGroup != "")
            && forall f: Flag :: f != HasDirs && f != HasPerms && f != HasUsergroup ==> (f in r.flags <==> f in l.flags)
  {
    AttributeFlagsMean(entries);
  }

  // ---------- looking up ----------

  /** The flags that make a listing unsure, one by one. */
  predicate SaysUnsure(l: Listing) {
    || FileAdded in l.flags || FileRemoved in l.flags || FileChanged in l.flags || DirAdded in l.flags
    || DirRemoved in l.flags || DirChanged in l.flags || UnsureUnknown in l.flags || UnsureInvalid in l.flags
  }

  /** A listing is found if it is cached, and sure unless an unsure one will do. Looking for it puts it
      behind all others in the order of use, and changes nothing else. */
  lemma LookupEffect(s: State, key: CacheKey, allowUnsure: bool)
    requires Inv(s)
    ensures Found(s, key, allowUnsure)
       <==> key in s.cache && (allowUnsure || !SaysUnsure(s.cache[key].listing))
    ensures var t := LookedUp(s, key);
            && t.cache == s.cache && t.total == s.total && t.servers == s.servers
            && (key !in s.cache ==> t == s)
            && (key in s.cache ==> exists i :: 0 <= i < |s.lru| && s.lru[i].key == key
                                     && t.lru == s.lru[..i] + s.lru[i + 1..] + [s.lru[i]])
  {
    if key in s.cache {
      UnsureMeans(s.cache[key].listing);
      var i := NodeIndex(s, key);
      TouchInv(s, key);
      FilteredOne(s.lru, i);
      assert s.lru[i].key == key;
    }
  }

  lemma UnsureMeans(l: Listing)
    ensures l.IsUnsure() <==> SaysUnsure(l)
  {
    if f: Flag :| f in l.flags * UNSURE {
      assert f in l.flags && f in UNSURE;
    }
    if f: Flag :| f in l.flags && f in UNSURE {
      assert f in l.flags * UNSURE;
    }
  }

  // ---------- servers ----------

  /** Nothing of the server is left, and everything else is as it was. */
  ghost predicate Forgotten(s: State, t: State, server: Server) {
    && server !in t.servers && (forall k :: k in t.cache ==> k.server != server)
    && (forall v :: v != server ==> (v in t.servers <==> v in s.servers))
    && (forall k :: k in s.cache && k.server != server ==> k in t.cache && t.cache[k] == s.cache[k])
    && (forall k :: k in t.cache ==> k in s.cache)
    && forall n :: n in t.lru <==> n in s.lru && n.key.server != server
  }

  lemma {:induction false} FilteredHas(lru: seq<Node>, keys: set<CacheKey>)
    ensures forall n :: n in Filtered(lru, keys) <==> n in lru && n.key !in keys
  {
    if lru != [] {
      FilteredHas(lru[1..], keys);
    }
  }

  lemma ServerGoneForgets(s: State, t: State, server: Server)
    requires Inv(s) && server in s.servers && ServerGone(s, t, server)
    ensures Forgotten(s, t, server)
  {
    FilteredHas(s.lru, ServerKeys(s, server));
    assert forall n :: n in s.lru ==> n.key in s.cache;
  }

  /** InvalidateServer forgets a server. So do a rename and a change of owner if the cache cannot tell what
      they concern: if the directory is not cached or, for an owner, holds no entry of that name. */
  lemma UnknownIsForgotten(s: State, t: State, server: Server, path: ServerPath, name: string, pathTo: ServerPath,
                           to: string, ownerGroup: string)
    requires Inv(s) && server in s.servers
    ensures ServerGone(s, t, server) ==> Forgotten(s, t, server)
    ensures CacheKey(server, path) !in s.cache && RenameRel(s, t, server, path, name, pathTo, to) ==>
              Forgotten(s, t, server)
    ensures UpdateOwnerRel(s, t, server, path, name, ownerGroup)
              && (CacheKey(server, path) !in s.cache
                  || Absent(s.cache[CacheKey(server, path)].listing.entries, name)) ==>
            Forgotten(s, t, server)
  {
    var key := CacheKey(server, path);
    if ServerGone(s, t, server) { ServerGoneForgets(s, t, server); }
    if key in s.cache && Absent(s.cache[key].listing.entries, name)
        && UpdateOwnerRel(s, t, server, path, name, ownerGroup) {
      FirstNamedIs(s.cache[key].listing.entries, name);
      TouchedForgets(s, t, key);
    }
  }

  ghost predicate SameButOrder(s: State, u: State) {
    u.cache == s.cache && u.servers == s.servers && forall n :: n in u.lru <==> n in s.lru
  }

  lemma MovedToEnd(lru: seq<Node>, i: nat)
    requires i < |lru|
    ensures forall n :: n in lru[..i] + lru[i + 1..] + [lru[i]] <==> n in lru
  {
    assert lru == lru[..i] + [lru[i]] + lru[i + 1..];
  }

  lemma TouchedSameButOrder(s: State, key: CacheKey)
    requires Inv(s) && key in s.cache
    ensures SameButOrder(s, Touched(s, key))
  {
    var i := NodeIndex(s, key);
    TouchInv(s, key);
    MovedToEnd(s.lru, i);
  }

  lemma ForgottenAlike(s: State, u: State, t: State, server: Server)
    requires SameButOrder(s, u) && Forgotten(u, t, server)
    ensures Forgotten(s, t, server)
  {
  }

  lemma TouchedForgets(s: State, t: State, key: CacheKey)
    requires Inv(s) && key in s.cache && key.server in s.servers && ServerGone(Touched(s, key), t, key.server)
    ensures Forgotten(s, t, key.server)
  {
    TouchInv(s, key);
    TouchedSameButOrder(s, key);
    ServerGoneForgets(Touched(s, key), t, key.server);
    ForgottenAlike(s, Touched(s, key), t, key.server);
  }

  ghost predicate HasListing(cache: Cache, server: Server) {
    exists k :: k in cache && k.server == server
  }

  /** What is left of a server: it is forgotten exactly with the last of its listings. */
  ghost predicate ForgottenLast(s: State, t: State, server: Server) {
    && t.cache.Keys <= s.cache.Keys
    && (server in t.servers <==>
          server in s.servers
          && (HasListing(t.cache, server) || forall k :: k in s.cache && k.server == server ==> k in t.cache))
  }

  lemma OneMoreForgotten(s: State, e: State, t: State, key: CacheKey, server: Server)
    requires key in s.cache && e.cache == s.cache - {key}
    requires e.servers == if HasListing(e.cache, key.server) then s.servers else s.servers - {key.server}
    requires ForgottenLast(e, t, server)
    ensures ForgottenLast(s, t, server)
  {
    assert key !in t.cache;
    if k :| k in e.cache && k.server == server && server == key.server {
      assert HasListing(e.cache, server);
      assert k in t.cache ==> HasListing(t.cache, server);
    }
  }

  lemma EvictedServers(s: State)
    requires s.lru != [] && s.lru[0].key in s.cache
    ensures var e, key := Evicted(s), s.lru[0].key;
            e.servers == if HasListing(e.cache, key.server) then s.servers else s.servers - {key.server}
  {
  }

  /** Pruning forgets a server exactly with the last of its listings. */
  lemma {:induction false} PrunedServers(s: State, server: Server)
    requires Inv(s)
    ensures ForgottenLast(s, Pruned(s), server)
    decreases |s.lru|
  {
    if OverLimit(|s.lru|, s.total) {
      EvictInv(s);
      PrunedServers(Evicted(s), server);
      EvictedServers(s);
      OneMoreForgotten(s, Evicted(s), Pruned(s), s.lru[0].key, server);
    }
  }
}
