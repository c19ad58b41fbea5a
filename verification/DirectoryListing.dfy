/** A directory listing with two name indexes that are built lazily, entry by entry, while
    names are searched for. */
module DirectoryListings {
  import opened Text
  import opened ServerPaths

  datatype Entry = Entry(
    name: string, size: int, permissions: string, ownerGroup: string, isDir: bool, isLink: bool, unsure: bool)

  datatype Flag =
    | FileAdded | FileRemoved | FileChanged | DirAdded | DirRemoved | DirChanged | UnsureUnknown | UnsureInvalid
    | Failed | HasDirs | HasPerms | HasUsergroup

  const UNSURE: set<Flag> :=
    {FileAdded, FileRemoved, FileChanged, DirAdded, DirRemoved, DirChanged, UnsureUnknown, UnsureInvalid}

  /** A search map: name and index of the entries put in so far, in that order. */
  type Index = seq<(string, nat)>

  /** firstListed is the time at which the listing was first obtained. */
  datatype Listing = Listing(
    path: ServerPath, entries: seq<Entry>, flags: set<Flag>, caseMap: Option<Index>, nocaseMap: Option<Index>,
    firstListed: int)
  {
    predicate IsUnsure() { flags * UNSURE != {} }
  }

  function Key(name: string, noCase: bool): string {
    if noCase then Lower(name) else name
  }

  predicate HasKey(e: Entry, name: string, noCase: bool) {
    Key(e.name, noCase) == Key(name, noCase)
  }

  /** An entry is found under its own name, or under one that is equal to it regardless of case. */
  lemma KeyMeans(e: Entry, name: string)
    ensures HasKey(e, name, false) <==> e.name == name
    ensures HasKey(e, name, true) <==> EqualNoCase(e.name, name)
  {
  }

  /** The map indexes exactly the first |m| entries. */
  predicate Indexes(m: Index, entries: seq<Entry>, noCase: bool) {
    |m| <= |entries| && forall i :: 0 <= i < |m| ==> m[i] == (Key(entries[i].name, noCase), i)
  }

  predicate Coherent(l: Listing) {
    && (l.caseMap.Some? ==> Indexes(l.caseMap.value, l.entries, false))
    && (l.nocaseMap.Some? ==> Indexes(l.nocaseMap.value, l.entries, true))
  }

  /** The case-insensitive map is only built where the other one is. */
  predicate Paired(l: Listing) {
    l.nocaseMap.Some? ==> l.caseMap.Some?
  }

  predicate Sound(l: Listing) { Coherent(l) && Paired(l) }

  /** What a search is to return: some entry's index, or None if no entry has the name. */
  predicate Answers(r: Option<nat>, entries: seq<Entry>, name: string, noCase: bool) {
    match r
    case None => forall i :: 0 <= i < |entries| ==> !HasKey(entries[i], name, noCase)
    case Some(i) => i < |entries| && HasKey(entries[i], name, noCase)
  }

  /** Two listings that differ at most in their search maps. */
  predicate SameContent(a: Listing, b: Listing) {
    a.path == b.path && a.entries == b.entries && a.flags == b.flags && a.firstListed == b.firstListed
  }

  // ---------- changes ----------

  function Appended(l: Listing, e: Entry): Listing {
    l.(entries := l.entries + [e])
  }

  /** RemoveEntry for an index in range. */
  function WithoutEntry(l: Listing, i: nat): Listing
    requires i < |l.entries|
  {
    l.(entries := l.entries[..i] + l.entries[i + 1..], caseMap := None, nocaseMap := None,
       flags := l.flags + {if l.entries[i].isDir then DirRemoved else FileRemoved})
  }

  function AttributeFlags(entries: seq<Entry>): set<Flag> {
    if entries == [] then {}
    else
      var e := entries[|entries| - 1];
      AttributeFlags(entries[..|entries| - 1])
      + (if e.isDir then {HasDirs} else {})
      + (if e.permissions != "" then {HasPerms} else {})
      + (if e.ownerGroup != "" then {HasUsergroup} else {})
  }

  lemma {:induction false} AttributeFlagsMean(entries: seq<Entry>)
    ensures HasDirs in AttributeFlags(entries) <==> exists i :: 0 <= i < |entries| && entries[i].isDir
    ensures HasPerms in AttributeFlags(entries) <==> exists i :: 0 <= i < |entries| && entries[i].permissions != ""
    ensures HasUsergroup in AttributeFlags(entries) <==> exists i :: 0 <= i < |entries| && entries[i].ownerGroup != ""
    ensures AttributeFlags(entries) <= {HasDirs, HasPerms, HasUsergroup}
    decreases |entries|
  {
    if entries != [] {
      var n := |entries| - 1;
      AttributeFlagsMean(entries[..n]);
      assert forall i :: 0 <= i < n ==> entries[..n][i] == entries[i];
    }
  }

  function Assigned(l: Listing, entries: seq<Entry>): Listing {
    l.(entries := entries, caseMap := None, nocaseMap := None,
       flags := l.flags - {HasDirs, HasPerms, HasUsergroup} + AttributeFlags(entries))
  }

  /** ClearFindMap: does nothing as long as the case-sensitive map is not built. */
  function MapsCleared(l: Listing): Listing {
    if l.caseMap.None? then l else l.(caseMap := None, nocaseMap := None)
  }

  function WithName(l: Listing, i: nat, name: string): Listing
    requires i < |l.entries|
  {
    l.(entries := l.entries[i := l.entries[i].(name := name)])
  }

  lemma AppendSound(l: Listing, e: Entry)
    requires Sound(l)
    ensures Sound(Appended(l, e))
  {}

  /** Renaming an entry and clearing the maps leaves the maps right exactly if they were both
      cleared, or the new name changes no key that a surviving map holds. */
  lemma RenameCoherent(l: Listing, i: nat, name: string)
    requires Coherent(l) && i < |l.entries|
    ensures Coherent(MapsCleared(WithName(l, i, name)))
       <==> l.caseMap.Some? || l.nocaseMap.None? || i >= |l.nocaseMap.value| || Lower(name) == Lower(l.entries[i].name)
    ensures Paired(l) ==> Sound(MapsCleared(WithName(l, i, name)))
  {
    var r := MapsCleared(WithName(l, i, name));
    if l.caseMap.None? && l.nocaseMap.Some? && i < |l.nocaseMap.value| {
      assert r.nocaseMap.value[i] == (Lower(l.entries[i].name), i);
    }
  }

  // ---------- the object ----------

  class DirectoryListing {
    var path: ServerPath
    var entries: seq<Entry>
    var flags: set<Flag>
    var caseMap: Option<Index>
    var nocaseMap: Option<Index>
    var firstListed: int

    function Value(): Listing
      reads this
    {
      Listing(path, entries, flags, caseMap, nocaseMap, firstListed)
    }

    constructor (l: Listing)
      ensures Value() == l
    {
      path, entries, flags, firstListed := l.path, l.entries, l.flags, l.firstListed;
      caseMap, nocaseMap := l.caseMap, l.nocaseMap;
    }

    /** FindFile_CmpCase: answers from the map, which it extends up to the entry found. */
    method FindFileCmpCase(name: string) returns (r: Option<nat>)
      requires Coherent(Value())
      modifies this`caseMap
      ensures Coherent(Value()) && (old(Paired(Value())) ==> Paired(Value()))
      ensures Answers(r, entries, name, false)
      ensures entries != [] ==> caseMap.Some?
      ensures entries == [] ==> caseMap == old(caseMap)
      ensures r.Some? ==> r.value < |caseMap.value|
    {
      if entries == [] { return None; }
      if caseMap.None? { caseMap := Some([]); }
      if exists k :: 0 <= k < |caseMap.value| && caseMap.value[k].0 == name {
        var k :| 0 <= k < |caseMap.value| && caseMap.value[k].0 == name;
        return Some(caseMap.value[k].1);
      }
      var i := |caseMap.value|;
      while i < |entries|
        invariant i <= |entries| && caseMap.Some? && |caseMap.value| == i && Indexes(caseMap.value, entries, false)
        invariant forall k :: 0 <= k < i ==> !HasKey(entries[k], name, false)
      {
        caseMap := Some(caseMap.value + [(entries[i].name, i)]);
        if entries[i].name == name { return Some(i); }
        i := i + 1;
      }
      r := None;
    }

    /** FindFile_CmpNoCase: the pairing of the maps survives if the other map is built already. */
    method FindFileCmpNoCase(name: string) returns (r: Option<nat>)
      requires Coherent(Value())
      modifies this`nocaseMap
      ensures Coherent(Value())
      ensures Answers(r, entries, name, true)
      ensures entries != [] ==> nocaseMap.Some?
      ensures entries == [] ==> nocaseMap == old(nocaseMap)
      ensures r.Some? ==> r.value < |nocaseMap.value|
    {
      if entries == [] { return None; }
      if nocaseMap.None? { nocaseMap := Some([]); }
      var lower := Lower(name);
      if exists k :: 0 <= k < |nocaseMap.value| && nocaseMap.value[k].0 == lower {
        var k :| 0 <= k < |nocaseMap.value| && nocaseMap.value[k].0 == lower;
        return Some(nocaseMap.value[k].1);
      }
      var i := |nocaseMap.value|;
      while i < |entries|
        invariant i <= |entries| && nocaseMap.Some? && |nocaseMap.value| == i && Indexes(nocaseMap.value, entries, true)
        invariant forall k :: 0 <= k < i ==> !HasKey(entries[k], name, true)
      {
        nocaseMap := Some(nocaseMap.value + [(Lower(entries[i].name), i)]);
        if Lower(entries[i].name) == lower { return Some(i); }
        i := i + 1;
      }
      r := None;
    }

    /** The two searches as the cache makes them: by exact name, then regardless of case. */
    method Search(name: string, alsoNoCase: bool) returns (r: Option<nat>, matchedCase: bool)
      requires Sound(Value())
      modifies this`caseMap, this`nocaseMap
      ensures Sound(Value()) && SameContent(Value(), old(Value()))
      ensures matchedCase ==> r.Some? && Answers(r, entries, name, false)
      ensures !matchedCase ==> Answers(None, entries, name, false)
      ensures !matchedCase ==> if alsoNoCase then Answers(r, entries, name, true) else r == None
    {
      r := FindFileCmpCase(name);
      matchedCase := r.Some?;
      if !matchedCase && alsoNoCase { r := FindFileCmpNoCase(name); }
    }

    method Append(e: Entry)
      requires Sound(Value())
      modifies this`entries
      ensures Value() == Appended(old(Value()), e) && Sound(Value())
      ensures |entries| == |old(entries)| + 1 && entries[|old(entries)|] == e
      ensures forall k :: 0 <= k < |old(entries)| ==> entries[k] == old(entries)[k]
    {
      entries := entries + [e];
    }

    method RemoveEntry(index: nat) returns (ok: bool)
      requires Sound(Value())
      modifies this
      ensures ok == (index < |old(entries)|) && Sound(Value())
      ensures Value() == if ok then WithoutEntry(old(Value()), index) else old(Value())
      ensures ok ==> |entries| == |old(entries)| - 1
      ensures ok ==> forall k :: 0 <= k < |entries| ==> entries[k] == old(entries)[if k < index then k else k + 1]
    {
      if index >= |entries| { return false; }
      caseMap, nocaseMap := None, None;
      flags := flags + {if entries[index].isDir then DirRemoved else FileRemoved};
      entries := entries[..index] + entries[index + 1..];
      ok := true;
    }

    method Assign(newEntries: seq<Entry>)
      modifies this
      ensures Value() == Assigned(old(Value()), newEntries) && Sound(Value())
    {
      entries := newEntries;
      flags := flags - {HasDirs, HasPerms, HasUsergroup};
      ghost var kept := flags;
      var i := 0;
      while i < |entries|
        invariant 0 <= i <= |entries| && entries == newEntries
        invariant path == old(path) && firstListed == old(firstListed)
        invariant flags == kept + AttributeFlags(entries[..i])
      {
        var e := entries[i];
        assert entries[..i + 1][..i] == entries[..i];
        if e.isDir { flags := flags + {HasDirs}; }
        if e.permissions != "" { flags := flags + {HasPerms}; }
        if e.ownerGroup != "" { flags := flags + {HasUsergroup}; }
        i := i + 1;
      }
      assert entries[..|entries|] == entries;
      caseMap, nocaseMap := None, None;
    }

    method ClearFindMap()
      modifies this`caseMap, this`nocaseMap
      ensures Value() == MapsCleared(old(Value()))
    {
      if caseMap.None? { return; }
      caseMap, nocaseMap := None, None;
    }

    method Rename(i: nat, name: string)
      requires Sound(Value()) && i < |entries|
      modifies this
      ensures Value() == MapsCleared(WithName(old(Value()), i, name)) && Sound(Value())
    {
      RenameCoherent(Value(), i, name);
      entries := entries[i := entries[i].(name := name)];
      ClearFindMap();
    }
  }

  /** Searching regardless of case alone, then renaming, leaves a map that finds a stale name:
      the early return of ClearFindMap is only right where the maps are paired. */
  method UnpairedSearchGoesStale() returns (d: DirectoryListing)
    ensures fresh(d) && d.entries == [Entry("b", 0, "", "", false, false, false)]
    ensures d.nocaseMap == Some([("a", 0)]) && !Coherent(d.Value())
  {
    var a := Entry("a", 0, "", "", false, false, false);
    d := new DirectoryListing(Listing(ServerPath(UNIX, Some(PathData([], None))), [a], {}, None, None, 0));
    var r := d.FindFileCmpNoCase("a");
    assert HasKey(a, "a", true);
    assert Lower("a") == "a";
    assert d.entries[0] == a;
    assert r.Some? && |d.nocaseMap.value| == 1;
    assert d.nocaseMap.value[0] == (Lower("a"), 0);
    assert d.nocaseMap.value == [("a", 0)];
    d.entries := d.entries[0 := a.(name := "b")];
    d.ClearFindMap();
    assert Lower("b") == "b" && d.nocaseMap.value[0] != (Lower("b"), 0);
  }
}
