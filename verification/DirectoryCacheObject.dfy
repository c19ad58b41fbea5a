/** The directory cache as an object. Every method keeps the count and the list of recently
    used listings right, and does to the listings what the operation's relation says. */
module DirectoryCacheObject {
  import opened Text
  import opened ServerPaths
  import ServerPathText
  import opened DirectoryListings
  import opened DirectoryCaches
  import opened DirectoryCacheOps

  // ---------- one listing at a time ----------

  lemma MovedMore(lru: seq<Node>, m: seq<Node>, t: seq<Node>, keys: set<CacheKey>, n: Node)
    requires MovedBack(lru, m, keys) && n.key !in keys && n in lru
    requires forall x :: x in lru && x.key == n.key ==> x == n
    requires t == Filtered(m, {n.key}) + [n] && |t| == |m|
    ensures MovedBack(lru, t, keys + {n.key})
  {
    var kept := Filtered(lru, keys);
    var tail := m[|kept|..];
    assert m == kept + tail;
    FilteredConcat(kept, tail, {n.key});
    FilteredTwice(lru, keys, {n.key});
    forall i | 0 <= i < |tail| ensures tail[i].key !in {n.key} { assert tail[i] in tail; }
    FilteredNone(tail, {n.key});
    var now := Filtered(lru, keys + {n.key});
    assert t == now + (tail + [n]);
    assert t[|now|..] == tail + [n];
  }

  lemma RewroteNothing(s: State, e: Edit)
    ensures Rewrote(s, s, {}, e)
  {
    FilteredNone(s.lru, {});
    assert s.lru[|s.lru|..] == [];
  }

  /** Editing one listing, which becomes the most recently used one. */
  function EditedOne(m: State, key: CacheKey, e: Edit): State
    requires key in m.cache
  {
    WithListing(Touched(m, key), key, Edited(m.cache[key].listing, e), Delta(m.cache[key].listing, e))
  }

  lemma TouchedListing(m: State, key: CacheKey)
    requires key in m.cache
    ensures Touched(m, key).cache.Keys == m.cache.Keys && Touched(m, key).cache[key].listing == m.cache[key].listing
    ensures m.cache[key].node.Some? ==> Touched(m, key).cache == m.cache && Touched(m, key).nextNode == m.nextNode
    ensures Touched(m, key).servers == m.servers
  {}

  lemma EditedOneInv(m: State, key: CacheKey, e: Edit)
    requires Inv(m) && key in m.cache
    ensures Inv(EditedOne(m, key, e))
  {
    TouchInv(m, key);
    TouchedListing(m, key);
    EditKeeps(m.cache[key].listing, e);
    ListingInv(Touched(m, key), key, Edited(m.cache[key].listing, e));
  }

  lemma EditedOneMoved(s: State, m: State, keys: set<CacheKey>, e: Edit, key: CacheKey)
    requires Inv(s) && Inv(m) && Rewrote(s, m, keys, e) && key in s.cache && key !in keys
    ensures MovedBack(s.lru, EditedOne(m, key, e).lru, keys + {key})
  {
    TouchInv(m, key);
    TouchLength(m, key);
    var n := Node(m.cache[key].node.value, key);
    assert m.cache[key] == s.cache[key];
    forall x | x in s.lru && x.key == key ensures x == n { assert s.cache[key].node == Some(x.id); }
    MovedMore(s.lru, m.lru, Touched(m, key).lru, keys, n);
  }

  /** Replacing a listing whose entries were counted already, after its node was moved back. */
  lemma OverwriteInv(s: State, m: State, key: CacheKey, l: Listing) returns (more: int)
    requires Inv(s) && key in s.cache && l.path == key.path && Sound(l)
    requires m == s.(servers := s.servers + {key.server}, total := s.total + |l.entries|)
    ensures more == -|s.cache[key].listing.entries| && key in Touched(m, key).cache
    ensures Touched(m, key).cache[key].listing == s.cache[key].listing
    ensures Inv(WithListing(Touched(m, key), key, l, more))
    ensures StoreRel(s, WithListing(Touched(m, key), key, l, more), l, key.server)
  {
    more := -|s.cache[key].listing.entries|;
    TouchFrame(s, key, s.total + |l.entries|);
    TouchInv(s, key);
    TouchedListing(s, key);
    ListingInv(Touched(s, key), key, l);
    assert WithListing(Touched(m, key), key, l, more)
        == WithListing(Touched(s, key), key, l, |l.entries| - |s.cache[key].listing.entries|);
  }

  lemma OneLess(keys: set<CacheKey>, todo: set<CacheKey>, key: CacheKey)
    requires key in todo && todo <= keys
    ensures keys - (todo - {key}) == (keys - todo) + {key}
  {
  }

  lemma EditedOneCache(s: State, m: State, e: Edit, key: CacheKey)
    requires Inv(s) && key in s.cache && key in m.cache && m.cache[key] == s.cache[key]
    ensures var t := EditedOne(m, key, e);
            && t.cache == m.cache[key := s.cache[key].(listing := Edited(s.cache[key].listing, e))]
            && t.servers == m.servers && t.nextNode == m.nextNode
  {
    TouchedListing(m, key);
    assert m.cache[key].node.Some?;
  }

  lemma RewroteCache(s: Cache, m: Cache, keys: set<CacheKey>, e: Edit, key: CacheKey)
    requires m.Keys == s.Keys && key in s && key !in keys
    requires forall k :: k in s ==> m[k] == (if k in keys then s[k].(listing := Edited(s[k].listing, e)) else s[k])
    ensures var t := m[key := s[key].(listing := Edited(s[key].listing, e))];
            && t.Keys == s.Keys
            && forall k :: k in s ==>
                 t[k] == (if k in keys + {key} then s[k].(listing := Edited(s[k].listing, e)) else s[k])
  {
  }

  /** The step of the loops of UpdateFile, RemoveFile and InvalidateFile. */
  lemma RewroteMore(s: State, m: State, keys: set<CacheKey>, e: Edit, key: CacheKey)
    requires Inv(s) && Inv(m) && Rewrote(s, m, keys, e) && key in s.cache && key !in keys
    ensures Rewrote(s, EditedOne(m, key, e), keys + {key}, e)
  {
    EditedOneMoved(s, m, keys, e, key);
    RewroteCache(s.cache, m.cache, keys, e, key);
    EditedOneCache(s, m, e, key);
  }

  lemma TouchLength(m: State, key: CacheKey)
    requires Inv(m) && key in m.cache
    ensures |Touched(m, key).lru| == |m.lru|
  {
    var i := NodeIndex(m, key);
  }

  lemma DroppedNothing(s: State)
    ensures DroppedAll(s, s, {})
  {
    FilteredNone(s.lru, {});
    assert s.cache - {} == s.cache;
  }

  lemma DroppedMore(s: State, m: State, keys: set<CacheKey>, key: CacheKey)
    requires Inv(m) && DroppedAll(s, m, keys) && key in m.cache
    ensures Inv(Dropped(m, key)) && DroppedAll(s, Dropped(m, key), keys + {key})
  {
    DropInv(m, key);
    FilteredTwice(s.lru, keys, {key});
    assert s.cache - keys - {key} == s.cache - (keys + {key});
  }

  lemma FlaggedKeyed(s: State, keys: set<CacheKey>)
    requires Keyed(s)
    ensures Keyed(FlaggedAll(s, keys))
  {
  }

  lemma FlaggedSum(s: State, keys: set<CacheKey>)
    ensures Sum(FlaggedAll(s, keys).cache, s.lru) == Sum(s.cache, s.lru)
  {
    SumSame(s.cache, FlaggedAll(s, keys).cache, s.lru);
  }

  lemma FlaggedInv(s: State, keys: set<CacheKey>)
    requires Inv(s)
    ensures Inv(FlaggedAll(s, keys))
  {
    FlaggedKeyed(s, keys);
    FlaggedSum(s, keys);
  }

  lemma SameSizeInv(s: State, key: CacheKey, l: Listing)
    requires Inv(s) && key in s.cache && l.path == key.path && Sound(l) && |l.entries| == |s.cache[key].listing.entries|
    ensures Inv(WithListing(s, key, l, 0))
  {
    ListingInv(s, key, l);
  }

  lemma UnchangedListing(s: State, key: CacheKey)
    requires key in s.cache
    ensures WithListing(s, key, s.cache[key].listing, 0) == s
  {
    assert s.cache[key := s.cache[key]] == s.cache;
  }

  // ---------- the edits as loops over a listing ----------

  /** The body of UpdateFile's loop: marks until the name itself is met, else may add an entry. */
  method UpdateListing(l: Listing, e: Edit) returns (r: Listing, created: bool)
    requires e.Update?
    ensures r == Edited(l, e) && (if created then 1 else 0) == Delta(l, e)
  {
    var matchCase, i, entries := false, 0, l.entries;
    while i < |l.entries| && !matchCase
      invariant 0 <= i <= |l.entries| && entries == Marked(l.entries, e.name, true, if matchCase then i + 1 else i)
      invariant matchCase ==> i < |l.entries| && l.entries[i].name == e.name
      invariant forall k :: 0 <= k < i ==> l.entries[k].name != e.name
      decreases |l.entries| - i, !matchCase
    {
      if HasKey(l.entries[i], e.name, true) { entries := entries[i := entries[i].(unsure := true)]; }
      if l.entries[i].name == e.name { matchCase := true; } else { i := i + 1; }
    }
    assert i == FirstNamed(l.entries, e.name);
    assert entries == Marked(l.entries, e.name, true, i + 1);
    created := false;
    if matchCase {
      var oldKind := if entries[i].isDir then Dir else File;
      r := WithFlags(l, entries,
          {if e.kind != oldKind then UnsureInvalid else if e.kind == Dir then DirChanged else FileChanged});
    } else if e.kind != Unknown && e.mayCreate {
      r := WithFlags(l, entries, if e.kind == Dir then {DirAdded, HasDirs} else {FileAdded});
      r := r.(entries := r.entries + [Entry(e.name, e.size, "", e.ownerGroup, e.kind == Dir, false, true)]);
      created := true;
    } else {
      r := WithFlags(l, entries, {UnsureUnknown});
    }
  }

  /** The body of RemoveFile's loop. */
  method RemoveFromListing(l: Listing, name: string) returns (r: Listing, removed: bool)
    ensures r == Edited(l, Remove(name)) && (if removed then -1 else 0) == Delta(l, Remove(name))
  {
    var i := 0;
    while i < |l.entries| && l.entries[i].name != name
      invariant 0 <= i <= |l.entries| && forall k :: 0 <= k < i ==> l.entries[k].name != name
    {
      i := i + 1;
    }
    removed := i < |l.entries|;
    if removed {
      r := WithoutEntry(l, i);
    } else {
      var entries := MarkAll(l.entries, name, true);
      r := WithFlags(l, entries, {UnsureInvalid});
    }
  }

  method MarkAll(all: seq<Entry>, name: string, noCase: bool) returns (entries: seq<Entry>)
    ensures entries == Marked(all, name, noCase, |all|)
  {
    entries := all;
    var i := 0;
    while i < |all|
      invariant 0 <= i <= |all| && entries == Marked(all, name, noCase, i)
    {
      if HasKey(all[i], name, noCase) { entries := entries[i := entries[i].(unsure := true)]; }
      i := i + 1;
    }
  }

  // ---------- the cache ----------

  class DirectoryCache {
    var servers: set<Server>
    var cache: Cache
    var lru: seq<Node>
    var total: int
    var nextNode: nat

    function Value(): State
      reads this
    {
      State(servers, cache, lru, total, nextNode)
    }

    ghost predicate Valid()
      reads this
    {
      Inv(Value())
    }

    constructor ()
      ensures Valid() && Value() == State({}, map[], [], 0, 0)
    {
      servers, cache, lru, total, nextNode := {}, map[], [], 0, 0;
    }

    method UpdateLru(key: CacheKey)
      requires key in cache
      modifies this
      ensures Value() == Touched(old(Value()), key)
    {
      match cache[key].node {
        case Some(id) =>
          lru := WithoutNode(lru, id) + [Node(id, key)];
        case None =>
          cache := cache[key := cache[key].(node := Some(nextNode))];
          lru := lru + [Node(nextNode, key)];
          nextNode := nextNode + 1;
      }
    }

    /** Erases a listing from the cache, from the list of recently used ones, and from the count. */
    method Erase(key: CacheKey)
      requires key in cache
      modifies this
      ensures Value() == Dropped(old(Value()), key)
    {
      total := total - |cache[key].listing.entries|;
      if cache[key].node.Some? { lru := WithoutNode(lru, cache[key].node.value); }
      cache := cache - {key};
    }

    /** One round of Prune's loop: the least recently used listing goes. */
    method EvictFront()
      requires lru != [] && lru[0].key in cache
      modifies this
      ensures Value() == Evicted(old(Value()))
    {
      var key := lru[0].key;
      total := total - |cache[key].listing.entries|;
      cache := cache - {key};
      if !exists k :: k in cache && k.server == key.server { servers := servers - {key.server}; }
      lru := lru[1..];
    }

    /** Prune does not rely on the count being right. */
    method Prune()
      requires Known(cache, lru, nextNode) && Distinct(lru)
      modifies this
      ensures Value() == Pruned(old(Value())) && !OverLimit(|lru|, total)
    {
      ghost var goal := Pruned(Value());
      while |lru| > MANY || (total > LARGE_TOTAL && |lru| > 1000) || (total > HUGE_TOTAL && |lru| > 100)
        invariant Known(cache, lru, nextNode) && Distinct(lru) && Pruned(Value()) == goal
        decreases |lru|
      {
        EvictedKnown(Value());
        EvictFront();
      }
    }

    /** A listing of the same path is replaced in place. */
    method StoreOver(l: Listing, server: Server, ghost s: State)
      requires Inv(s) && Sound(l) && CacheKey(server, l.path) in s.cache
      requires Value() == s.(servers := s.servers + {server}, total := s.total + |l.entries|)
      modifies this
      ensures StoreRel(s, Value(), l, server)
    {
      var key := CacheKey(server, l.path);
      ghost var m := Value();
      UpdateLru(key);
      ghost var more := OverwriteInv(s, m, key, l);
      total := total - |cache[key].listing.entries|;
      cache := cache[key := cache[key].(listing := l)];
      assert Value() == WithListing(Touched(m, key), key, l, more);
    }

    /** The insertion into the set of listings: an empty path is taken for any other empty path. */
    method Emplace(l: Listing, server: Server, ghost s: State)
      requires Inv(s) && Sound(l) && CacheKey(server, l.path) !in s.cache
      requires Value() == s.(servers := s.servers + {server}, total := s.total + |l.entries|)
      modifies this
      ensures Known(cache, lru, nextNode) && Distinct(lru) && StoredBeforePrune(s, Value(), l, server)
    {
      var key := CacheKey(server, l.path);
      if HasTwin(Value(), key) {
        ghost var m := Value();
        var twin :| twin in cache && twin.server == server && twin.path.Empty();
        UpdateLru(twin);
        TwinTouched(s, Value(), twin, |l.entries|);
        assert Value() == Touched(m, twin);
      } else {
        cache := cache[key := CacheEntry(l, None)];
        UpdateLru(key);
        InsertInv(s, key, l);
        assert Value() == Inserted(s, key, l);
      }
    }

    /** Store keeps the count right exactly if no listing without path is stored next to one of
        another type, or it has no files. */
    method Store(l: Listing, server: Server)
      requires Valid() && Sound(l)
      modifies this
      ensures Acts(old(Value()), DoStore(l, server), Value())
      ensures var twin := HasTwin(old(Value()), CacheKey(server, l.path));
              && (Valid() <==> !twin || l.entries == [])
              && (CacheKey(server, l.path) in cache <==> !twin)
              && (!twin ==> cache[CacheKey(server, l.path)].listing == l)
      ensures CacheKey(server, l.path) !in old(cache) ==> !OverLimit(|lru|, total)
    {
      var key := CacheKey(server, l.path);
      ghost var s := Value();
      servers := servers + {server};
      total := total + |l.entries|;
      if key in cache {
        StoreOver(l, server, s);
      } else {
        Emplace(l, server, s);
        ghost var m := Value();
        Prune();
        assert StoredBeforePrune(s, m, l, server);
      }
      StoreCounts(s, Value(), l, server);
    }

    /** now and ttl are the time of the call and the time after which a listing is outdated. */
    method Lookup(server: Server, path: ServerPath, allowUnsure: bool, now: int, ttl: int)
      returns (l: Option<Listing>, outdated: bool)
      requires Valid()
      modifies this
      ensures Valid() && Acts(old(Value()), DoLookup(CacheKey(server, path)), Value())
      ensures l == if Found(old(Value()), CacheKey(server, path), allowUnsure)
                   then Some(old(cache)[CacheKey(server, path)].listing) else None
      ensures outdated <==> l.Some? && now - l.value.firstListed > ttl
    {
      var key := CacheKey(server, path);
      if key !in cache { return None, false; }
      TouchInv(Value(), key);
      UpdateLru(key);
      if !allowUnsure && cache[key].listing.IsUnsure() { return None, false; }
      l := Some(cache[key].listing);
      outdated := now - cache[key].listing.firstListed > ttl;
    }

    /** LookupFile: the answer of a plain scan, regardless of case only where that is wanted; an
        outdated listing is searched only where that is allowed. */
    method LookupFile(server: Server, path: ServerPath, name: string, forceNoCase: bool, allowOutdated: bool,
                      now: int, ttl: int)
      returns (entry: Option<Entry>, dirExists: bool, matchedCase: bool, outdated: bool)
      requires Valid()
      modifies this
      ensures Valid() && Acts(old(Value()), DoSearch(CacheKey(server, path)), Value())
      ensures var key := CacheKey(server, path);
              && (outdated <==> key in old(cache) && now - old(cache)[key].listing.firstListed > ttl)
              && (dirExists <==> key in old(cache) && (outdated ==> allowOutdated))
      ensures !dirExists ==> entry == None && !matchedCase
      ensures dirExists ==>
        var es := old(cache)[CacheKey(server, path)].listing.entries;
        && (matchedCase <==> exists i :: 0 <= i < |es| && HasKey(es[i], name, false))
        && (entry.Some? ==> entry.value in es && HasKey(entry.value, name, !matchedCase))
        && (entry.None? ==> !matchedCase)
        && (entry.None? && (!server.caseSensitive || forceNoCase) ==>
              forall i :: 0 <= i < |es| ==> !HasKey(es[i], name, true))
        && (server.caseSensitive && !forceNoCase && entry.Some? ==> matchedCase)
    {
      var key := CacheKey(server, path);
      if key !in cache { return None, false, false, false; }
      ghost var s := Value();
      TouchInv(s, key);
      TouchedListing(s, key);
      UpdateLru(key);
      outdated := now - cache[key].listing.firstListed > ttl;
      if outdated && !allowOutdated {
        UnchangedListing(Value(), key);
        return None, false, false, outdated;
      }
      dirExists := true;
      entry, matchedCase := SearchIn(key, name, !server.caseSensitive || forceNoCase);
    }

    /** Searches a cached listing, whose search maps may grow thereby. */
    method SearchIn(key: CacheKey, name: string, alsoNoCase: bool) returns (entry: Option<Entry>, matchedCase: bool)
      requires Valid() && key in cache
      modifies `cache
      ensures key in cache && Valid() && SameContent(cache[key].listing, old(cache)[key].listing)
      ensures Value() == WithListing(old(Value()), key, cache[key].listing, 0)
      ensures Sound(cache[key].listing)
      ensures var es := old(cache)[key].listing.entries;
        && (matchedCase <==> exists i :: 0 <= i < |es| && HasKey(es[i], name, false))
        && (entry.Some? ==> entry.value in es && HasKey(entry.value, name, !matchedCase))
        && (entry.None? ==> !matchedCase && (alsoNoCase ==> forall i :: 0 <= i < |es| ==> !HasKey(es[i], name, true)))
        && (!alsoNoCase && entry.Some? ==> matchedCase)
    {
      var d := new DirectoryListing(cache[key].listing);
      var r, m := d.Search(name, alsoNoCase);
      SameSizeInv(Value(), key, d.Value());
      cache := cache[key := cache[key].(listing := d.Value())];
      entry, matchedCase := if r.Some? then Some(d.entries[r.value]) else None, m;
    }

    method EditOne(key: CacheKey, e: Edit)
      requires key in cache
      modifies this
      ensures Value() == EditedOne(old(Value()), key, e)
    {
      TouchedListing(Value(), key);
      UpdateLru(key);
      var l := cache[key].listing;
      match e {
        case Update(_, _, _, _, _) =>
          var created;
          l, created := UpdateListing(l, e);
          if created { total := total + 1; }
        case Remove(name) =>
          var removed;
          l, removed := RemoveFromListing(l, name);
          if removed { total := total - 1; }
        case Invalidate(name, noCase) =>
          var entries := MarkAll(l.entries, name, noCase);
          l := WithFlags(l, entries, {UnsureUnknown});
      }
      cache := cache[key := cache[key].(listing := l)];
    }

    method EditNext(ghost s: State, ghost done: set<CacheKey>, key: CacheKey, e: Edit)
      requires Inv(s) && Valid() && Rewrote(s, Value(), done, e) && key in s.cache && key !in done
      modifies this
      ensures Valid() && Rewrote(s, Value(), done + {key}, e)
    {
      EditedOneInv(Value(), key, e);
      RewroteMore(s, Value(), done, e, key);
      EditOne(key, e);
    }

    /** The loops of UpdateFile, RemoveFile and InvalidateFile over the cached listings. */
    method EditAll(keys: set<CacheKey>, e: Edit)
      requires Valid() && keys <= cache.Keys
      modifies this
      ensures Valid() && Rewrote(old(Value()), Value(), keys, e)
    {
      ghost var s := Value();
      var todo := keys;
      RewroteNothing(s, e);
      assert keys - todo == {};
      while todo != {}
        invariant todo <= keys && Valid() && Rewrote(s, Value(), keys - todo, e)
        decreases todo
      {
        var key :| key in todo;
        OneLess(keys, todo, key);
        EditNext(s, keys - todo, key, e);
        todo := todo - {key};
      }
      assert keys - todo == keys;
    }

    method UpdateFile(server: Server, path: ServerPath, name: string, mayCreate: bool, kind: Filetype, size: int,
                      ownerGroup: string)
      returns (updated: bool)
      requires Valid()
      modifies this
      ensures Valid()
      ensures Acts(old(Value()), DoUpdate(server, path, Update(name, mayCreate, kind, size, ownerGroup)), Value())
      ensures updated <==> server in old(servers) && NoCaseKeys(old(Value()), server, path) != {}
    {
      if server !in servers { return false; }
      var keys := NoCaseKeys(Value(), server, path);
      EditAll(keys, Update(name, mayCreate, kind, size, ownerGroup));
      updated := keys != {};
    }

    method RemoveFile(server: Server, path: ServerPath, name: string) returns (known: bool)
      requires Valid()
      modifies this
      ensures Valid() && Acts(old(Value()), DoUpdate(server, path, Remove(name)), Value())
      ensures known <==> server in old(servers)
    {
      if server !in servers { return false; }
      EditAll(NoCaseKeys(Value(), server, path), Remove(name));
      known := true;
    }

    method FlagAll(keys: set<CacheKey>)
      requires Valid()
      modifies this
      ensures Valid() && Value() == FlaggedAll(old(Value()), keys)
    {
      FlaggedInv(Value(), keys);
      cache := map k | k in cache ::
        if k !in keys then cache[k]
        else cache[k].(listing := WithFlags(cache[k].listing, cache[k].listing.entries, {UnsureUnknown}));
    }

    method InvalidateFile(server: Server, path: ServerPath, name: string) returns (known: bool)
      requires Valid()
      modifies this
      ensures Valid() && Acts(old(Value()), DoInvalidate(server, path, name), Value())
      ensures known <==> server in old(servers)
    {
      if server !in servers { return false; }
      var noCase := !server.caseSensitive;
      var keys := InvalidateKeys(Value(), server, path);
      var dir := exists k :: k in keys && k in cache && HoldsDir(cache[k].listing, name, noCase);
      EditAll(keys, Invalidate(name, noCase));
      if dir && ServerPathText.Changed(path, name).Some? {
        FlagAll(BelowKeys(Value(), server, path, noCase, true));
      }
      known := true;
    }

    method EraseNext(ghost s: State, ghost done: set<CacheKey>, key: CacheKey)
      requires Valid() && DroppedAll(s, Value(), done) && key in cache
      modifies this
      ensures Valid() && DroppedAll(s, Value(), done + {key})
    {
      DroppedMore(s, Value(), done, key);
      Erase(key);
    }

    /** Erases these listings one by one. */
    method EraseAll(keys: set<CacheKey>)
      requires Valid() && keys <= cache.Keys
      modifies this
      ensures Valid() && DroppedAll(old(Value()), Value(), keys)
    {
      var todo := keys;
      ghost var s, done := Value(), {};
      DroppedNothing(s);
      while todo != {}
        invariant todo !! done && todo + done == keys && todo <= cache.Keys
        invariant Valid() && DroppedAll(s, Value(), done)
        decreases todo
      {
        var key :| key in todo;
        EraseNext(s, done, key);
        todo := todo - {key};
        done := done + {key};
      }
      assert done == keys;
    }

    method InvalidateServer(server: Server)
      requires Valid()
      modifies this
      ensures Valid() && Acts(old(Value()), DoDropServer(server), Value())
    {
      if server !in servers { return; }
      EraseAll(set k | k in cache && k.server == server);
      servers := servers - {server};
    }

    method RemoveDir(server: Server, path: ServerPath, name: string)
      requires Valid()
      modifies this
      ensures Valid() && Acts(old(Value()), DoRemoveDir(server, path, name), Value())
    {
      if server !in servers { return; }
      ghost var s := Value();
      EraseAll(RemovedKeys(Value(), server, path, name));
      ghost var m := Value();
      var _ := RemoveFile(server, path, name);
      assert DroppedAll(s, m, RemovedKeys(s, server, path, name))
          && UpdateFileRel(m, Value(), server, path, Remove(name));
    }

    method Rename(server: Server, pathFrom: ServerPath, from: string, pathTo: ServerPath, to: string)
      requires Valid()
      modifies this
      ensures Valid() && Acts(old(Value()), DoRename(server, pathFrom, from, pathTo, to), Value())
    {
      if server !in servers { return; }
      var key := CacheKey(server, pathFrom);
      if key !in cache { InvalidateServer(server); return; }
      TouchInv(Value(), key);
      UpdateLru(key);
      if pathFrom == pathTo {
        RenameWithin(server, pathFrom, from, to);
      } else {
        RenameAcross(server, pathFrom, from, pathTo, to);
      }
    }

    method RenameWithin(server: Server, path: ServerPath, from: string, to: string)
      requires Valid() && CacheKey(server, path) in cache
      modifies this
      ensures Valid() && RenameWithinRel(old(Value()), Value(), server, path, from, to)
    {
      ghost var s := Value();
      assert server in servers;
      var _ := RemoveFile(server, path, to);
      ghost var m := Value();
      assert m.cache.Keys == s.cache.Keys;
      RenameEntry(server, path, from, to);
      assert UpdateFileRel(s, m, server, path, Remove(to)) && RenameEntryRel(m, Value(), server, path, from, to);
    }

    method RenameEntry(server: Server, path: ServerPath, from: string, to: string)
      requires Valid() && CacheKey(server, path) in cache
      modifies this
      ensures Valid() && RenameEntryRel(old(Value()), Value(), server, path, from, to)
    {
      var key := CacheKey(server, path);
      var l := cache[key].listing;
      var i := FirstNamed(l.entries, from);
      if i == |l.entries| { return; }
      if l.entries[i].isDir {
        RenameDir(server, path, from, to);
      } else {
        RenamedSound(l, i, to);
        SameSizeInv(Value(), key, RenamedEntry(l, i, to));
        cache := cache[key := cache[key].(listing := RenamedEntry(l, i, to))];
      }
    }

    method RenameDir(server: Server, path: ServerPath, from: string, to: string)
      requires Valid()
      modifies this
      ensures Valid() && RenameDirRel(old(Value()), Value(), server, path, from, to)
    {
      ghost var m := Value();
      RemoveDir(server, path, from);
      ghost var u := Value();
      RemoveDir(server, path, to);
      ghost var v := Value();
      var _ := UpdateFile(server, path, to, true, Dir, -1, "");
      assert RemoveDirRel(m, u, server, path, from) && RemoveDirRel(u, v, server, path, to)
        && UpdateFileRel(v, Value(), server, path, Update(to, true, Dir, -1, ""));
    }

    method RenameAcross(server: Server, pathFrom: ServerPath, from: string, pathTo: ServerPath, to: string)
      requires Valid() && CacheKey(server, pathFrom) in cache
      modifies this
      ensures Valid() && RenameAcrossRel(old(Value()), Value(), server, pathFrom, from, pathTo, to)
    {
      var l := cache[CacheKey(server, pathFrom)].listing;
      var i := FirstNamed(l.entries, from);
      if i == |l.entries| { return; }
      if l.entries[i].isDir {
        RemoveDir(server, pathFrom, from);
        ghost var m := Value();
        var _ := UpdateFile(server, pathTo, to, true, Dir, -1, "");
        assert UpdateFileRel(m, Value(), server, pathTo, Update(to, true, Dir, -1, ""));
      } else {
        var _ := RemoveFile(server, pathFrom, from);
        ghost var m := Value();
        var _ := UpdateFile(server, pathTo, to, true, File, -1, "");
        assert UpdateFileRel(m, Value(), server, pathTo, Update(to, true, File, -1, ""));
      }
    }

    method UpdateOwnerGroup(server: Server, path: ServerPath, name: string, ownerGroup: string)
      requires Valid()
      modifies this
      ensures Valid() && Acts(old(Value()), DoUpdateOwner(server, path, name, ownerGroup), Value())
    {
      if server !in servers { return; }
      var key := CacheKey(server, path);
      if key !in cache { InvalidateServer(server); return; }
      TouchInv(Value(), key);
      TouchedListing(Value(), key);
      UpdateLru(key);
      var l := cache[key].listing;
      var i := FirstNamed(l.entries, name);
      if i == |l.entries| { InvalidateServer(server); return; }
      if !l.entries[i].isDir {
        SetOwner(key, i, ownerGroup);
      }
    }

    method SetOwner(key: CacheKey, i: nat, ownerGroup: string)
      requires Valid() && key in cache && i < |cache[key].listing.entries|
      modifies `cache
      ensures Valid()
      ensures Value() == WithListing(old(Value()), key, WithOwner(old(cache)[key].listing, i, ownerGroup), 0)
    {
      var l := cache[key].listing;
      SameSizeInv(Value(), key, WithOwner(l, i, ownerGroup));
      cache := cache[key := cache[key].(listing := WithOwner(l, i, ownerGroup))];
    }
  }

  lemma RenamedSound(l: Listing, i: nat, name: string)
    requires Sound(l) && i < |l.entries|
    ensures Sound(RenamedEntry(l, i, name)) && |RenamedEntry(l, i, name).entries| == |l.entries|
  {}
}
