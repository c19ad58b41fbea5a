/** The public operations of the directory cache: what each does to the cached listings and
    to their order of use, and what follows over any run of them. */
module DirectoryCacheOps {
  import opened Text
  import opened ServerPaths
  import ServerPathText
  import opened DirectoryListings
  import opened DirectoryCaches

  // ---------- what an operation does ----------

  /** The nodes of these keys went to the end, in some order; the others stayed as they were. */
  ghost predicate MovedBack(lru: seq<Node>, t: seq<Node>, keys: set<CacheKey>) {
    var kept := Filtered(lru, keys);
    && |t| == |lru| && |kept| <= |t| && t[..|kept|] == kept
    && forall n :: n in t[|kept|..] <==> n in lru && n.key in keys
  }

  /** These listings, and no others, were edited, and became the most recently used ones. */
  ghost predicate Rewrote(s: State, t: State, keys: set<CacheKey>, e: Edit) {
    && keys <= s.cache.Keys && t.servers == s.servers && t.nextNode == s.nextNode && t.cache.Keys == s.cache.Keys
    && (forall k :: k in s.cache ==>
          t.cache[k] == (if k in keys then s.cache[k].(listing := Edited(s.cache[k].listing, e)) else s.cache[k]))
    && MovedBack(s.lru, t.lru, keys)
  }

  ghost predicate DroppedAll(s: State, t: State, keys: set<CacheKey>) {
    t.servers == s.servers && t.nextNode == s.nextNode && t.cache == s.cache - keys && t.lru == Filtered(s.lru, keys)
  }

  function NoCaseKeys(s: State, server: Server, path: ServerPath): set<CacheKey> {
    set k | k in s.cache && k.server == server && EqualNoCasePath(path, k.path)
  }

  ghost predicate UpdateFileRel(s: State, t: State, server: Server, path: ServerPath, e: Edit) {
    if server !in s.servers then t == s else Rewrote(s, t, NoCaseKeys(s, server, path), e)
  }

  function InvalidateKeys(s: State, server: Server, path: ServerPath): set<CacheKey> {
    set k | k in s.cache && k.server == server
        && (if server.caseSensitive then path == k.path else EqualNoCasePath(path, k.path))
  }

  predicate HoldsDir(l: Listing, name: string, noCase: bool) {
    exists i :: 0 <= i < |l.entries| && HasKey(l.entries[i], name, noCase) && l.entries[i].isDir
  }

  function BelowKeys(s: State, server: Server, path: ServerPath, noCase: bool, allowEqual: bool): set<CacheKey> {
    set k | k in s.cache && k.server == server && IsParentOf(path, k.path, noCase, allowEqual)
  }

  function FlaggedAll(s: State, keys: set<CacheKey>): State {
    s.(cache := map k | k in s.cache ::
      if k !in keys then s.cache[k]
      else s.cache[k].(listing := WithFlags(s.cache[k].listing, s.cache[k].listing.entries, {UnsureUnknown})))
  }

  /** A directory of that name is known in one of the listings. */
  predicate NamesDir(s: State, keys: set<CacheKey>, name: string, noCase: bool) {
    exists k :: k in keys && k in s.cache && HoldsDir(s.cache[k].listing, name, noCase)
  }

  ghost predicate InvalidateFileRel(s: State, t: State, server: Server, path: ServerPath, name: string) {
    if server !in s.servers then t == s
    else
      var keys, noCase := InvalidateKeys(s, server, path), !server.caseSensitive;
      exists m :: Rewrote(s, m, keys, Invalidate(name, noCase))
        && t == if NamesDir(s, keys, name, noCase) && ServerPathText.Changed(path, name).Some?
                then FlaggedAll(m, BelowKeys(m, server, path, noCase, true)) else m
  }

  function ServerKeys(s: State, server: Server): set<CacheKey> {
    set k | k in s.cache && k.server == server
  }

  /** InvalidateServer */
  ghost predicate ServerGone(s: State, t: State, server: Server) {
    if server !in s.servers then t == s
    else t.servers == s.servers - {server} && DroppedAll(s.(servers := t.servers), t, ServerKeys(s, server))
  }

  /** Listings at or, regardless of case, below the directory name of path. */
  function RemovedKeys(s: State, server: Server, path: ServerPath, name: string): set<CacheKey> {
    var absolute := path.Child(name);
    if absolute.Empty() then {}
    else set k | k in s.cache && k.server == server && (k.path == absolute || IsParentOf(absolute, k.path, true, false))
  }

  ghost predicate RemoveDirRel(s: State, t: State, server: Server, path: ServerPath, name: string) {
    if server !in s.servers then t == s
    else exists m ::
      DroppedAll(s, m, RemovedKeys(s, server, path, name)) && UpdateFileRel(m, t, server, path, Remove(name))
  }

  /** Lookup of a cached path makes it the most recently used one. */
  function LookedUp(s: State, key: CacheKey): State {
    if key in s.cache then Touched(s, key) else s
  }

  /** Whether Lookup succeeds. */
  predicate Found(s: State, key: CacheKey, allowUnsure: bool) {
    key in s.cache && (allowUnsure || !s.cache[key].listing.IsUnsure())
  }

  function RenamedEntry(l: Listing, i: nat, name: string): Listing
    requires i < |l.entries|
  {
    var r := WithName(l, i, name);
    MapsCleared(WithFlags(r, r.entries[i := r.entries[i].(unsure := true)], {UnsureUnknown}))
  }

  ghost predicate RenameDirRel(s: State, t: State, server: Server, path: ServerPath, from: string, to: string) {
    exists u, v :: RemoveDirRel(s, u, server, path, from) && RemoveDirRel(u, v, server, path, to)
      && UpdateFileRel(v, t, server, path, Update(to, true, Dir, -1, ""))
  }

  /** What becomes of the entry called from, in a directory from which to was removed. */
  ghost predicate RenameEntryRel(s: State, t: State, server: Server, path: ServerPath, from: string, to: string)
    requires CacheKey(server, path) in s.cache
  {
    var l := s.cache[CacheKey(server, path)].listing;
    var i := FirstNamed(l.entries, from);
    if i == |l.entries| then t == s
    else if l.entries[i].isDir then RenameDirRel(s, t, server, path, from, to)
    else t == WithListing(s, CacheKey(server, path), RenamedEntry(l, i, to), 0)
  }

  ghost predicate RenameWithinRel(s: State, t: State, server: Server, path: ServerPath, from: string, to: string) {
    exists m :: UpdateFileRel(s, m, server, path, Remove(to)) && CacheKey(server, path) in m.cache
      && RenameEntryRel(m, t, server, path, from, to)
  }

  ghost predicate RenameAcrossRel(s: State, t: State, server: Server, pathFrom: ServerPath, from: string,
                                  pathTo: ServerPath, to: string)
    requires CacheKey(server, pathFrom) in s.cache
  {
    var l := s.cache[CacheKey(server, pathFrom)].listing;
    var i := FirstNamed(l.entries, from);
    if i == |l.entries| then t == s
    else if l.entries[i].isDir then
      exists m :: RemoveDirRel(s, m, server, pathFrom, from)
          && UpdateFileRel(m, t, server, pathTo, Update(to, true, Dir, -1, ""))
    else
      exists m :: UpdateFileRel(s, m, server, pathFrom, Remove(from))
          && UpdateFileRel(m, t, server, pathTo, Update(to, true, File, -1, ""))
  }

  ghost predicate RenameRel(s: State, t: State, server: Server, pathFrom: ServerPath, from: string, pathTo: ServerPath,
                            to: string) {
    var key := CacheKey(server, pathFrom);
    if server !in s.servers then t == s
    else if key !in s.cache then ServerGone(s, t, server)
    else if pathFrom == pathTo then RenameWithinRel(Touched(s, key), t, server, pathFrom, from, to)
    else
      var m := Touched(s, key);
      key in m.cache && RenameAcrossRel(m, t, server, pathFrom, from, pathTo, to)
  }

  function WithOwner(l: Listing, i: nat, ownerGroup: string): Listing
    requires i < |l.entries|
  {
    MapsCleared(l.(entries := l.entries[i := l.entries[i].(ownerGroup := ownerGroup)]))
  }

  ghost predicate UpdateOwnerRel(s: State, t: State, server: Server, path: ServerPath, name: string,
                                 ownerGroup: string) {
    var key := CacheKey(server, path);
    if server !in s.servers then t == s
    else if key !in s.cache then ServerGone(s, t, server)
    else
      var m := Touched(s, key);
      var l := s.cache[key].listing;
      var i := FirstNamed(l.entries, name);
      if i == |l.entries| then ServerGone(m, t, server)
      else if l.entries[i].isDir then t == m
      else key in m.cache && t == WithListing(m, key, WithOwner(l, i, ownerGroup), 0)
  }

  /** The order of the cache's sets takes an empty path for any other empty path, operator==
      does not (see PathLessTrichotomy): such a twin is found by insertion, not by lookup. */
  predicate HasTwin(s: State, key: CacheKey) {
    key !in s.cache && key.path.Empty() && exists k :: k in s.cache && k.server == key.server && k.path.Empty()
  }

  /** What Store does before it prunes. */
  ghost predicate StoredBeforePrune(s: State, t: State, l: Listing, server: Server) {
    var key := CacheKey(server, l.path);
    var m := s.(servers := s.servers + {server}, total := s.total + |l.entries|);
    if key in s.cache then
      t == WithListing(Touched(m, key), key, l, -|s.cache[key].listing.entries|)
    else if HasTwin(s, key) then
      exists k :: k in s.cache && k.server == server && k.path.Empty() && t == Touched(m, k)
    else t == Inserted(s, key, l)
  }

  ghost predicate StoreRel(s: State, t: State, l: Listing, server: Server) {
    if CacheKey(server, l.path) in s.cache then StoredBeforePrune(s, t, l, server)
    else exists m ::
      StoredBeforePrune(s, m, l, server) && Known(m.cache, m.lru, m.nextNode) && Distinct(m.lru) && t == Pruned(m)
  }

  /** A search in a cached listing touches it and may extend its search maps. */
  ghost predicate SearchRel(s: State, t: State, key: CacheKey) {
    if key !in s.cache then t == s
    else
      key in t.cache && SameContent(t.cache[key].listing, s.cache[key].listing)
      && key in Touched(s, key).cache && t == WithListing(Touched(s, key), key, t.cache[key].listing, 0)
  }

  datatype Action =
    | DoStore(listing: Listing, server: Server)
    | DoLookup(key: CacheKey)
    | DoSearch(key: CacheKey)
    | DoUpdate(server: Server, path: ServerPath, edit: Edit)
    | DoInvalidate(server: Server, path: ServerPath, name: string)
    | DoDropServer(server: Server)
    | DoRemoveDir(server: Server, path: ServerPath, name: string)
    | DoRename(server: Server, path: ServerPath, name: string, pathTo: ServerPath, to: string)
    | DoUpdateOwner(server: Server, path: ServerPath, name: string, ownerGroup: string)

  ghost predicate Acts(s: State, a: Action, t: State) {
    match a
    case DoStore(l, server) => StoreRel(s, t, l, server)
    case DoLookup(key) => t == LookedUp(s, key)
    case DoSearch(key) => SearchRel(s, t, key)
    case DoUpdate(server, path, e) => UpdateFileRel(s, t, server, path, e)
    case DoInvalidate(server, path, name) => InvalidateFileRel(s, t, server, path, name)
    case DoDropServer(server) => ServerGone(s, t, server)
    case DoRemoveDir(server, path, name) => RemoveDirRel(s, t, server, path, name)
    case DoRename(server, path, name, pathTo, to) => RenameRel(s, t, server, path, name, pathTo, to)
    case DoUpdateOwner(server, path, name, ownerGroup) => UpdateOwnerRel(s, t, server, path, name, ownerGroup)
  }

  // ---------- staleness ----------

  /** The listing is gone or marked: Lookup without unsure entries fails. */
  predicate Stale(s: State, key: CacheKey) { !Found(s, key, false) }

  /** Every cached listing of t was cached in s, and keeps all flags it had there. */
  predicate KeepsFlags(s: State, t: State) {
    t.cache.Keys <= s.cache.Keys && forall k :: k in t.cache ==> s.cache[k].listing.flags <= t.cache[k].listing.flags
  }

  lemma KeepsFlagsStale(s: State, t: State, key: CacheKey)
    requires KeepsFlags(s, t) && Stale(s, key)
    ensures Stale(t, key)
  {
    if key in t.cache {
      var f :| f in s.cache[key].listing.flags * UNSURE;
      UnsureFlag(t.cache[key].listing.flags, f);
    }
  }

  lemma EditKeepsFlags(l: Listing, e: Edit)
    ensures l.flags <= Edited(l, e).flags
  {}

  lemma RewroteKeepsFlags(s: State, t: State, keys: set<CacheKey>, e: Edit)
    requires Rewrote(s, t, keys, e)
    ensures KeepsFlags(s, t)
  {
    forall k | k in t.cache ensures s.cache[k].listing.flags <= t.cache[k].listing.flags {
      EditKeepsFlags(s.cache[k].listing, e);
    }
  }

  lemma UpdateKeepsFlags(s: State, t: State, server: Server, path: ServerPath, e: Edit)
    requires UpdateFileRel(s, t, server, path, e)
    ensures KeepsFlags(s, t)
  {
    if server in s.servers { RewroteKeepsFlags(s, t, NoCaseKeys(s, server, path), e); }
  }

  lemma RemoveDirKeepsFlags(s: State, t: State, server: Server, path: ServerPath, name: string)
    requires RemoveDirRel(s, t, server, path, name)
    ensures KeepsFlags(s, t)
  {
    if server in s.servers {
      var m :| DroppedAll(s, m, RemovedKeys(s, server, path, name)) && UpdateFileRel(m, t, server, path, Remove(name));
      UpdateKeepsFlags(m, t, server, path, Remove(name));
    }
  }

  lemma ServerGoneKeepsFlags(s: State, t: State, server: Server)
    requires ServerGone(s, t, server)
    ensures KeepsFlags(s, t)
  {}

  lemma RenameKeepsFlags(s: State, t: State, server: Server, pathFrom: ServerPath, from: string, pathTo: ServerPath,
                         to: string)
    requires RenameRel(s, t, server, pathFrom, from, pathTo, to)
    ensures KeepsFlags(s, t)
  {
    var key := CacheKey(server, pathFrom);
    if server !in s.servers {
    } else if key !in s.cache {
      ServerGoneKeepsFlags(s, t, server);
    } else if pathFrom == pathTo {
      RenameWithinKeepsFlags(Touched(s, key), t, server, pathFrom, from, to);
    } else {
      RenameAcrossKeepsFlags(Touched(s, key), t, server, pathFrom, from, pathTo, to);
    }
  }

  lemma RenameWithinKeepsFlags(s: State, t: State, server: Server, path: ServerPath, from: string, to: string)
    requires RenameWithinRel(s, t, server, path, from, to)
    ensures KeepsFlags(s, t)
  {
    var key := CacheKey(server, path);
    var m :| UpdateFileRel(s, m, server, path, Remove(to)) && key in m.cache
        && RenameEntryRel(m, t, server, path, from, to);
    UpdateKeepsFlags(s, m, server, path, Remove(to));
    var l := m.cache[key].listing;
    var i := FirstNamed(l.entries, from);
    if i < |l.entries| && l.entries[i].isDir {
      var u, v :| RemoveDirRel(m, u, server, path, from) && RemoveDirRel(u, v, server, path, to)
                          && UpdateFileRel(v, t, server, path, Update(to, true, Dir, -1, ""));
      RemoveDirKeepsFlags(m, u, server, path, from);
      RemoveDirKeepsFlags(u, v, server, path, to);
      UpdateKeepsFlags(v, t, server, path, Update(to, true, Dir, -1, ""));
    }
  }

  lemma RenameAcrossKeepsFlags(s: State, t: State, server: Server, pathFrom: ServerPath, from: string,
                               pathTo: ServerPath, to: string)
    requires CacheKey(server, pathFrom) in s.cache && RenameAcrossRel(s, t, server, pathFrom, from, pathTo, to)
    ensures KeepsFlags(s, t)
  {
    var l := s.cache[CacheKey(server, pathFrom)].listing;
    var i := FirstNamed(l.entries, from);
    if i < |l.entries| && l.entries[i].isDir {
      var m :| RemoveDirRel(s, m, server, pathFrom, from)
          && UpdateFileRel(m, t, server, pathTo, Update(to, true, Dir, -1, ""));
      RemoveDirKeepsFlags(s, m, server, pathFrom, from);
      UpdateKeepsFlags(m, t, server, pathTo, Update(to, true, Dir, -1, ""));
    } else if i < |l.entries| {
      var m :| UpdateFileRel(s, m, server, pathFrom, Remove(from))
          && UpdateFileRel(m, t, server, pathTo, Update(to, true, File, -1, ""));
      UpdateKeepsFlags(s, m, server, pathFrom, Remove(from));
      UpdateKeepsFlags(m, t, server, pathTo, Update(to, true, File, -1, ""));
    }
  }

  lemma {:induction false} PrunedCache(s: State)
    requires Known(s.cache, s.lru, s.nextNode) && Distinct(s.lru)
    ensures Pruned(s).cache.Keys <= s.cache.Keys
    ensures forall k :: k in Pruned(s).cache ==> Pruned(s).cache[k] == s.cache[k]
    decreases |s.lru|
  {
    if OverLimit(|s.lru|, s.total) {
      assert s.lru[0] in s.lru;
      assert forall n :: n in s.lru[1..] ==> n in s.lru && n.key != s.lru[0].key;
      PrunedCache(Evicted(s));
    }
  }

  /** No operation but a Store of the same path makes a stale listing look fresh again. */
  lemma ActKeepsStale(s: State, a: Action, t: State, key: CacheKey)
    requires Acts(s, a, t) && Stale(s, key)
    requires a.DoStore? ==> key != CacheKey(a.server, a.listing.path)
    ensures Stale(t, key)
  {
    match a {
      case DoStore(l, server) => StoreKeepsStale(s, t, l, server, key);
      case DoLookup(k) => KeepsFlagsStale(s, t, key);
      case DoSearch(k) => KeepsFlagsStale(s, t, key);
      case DoUpdate(server, path, e) => UpdateKeepsFlags(s, t, server, path, e); KeepsFlagsStale(s, t, key);
      case DoInvalidate(server, path, name) => InvalidateKeepsStale(s, t, server, path, name, key);
      case DoDropServer(server) => ServerGoneKeepsFlags(s, t, server); KeepsFlagsStale(s, t, key);
      case DoRemoveDir(server, path, name) => RemoveDirKeepsFlags(s, t, server, path, name); KeepsFlagsStale(s, t, key);
      case DoRename(server, path, name, pathTo, to) =>
        RenameKeepsFlags(s, t, server, path, name, pathTo, to);
        KeepsFlagsStale(s, t, key);
      case DoUpdateOwner(server, path, name, ownerGroup) => OwnerKeepsStale(s, t, server, path, name, ownerGroup, key);
    }
  }

  lemma StoredKeepsStale(s: State, t: State, l: Listing, server: Server, key: CacheKey)
    requires StoredBeforePrune(s, t, l, server) && Stale(s, key) && key != CacheKey(server, l.path)
    ensures Stale(t, key)
  {}

  lemma StoreKeepsStale(s: State, t: State, l: Listing, server: Server, key: CacheKey)
    requires StoreRel(s, t, l, server) && Stale(s, key) && key != CacheKey(server, l.path)
    ensures Stale(t, key)
  {
    if CacheKey(server, l.path) in s.cache {
      StoredKeepsStale(s, t, l, server, key);
    } else {
      var m :| StoredBeforePrune(s, m, l, server) && Known(m.cache, m.lru, m.nextNode) && Distinct(m.lru)
          && t == Pruned(m);
      StoredKeepsStale(s, m, l, server, key);
      PrunedCache(m);
    }
  }

  lemma FlaggedKeepsFlags(s: State, keys: set<CacheKey>)
    ensures KeepsFlags(s, FlaggedAll(s, keys)) && KeepsFlags(s, s)
  {
  }

  /** InvalidateFile marks entries first, and then maybe whole listings. */
  lemma InvalidateMiddle(s: State, t: State, server: Server, path: ServerPath, name: string) returns (m: State)
    requires server in s.servers && InvalidateFileRel(s, t, server, path, name)
    ensures Rewrote(s, m, InvalidateKeys(s, server, path), Invalidate(name, !server.caseSensitive))
    ensures KeepsFlags(m, t)
  {
    var keys, noCase := InvalidateKeys(s, server, path), !server.caseSensitive;
    m :| Rewrote(s, m, keys, Invalidate(name, noCase))
      && t == if NamesDir(s, keys, name, noCase) && ServerPathText.Changed(path, name).Some?
              then FlaggedAll(m, BelowKeys(m, server, path, noCase, true)) else m;
    FlaggedKeepsFlags(m, BelowKeys(m, server, path, noCase, true));
  }

  lemma InvalidateKeepsStale(s: State, t: State, server: Server, path: ServerPath, name: string, key: CacheKey)
    requires InvalidateFileRel(s, t, server, path, name) && Stale(s, key)
    ensures Stale(t, key)
  {
    if server in s.servers {
      var m := InvalidateMiddle(s, t, server, path, name);
      RewroteKeepsFlags(s, m, InvalidateKeys(s, server, path), Invalidate(name, !server.caseSensitive));
      KeepsFlagsStale(s, m, key);
      KeepsFlagsStale(m, t, key);
    } else {
      KeepsFlagsStale(s, t, key);
    }
  }

  lemma OwnerKeepsStale(s: State, t: State, server: Server, path: ServerPath, name: string, ownerGroup: string,
                        key: CacheKey)
    requires UpdateOwnerRel(s, t, server, path, name, ownerGroup) && Stale(s, key)
    ensures Stale(t, key)
  {
    assert KeepsFlags(s, t);
    KeepsFlagsStale(s, t, key);
  }

  /** States and operations in turn. */
  ghost predicate Run(states: seq<State>, actions: seq<Action>) {
    |states| == |actions| + 1 && forall i :: 0 <= i < |actions| ==> Acts(states[i], actions[i], states[i + 1])
  }

  predicate Restores(a: Action, key: CacheKey) { a.DoStore? && key == CacheKey(a.server, a.listing.path) }

  /** Staleness is never hidden: once stale, a listing stays so through every run of operations,
      up to the next Store of that path. */
  lemma {:induction false} StaleUntilStored(states: seq<State>, actions: seq<Action>, key: CacheKey)
    requires Run(states, actions) && Stale(states[0], key)
    requires forall i :: 0 <= i < |actions| ==> !Restores(actions[i], key)
    ensures Stale(states[|actions|], key)
    decreases |actions|
  {
    if actions != [] {
      var n := |actions| - 1;
      assert Run(states[..n + 1], actions[..n]);
      StaleUntilStored(states[..n + 1], actions[..n], key);
      ActKeepsStale(states[n], actions[n], states[n + 1], key);
    }
  }

  /** UpdateFile, RemoveFile and InvalidateFile leave every listing they touch stale. */
  lemma RewrittenIsStale(s: State, t: State, keys: set<CacheKey>, e: Edit)
    requires forall k :: k in s.cache ==> Sound(s.cache[k].listing)
    requires Rewrote(s, t, keys, e)
    ensures forall k :: k in keys ==> Stale(t, k)
  {
    forall k | k in keys ensures Stale(t, k) { EditKeeps(s.cache[k].listing, e); }
  }

  lemma UpdatedIsStale(s: State, t: State, server: Server, path: ServerPath, e: Edit)
    requires forall k :: k in s.cache ==> Sound(s.cache[k].listing)
    requires server in s.servers && UpdateFileRel(s, t, server, path, e)
    ensures forall k :: k in s.cache && k.server == server && EqualNoCasePath(path, k.path) ==> Stale(t, k)
  {
    RewrittenIsStale(s, t, NoCaseKeys(s, server, path), e);
  }

  lemma InvalidatedIsStale(s: State, t: State, server: Server, path: ServerPath, name: string)
    requires forall k :: k in s.cache ==> Sound(s.cache[k].listing)
    requires server in s.servers && InvalidateFileRel(s, t, server, path, name)
    ensures forall k :: k in InvalidateKeys(s, server, path) ==> Stale(t, k)
  {
    var keys := InvalidateKeys(s, server, path);
    var m := InvalidateMiddle(s, t, server, path, name);
    RewrittenIsStale(s, m, keys, Invalidate(name, !server.caseSensitive));
    forall k | k in keys ensures Stale(t, k) { KeepsFlagsStale(m, t, k); }
  }

  /** After RemoveDir no listing remains at or, regardless of case, below the removed directory. */
  lemma NothingBelowRemoved(s: State, t: State, server: Server, path: ServerPath, name: string)
    requires server in s.servers && RemoveDirRel(s, t, server, path, name) && !path.Empty()
    ensures forall k :: k in t.cache && k.server == server ==>
      k.path != path.Child(name) && !IsParentOf(path.Child(name), k.path, true, false)
    ensures forall k :: k in s.cache && k !in t.cache ==>
      k.server == server && (k.path == path.Child(name) || IsParentOf(path.Child(name), k.path, true, false))
  {
    var m :| DroppedAll(s, m, RemovedKeys(s, server, path, name)) && UpdateFileRel(m, t, server, path, Remove(name));
    assert t.cache.Keys == m.cache.Keys;
  }

  // ---------- storing ----------

  lemma EvictedWereCached(s: State, n: nat)
    requires Known(s.cache, s.lru, s.nextNode) && n <= |s.lru|
    ensures KeysOf(s.lru[..n]) <= s.cache.Keys
  {
    forall k | k in KeysOf(s.lru[..n]) ensures k in s.cache {
      var x :| x in s.lru[..n] && x.key == k;
      assert x in s.lru;
    }
  }

  lemma PrunedInserted(s: State, m: State, t: State, key: CacheKey, entry: CacheEntry, node: Node, n: nat)
    requires Known(s.cache, s.lru, s.nextNode) && key !in s.cache && node.key == key
    requires m.lru == s.lru + [node] && m.cache == s.cache[key := entry]
    requires PrunedBy(m, t, n)
    ensures n <= |s.lru| && t.lru == s.lru[n..] + [node] && t.cache == (s.cache - KeysOf(s.lru[..n]))[key := entry]
  {
    assert m.lru[n..] == s.lru[n..] + [node] && m.lru[..n] == s.lru[..n];
    EvictedWereCached(s, n);
  }

  lemma StoreNewIs(s: State, t: State, l: Listing, server: Server)
    requires Inv(Inserted(s, CacheKey(server, l.path), l))
    requires CacheKey(server, l.path) !in s.cache && !HasTwin(s, CacheKey(server, l.path)) && StoreRel(s, t, l, server)
    ensures t == Pruned(Inserted(s, CacheKey(server, l.path), l))
  {}

  /** Storing a new path: the count stays right, all limits hold, the evicted listings are the
      least recently used ones, and the new listing is the most recently used one. */
  lemma StoreNewEffect(s: State, t: State, l: Listing, server: Server) returns (n: nat)
    requires Inv(s) && Sound(l) && CacheKey(server, l.path) !in s.cache && !HasTwin(s, CacheKey(server, l.path))
    requires StoreRel(s, t, l, server)
    ensures Inv(t) && !OverLimit(|t.lru|, t.total) && n <= |s.lru|
    ensures t.lru == s.lru[n..] + [Node(s.nextNode, CacheKey(server, l.path))]
    ensures t.cache == (s.cache - KeysOf(s.lru[..n]))[CacheKey(server, l.path) := CacheEntry(l, Some(s.nextNode))]
  {
    var key := CacheKey(server, l.path);
    InsertInv(s, key, l);
    StoreNewIs(s, t, l, server);
    n := InsertPruned(s, key, l);
  }

  /** The limits in numbers: storing a new path leaves at most 50000 listings, 1000 if they hold more
      than a million files, and 100 beyond five million; and the last listing to go had to go. */
  lemma StoredWithinLimits(s: State, t: State, l: Listing, server: Server) returns (n: nat)
    requires Inv(s) && Sound(l) && CacheKey(server, l.path) !in s.cache && !HasTwin(s, CacheKey(server, l.path))
    requires StoreRel(s, t, l, server)
    ensures n <= |s.lru| && t.lru == s.lru[n..] + [Node(s.nextNode, CacheKey(server, l.path))]
    ensures |t.lru| <= 50000 && (t.total > 1000000 ==> |t.lru| <= 1000) && (t.total > 5000000 ==> |t.lru| <= 100)
    ensures n > 0 ==> s.lru[n - 1].key in s.cache
    ensures n > 0 ==>
              var total := t.total + |s.cache[s.lru[n - 1].key].listing.entries|;
              |t.lru| >= 50000 || (total > 1000000 && |t.lru| >= 1000) || (total > 5000000 && |t.lru| >= 100)
  {
    var key := CacheKey(server, l.path);
    InsertInv(s, key, l);
    InsertedIs(s, key, l);
    StoreNewIs(s, t, l, server);
    n := LimitsInserted(s, Inserted(s, key, l), key, CacheEntry(l, Some(s.nextNode)), Node(s.nextNode, key));
  }

  lemma LimitsInserted(s: State, m: State, key: CacheKey, entry: CacheEntry, node: Node) returns (n: nat)
    requires Inv(m) && Known(s.cache, s.lru, s.nextNode) && key !in s.cache && node.key == key
    requires m.lru == s.lru + [node] && m.cache == s.cache[key := entry]
    ensures var t := Pruned(m);
            && n <= |s.lru| && t.lru == s.lru[n..] + [node]
            && |t.lru| <= 50000 && (t.total > 1000000 ==> |t.lru| <= 1000) && (t.total > 5000000 ==> |t.lru| <= 100)
    ensures n > 0 ==> s.lru[n - 1].key in s.cache
    ensures n > 0 ==>
              var total := Pruned(m).total + |s.cache[s.lru[n - 1].key].listing.entries|;
              var c := |Pruned(m).lru|;
              c >= 50000 || (total > 1000000 && c >= 1000) || (total > 5000000 && c >= 100)
  {
    n := PruneEffect(m);
    PrunedInserted(s, m, Pruned(m), key, entry, node, n);
    if n > 0 {
      LastHadToGo(m, Pruned(m), n);
      StillThere(s, m, key, n);
    }
  }

  lemma StillThere(s: State, m: State, key: CacheKey, n: nat)
    requires Known(s.cache, s.lru, s.nextNode) && key !in s.cache && 0 < n <= |s.lru|
    requires s.lru <= m.lru && forall k :: k in s.cache ==> k in m.cache && m.cache[k] == s.cache[k]
    ensures m.lru[n - 1] == s.lru[n - 1] && s.lru[n - 1].key in s.cache
    ensures m.cache[s.lru[n - 1].key] == s.cache[s.lru[n - 1].key]
  {
    assert s.lru[n - 1] in s.lru;
  }

  lemma LastHadToGo(m: State, t: State, n: nat)
    requires Inv(m) && Inv(t) && PrunedBy(m, t, n) && 0 < n < |m.lru|
    ensures m.lru[n - 1].key in m.cache
    ensures var total := t.total + |m.cache[m.lru[n - 1].key].listing.entries|;
            |t.lru| >= 50000 || (total > 1000000 && |t.lru| >= 1000) || (total > 5000000 && |t.lru| >= 100)
  {
    TotalBefore(m, t, n, KeysOf(m.lru[..n]));
    assert OverLimit(|m.lru| - (n - 1), Sum(m.cache, m.lru[n - 1..]));
  }

  /** The count one eviction earlier. */
  lemma TotalBefore(m: State, t: State, n: nat, gone: set<CacheKey>)
    requires Inv(m) && Inv(t) && 0 < n < |m.lru| && t.lru == m.lru[n..] && t.cache == m.cache - gone
    ensures m.lru[n - 1].key in m.cache
    ensures Sum(m.cache, m.lru[n - 1..]) == t.total + |m.cache[m.lru[n - 1].key].listing.entries|
  {
    var rest := m.lru[n - 1..];
    assert m.lru[n - 1] in m.lru;
    assert rest[0] == m.lru[n - 1] && rest[1..] == t.lru;
    SumOfRest(m.cache, t.cache, t.lru, t.nextNode);
  }

  lemma SumOfRest(m: Cache, t: Cache, lru: seq<Node>, bound: nat)
    requires Known(t, lru, bound) && forall k :: k in t ==> k in m && t[k] == m[k]
    ensures Sum(m, lru) == Sum(t, lru)
  {
    forall i | 0 <= i < |lru| ensures Size(m, lru[i].key) == Size(t, lru[i].key) {
      assert lru[i] in lru;
    }
    SumSame(m, t, lru);
  }

  lemma InsertedIs(s: State, key: CacheKey, l: Listing)
    ensures var m := Inserted(s, key, l);
            m.lru == s.lru + [Node(s.nextNode, key)] && m.cache == s.cache[key := CacheEntry(l, Some(s.nextNode))]
  {}

  lemma InsertPruned(s: State, key: CacheKey, l: Listing) returns (n: nat)
    requires Inv(s) && Sound(l) && key !in s.cache && l.path == key.path
    requires Inv(Inserted(s, key, l))
    ensures var t := Pruned(Inserted(s, key, l));
      && Inv(t) && !OverLimit(|t.lru|, t.total) && n <= |s.lru|
      && t.lru == s.lru[n..] + [Node(s.nextNode, key)]
      && t.cache == (s.cache - KeysOf(s.lru[..n]))[key := CacheEntry(l, Some(s.nextNode))]
  {
    var m := Inserted(s, key, l);
    InsertedIs(s, key, l);
    n := PruneInserted(s, m, key, CacheEntry(l, Some(s.nextNode)), Node(s.nextNode, key));
  }

  lemma PruneInserted(s: State, m: State, key: CacheKey, entry: CacheEntry, node: Node) returns (n: nat)
    requires Inv(m) && Known(s.cache, s.lru, s.nextNode) && key !in s.cache && node.key == key
    requires m.lru == s.lru + [node] && m.cache == s.cache[key := entry]
    ensures var t := Pruned(m);
      && Inv(t) && !OverLimit(|t.lru|, t.total) && n <= |s.lru|
      && t.lru == s.lru[n..] + [node] && t.cache == (s.cache - KeysOf(s.lru[..n]))[key := entry]
  {
    n := PruneEffect(m);
    PrunedInserted(s, m, Pruned(m), key, entry, node, n);
  }

  lemma TouchFrame(s: State, key: CacheKey, total: int)
    requires key in s.cache && key.server in s.servers
    ensures Touched(s.(servers := s.servers + {key.server}, total := total), key) == Touched(s, key).(total := total)
  {
    assert s.servers + {key.server} == s.servers;
  }

  /** Storing over a listing of the same path replaces it; this does not prune. */
  lemma StoreOverEffect(s: State, t: State, l: Listing, server: Server)
    requires Inv(s) && Sound(l) && CacheKey(server, l.path) in s.cache
    requires StoreRel(s, t, l, server)
    ensures Inv(t) && t.cache == s.cache[CacheKey(server, l.path) := s.cache[CacheKey(server, l.path)].(listing := l)]
    ensures MovedBack(s.lru, t.lru, {CacheKey(server, l.path)})
  {
    var key := CacheKey(server, l.path);
    TouchInv(s, key);
    TouchFrame(s, key, s.total + |l.entries|);
    ListingInv(Touched(s, key), key, l);
    assert t == WithListing(Touched(s, key), key, l, |l.entries| - |s.cache[key].listing.entries|);
    TouchMovesBack(s, key);
  }

  lemma TouchMovesBack(s: State, key: CacheKey)
    requires Inv(s) && key in s.cache
    ensures MovedBack(s.lru, Touched(s, key).lru, {key})
  {
    TouchInv(s, key);
    var n := Node(s.cache[key].node.value, key);
    var i := NodeIndex(s, key);
    var t := Touched(s, key).lru;
    var kept := Filtered(s.lru, {key});
    assert t == kept + [n] && t[|kept|..] == [n];
    forall x | x in s.lru && x.key == key ensures x == n {
      assert s.cache[key].node == Some(x.id);
    }
  }

  // ---------- storing next to a twin ----------

  /** A state whose count is off by some files. */
  function Off(s: State, more: int): State {
    s.(total := s.total + more)
  }

  lemma OffInv(s: State, more: int)
    requires Inv(s)
    ensures Off(s, more).total == Sum(Off(s, more).cache, Off(s, more).lru) + more
    ensures Inv(Off(s, more)) <==> more == 0
  {}

  lemma EvictedOff(s: State, more: int)
    requires Inv(s) && s.lru != []
    ensures Inv(Evicted(s)) && Evicted(s).cache.Keys <= s.cache.Keys
    ensures s.lru[0].key in s.cache && Evicted(Off(s, more)) == Off(Evicted(s), more)
  {
    EvictInv(s);
  }

  /** Pruning a state whose count is off leaves one whose count is off by as much. */
  lemma {:induction false} PrunedOff(s: State, more: int) returns (t: State)
    requires Inv(s)
    ensures Inv(t) && Pruned(Off(s, more)) == Off(t, more)
    ensures t.cache.Keys <= s.cache.Keys
    decreases |s.lru|
  {
    if OverLimit(|s.lru|, s.total + more) {
      EvictedOff(s, more);
      t := PrunedOff(Evicted(s), more);
    } else {
      t := s;
    }
  }

  lemma TwinIs(s: State, m: State, l: Listing, server: Server) returns (k: CacheKey)
    requires HasTwin(s, CacheKey(server, l.path)) && StoredBeforePrune(s, m, l, server)
    ensures k in s.cache && k.server == server
    ensures m == Touched(s.(servers := s.servers + {server}, total := s.total + |l.entries|), k)
  {
    k :| k in s.cache && k.server == server && k.path.Empty()
      && m == Touched(s.(servers := s.servers + {server}, total := s.total + |l.entries|), k);
  }

  lemma TwinTouched(s: State, m: State, k: CacheKey, more: nat)
    requires Inv(s) && k in s.cache
    requires m == Touched(s.(servers := s.servers + {k.server}, total := s.total + more), k)
    ensures Inv(Touched(s, k)) && m == Off(Touched(s, k), more) && Touched(s, k).cache.Keys == s.cache.Keys
  {
    assert k.server in s.servers;
    TouchInv(s, k);
    TouchFrame(s, k, s.total + more);
  }

  /** t is what Prune leaves of s, whose count is off by some files. */
  ghost predicate PrunedFrom(s: State, t: State, more: int) {
    Inv(s) && exists r :: Inv(r) && t == Off(r, more) && r.cache.Keys <= s.cache.Keys
  }

  lemma TwinPruned(s: State, m: State, k: CacheKey, server: Server, more: nat)
    requires Inv(s) && k in s.cache && k.server == server && Known(m.cache, m.lru, m.nextNode) && Distinct(m.lru)
    requires m == Touched(s.(servers := s.servers + {server}, total := s.total + more), k)
    ensures PrunedFrom(s, Pruned(m), more)
  {
    TwinTouched(s, m, k, more);
    var r := PrunedOff(Touched(s, k), more);
  }

  /** What Store leaves next to a twin before it prunes. */
  lemma TwinMiddle(s: State, t: State, l: Listing, server: Server) returns (m: State, k: CacheKey)
    requires HasTwin(s, CacheKey(server, l.path)) && StoreRel(s, t, l, server)
    ensures k in s.cache && k.server == server
    ensures m == Touched(s.(servers := s.servers + {server}, total := s.total + |l.entries|), k)
    ensures Known(m.cache, m.lru, m.nextNode) && Distinct(m.lru) && t == Pruned(m)
  {
    m :| StoredBeforePrune(s, m, l, server) && Known(m.cache, m.lru, m.nextNode) && Distinct(m.lru) && t == Pruned(m);
    k := TwinIs(s, m, l, server);
  }

  /** Storing a listing without path next to one of another type counts its files but does not
      cache it: t is right but for a count that is off by exactly these files. */
  lemma TwinMiscounts(s: State, t: State, l: Listing, server: Server)
    requires Inv(s) && HasTwin(s, CacheKey(server, l.path)) && StoreRel(s, t, l, server)
    ensures PrunedFrom(s, t, |l.entries|)
  {
    var m, k := TwinMiddle(s, t, l, server);
    TwinPruned(s, m, k, server, |l.entries|);
  }

  /** Exactly when a Store leaves the count and all else right, and the listing cached. */
  lemma StoreCounts(s: State, t: State, l: Listing, server: Server)
    requires Inv(s) && Sound(l) && StoreRel(s, t, l, server)
    ensures var twin := HasTwin(s, CacheKey(server, l.path));
            && (Inv(t) <==> !twin || l.entries == [])
            && t.total == Sum(t.cache, t.lru) + (if twin then |l.entries| else 0)
            && (CacheKey(server, l.path) in t.cache <==> !twin)
            && (!twin ==> t.cache[CacheKey(server, l.path)].listing == l)
  {
    var key := CacheKey(server, l.path);
    if key in s.cache {
      StoreOverEffect(s, t, l, server);
    } else if HasTwin(s, key) {
      TwinMiscounts(s, t, l, server);
      var r :| Inv(r) && t == Off(r, |l.entries|) && r.cache.Keys <= s.cache.Keys;
      OffInv(r, |l.entries|);
      assert key !in r.cache;
    } else {
      var n := StoreNewEffect(s, t, l, server);
    }
  }

  const EMPTY_CACHE := State({}, map[], [], 0, 0)
  const SERVER := Server(0, true)

  /** A listing without path, as a listing has it before its path is known. */
  function Pathless(kind: ServerType, entries: seq<Entry>): Listing {
    Listing(ServerPath(kind, None), entries, {}, None, None, 0)
  }

  /** The empty cache with a listing without path stored. */
  function OneStored(): State {
    Inserted(EMPTY_CACHE, CacheKey(SERVER, ServerPath(UNIX, None)), Pathless(UNIX, []))
  }

  lemma FirstStored()
    ensures Inv(EMPTY_CACHE) && Inv(OneStored()) && StoreRel(EMPTY_CACHE, OneStored(), Pathless(UNIX, []), SERVER)
    ensures CacheKey(SERVER, ServerPath(UNIX, None)) in OneStored().cache
    ensures HasTwin(OneStored(), CacheKey(SERVER, ServerPath(VMS, None)))
  {
    var key := CacheKey(SERVER, ServerPath(UNIX, None));
    InsertInv(EMPTY_CACHE, key, Pathless(UNIX, []));
    InsertedIs(EMPTY_CACHE, key, Pathless(UNIX, []));
    assert StoredBeforePrune(EMPTY_CACHE, OneStored(), Pathless(UNIX, []), SERVER);
    assert !OverLimit(|OneStored().lru|, OneStored().total);
  }

  lemma StoredNextTo(s: State, k: CacheKey, l: Listing) returns (t: State)
    requires Inv(s) && k in s.cache && k.path.Empty() && HasTwin(s, CacheKey(k.server, l.path))
    ensures StoreRel(s, t, l, k.server)
  {
    var m := Touched(s.(servers := s.servers + {k.server}, total := s.total + |l.entries|), k);
    TwinTouched(s, m, k, |l.entries|);
    assert StoredBeforePrune(s, m, l, k.server);
    t := Pruned(m);
  }

  lemma StoresInTurn(a: State, k: Listing, b: State, l: Listing, c: State, server: Server)
    requires StoreRel(a, b, k, server) && StoreRel(b, c, l, server)
    ensures Run([a, b, c], [DoStore(k, server), DoStore(l, server)])
  {
    assert Acts(a, DoStore(k, server), b) && Acts(b, DoStore(l, server), c);
  }

  /** Two Stores lead from the empty cache to a wrong count. */
  lemma TwinIsReached(e: Entry) returns (states: seq<State>)
    ensures var actions := [DoStore(Pathless(UNIX, []), SERVER), DoStore(Pathless(VMS, [e]), SERVER)];
            Run(states, actions) && states[0] == EMPTY_CACHE && Inv(states[0]) && !Inv(states[2])
  {
    FirstStored();
    var t := StoredNextTo(OneStored(), CacheKey(SERVER, ServerPath(UNIX, None)), Pathless(VMS, [e]));
    StoreCounts(OneStored(), t, Pathless(VMS, [e]), SERVER);
    StoresInTurn(EMPTY_CACHE, Pathless(UNIX, []), OneStored(), Pathless(VMS, [e]), t, SERVER);
    states := [EMPTY_CACHE, OneStored(), t];
  }
}
