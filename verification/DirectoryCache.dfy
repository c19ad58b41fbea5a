/** The cache of directory listings: per server, with one list of all listings ordered by
    their last use, and a running count of all files. */
module DirectoryCaches {
  import opened Text
  import opened ServerPaths
  import ServerPathText
  import opened DirectoryListings

  datatype Server = Server(id: nat, caseSensitive: bool)

  datatype CacheKey = CacheKey(server: Server, path: ServerPath)

  /** node is the id of the entry's node in the list of recently used listings. */
  datatype CacheEntry = CacheEntry(listing: Listing, node: Option<nat>)

  datatype Node = Node(id: nat, key: CacheKey)

  type Cache = map<CacheKey, CacheEntry>

  /** The front of lru is the least recently used listing. */
  datatype State = State(servers: set<Server>, cache: Cache, lru: seq<Node>, total: int, nextNode: nat)

  datatype Filetype = Unknown | File | Dir

  // ---------- edits of one listing ----------

  function FirstNamed(entries: seq<Entry>, name: string): (i: nat)
    ensures i <= |entries|
    ensures forall k :: 0 <= k < i ==> entries[k].name != name
    ensures i < |entries| ==> entries[i].name == name
  {
    if entries == [] || entries[0].name == name then 0 else 1 + FirstNamed(entries[1..], name)
  }

  /** Marks as unsure the entries before number n that have the name. */
  function Marked(entries: seq<Entry>, name: string, noCase: bool, n: nat): (r: seq<Entry>)
    ensures |r| == |entries|
    ensures forall i :: 0 <= i < |r| ==>
      r[i] == (if i < n && HasKey(entries[i], name, noCase) then entries[i].(unsure := true) else entries[i])
  {
    seq(|entries|, i requires 0 <= i < |entries| =>
      if i < n && HasKey(entries[i], name, noCase) then entries[i].(unsure := true) else entries[i])
  }

  datatype Edit =
    | Update(name: string, mayCreate: bool, kind: Filetype, size: int, ownerGroup: string)
    | Remove(name: string)
    | Invalidate(name: string, noCase: bool)

  function WithFlags(l: Listing, entries: seq<Entry>, flags: set<Flag>): Listing {
    l.(entries := entries, flags := l.flags + flags)
  }

  function Edited(l: Listing, e: Edit): Listing {
    match e
    case Update(name, mayCreate, kind, size, ownerGroup) =>
      var i := FirstNamed(l.entries, name);
      var entries := Marked(l.entries, name, true, i + 1);
      if i < |entries| then
        WithFlags(l, entries,
          {if kind != (if entries[i].isDir then Dir else File) then UnsureInvalid
           else if kind == Dir then DirChanged else FileChanged})
      else if kind != Unknown && mayCreate then
        Appended(WithFlags(l, entries, if kind == Dir then {DirAdded, HasDirs} else {FileAdded}),
                 Entry(name, size, "", ownerGroup, kind == Dir, false, true))
      else WithFlags(l, entries, {UnsureUnknown})
    case Remove(name) =>
      var i := FirstNamed(l.entries, name);
      if i < |l.entries| then WithoutEntry(l, i)
      else WithFlags(l, Marked(l.entries, name, true, |l.entries|), {UnsureInvalid})
    case Invalidate(name, noCase) =>
      WithFlags(l, Marked(l.entries, name, noCase, |l.entries|), {UnsureUnknown})
  }

  /** By how much an edit changes the file count. */
  function Delta(l: Listing, e: Edit): int {
    match e
    case Update(name, mayCreate, kind, _, _) =>
      if FirstNamed(l.entries, name) == |l.entries| && kind != Unknown && mayCreate then 1 else 0
    case Remove(name) => if FirstNamed(l.entries, name) < |l.entries| then -1 else 0
    case Invalidate(_, _) => 0
  }

  lemma UnsureFlag(flags: set<Flag>, f: Flag)
    requires f in flags && f in UNSURE
    ensures flags * UNSURE != {}
  {
    assert f in flags * UNSURE;
  }

  /** An edit counts right, keeps the search maps right, and leaves the listing unsure. */
  lemma EditKeeps(l: Listing, e: Edit)
    requires Sound(l)
    ensures var r := Edited(l, e);
            && Sound(r) && |r.entries| == |l.entries| + Delta(l, e)
            && r.path == l.path && r.IsUnsure() && l.flags <= r.flags
  {
    var r := Edited(l, e);
    match e {
      case Update(name, mayCreate, kind, size, ownerGroup) =>
        var i := FirstNamed(l.entries, name);
        UnsureFlag(r.flags,
          if i < |l.entries| then
            if kind != (if l.entries[i].isDir then Dir else File) then UnsureInvalid
            else if kind == Dir then DirChanged else FileChanged
          else if kind != Unknown && mayCreate then if kind == Dir then DirAdded else FileAdded
          else UnsureUnknown);
      case Remove(name) =>
        var i := FirstNamed(l.entries, name);
        UnsureFlag(r.flags,
          if i == |l.entries| then UnsureInvalid else if l.entries[i].isDir then DirRemoved else FileRemoved);
      case Invalidate(name, noCase) =>
        UnsureFlag(r.flags, UnsureUnknown);
    }
  }

  // ---------- the list of recently used listings ----------

  function IndexOf(lru: seq<Node>, id: nat): (i: nat)
    ensures i <= |lru|
    ensures i < |lru| ==> lru[i].id == id
    ensures forall k :: 0 <= k < i ==> lru[k].id != id
  {
    if lru == [] || lru[0].id == id then 0 else 1 + IndexOf(lru[1..], id)
  }

  function WithoutNode(lru: seq<Node>, id: nat): seq<Node> {
    var i := IndexOf(lru, id);
    if i < |lru| then lru[..i] + lru[i + 1..] else lru
  }

  /** lru without the nodes of these keys. */
  function Filtered(lru: seq<Node>, keys: set<CacheKey>): seq<Node> {
    if lru == [] then []
    else (if lru[0].key in keys then [] else [lru[0]]) + Filtered(lru[1..], keys)
  }

  function Size(cache: Cache, key: CacheKey): nat {
    if key in cache then |cache[key].listing.entries| else 0
  }

  /** The number of files in the listings that lru names. */
  function Sum(cache: Cache, lru: seq<Node>): nat {
    if lru == [] then 0 else Size(cache, lru[0].key) + Sum(cache, lru[1..])
  }

  ghost predicate Distinct(lru: seq<Node>) {
    forall i, k :: 0 <= i < k < |lru| ==> lru[i].id != lru[k].id && lru[i].key != lru[k].key
  }

  ghost predicate Keyed(s: State) {
    forall key :: key in s.cache ==>
      key.server in s.servers && s.cache[key].listing.path == key.path && Sound(s.cache[key].listing)
  }

  /** Each entry knows its own node. */
  ghost predicate Knows(cache: Cache, lru: seq<Node>) {
    forall key :: key in cache ==> cache[key].node.Some? && Node(cache[key].node.value, key) in lru
  }

  /** Each node is known by its entry. */
  ghost predicate Known(cache: Cache, lru: seq<Node>, bound: nat) {
    forall n :: n in lru ==> n.key in cache && cache[n.key].node == Some(n.id) && n.id < bound
  }

  /** Each cached listing is in lru exactly once, under the node it knows; and the count is right. */
  ghost predicate Inv(s: State) {
    && Keyed(s) && Knows(s.cache, s.lru) && Known(s.cache, s.lru, s.nextNode) && Distinct(s.lru)
    && s.total == Sum(s.cache, s.lru)
  }

  lemma {:induction false} SumConcat(cache: Cache, a: seq<Node>, b: seq<Node>)
    ensures Sum(cache, a + b) == Sum(cache, a) + Sum(cache, b)
  {
    if a == [] {
      assert a + b == b;
    } else {
      assert (a + b)[1..] == a[1..] + b;
      SumConcat(cache, a[1..], b);
    }
  }

  lemma SumSplit(cache: Cache, lru: seq<Node>, i: nat)
    requires i < |lru|
    ensures Sum(cache, lru) == Size(cache, lru[i].key) + Sum(cache, lru[..i] + lru[i + 1..])
  {
    assert lru == lru[..i] + lru[i..];
    SumConcat(cache, lru[..i], lru[i..]);
    SumConcat(cache, lru[..i], lru[i + 1..]);
  }

  lemma {:induction false} SumSame(a: Cache, b: Cache, lru: seq<Node>)
    requires forall i :: 0 <= i < |lru| ==> Size(a, lru[i].key) == Size(b, lru[i].key)
    ensures Sum(a, lru) == Sum(b, lru)
  {
    if lru != [] {
      assert Size(a, lru[0].key) == Size(b, lru[0].key);
      forall i | 0 <= i < |lru[1..]| ensures Size(a, lru[1..][i].key) == Size(b, lru[1..][i].key) {
        assert lru[1..][i] == lru[i + 1];
      }
      SumSame(a, b, lru[1..]);
    }
  }

  lemma {:induction false} FilteredConcat(a: seq<Node>, b: seq<Node>, keys: set<CacheKey>)
    ensures Filtered(a + b, keys) == Filtered(a, keys) + Filtered(b, keys)
  {
    if a == [] {
      assert a + b == b;
    } else {
      assert (a + b)[1..] == a[1..] + b;
      FilteredConcat(a[1..], b, keys);
    }
  }

  lemma {:induction false} FilteredNone(lru: seq<Node>, keys: set<CacheKey>)
    requires forall i :: 0 <= i < |lru| ==> lru[i].key !in keys
    ensures Filtered(lru, keys) == lru
  {
    if lru != [] {
      assert forall i :: 0 <= i < |lru| - 1 ==> lru[1..][i] == lru[i + 1];
      FilteredNone(lru[1..], keys);
    }
  }

  lemma {:induction false} FilteredTwice(lru: seq<Node>, a: set<CacheKey>, b: set<CacheKey>)
    ensures Filtered(Filtered(lru, a), b) == Filtered(lru, a + b)
  {
    if lru != [] {
      FilteredTwice(lru[1..], a, b);
      var head := if lru[0].key in a then [] else [lru[0]];
      FilteredConcat(head, Filtered(lru[1..], a), b);
      if head != [] { assert head[1..] == []; }
    }
  }

  lemma {:induction false} FilteredMembers(lru: seq<Node>, keys: set<CacheKey>)
    ensures forall n :: n in Filtered(lru, keys) <==> n in lru && n.key !in keys
  {
    if lru != [] {
      FilteredMembers(lru[1..], keys);
      assert forall n :: n in lru <==> n == lru[0] || n in lru[1..];
    }
  }

  lemma {:induction false} FilteredOne(lru: seq<Node>, i: nat)
    requires Distinct(lru) && i < |lru|
    ensures Filtered(lru, {lru[i].key}) == lru[..i] + lru[i + 1..]
  {
    if i == 0 {
      FilteredNone(lru[1..], {lru[0].key});
      assert lru[..0] + lru[1..] == lru[1..];
    } else {
      FilteredOne(lru[1..], i - 1);
      assert lru[..i] + lru[i + 1..] == [lru[0]] + (lru[1..][..i - 1] + lru[1..][i..]);
    }
  }

  lemma {:induction false} FilteredDistinct(lru: seq<Node>, keys: set<CacheKey>)
    requires Distinct(lru)
    ensures Distinct(Filtered(lru, keys))
  {
    if lru != [] {
      FilteredDistinct(lru[1..], keys);
      FilteredMembers(lru[1..], keys);
      var rest := Filtered(lru[1..], keys);
      forall k | 0 <= k < |rest| ensures rest[k].id != lru[0].id && rest[k].key != lru[0].key {
        assert rest[k] in rest;
        var m :| 0 <= m < |lru[1..]| && lru[1..][m] == rest[k];
        assert lru[m + 1] == rest[k];
      }
    }
  }

  lemma IndexOfAt(lru: seq<Node>, i: nat)
    requires Distinct(lru) && i < |lru|
    ensures IndexOf(lru, lru[i].id) == i
  {}

  /** lru without its element number i. */
  lemma RemoveAt(lru: seq<Node>, i: nat)
    requires Distinct(lru) && i < |lru|
    ensures var rest := lru[..i] + lru[i + 1..];
            && Distinct(rest) && Filtered(lru, {lru[i].key}) == rest && IndexOf(lru, lru[i].id) == i
            && forall n :: n in rest <==> n in lru && n.key != lru[i].key
  {
    FilteredOne(lru, i);
    FilteredMembers(lru, {lru[i].key});
    FilteredDistinct(lru, {lru[i].key});
    IndexOfAt(lru, i);
  }

  lemma AppendDistinct(lru: seq<Node>, n: Node)
    requires Distinct(lru) && forall x :: x in lru ==> x.id != n.id && x.key != n.key
    ensures Distinct(lru + [n])
  {
    assert forall k :: 0 <= k < |lru| ==> lru[k] in lru;
  }

  /** Where a key's node is. */
  lemma NodeIndex(s: State, key: CacheKey) returns (i: nat)
    requires Inv(s) && key in s.cache
    ensures i < |s.lru| && s.lru[i] == Node(s.cache[key].node.value, key)
    ensures WithoutNode(s.lru, s.cache[key].node.value) == s.lru[..i] + s.lru[i + 1..] == Filtered(s.lru, {key})
  {
    i :| 0 <= i < |s.lru| && s.lru[i] == Node(s.cache[key].node.value, key);
    RemoveAt(s.lru, i);
  }

  // ---------- single steps ----------

  /** UpdateLru: the listing becomes the most recently used one. */
  function Touched(s: State, key: CacheKey): State
    requires key in s.cache
  {
    match s.cache[key].node
    case Some(id) => s.(lru := WithoutNode(s.lru, id) + [Node(id, key)])
    case None => s.(lru := s.lru + [Node(s.nextNode, key)], nextNode := s.nextNode + 1,
                    cache := s.cache[key := s.cache[key].(node := Some(s.nextNode))])
  }

  function WithListing(s: State, key: CacheKey, l: Listing, delta: int): State
    requires key in s.cache
  {
    s.(cache := s.cache[key := s.cache[key].(listing := l)], total := s.total + delta)
  }

  function Dropped(s: State, key: CacheKey): State
    requires key in s.cache
  {
    s.(cache := s.cache - {key}, total := s.total - |s.cache[key].listing.entries|,
       lru := if s.cache[key].node.Some? then WithoutNode(s.lru, s.cache[key].node.value) else s.lru)
  }

  function Inserted(s: State, key: CacheKey, l: Listing): State {
    var t := s.(servers := s.servers + {key.server}, cache := s.cache[key := CacheEntry(l, None)],
                total := s.total + |l.entries|);
    Touched(t, key)
  }

  lemma SumOne(cache: Cache, n: Node)
    ensures Sum(cache, [n]) == Size(cache, n.key)
  {
    assert [n][1..] == [];
  }

  /** Moving a node behind the others keeps the list distinct and the count. */
  lemma MoveBack(cache: Cache, lru: seq<Node>, i: nat)
    requires Distinct(lru) && i < |lru|
    ensures var moved := lru[..i] + lru[i + 1..] + [lru[i]];
            && Distinct(moved) && Sum(cache, moved) == Sum(cache, lru)
            && (forall n :: n in moved <==> n in lru)
            && moved == WithoutNode(lru, lru[i].id) + [lru[i]]
            && moved == Filtered(lru, {lru[i].key}) + [lru[i]]
  {
    var rest := lru[..i] + lru[i + 1..];
    RemoveAt(lru, i);
    assert forall n :: n in rest + [lru[i]] <==> n in rest || n == lru[i];
    assert forall k :: 0 <= k < |lru| ==> lru[k] in lru;
    DistinctOthers(lru, i);
    AppendDistinct(rest, lru[i]);
    SumSplit(cache, lru, i);
    SumConcat(cache, rest, [lru[i]]);
    SumOne(cache, lru[i]);
  }

  lemma DistinctOthers(lru: seq<Node>, i: nat)
    requires Distinct(lru) && i < |lru|
    ensures forall n :: n in lru ==> n == lru[i] || (n.id != lru[i].id && n.key != lru[i].key)
  {
  }

  lemma TouchInv(s: State, key: CacheKey)
    requires Inv(s) && key in s.cache
    ensures Inv(Touched(s, key))
    ensures Touched(s, key).lru == Filtered(s.lru, {key}) + [Node(s.cache[key].node.value, key)]
  {
    var i := NodeIndex(s, key);
    MoveBack(s.cache, s.lru, i);
  }

  /** The count without one listing, which may be about to change or to go. */
  lemma CountWithout(s: State, key: CacheKey, cache: Cache)
    requires Inv(s) && key in s.cache
    requires forall k :: k in s.cache && k != key ==> Size(cache, k) == Size(s.cache, k)
    ensures s.total == |s.cache[key].listing.entries| + Sum(cache, Filtered(s.lru, {key}))
    ensures Sum(cache, s.lru) == Size(cache, key) + Sum(cache, Filtered(s.lru, {key}))
  {
    var i := NodeIndex(s, key);
    SumSplit(s.cache, s.lru, i);
    SumSplit(cache, s.lru, i);
    var rest := Filtered(s.lru, {key});
    FilteredMembers(s.lru, {key});
    assert forall k :: 0 <= k < |rest| ==> rest[k] in rest;
    SumSame(s.cache, cache, rest);
  }

  lemma ListingInv(s: State, key: CacheKey, l: Listing)
    requires Inv(s) && key in s.cache && l.path == key.path && Sound(l)
    ensures Inv(WithListing(s, key, l, |l.entries| - |s.cache[key].listing.entries|))
  {
    var t := WithListing(s, key, l, |l.entries| - |s.cache[key].listing.entries|);
    CountWithout(s, key, t.cache);
  }

  lemma DropInv(s: State, key: CacheKey)
    requires Inv(s) && key in s.cache
    ensures Inv(Dropped(s, key))
    ensures Dropped(s, key).lru == Filtered(s.lru, {key})
  {
    var t := Dropped(s, key);
    var i := NodeIndex(s, key);
    RemoveAt(s.lru, i);
    CountWithout(s, key, t.cache);
  }

  /** A node behind the others, for a listing that was not cached before. */
  lemma InsertedSum(before: Cache, cache: Cache, lru: seq<Node>, n: Node)
    requires forall x :: x in lru ==> Size(before, x.key) == Size(cache, x.key)
    ensures Sum(cache, lru + [n]) == Sum(before, lru) + Size(cache, n.key)
  {
    assert forall k :: 0 <= k < |lru| ==> lru[k] in lru;
    SumConcat(cache, lru, [n]);
    SumOne(cache, n);
    SumSame(before, cache, lru);
  }

  lemma InsertedKnown(s: State, key: CacheKey, l: Listing)
    requires Inv(s) && key !in s.cache && l.path == key.path && Sound(l)
    ensures var t := Inserted(s, key, l);
            && t.lru == s.lru + [Node(s.nextNode, key)]
            && Keyed(t) && Knows(t.cache, t.lru) && Known(t.cache, t.lru, t.nextNode)
  {
    var t := Inserted(s, key, l);
    var n := Node(s.nextNode, key);
    assert t.lru == s.lru + [n];
    assert forall x :: x in t.lru <==> x in s.lru || x == n;
  }

  lemma InsertInv(s: State, key: CacheKey, l: Listing)
    requires Inv(s) && key !in s.cache && l.path == key.path && Sound(l)
    ensures Inv(Inserted(s, key, l))
    ensures Inserted(s, key, l).lru == s.lru + [Node(s.nextNode, key)]
  {
    InsertedKnown(s, key, l);
    AppendDistinct(s.lru, Node(s.nextNode, key));
    InsertedSum(s.cache, Inserted(s, key, l).cache, s.lru, Node(s.nextNode, key));
  }

  // ---------- pruning ----------

  const MANY: nat := 50000
  const LARGE_TOTAL: int := 1000000
  const HUGE_TOTAL: int := 5000000

  predicate OverLimit(entries: nat, total: int) {
    || entries > MANY
    || (total > LARGE_TOTAL && entries > 1000)
    || (total > HUGE_TOTAL && entries > 100)
  }

  /** One round of Prune's loop. */
  function Evicted(s: State): State
    requires s.lru != [] && s.lru[0].key in s.cache
  {
    var key := s.lru[0].key;
    var cache := s.cache - {key};
    s.(cache := cache, total := s.total - |s.cache[key].listing.entries|, lru := s.lru[1..],
       servers := if exists k :: k in cache && k.server == key.server then s.servers else s.servers - {key.server})
  }

  lemma EvictedKnown(s: State)
    requires Known(s.cache, s.lru, s.nextNode) && Distinct(s.lru) && s.lru != []
    ensures s.lru[0].key in s.cache
    ensures Known(Evicted(s).cache, Evicted(s).lru, Evicted(s).nextNode) && Distinct(Evicted(s).lru)
  {
    assert s.lru[0] in s.lru;
    assert forall n :: n in s.lru[1..] ==> n in s.lru && n.key != s.lru[0].key;
  }

  function Pruned(s: State): State
    requires Known(s.cache, s.lru, s.nextNode) && Distinct(s.lru)
    decreases |s.lru|
  {
    if OverLimit(|s.lru|, s.total) then
      EvictedKnown(s);
      Pruned(Evicted(s))
    else s
  }

  lemma EvictedIsDropped(s: State, d: State)
    requires s.lru != [] && s.lru[0].key in s.cache && Inv(d)
    requires d.cache == s.cache - {s.lru[0].key} && d.lru == s.lru[1..] && d.servers == s.servers
        && d.nextNode == s.nextNode
    requires d.total == s.total - |s.cache[s.lru[0].key].listing.entries|
    ensures Inv(Evicted(s))
  {
    var e := Evicted(s);
    assert e == d.(servers := e.servers);
    forall key | key in e.cache ensures key.server in e.servers {
      assert key.server in d.servers;
    }
  }

  lemma EvictInv(s: State)
    requires Inv(s) && s.lru != []
    ensures s.lru[0].key in s.cache && Inv(Evicted(s)) && Evicted(s).cache == s.cache - {s.lru[0].key}
  {
    assert s.lru[0] in s.lru;
    var d := Dropped(s, s.lru[0].key);
    DropInv(s, s.lru[0].key);
    FilteredOne(s.lru, 0);
    assert s.lru[..0] + s.lru[1..] == s.lru[1..];
    EvictedIsDropped(s, d);
  }

  function KeysOf(lru: seq<Node>): set<CacheKey> {
    set n | n in lru :: n.key
  }

  /** What Prune leaves of s when it evicts the first n listings. */
  ghost predicate PrunedBy(s: State, t: State, n: nat) {
    && n <= |s.lru| && t.lru == s.lru[n..] && (s.lru != [] ==> n < |s.lru|)
    && t.cache == s.cache - KeysOf(s.lru[..n])
    && forall m :: 0 <= m < n ==> OverLimit(|s.lru| - m, Sum(s.cache, s.lru[m..]))
  }

  lemma PrunedOver(s: State, n: nat)
    requires Inv(s) && s.lru != [] && OverLimit(|s.lru|, s.total) && n < |s.lru|
    requires forall m :: 0 <= m < n ==> OverLimit(|s.lru[1..]| - m, Sum(s.cache - {s.lru[0].key}, s.lru[1..][m..]))
    ensures forall m :: 0 <= m < n + 1 ==> OverLimit(|s.lru| - m, Sum(s.cache, s.lru[m..]))
  {
    forall m | 0 <= m < n + 1 ensures OverLimit(|s.lru| - m, Sum(s.cache, s.lru[m..])) {
      if m == 0 {
        assert s.lru[0..] == s.lru;
      } else {
        assert s.lru[m..] == s.lru[1..][m - 1..];
        assert forall i :: 0 <= i < |s.lru[m..]| ==> s.lru[m..][i] == s.lru[m + i];
        SumSame(s.cache, s.cache - {s.lru[0].key}, s.lru[m..]);
      }
    }
  }

  lemma KeysOfMore(lru: seq<Node>, n: nat)
    requires n < |lru|
    ensures KeysOf(lru[..n + 1]) == {lru[0].key} + KeysOf(lru[1..][..n])
  {
    assert lru[..n + 1] == [lru[0]] + lru[1..][..n];
    assert forall x :: x in lru[..n + 1] <==> x == lru[0] || x in lru[1..][..n];
  }

  lemma PrunedOne(s: State, t: State, n: nat)
    requires Inv(s) && s.lru != [] && OverLimit(|s.lru|, s.total) && s.lru[0].key in s.cache
        && PrunedBy(Evicted(s), t, n)
    ensures PrunedBy(s, t, n + 1)
  {
    var e := Evicted(s);
    assert |s.lru| > 100 && n < |e.lru|;
    KeysOfMore(s.lru, n);
    assert s.lru[1..][n..] == s.lru[n + 1..];
    assert t.cache == s.cache - KeysOf(s.lru[..n + 1]);
    PrunedOver(s, n);
  }

  /** Prune evicts the least recently used listings, as few as the limits allow, and never the
      most recently used one; then all limits hold. */
  lemma {:induction false} PruneEffect(s: State) returns (n: nat)
    requires Inv(s)
    ensures var t := Pruned(s); Inv(t) && !OverLimit(|t.lru|, t.total) && PrunedBy(s, t, n)
    decreases |s.lru|
  {
    if OverLimit(|s.lru|, s.total) {
      EvictInv(s);
      var k := PruneEffect(Evicted(s));
      PrunedOne(s, Pruned(s), k);
      n := k + 1;
    } else {
      n := 0;
      assert s.lru[0..] == s.lru && KeysOf(s.lru[..0]) == {};
    }
  }
}
