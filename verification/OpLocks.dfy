/** The advisory lock table that all control sockets share, as a state machine:
    locks are requested, released, and granted later when a wake-up event is delivered. */
module OpLocks {
  import opened Text
  import opened ServerPaths

  type Socket = nat
  type Server = nat

  datatype Reason = Unknown | List | Mkdir | Private1

  datatype LockInfo = LockInfo(path: ServerPath, reason: Reason, inclusive: bool, waiting: bool, released: bool) {
    predicate Held() { !waiting && !released }
  }

  /** One slot per socket; a slot whose socket is gone stays, empty, until it is the last. */
  datatype Slot = Slot(server: Server, socket: Option<Socket>, locks: seq<LockInfo>)

  /** What an OpLock object stores: two indices. */
  datatype Handle = Handle(slot: nat, lock: nat)

  type Slots = seq<Slot>

  predicate InRange(slots: Slots, h: Handle) {
    h.slot < |slots| && h.lock < |slots[h.slot].locks|
  }

  function LockAt(slots: Slots, h: Handle): LockInfo
    requires InRange(slots, h)
  {
    slots[h.slot].locks[h.lock]
  }

  // ---------- conflicts ----------

  predicate Clash(a: LockInfo, b: LockInfo) {
    && a.reason == b.reason
    && (|| a.path == b.path
        || (a.inclusive && IsParentOf(a.path, b.path, false, false))
        || (b.inclusive && IsParentOf(b.path, a.path, false, false)))
  }

  /** h is a granted lock, outside slot i, that stands in the way of l. */
  predicate Blocks(slots: Slots, h: Handle, i: nat, l: LockInfo) {
    InRange(slots, h) && h.slot != i && LockAt(slots, h).Held() && Clash(LockAt(slots, h), l)
  }

  /** The test of ObtainWaiting, which looks at all servers. */
  ghost predicate Blocked(slots: Slots, i: nat, l: LockInfo) {
    exists h :: Blocks(slots, h, i, l)
  }

  /** The test of Lock, which looks at locks on the same server only. */
  ghost predicate BlockedOnServer(slots: Slots, i: nat, l: LockInfo)
    requires i < |slots|
  {
    exists h :: Blocks(slots, h, i, l) && slots[h.slot].server == slots[i].server
  }

  // ---------- the operations on the table ----------

  function SlotOf(slots: Slots, socket: Socket): (i: nat)
    ensures i <= |slots|
    ensures i < |slots| ==> slots[i].socket == Some(socket)
    ensures forall k :: 0 <= k < i ==> slots[k].socket != Some(socket)
  {
    if slots == [] || slots[0].socket == Some(socket) then 0 else 1 + SlotOf(slots[1..], socket)
  }

  /** get_or_create */
  function WithSlot(slots: Slots, socket: Socket, server: Server): (s: Slots)
    ensures SlotOf(slots, socket) < |s|
  {
    if SlotOf(slots, socket) < |slots| then slots else slots + [Slot(server, Some(socket), [])]
  }

  ghost function Locked(slots: Slots, socket: Socket, server: Server, reason: Reason, path: ServerPath,
                        inclusive: bool): (Slots, Handle)
  {
    var i := SlotOf(slots, socket);
    var s := WithSlot(slots, socket, server);
    var info := LockInfo(path, reason, inclusive, false, false);
    (s[i := s[i].(locks := s[i].locks + [info.(waiting := BlockedOnServer(s, i, info))])], Handle(i, |s[i].locks|))
  }

  /** Number of locks left when trailing released ones are popped. */
  function KeptLocks(locks: seq<LockInfo>): (n: nat)
    ensures n <= |locks|
    ensures forall j :: n <= j < |locks| ==> locks[j].released
    ensures n > 0 ==> !locks[n - 1].released
  {
    if locks == [] then 0
    else if locks[|locks| - 1].released then KeptLocks(locks[..|locks| - 1])
    else |locks|
  }

  /** Number of slots left when trailing abandoned ones are popped. */
  function KeptSlots(slots: Slots): (n: nat)
    ensures n <= |slots|
    ensures forall i :: n <= i < |slots| ==> slots[i].socket == None
    ensures n > 0 ==> slots[n - 1].socket != None
  {
    if slots == [] then 0
    else if slots[|slots| - 1].socket == None then KeptSlots(slots[..|slots| - 1])
    else |slots|
  }

  function Unlocked(slots: Slots, h: Handle): Slots
    requires InRange(slots, h)
  {
    var slot := slots[h.slot];
    if h.lock + 1 == |slot.locks| then
      var popped := slot.locks[..h.lock];
      var locks := popped[..KeptLocks(popped)];
      if locks != [] then slots[h.slot := slot.(locks := locks)]
      else if h.slot + 1 == |slots| then slots[..KeptSlots(slots[..h.slot])]
      else slots[h.slot := slot.(socket := None, locks := [])]
    else
      slots[h.slot := slot.(locks := slot.locks[h.lock := slot.locks[h.lock].(waiting := false, released := true)])]
  }

  predicate HasWaiting(slot: Slot) {
    exists j :: 0 <= j < |slot.locks| && slot.locks[j].waiting
  }

  /** The sockets that Wakeup sends an event to. */
  function Woken(slots: Slots): multiset<Socket>
  {
    if slots == [] then multiset{}
    else
      var last := slots[|slots| - 1];
      Woken(slots[..|slots| - 1])
      + if HasWaiting(last) && last.socket.Some? then multiset{last.socket.value} else multiset{}
  }

  ghost function Regrant(slots: Slots, i: nat, l: LockInfo): LockInfo {
    if l.waiting && !Blocked(slots, i, l) then l.(waiting := false) else l
  }

  ghost function RegrantAll(slots: Slots, i: nat): (locks: seq<LockInfo>)
    requires i < |slots|
    ensures |locks| == |slots[i].locks|
    ensures forall j :: 0 <= j < |locks| ==> locks[j] == Regrant(slots, i, slots[i].locks[j])
  {
    seq(|slots[i].locks|, j requires 0 <= j < |slots[i].locks| => Regrant(slots, i, slots[i].locks[j]))
  }

  /** ObtainWaiting for a socket. */
  ghost function Obtained(slots: Slots, socket: Socket): Slots {
    var i := SlotOf(slots, socket);
    if i < |slots| then slots[i := slots[i].(locks := RegrantAll(slots, i))] else slots
  }

  // ---------- the system ----------

  /** What the holder of a handle asked for. */
  datatype Request = Request(socket: Socket, reason: Reason, path: ServerPath, inclusive: bool)

  /** The table, the wake-up events sent but not yet delivered, and the live OpLock objects. */
  datatype System = System(
    slots: Slots, events: multiset<Socket>, handles: map<nat, Handle>, requests: map<nat, Request>)

  const START := System([], multiset{}, map[], map[])

  datatype Action =
    | Acquire(id: nat, request: Request, server: Server)
    | Release(id: nat)
    | Deliver(socket: Socket)
    | Close(socket: Socket)

  /** A socket is only closed once its operations, and with them its locks, are gone. */
  predicate Enabled(s: System, a: Action) {
    match a
    case Acquire(id, _, _) => id !in s.handles
    case Release(id) => id in s.handles && InRange(s.slots, s.handles[id])
    case Deliver(socket) => s.events[socket] > 0
    case Close(socket) => forall id :: id in s.handles && id in s.requests ==> s.requests[id].socket != socket
  }

  ghost function Next(s: System, a: Action): System
    requires Enabled(s, a)
  {
    match a
    case Acquire(id, r, server) =>
      var t := Locked(s.slots, r.socket, server, r.reason, r.path, r.inclusive);
      System(t.0, s.events, s.handles[id := t.1], s.requests[id := r])
    case Release(id) =>
      var h := s.handles[id];
      var slots := Unlocked(s.slots, h);
      var events := if LockAt(s.slots, h).waiting then s.events else s.events + Woken(slots);
      System(slots, events, s.handles - {id}, s.requests - {id})
    case Deliver(socket) =>
      System(Obtained(s.slots, socket), s.events - multiset{socket}, s.handles, s.requests)
    case Close(socket) =>
      s.(events := s.events[socket := 0])
  }

  // ---------- invariants ----------

  /** Slots are abandoned exactly when empty, sockets have one slot, nothing trails. */
  ghost predicate Shape(slots: Slots) {
    && (forall i :: 0 <= i < |slots| ==> (slots[i].socket == None <==> slots[i].locks == []))
    && (forall i, k :: 0 <= i < k < |slots| ==> slots[i].socket == None || slots[i].socket != slots[k].socket)
    && (forall i :: 0 <= i < |slots| && slots[i].locks != [] ==> !slots[i].locks[|slots[i].locks| - 1].released)
    && (slots != [] ==> slots[|slots| - 1].socket != None)
    && (forall h :: InRange(slots, h) ==> !(LockAt(slots, h).waiting && LockAt(slots, h).released))
  }

  ghost predicate Names(slots: Slots, h: Handle, r: Request) {
    && InRange(slots, h) && slots[h.slot].socket == Some(r.socket) && !LockAt(slots, h).released
    && LockAt(slots, h).path == r.path && LockAt(slots, h).reason == r.reason
    && LockAt(slots, h).inclusive == r.inclusive
  }

  /** Every live handle names its own lock, no two share one, and no live lock is without. */
  ghost predicate HandlesValid(s: System) {
    && s.handles.Keys == s.requests.Keys
    && (forall id :: id in s.handles ==> Names(s.slots, s.handles[id], s.requests[id]))
    && (forall a, b :: a in s.handles && b in s.handles && a != b ==> s.handles[a] != s.handles[b])
    && (forall h :: InRange(s.slots, h) && !LockAt(s.slots, h).released ==> h in s.handles.Values)
  }

  ghost predicate NoLostWakeup(slots: Slots, events: multiset<Socket>) {
    forall h :: InRange(slots, h) && LockAt(slots, h).waiting ==>
      Blocked(slots, h.slot, LockAt(slots, h)) || (slots[h.slot].socket.Some? && events[slots[h.slot].socket.value] > 0)
  }

  ghost predicate Exclusive(slots: Slots) {
    forall g, h :: InRange(slots, g) && InRange(slots, h) && g.slot != h.slot
      && slots[g.slot].server == slots[h.slot].server && LockAt(slots, g).Held() && LockAt(slots, h).Held()
      ==> !Clash(LockAt(slots, g), LockAt(slots, h))
  }

  ghost predicate Inv(s: System) {
    Shape(s.slots) && HandlesValid(s) && NoLostWakeup(s.slots, s.events) && Exclusive(s.slots)
  }

  // ---------- acquiring ----------

  lemma ClashSymmetric(a: LockInfo, b: LockInfo)
    ensures Clash(a, b) == Clash(b, a)
  {}

  /** n is slots with one more lock, h, whose waiting flag is the outcome of Lock's test. */
  ghost predicate Grown(slots: Slots, n: Slots, h: Handle) {
    && |slots| <= |n| && InRange(n, h) && !InRange(slots, h)
    && (forall g :: InRange(n, g) <==> InRange(slots, g) || g == h)
    && (forall g :: InRange(slots, g) ==>
          && LockAt(n, g) == LockAt(slots, g) && n[g.slot].socket == slots[g.slot].socket
          && n[g.slot].server == slots[g.slot].server)
    && n[h.slot].socket.Some? && !LockAt(n, h).released
    && (LockAt(n, h).waiting <==> BlockedOnServer(n, h.slot, LockAt(n, h)))
  }

  /** A lock pushed at the end of slot i, waiting if it is blocked. */
  lemma PushGrows(slots: Slots, i: nat, info: LockInfo)
    requires i < |slots| && slots[i].socket.Some? && !info.waiting && !info.released
    ensures var l := info.(waiting := BlockedOnServer(slots, i, info));
            Grown(slots, slots[i := slots[i].(locks := slots[i].locks + [l])], Handle(i, |slots[i].locks|))
  {
    var l := info.(waiting := BlockedOnServer(slots, i, info));
    var n := slots[i := slots[i].(locks := slots[i].locks + [l])];
    var h := Handle(i, |slots[i].locks|);
    assert LockAt(n, h) == l;
    assert forall g :: InRange(slots, g) ==> LockAt(n, g) == LockAt(slots, g);
    forall g ensures Blocks(slots, g, i, info) == Blocks(n, g, i, l) {
      if g.slot != i { assert InRange(n, g) == InRange(slots, g); }
    }
    if BlockedOnServer(slots, i, info) {
      var g :| Blocks(slots, g, i, info) && slots[g.slot].server == slots[i].server;
      assert Blocks(n, g, i, l) && n[g.slot].server == n[i].server;
    }
    if BlockedOnServer(n, i, l) {
      var g :| Blocks(n, g, i, l) && n[g.slot].server == n[i].server;
      assert Blocks(slots, g, i, info) && slots[g.slot].server == slots[i].server;
    }
  }

  /** Shape, except that slot i may still be without locks. */
  ghost predicate ShapeBut(slots: Slots, i: nat) {
    && i < |slots| && slots[i].socket.Some?
    && (forall k :: 0 <= k < |slots| && k != i ==> (slots[k].socket == None <==> slots[k].locks == []))
    && (forall k, m :: 0 <= k < m < |slots| ==> slots[k].socket == None || slots[k].socket != slots[m].socket)
    && (forall k :: 0 <= k < |slots| && slots[k].locks != [] ==> !slots[k].locks[|slots[k].locks| - 1].released)
    && slots[|slots| - 1].socket != None
    && (forall h :: InRange(slots, h) ==> !(LockAt(slots, h).waiting && LockAt(slots, h).released))
  }

  lemma FreshSlotReady(slots: Slots, socket: Socket, server: Server)
    requires Shape(slots) && SlotOf(slots, socket) == |slots|
    ensures var s := slots + [Slot(server, Some(socket), [])];
            ShapeBut(s, |slots|) && (forall g :: InRange(s, g) <==> InRange(slots, g))
  {
    var s := slots + [Slot(server, Some(socket), [])];
    assert forall g :: InRange(s, g) ==>
      g.slot < |slots| && s[g.slot] == slots[g.slot] && LockAt(s, g) == LockAt(slots, g);
  }

  lemma SlotReady(slots: Slots, socket: Socket, server: Server)
    requires Shape(slots)
    ensures var s := WithSlot(slots, socket, server);
            && ShapeBut(s, SlotOf(slots, socket)) && s[SlotOf(slots, socket)].socket == Some(socket)
            && |slots| <= |s| && (forall k :: 0 <= k < |slots| ==> s[k] == slots[k])
            && (forall g :: InRange(s, g) <==> InRange(slots, g))
  {
    if SlotOf(slots, socket) == |slots| { FreshSlotReady(slots, socket, server); }
  }

  lemma PushShape(slots: Slots, i: nat, l: LockInfo)
    requires ShapeBut(slots, i) && !l.released
    ensures Shape(slots[i := slots[i].(locks := slots[i].locks + [l])])
  {
    var n := slots[i := slots[i].(locks := slots[i].locks + [l])];
    assert forall h :: InRange(n, h) ==> LockAt(n, h) == l || (InRange(slots, h) && LockAt(n, h) == LockAt(slots, h));
  }

  lemma LockedGrows(slots: Slots, socket: Socket, server: Server, reason: Reason, path: ServerPath, inclusive: bool)
    requires Shape(slots)
    ensures var t := Locked(slots, socket, server, reason, path, inclusive);
            && Shape(t.0) && Grown(slots, t.0, t.1)
            && Names(t.0, t.1, Request(socket, reason, path, inclusive))
  {
    var i := SlotOf(slots, socket);
    var s := WithSlot(slots, socket, server);
    var info := LockInfo(path, reason, inclusive, false, false);
    SlotReady(slots, socket, server);
    PushGrows(s, i, info);
    PushShape(s, i, info.(waiting := BlockedOnServer(s, i, info)));
  }

  lemma GrowthKeepsHandles(s: System, n: Slots, h: Handle, id: nat, r: Request)
    requires HandlesValid(s) && Grown(s.slots, n, h) && Names(n, h, r) && id !in s.handles
    ensures HandlesValid(System(n, s.events, s.handles[id := h], s.requests[id := r]))
  {
    var t := System(n, s.events, s.handles[id := h], s.requests[id := r]);
    forall a | a in t.handles ensures Names(n, t.handles[a], t.requests[a]) {
      if a != id { assert Names(s.slots, s.handles[a], s.requests[a]); }
    }
    forall a, b | a in t.handles && b in t.handles && a != b ensures t.handles[a] != t.handles[b] {
      if a != id { assert Names(s.slots, s.handles[a], s.requests[a]); }
      if b != id { assert Names(s.slots, s.handles[b], s.requests[b]); }
    }
    forall g | InRange(n, g) && !LockAt(n, g).released ensures g in t.handles.Values {
      if g == h {
        assert t.handles[id] == h;
      } else {
        assert g in s.handles.Values;
        var a :| a in s.handles && s.handles[a] == g;
        assert t.handles[a] == g;
      }
    }
  }

  lemma GrowthKeepsWakeups(slots: Slots, n: Slots, h: Handle, events: multiset<Socket>)
    requires NoLostWakeup(slots, events) && Grown(slots, n, h)
    ensures NoLostWakeup(n, events)
  {
    forall g | InRange(n, g) && LockAt(n, g).waiting
      ensures Blocked(n, g.slot, LockAt(n, g)) || (n[g.slot].socket.Some? && events[n[g.slot].socket.value] > 0)
    {
      var l := LockAt(n, g);
      if g == h {
        var b :| Blocks(n, b, g.slot, l) && n[b.slot].server == n[g.slot].server;
      } else if Blocked(slots, g.slot, l) {
        var b :| Blocks(slots, b, g.slot, l);
        assert Blocks(n, b, g.slot, l);
      }
    }
  }

  lemma GrowthKeepsExclusive(slots: Slots, n: Slots, h: Handle)
    requires Exclusive(slots) && Grown(slots, n, h)
    ensures Exclusive(n)
  {
    forall a, b | InRange(n, a) && InRange(n, b) && a.slot != b.slot
        && n[a.slot].server == n[b.slot].server && LockAt(n, a).Held() && LockAt(n, b).Held()
      ensures !Clash(LockAt(n, a), LockAt(n, b))
    {
      ClashSymmetric(LockAt(n, a), LockAt(n, b));
      if b == h {
        assert !Blocks(n, a, h.slot, LockAt(n, h));
      } else if a == h {
        assert !Blocks(n, b, h.slot, LockAt(n, h));
      }
    }
  }

  lemma AcquireKeeps(s: System, id: nat, r: Request, server: Server)
    requires Inv(s) && id !in s.handles
    ensures Inv(Next(s, Acquire(id, r, server)))
  {
    LockedGrows(s.slots, r.socket, server, r.reason, r.path, r.inclusive);
    var t := Locked(s.slots, r.socket, server, r.reason, r.path, r.inclusive);
    GrowthKeepsHandles(s, t.0, t.1, id, r);
    GrowthKeepsWakeups(s.slots, t.0, t.1, s.events);
    GrowthKeepsExclusive(s.slots, t.0, t.1);
  }

  // ---------- releasing ----------

  /** n is what remains of slots after lock h goes: with it only released locks disappear,
      the indices of the others stay. */
  ghost predicate Shrunk(slots: Slots, n: Slots, h: Handle) {
    && |n| <= |slots|
    && (forall g :: InRange(n, g) ==> InRange(slots, g) && (g != h ==> LockAt(n, g) == LockAt(slots, g)))
    && (forall g :: InRange(n, g) ==>
          n[g.slot].socket == slots[g.slot].socket && n[g.slot].server == slots[g.slot].server)
    && (InRange(n, h) ==> LockAt(n, h).released && !LockAt(n, h).waiting)
    && (forall g :: InRange(slots, g) && !InRange(n, g) && g != h ==> LockAt(slots, g).released)
  }

  lemma UnlockedInside(slots: Slots, h: Handle)
    requires Shape(slots) && InRange(slots, h) && h.lock + 1 < |slots[h.slot].locks|
    ensures var n := Unlocked(slots, h); Shape(n) && Shrunk(slots, n, h)
  {
    var n := Unlocked(slots, h);
    assert forall g :: InRange(n, g) && g != h ==> LockAt(n, g) == LockAt(slots, g);
  }

  /** The last locks of a slot go, all of them but h released. */
  predicate CutsSlot(slots: Slots, h: Handle, kept: nat) {
    && InRange(slots, h) && h.lock + 1 == |slots[h.slot].locks| && 0 < kept <= h.lock
    && !slots[h.slot].locks[kept - 1].released
    && forall j :: kept <= j < h.lock ==> slots[h.slot].locks[j].released
  }

  lemma SlotCut(slots: Slots, h: Handle, kept: nat)
    requires Shape(slots) && CutsSlot(slots, h, kept)
    ensures var n := slots[h.slot := slots[h.slot].(locks := slots[h.slot].locks[..kept])];
            Shape(n) && Shrunk(slots, n, h)
  {
    var n := slots[h.slot := slots[h.slot].(locks := slots[h.slot].locks[..kept])];
    assert forall g :: InRange(n, g) ==> LockAt(n, g) == LockAt(slots, g);
  }

  /** Popping the last lock of a slot, and released ones in front of it, keeps some locks. */
  lemma UnlockedKeepsSome(slots: Slots, h: Handle)
    requires Shape(slots) && InRange(slots, h) && h.lock + 1 == |slots[h.slot].locks|
    requires KeptLocks(slots[h.slot].locks[..h.lock]) > 0
    ensures var n := Unlocked(slots, h); Shape(n) && Shrunk(slots, n, h)
  {
    var popped := slots[h.slot].locks[..h.lock];
    var kept := KeptLocks(popped);
    assert popped[..kept] == slots[h.slot].locks[..kept];
    assert forall j :: 0 <= j < h.lock ==> popped[j] == slots[h.slot].locks[j];
    SlotCut(slots, h, kept);
  }

  lemma UnlockedLast(slots: Slots, h: Handle)
    requires Shape(slots) && InRange(slots, h) && h.lock + 1 == |slots[h.slot].locks|
    ensures var n := Unlocked(slots, h); Shape(n) && Shrunk(slots, n, h)
  {
    var popped := slots[h.slot].locks[..h.lock];
    if KeptLocks(popped) > 0 {
      UnlockedKeepsSome(slots, h);
    } else {
      var n := Unlocked(slots, h);
      forall g | InRange(slots, g) && g.slot == h.slot && g != h ensures LockAt(slots, g).released {
        assert popped[g.lock].released;
      }
      if h.slot + 1 == |slots| {
        UnlockedLastSlot(slots, h.slot);
        assert forall g :: InRange(slots, g) && !InRange(n, g) ==> g.slot == h.slot;
      } else {
        assert forall g :: InRange(n, g) ==> g.slot != h.slot && LockAt(n, g) == LockAt(slots, g);
      }
    }
  }

  /** A table cut off behind a slot that is in use. */
  lemma CutKeepsShape(slots: Slots, k: nat)
    requires Shape(slots) && k <= |slots| && (k > 0 ==> slots[k - 1].socket != None)
    ensures Shape(slots[..k])
    ensures forall g :: InRange(slots[..k], g) <==> InRange(slots, g) && g.slot < k
    ensures forall g :: InRange(slots[..k], g) ==> LockAt(slots[..k], g) == LockAt(slots, g)
  {
    assert forall g :: InRange(slots[..k], g) ==> LockAt(slots[..k], g) == LockAt(slots, g);
  }

  lemma UnlockedLastSlot(slots: Slots, i: nat)
    requires Shape(slots) && i + 1 == |slots|
    ensures var n := slots[..KeptSlots(slots[..i])];
            && Shape(n)
            && (forall g :: InRange(n, g) ==> LockAt(n, g) == LockAt(slots, g))
            && (forall g :: InRange(slots, g) ==> InRange(n, g) || g.slot == i)
  {
    var k := KeptSlots(slots[..i]);
    if k > 0 { assert slots[..i][k - 1].socket != None; }
    CutKeepsShape(slots, k);
    assert forall x :: k <= x < i ==> slots[..i][x] == slots[x];
  }

  lemma UnlockedShrinks(slots: Slots, h: Handle)
    requires Shape(slots) && InRange(slots, h)
    ensures Shape(Unlocked(slots, h)) && Shrunk(slots, Unlocked(slots, h), h)
  {
    if h.lock + 1 == |slots[h.slot].locks| { UnlockedLast(slots, h); } else { UnlockedInside(slots, h); }
  }

  lemma {:induction false} WokenHas(slots: Slots, i: nat)
    requires i < |slots| && HasWaiting(slots[i]) && slots[i].socket.Some?
    ensures Woken(slots)[slots[i].socket.value] > 0
    decreases |slots|
  {
    if i < |slots| - 1 { WokenHas(slots[..|slots| - 1], i); }
  }

  lemma ShrinkKeepsHandles(s: System, n: Slots, id: nat)
    requires HandlesValid(s) && id in s.handles && Shrunk(s.slots, n, s.handles[id])
    ensures HandlesValid(System(n, s.events, s.handles - {id}, s.requests - {id}))
  {
    var h := s.handles[id];
    var t := System(n, s.events, s.handles - {id}, s.requests - {id});
    forall a | a in t.handles ensures Names(n, t.handles[a], t.requests[a]) {
      var g := s.handles[a];
      assert Names(s.slots, g, s.requests[a]) && g != h;
      assert InRange(n, g);
    }
    forall g | InRange(n, g) && !LockAt(n, g).released ensures g in t.handles.Values {
      assert g in s.handles.Values;
      var a :| a in s.handles && s.handles[a] == g;
      assert a in t.handles;
    }
  }

  lemma ShrinkKeepsWakeups(slots: Slots, n: Slots, h: Handle, events: multiset<Socket>)
    requires Shape(n) && NoLostWakeup(slots, events) && InRange(slots, h) && Shrunk(slots, n, h)
    ensures NoLostWakeup(n, if LockAt(slots, h).waiting then events else events + Woken(n))
  {
    forall g | InRange(n, g) && LockAt(n, g).waiting
      ensures Blocked(n, g.slot, LockAt(n, g)) || (n[g.slot].socket.Some?
                && (if LockAt(slots, h).waiting then events else events + Woken(n))[n[g.slot].socket.value] > 0)
    {
      var l := LockAt(slots, g);
      assert LockAt(n, g) == l;
      if LockAt(slots, h).waiting {
        if Blocked(slots, g.slot, l) {
          var b :| Blocks(slots, b, g.slot, l);
          assert Blocks(n, b, g.slot, l);
        }
      } else {
        assert n[g.slot].locks[g.lock].waiting;
        WokenHas(n, g.slot);
      }
    }
  }

  lemma ShrinkKeepsExclusive(slots: Slots, n: Slots, h: Handle)
    requires Exclusive(slots) && Shrunk(slots, n, h)
    ensures Exclusive(n)
  {}

  lemma ReleaseKeeps(s: System, id: nat)
    requires Inv(s) && id in s.handles
    ensures Enabled(s, Release(id)) && Inv(Next(s, Release(id)))
  {
    var h := s.handles[id];
    assert Names(s.slots, h, s.requests[id]);
    UnlockedShrinks(s.slots, h);
    var n := Unlocked(s.slots, h);
    ShrinkKeepsHandles(s, n, id);
    ShrinkKeepsWakeups(s.slots, n, h, s.events);
    ShrinkKeepsExclusive(s.slots, n, h);
  }

  // ---------- delivering a wake-up ----------

  /** n differs from slots only in the waiting locks of socket that nothing blocks. */
  ghost predicate Granted(slots: Slots, n: Slots, socket: Socket) {
    && |n| == |slots|
    && (forall i :: 0 <= i < |n| ==>
          n[i].socket == slots[i].socket && n[i].server == slots[i].server && |n[i].locks| == |slots[i].locks|)
    && (forall h :: InRange(n, h) ==>
          LockAt(n, h) == if slots[h.slot].socket == Some(socket) then Regrant(slots, h.slot, LockAt(slots, h))
                          else LockAt(slots, h))
  }

  lemma ObtainedGrants(slots: Slots, socket: Socket)
    requires Shape(slots)
    ensures Granted(slots, Obtained(slots, socket), socket)
  {
    var n := Obtained(slots, socket);
    var i := SlotOf(slots, socket);
    forall h | InRange(n, h)
      ensures LockAt(n, h) == if slots[h.slot].socket == Some(socket) then Regrant(slots, h.slot, LockAt(slots, h))
                              else LockAt(slots, h)
    {
      if slots[h.slot].socket == Some(socket) { assert h.slot == i; }
    }
  }

  lemma GrantKeepsShape(slots: Slots, n: Slots, socket: Socket)
    requires Shape(slots) && Granted(slots, n, socket)
    ensures Shape(n)
  {
    assert forall h :: InRange(n, h) ==> InRange(slots, h);
    forall i | 0 <= i < |n| && n[i].locks != [] ensures !n[i].locks[|n[i].locks| - 1].released {
      var h := Handle(i, |n[i].locks| - 1);
      assert InRange(n, h) && !LockAt(slots, h).released;
    }
  }

  /** Granting locks of one socket changes nothing that blocks that socket. */
  lemma GrantKeepsBlocks(slots: Slots, n: Slots, socket: Socket, h: Handle, i: nat, l: LockInfo)
    requires Shape(slots) && Granted(slots, n, socket) && i < |slots|
    ensures Blocks(slots, h, i, l) ==> Blocks(n, h, i, l)
    ensures slots[i].socket == Some(socket) ==> Blocks(n, h, i, l) == Blocks(slots, h, i, l)
  {
    assert InRange(n, h) == InRange(slots, h);
    if InRange(slots, h) && h.slot != i && slots[i].socket == Some(socket) {
      assert slots[h.slot].socket != Some(socket);
    }
  }

  lemma GrantKeepsHandles(s: System, n: Slots, socket: Socket, events: multiset<Socket>)
    requires HandlesValid(s) && Granted(s.slots, n, socket)
    ensures HandlesValid(System(n, events, s.handles, s.requests))
  {
    assert forall h :: InRange(n, h) <==> InRange(s.slots, h);
    forall a | a in s.handles ensures Names(n, s.handles[a], s.requests[a]) {
      assert Names(s.slots, s.handles[a], s.requests[a]);
    }
  }

  lemma GrantKeepsWakeups(slots: Slots, n: Slots, socket: Socket, events: multiset<Socket>)
    requires Shape(slots) && NoLostWakeup(slots, events) && Granted(slots, n, socket) && events[socket] > 0
    ensures NoLostWakeup(n, events - multiset{socket})
  {
    forall g | InRange(n, g) && LockAt(n, g).waiting
      ensures Blocked(n, g.slot, LockAt(n, g))
          || (n[g.slot].socket.Some? && (events - multiset{socket})[n[g.slot].socket.value] > 0)
    {
      assert InRange(slots, g);
      var l := LockAt(slots, g);
      assert LockAt(n, g) == l;
      if Blocked(slots, g.slot, l) {
        var b :| Blocks(slots, b, g.slot, l);
        GrantKeepsBlocks(slots, n, socket, b, g.slot, l);
      }
    }
  }

  lemma GrantKeepsExclusive(slots: Slots, n: Slots, socket: Socket)
    requires Shape(slots) && Exclusive(slots) && Granted(slots, n, socket)
    ensures Exclusive(n)
  {
    forall g, h | InRange(n, g) && InRange(n, h) && g.slot != h.slot
        && n[g.slot].server == n[h.slot].server && LockAt(n, g).Held() && LockAt(n, h).Held()
      ensures !Clash(LockAt(n, g), LockAt(n, h))
    {
      assert InRange(slots, g) && InRange(slots, h);
      GrantedPairFree(slots, n, socket, g, h);
    }
  }

  lemma GrantedPairFree(slots: Slots, n: Slots, socket: Socket, g: Handle, h: Handle)
    requires Shape(slots) && Exclusive(slots) && Granted(slots, n, socket)
    requires InRange(slots, g) && InRange(slots, h) && g.slot != h.slot && slots[g.slot].server == slots[h.slot].server
    requires InRange(n, g) && InRange(n, h) && LockAt(n, g).Held() && LockAt(n, h).Held()
    ensures !Clash(LockAt(n, g), LockAt(n, h))
  {
    var a, b := LockAt(slots, g), LockAt(slots, h);
    ClashSymmetric(a, b);
    assert slots[g.slot].socket == Some(socket) ==> slots[h.slot].socket != Some(socket);
    if a.waiting {
      assert !Blocks(slots, h, g.slot, a);
    } else if b.waiting {
      assert !Blocks(slots, g, h.slot, b);
    }
  }

  lemma DeliverKeeps(s: System, socket: Socket)
    requires Inv(s) && s.events[socket] > 0
    ensures Inv(Next(s, Deliver(socket)))
  {
    var n := Obtained(s.slots, socket);
    ObtainedGrants(s.slots, socket);
    GrantKeepsShape(s.slots, n, socket);
    GrantKeepsHandles(s, n, socket, s.events - multiset{socket});
    GrantKeepsWakeups(s.slots, n, socket, s.events);
    GrantKeepsExclusive(s.slots, n, socket);
  }

  /** A waiting lock belongs to an operation, and so its socket is not one that may be closed. */
  lemma CloseKeepsWakeups(s: System, socket: Socket)
    requires Shape(s.slots) && HandlesValid(s) && NoLostWakeup(s.slots, s.events) && Enabled(s, Close(socket))
    ensures NoLostWakeup(s.slots, s.events[socket := 0])
  {
    forall g | InRange(s.slots, g) && LockAt(s.slots, g).waiting
      ensures Blocked(s.slots, g.slot, LockAt(s.slots, g))
           || (s.slots[g.slot].socket.Some? && s.events[socket := 0][s.slots[g.slot].socket.value] > 0)
    {
      assert g in s.handles.Values;
      var a :| a in s.handles && s.handles[a] == g;
      assert Names(s.slots, g, s.requests[a]) && s.requests[a].socket != socket;
    }
  }

  lemma CloseKeeps(s: System, socket: Socket)
    requires Inv(s) && Enabled(s, Close(socket))
    ensures Inv(Next(s, Close(socket)))
  {
    CloseKeepsWakeups(s, socket);
    assert HandlesValid(s.(events := s.events[socket := 0]));
  }

  // ---------- main results ----------

  lemma StepKeeps(s: System, a: Action)
    requires Inv(s) && Enabled(s, a)
    ensures Inv(Next(s, a))
  {
    match a
    case Acquire(id, r, server) => AcquireKeeps(s, id, r, server);
    case Release(id) => ReleaseKeeps(s, id);
    case Deliver(socket) => DeliverKeeps(s, socket);
    case Close(socket) => CloseKeeps(s, socket);
  }

  /** The actions form an interleaving that leads from s to t. */
  ghost predicate Run(s: System, actions: seq<Action>, t: System)
    decreases |actions|
  {
    if actions == [] then s == t else Enabled(s, actions[0]) && Run(Next(s, actions[0]), actions[1..], t)
  }

  lemma {:induction false} RunKeeps(s: System, actions: seq<Action>, t: System)
    requires Inv(s) && Run(s, actions, t)
    ensures Inv(t)
    decreases |actions|
  {
    if actions != [] {
      StepKeeps(s, actions[0]);
      RunKeeps(Next(s, actions[0]), actions[1..], t);
    }
  }

  /** Over every interleaving: wake-ups are not lost, granted locks exclude each other, each
      handle names the lock that was asked for, and Wakeup never meets an abandoned slot. */
  lemma EveryInterleavingIsSafe(actions: seq<Action>, t: System)
    requires Run(START, actions, t)
    ensures NoLostWakeup(t.slots, t.events) && Exclusive(t.slots) && HandlesValid(t)
    ensures forall i :: 0 <= i < |t.slots| && HasWaiting(t.slots[i]) ==> t.slots[i].socket.Some?
  {
    RunKeeps(START, actions, t);
  }

  /** Waiting locks never block each other: once no event is on its way, someone who waits is
      kept waiting by another socket's granted lock; so with nothing granted nothing waits. */
  lemma NoDeadlock(actions: seq<Action>, t: System)
    requires Run(START, actions, t) && t.events == multiset{}
    requires forall h :: InRange(t.slots, h) ==> !LockAt(t.slots, h).Held()
    ensures t.handles == map[] && t.slots == []
  {
    RunKeeps(START, actions, t);
    NothingHeldNothingWaits(t);
    if t.handles != map[] { HandleHasSlot(t); }
  }

  lemma NothingHeldNothingWaits(t: System)
    requires Inv(t) && t.events == multiset{}
    requires forall h :: InRange(t.slots, h) ==> !LockAt(t.slots, h).Held()
    ensures t.slots == []
  {
    if t.slots != [] {
      var i := |t.slots| - 1;
      var h := Handle(i, |t.slots[i].locks| - 1);
      assert t.slots[i].locks != [] && InRange(t.slots, h);
      assert false;
    }
  }

  lemma HandleHasSlot(s: System)
    requires HandlesValid(s) && s.handles != map[]
    ensures s.slots != []
  {
    var id :| id in s.handles;
    assert Names(s.slots, s.handles[id], s.requests[id]);
  }

  /** After a delivery, a lock of that socket waits exactly if it waited before and another
      slot's granted lock is in its way, whatever that slot's server. */
  lemma DeliveryGrantsExactly(s: System, socket: Socket, h: Handle)
    requires Inv(s) && s.events[socket] > 0
    requires InRange(s.slots, h) && s.slots[h.slot].socket == Some(socket)
    ensures var n := Next(s, Deliver(socket));
            && InRange(n.slots, h)
            && (LockAt(n.slots, h).waiting
                <==> LockAt(s.slots, h).waiting && Blocked(n.slots, h.slot, LockAt(s.slots, h)))
  {
    var n := Next(s, Deliver(socket)).slots;
    var l := LockAt(s.slots, h);
    ObtainedGrants(s.slots, socket);
    if Blocked(s.slots, h.slot, l) {
      var b :| Blocks(s.slots, b, h.slot, l);
      GrantKeepsBlocks(s.slots, n, socket, b, h.slot, l);
    }
    if Blocked(n, h.slot, l) {
      var b :| Blocks(n, b, h.slot, l);
      GrantKeepsBlocks(s.slots, n, socket, b, h.slot, l);
    }
  }

  /** Some granted lock is in the way of this one, and all that are lie on other servers. */
  ghost predicate BlockedAbroadOnly(slots: Slots, h: Handle)
    requires InRange(slots, h)
  {
    && Blocked(slots, h.slot, LockAt(slots, h))
    && forall b :: Blocks(slots, b, h.slot, LockAt(slots, h)) ==> slots[b.slot].server != slots[h.slot].server
  }

  /** The two tests over every interleaving: once no event is on its way, each lock that waits is
      kept waiting by a granted one, and where Lock's test finds none, all of them are abroad. */
  lemma TestsDiffer(actions: seq<Action>, t: System, h: Handle)
    requires Run(START, actions, t) && t.events == multiset{}
    requires InRange(t.slots, h) && LockAt(t.slots, h).waiting
    ensures Blocked(t.slots, h.slot, LockAt(t.slots, h))
    ensures LeftWaiting(t, h) <==> BlockedAbroadOnly(t.slots, h)
  {
    RunKeeps(START, actions, t);
    if b :| Blocks(t.slots, b, h.slot, LockAt(t.slots, h)) && t.slots[b.slot].server == t.slots[h.slot].server {
      assert BlockedOnServer(t.slots, h.slot, LockAt(t.slots, h));
    }
  }

  // The delay, step by step: sockets 0 and 1 use server 7, socket 2 uses server 8.

  const EXAMPLE_PATH := ServerPath(UNIX, Some(PathData(["a"], None)))
  const HELD := LockInfo(EXAMPLE_PATH, List, false, false, false)
  const WAITS := LockInfo(EXAMPLE_PATH, List, false, true, false)

  const AFTER_ONE: Slots := [Slot(7, Some(0), [HELD])]
  const AFTER_TWO: Slots := [Slot(7, Some(0), [HELD]), Slot(7, Some(1), [WAITS])]
  const AFTER_THREE: Slots := [Slot(7, Some(0), [HELD]), Slot(7, Some(1), [WAITS]), Slot(8, Some(2), [HELD])]
  const AFTER_RELEASE: Slots := [Slot(7, None, []), Slot(7, Some(1), [WAITS]), Slot(8, Some(2), [HELD])]

  lemma DelayFirst()
    ensures Locked([], 0, 7, List, EXAMPLE_PATH, false) == (AFTER_ONE, Handle(0, 0))
  {
    var s: Slots := [Slot(7, Some(0), [])];
    assert WithSlot([], 0, 7) == s && !BlockedOnServer(s, 0, HELD);
    assert HELD.(waiting := false) == HELD && s[0].locks + [HELD] == [HELD];
    assert s[0 := Slot(7, Some(0), [HELD])] == AFTER_ONE;
  }

  lemma DelaySecond()
    ensures Locked(AFTER_ONE, 1, 7, List, EXAMPLE_PATH, false) == (AFTER_TWO, Handle(1, 0))
  {
    var s: Slots := [Slot(7, Some(0), [HELD]), Slot(7, Some(1), [])];
    assert SlotOf(AFTER_ONE, 1) == 1 && WithSlot(AFTER_ONE, 1, 7) == s;
    assert Blocks(s, Handle(0, 0), 1, HELD);
    assert BlockedOnServer(s, 1, HELD);
    assert HELD.(waiting := true) == WAITS && s[1].locks + [WAITS] == [WAITS];
    assert s[1 := Slot(7, Some(1), [WAITS])] == AFTER_TWO;
  }

  lemma DelayThird()
    ensures Locked(AFTER_TWO, 2, 8, List, EXAMPLE_PATH, false) == (AFTER_THREE, Handle(2, 0))
  {
    var s: Slots := [Slot(7, Some(0), [HELD]), Slot(7, Some(1), [WAITS]), Slot(8, Some(2), [])];
    assert SlotOf(AFTER_TWO, 2) == 2 && WithSlot(AFTER_TWO, 2, 8) == s;
    assert !BlockedOnServer(s, 2, HELD);
    assert HELD.(waiting := false) == HELD && s[2].locks + [HELD] == [HELD];
    assert s[2 := Slot(8, Some(2), [HELD])] == AFTER_THREE;
  }

  lemma DelayWakes()
    ensures Unlocked(AFTER_THREE, Handle(0, 0)) == AFTER_RELEASE
    ensures Woken(AFTER_RELEASE) == multiset{1}
  {
    var a := AFTER_RELEASE;
    assert a[..2] == [a[0], a[1]] && a[..2][..1] == [a[0]] && [a[0]][..0] == [];
    assert HasWaiting(a[1]) by { assert a[1].locks[0].waiting; }
    assert !HasWaiting(a[0]) && !HasWaiting(a[2]);
    assert Woken([a[0]]) == multiset{};
    assert Woken(a[..2]) == multiset{1};
  }

  lemma DelayStays()
    ensures Obtained(AFTER_RELEASE, 1) == AFTER_RELEASE
    ensures !BlockedOnServer(AFTER_RELEASE, 1, WAITS)
  {
    assert Blocks(AFTER_RELEASE, Handle(2, 0), 1, WAITS);
    assert SlotOf(AFTER_RELEASE, 1) == 1;
    assert RegrantAll(AFTER_RELEASE, 1) == [WAITS];
  }

  /** No event is on its way, h waits, yet nothing on its server is in its way. */
  ghost predicate LeftWaiting(t: System, h: Handle) {
    && t.events == multiset{} && InRange(t.slots, h) && LockAt(t.slots, h).waiting
    && !BlockedOnServer(t.slots, h.slot, LockAt(t.slots, h))
  }

  ghost predicate Reachable(t: System) {
    exists actions :: Run(START, actions, t)
  }

  lemma {:induction false} RunAppend(s: System, actions: seq<Action>, t: System, a: Action)
    requires Run(s, actions, t) && Enabled(t, a)
    ensures Run(s, actions + [a], Next(t, a))
    decreases |actions|
  {
    if actions == [] {
      assert (actions + [a])[1..] == [];
    } else {
      assert (actions + [a])[1..] == actions[1..] + [a];
      RunAppend(Next(s, actions[0]), actions[1..], t, a);
    }
  }

  lemma ReachableNext(t: System, a: Action)
    requires Reachable(t) && Enabled(t, a)
    ensures Reachable(Next(t, a))
  {
    var actions :| Run(START, actions, t);
    RunAppend(START, actions, t, a);
  }

  lemma DelaySetUp() returns (t: System)
    ensures Reachable(t) && t.slots == AFTER_THREE && t.events == multiset{}
    ensures 0 in t.handles && t.handles[0] == Handle(0, 0)
  {
    DelayFirst(); DelaySecond(); DelayThird();
    assert Run(START, [], START);
    var s1 := Next(START, Acquire(0, Request(0, List, EXAMPLE_PATH, false), 7));
    ReachableNext(START, Acquire(0, Request(0, List, EXAMPLE_PATH, false), 7));
    var s2 := Next(s1, Acquire(1, Request(1, List, EXAMPLE_PATH, false), 7));
    ReachableNext(s1, Acquire(1, Request(1, List, EXAMPLE_PATH, false), 7));
    t := Next(s2, Acquire(2, Request(2, List, EXAMPLE_PATH, false), 8));
    ReachableNext(s2, Acquire(2, Request(2, List, EXAMPLE_PATH, false), 8));
  }

  /** So a delivery may leave a lock waiting although nothing on its own server is in its way. */
  lemma ForeignServerDelays()
    ensures exists t, h :: Reachable(t) && LeftWaiting(t, h)
  {
    var s := DelaySetUp();
    DelayWakes(); DelayStays();
    var t := Next(s, Release(0));
    ReachableNext(s, Release(0));
    assert t.slots == AFTER_RELEASE && t.events == multiset{1};
    var u := Next(t, Deliver(1));
    ReachableNext(t, Deliver(1));
    assert LeftWaiting(u, Handle(1, 0));
  }

  // ---------- the object ----------

  class OpLockManager {
    var socketLocks: Slots
    var sent: multiset<Socket>

    constructor ()
      ensures socketLocks == [] && sent == multiset{}
    {
      socketLocks, sent := [], multiset{};
    }

    method GetOrCreate(socket: Socket, currentServer: Server) returns (index: nat)
      modifies this
      ensures socketLocks == WithSlot(old(socketLocks), socket, currentServer)
      ensures index == SlotOf(old(socketLocks), socket) && sent == old(sent)
    {
      index := 0;
      while index < |socketLocks|
        invariant index <= |socketLocks| && index <= SlotOf(socketLocks, socket)
      {
        if socketLocks[index].socket == Some(socket) { return; }
        index := index + 1;
      }
      socketLocks := socketLocks + [Slot(currentServer, Some(socket), [])];
    }

    /** Whether another slot of the same server holds a lock in the way of `info`. */
    method IsBlocked(socket: Socket, i: nat, info: LockInfo) returns (blocked: bool)
      requires ShapeBut(socketLocks, i) && socketLocks[i].socket == Some(socket)
      ensures blocked == BlockedOnServer(socketLocks, i, info)
    {
      blocked := false;
      var k := 0;
      while k < |socketLocks| && !blocked
        invariant 0 <= k <= |socketLocks|
        invariant blocked ==> BlockedOnServer(socketLocks, i, info)
        invariant !blocked ==>
          forall g :: Blocks(socketLocks, g, i, info) && socketLocks[g.slot].server == socketLocks[i].server ==>
            g.slot >= k
      {
        var other := socketLocks[k];
        if other.socket != Some(socket) && other.server == socketLocks[i].server {
          blocked := HoldsClash(other.locks, info);
          if blocked {
            var j :| 0 <= j < |other.locks| && other.locks[j].Held() && Clash(other.locks[j], info);
            assert Blocks(socketLocks, Handle(k, j), i, info);
          }
        }
        k := k + 1;
      }
    }

    /** Lock: waits if a granted lock of another socket on the same server is in the way. */
    method Lock(socket: Socket, currentServer: Server, reason: Reason, path: ServerPath, inclusive: bool)
      returns (h: Handle)
      requires Shape(socketLocks)
      modifies this
      ensures (socketLocks, h) == Locked(old(socketLocks), socket, currentServer, reason, path, inclusive)
      ensures Shape(socketLocks) && sent == old(sent)
    {
      LockedGrows(socketLocks, socket, currentServer, reason, path, inclusive);
      SlotReady(socketLocks, socket, currentServer);
      var i := GetOrCreate(socket, currentServer);
      var info := LockInfo(path, reason, inclusive, false, false);
      var blocked := IsBlocked(socket, i, info);
      h := Handle(i, |socketLocks[i].locks|);
      socketLocks := socketLocks[i := socketLocks[i].(locks := socketLocks[i].locks + [info.(waiting := blocked)])];
    }

    method Unlock(h: Handle)
      requires Shape(socketLocks) && InRange(socketLocks, h)
      modifies this
      ensures socketLocks == Unlocked(old(socketLocks), h) && Shape(socketLocks)
      ensures sent == if LockAt(old(socketLocks), h).waiting then old(sent) else old(sent) + Woken(socketLocks)
    {
      UnlockedShrinks(socketLocks, h);
      var wasWaiting := socketLocks[h.slot].locks[h.lock].waiting;
      socketLocks := Removed(socketLocks, h);
      if !wasWaiting { Wakeup(); }
    }

    /** Wakeup: the socket of a slot with a waiting lock exists. */
    method Wakeup()
      requires Shape(socketLocks)
      modifies this`sent
      ensures sent == old(sent) + Woken(socketLocks)
    {
      var i := 0;
      while i < |socketLocks|
        invariant 0 <= i <= |socketLocks|
        invariant sent == old(sent) + Woken(socketLocks[..i])
      {
        assert socketLocks[..i + 1][..i] == socketLocks[..i];
        var waiting := AnyWaiting(socketLocks[i].locks);
        if waiting {
          assert socketLocks[i].socket.Some?;
          sent := sent + multiset{socketLocks[i].socket.value};
        }
        i := i + 1;
      }
      assert socketLocks[..|socketLocks|] == socketLocks;
    }

    /** ObtainWaiting: grants what no other slot's granted lock stands in the way of. */
    method ObtainWaiting(socket: Socket) returns (obtained: bool)
      requires Shape(socketLocks)
      modifies this`socketLocks
      ensures socketLocks == Obtained(old(socketLocks), socket)
      ensures obtained <==> socketLocks != old(socketLocks)
    {
      obtained := false;
      var i := 0;
      while i < |socketLocks| && socketLocks[i].socket != Some(socket)
        invariant 0 <= i <= |socketLocks| && i <= SlotOf(socketLocks, socket)
      {
        i := i + 1;
      }
      if i == |socketLocks| { return; }
      var j := 0;
      ghost var before := socketLocks;
      while j < |socketLocks[i].locks|
        invariant |socketLocks| == |before| && j <= |socketLocks[i].locks| == |before[i].locks|
        invariant socketLocks == before[i := before[i].(locks := socketLocks[i].locks)]
        invariant forall m :: 0 <= m < j ==> socketLocks[i].locks[m] == Regrant(before, i, before[i].locks[m])
        invariant forall m :: j <= m < |before[i].locks| ==> socketLocks[i].locks[m] == before[i].locks[m]
        invariant obtained <==> socketLocks[i].locks != before[i].locks
      {
        var l := socketLocks[i].locks[j];
        if l.waiting {
          var free := NothingBlocks(i, l);
          SameBlocks(before, socketLocks, i, l);
          if free {
            socketLocks := socketLocks[i := socketLocks[i].(locks := socketLocks[i].locks[j := l.(waiting := false)])];
            assert socketLocks[i].locks[j] != before[i].locks[j];
            obtained := true;
          }
        }
        j := j + 1;
      }
      assert socketLocks[i].locks == RegrantAll(before, i);
    }

    method NothingBlocks(i: nat, l: LockInfo) returns (free: bool)
      requires i < |socketLocks|
      ensures free <==> !Blocked(socketLocks, i, l)
    {
      var k := 0;
      while k < |socketLocks|
        invariant 0 <= k <= |socketLocks|
        invariant forall g :: Blocks(socketLocks, g, i, l) ==> g.slot >= k
      {
        if k != i {
          var clash := HoldsClash(socketLocks[k].locks, l);
          if clash {
            var j :| 0 <= j < |socketLocks[k].locks| && socketLocks[k].locks[j].Held()
                && Clash(socketLocks[k].locks[j], l);
            assert Blocks(socketLocks, Handle(k, j), i, l);
            return false;
          }
        }
        k := k + 1;
      }
      free := true;
    }
  }

  /** The body of Unlock: pops the lock and what trails it, or only marks it released. */
  method Removed(slots: Slots, h: Handle) returns (n: Slots)
    requires InRange(slots, h)
    ensures n == Unlocked(slots, h)
  {
    var slot := slots[h.slot];
    if h.lock + 1 != |slot.locks| {
      var l := slot.locks[h.lock].(waiting := false, released := true);
      return slots[h.slot := slot.(locks := slot.locks[h.lock := l])];
    }
    var locks := PopReleased(slot.locks[..h.lock]);
    if locks != [] { return slots[h.slot := slot.(locks := locks)]; }
    if h.slot + 1 != |slots| { return slots[h.slot := slot.(socket := None, locks := [])]; }
    n := PopAbandoned(slots[..h.slot]);
    assert slots[..h.slot][..KeptSlots(slots[..h.slot])] == slots[..KeptSlots(slots[..h.slot])];
  }

  method PopReleased(all: seq<LockInfo>) returns (locks: seq<LockInfo>)
    ensures locks == all[..KeptLocks(all)]
  {
    locks := all;
    while locks != [] && locks[|locks| - 1].released
      invariant |locks| <= |all| && locks == all[..|locks|] && KeptLocks(locks) == KeptLocks(all)
      decreases |locks|
    {
      locks := locks[..|locks| - 1];
    }
  }

  method PopAbandoned(all: Slots) returns (slots: Slots)
    ensures slots == all[..KeptSlots(all)]
  {
    slots := all;
    while slots != [] && slots[|slots| - 1].socket == None
      invariant |slots| <= |all| && slots == all[..|slots|] && KeptSlots(slots) == KeptSlots(all)
      decreases |slots|
    {
      slots := slots[..|slots| - 1];
    }
  }

  method HoldsClash(locks: seq<LockInfo>, l: LockInfo) returns (clash: bool)
    ensures clash <==> exists j :: 0 <= j < |locks| && locks[j].Held() && Clash(locks[j], l)
  {
    var j := 0;
    while j < |locks|
      invariant 0 <= j <= |locks|
      invariant forall m :: 0 <= m < j ==> !(locks[m].Held() && Clash(locks[m], l))
    {
      if locks[j].Held() && Clash(locks[j], l) { return true; }
      j := j + 1;
    }
    clash := false;
  }

  method AnyWaiting(locks: seq<LockInfo>) returns (waiting: bool)
    ensures waiting <==> exists j :: 0 <= j < |locks| && locks[j].waiting
  {
    var j := 0;
    while j < |locks|
      invariant 0 <= j <= |locks|
      invariant forall m :: 0 <= m < j ==> !locks[m].waiting
    {
      if locks[j].waiting { return true; }
      j := j + 1;
    }
    waiting := false;
  }

  /** What blocks a lock of slot i does not depend on slot i's own locks. */
  lemma SameBlocks(a: Slots, b: Slots, i: nat, l: LockInfo)
    requires i < |a| && |a| == |b| && forall k :: 0 <= k < |a| && k != i ==> a[k] == b[k]
    ensures Blocked(a, i, l) == Blocked(b, i, l)
  {
    forall h ensures Blocks(a, h, i, l) == Blocks(b, h, i, l) {}
  }
}
