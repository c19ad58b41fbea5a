/**
 * The lock table told by requests: when two granted locks may stand side by side, and exactly when a
 * new one, or one that was woken, has to wait.
 */
module OpLockRequests {
  import opened Text
  import opened ServerPaths
  import opened OpLocks

  /** Two operations of one kind that would touch the same directories. */
  predicate Overlap(a: Request, b: Request) {
    && a.reason == b.reason
    && (a.path == b.path || (a.inclusive && Below(b.path, a.path)) || (b.inclusive && Below(a.path, b.path)))
  }

  ghost predicate Waits(s: System, id: nat) {
    id in s.handles && InRange(s.slots, s.handles[id]) && LockAt(s.slots, s.handles[id]).waiting
  }

  ghost predicate Holds(s: System, id: nat) {
    && id in s.handles && InRange(s.slots, s.handles[id])
    && !LockAt(s.slots, s.handles[id]).waiting && !LockAt(s.slots, s.handles[id]).released
  }

  /** The lock belongs to a socket that was first seen on this server. */
  ghost predicate On(s: System, id: nat, server: Server) {
    id in s.handles && s.handles[id].slot < |s.slots| && s.slots[s.handles[id].slot].server == server
  }

  /** A granted lock of another socket that overlaps with the request. */
  ghost predicate Opposes(s: System, b: nat, r: Request) {
    Holds(s, b) && b in s.requests && s.requests[b].socket != r.socket && Overlap(s.requests[b], r)
  }

  ghost predicate SomeoneWaits(s: System, socket: Socket) {
    exists b :: Waits(s, b) && b in s.requests && s.requests[b].socket == socket
  }

  // ---------- locks and requests ----------

  lemma ClashIsOverlap(slots: Slots, g: Handle, h: Handle, a: Request, b: Request)
    requires Names(slots, g, a) && Names(slots, h, b)
    ensures Clash(LockAt(slots, g), LockAt(slots, h)) <==> Overlap(a, b)
  {
    AncestryMeans(a.path, b.path);
    AncestryMeans(b.path, a.path);
  }

  lemma SocketsAreSlots(s: System, a: nat, b: nat)
    requires Shape(s.slots) && HandlesValid(s) && a in s.handles && b in s.handles
    ensures s.handles[a].slot == s.handles[b].slot <==> s.requests[a].socket == s.requests[b].socket
  {
    assert Names(s.slots, s.handles[a], s.requests[a]) && Names(s.slots, s.handles[b], s.requests[b]);
  }

  lemma BlockingIsOpposing(s: System, b: nat, id: nat)
    requires Shape(s.slots) && HandlesValid(s) && id in s.handles && b in s.handles
    ensures InRange(s.slots, s.handles[id])
    ensures Blocks(s.slots, s.handles[b], s.handles[id].slot, LockAt(s.slots, s.handles[id]))
       <==> Opposes(s, b, s.requests[id])
  {
    assert Names(s.slots, s.handles[b], s.requests[b]) && Names(s.slots, s.handles[id], s.requests[id]);
    SocketsAreSlots(s, b, id);
    ClashIsOverlap(s.slots, s.handles[b], s.handles[id], s.requests[b], s.requests[id]);
  }

  /** What is in a lock's way belongs to someone. */
  lemma BlockerIsNamed(s: System, g: Handle, i: nat, l: LockInfo) returns (b: nat)
    requires HandlesValid(s) && Blocks(s.slots, g, i, l)
    ensures b in s.handles && s.handles[b] == g
  {
    assert g in s.handles.Values;
    b :| b in s.handles && s.handles[b] == g;
  }

  lemma BlockedMeans(s: System, id: nat)
    requires Shape(s.slots) && HandlesValid(s) && id in s.handles
    ensures InRange(s.slots, s.handles[id])
    ensures Blocked(s.slots, s.handles[id].slot, LockAt(s.slots, s.handles[id]))
       <==> exists b :: Opposes(s, b, s.requests[id])
  {
    assert Names(s.slots, s.handles[id], s.requests[id]);
    var i, l := s.handles[id].slot, LockAt(s.slots, s.handles[id]);
    if g :| Blocks(s.slots, g, i, l) {
      var b := BlockerIsNamed(s, g, i, l);
      BlockingIsOpposing(s, b, id);
    }
    if b :| Opposes(s, b, s.requests[id]) {
      BlockingIsOpposing(s, b, id);
    }
  }

  lemma BlockedOnServerMeans(s: System, id: nat, server: Server)
    requires Shape(s.slots) && HandlesValid(s) && id in s.handles && On(s, id, server)
    ensures InRange(s.slots, s.handles[id])
    ensures BlockedOnServer(s.slots, s.handles[id].slot, LockAt(s.slots, s.handles[id]))
       <==> exists b :: Opposes(s, b, s.requests[id]) && On(s, b, server)
  {
    assert Names(s.slots, s.handles[id], s.requests[id]);
    var i, l := s.handles[id].slot, LockAt(s.slots, s.handles[id]);
    if g :| Blocks(s.slots, g, i, l) && s.slots[g.slot].server == s.slots[i].server {
      var b := BlockerIsNamed(s, g, i, l);
      BlockingIsOpposing(s, b, id);
      assert Opposes(s, b, s.requests[id]) && On(s, b, server);
    }
    if b :| Opposes(s, b, s.requests[id]) && On(s, b, server) {
      BlockingIsOpposing(s, b, id);
      assert Blocks(s.slots, s.handles[b], i, l);
    }
  }

  // ---------- main results ----------

  /** Over every interleaving: granted locks of two sockets of one server never overlap. */
  lemma GrantedNeverOverlap(actions: seq<Action>, t: System, a: nat, b: nat, server: Server)
    requires Run(START, actions, t)
    requires Holds(t, a) && Holds(t, b) && On(t, a, server) && On(t, b, server)
    ensures a in t.requests && b in t.requests
    ensures t.requests[a].socket != t.requests[b].socket ==> !Overlap(t.requests[a], t.requests[b])
  {
    RunKeeps(START, actions, t);
    SocketsAreSlots(t, a, b);
    assert Names(t.slots, t.handles[a], t.requests[a]) && Names(t.slots, t.handles[b], t.requests[b]);
    ClashIsOverlap(t.slots, t.handles[a], t.handles[b], t.requests[a], t.requests[b]);
  }

  /** A new lock waits exactly if a granted one on its server overlaps with it. The server is that of
      the socket's other locks, if it has any, and else the one that was given. */
  lemma NewLockWaits(s: System, id: nat, r: Request, given: Server) returns (server: Server)
    requires Inv(s) && id !in s.handles
    ensures var n := Next(s, Acquire(id, r, given));
            && On(n, id, server) && n.requests[id] == r && (Waits(n, id) || Holds(n, id))
            && (Waits(n, id) <==> exists b :: Opposes(n, b, r) && On(n, b, server))
    ensures (forall b :: b in s.requests ==> s.requests[b].socket != r.socket) ==> server == given
    ensures forall b :: b in s.requests && s.requests[b].socket == r.socket ==> On(s, b, server)
  {
    var n := Next(s, Acquire(id, r, given));
    AcquireKeeps(s, id, r, given);
    LockedGrows(s.slots, r.socket, given, r.reason, r.path, r.inclusive);
    assert Names(n.slots, n.handles[id], r);
    server := SlotServer(s, r, given);
    BlockedOnServerMeans(n, id, server);
  }

  lemma SlotServer(s: System, r: Request, given: Server) returns (server: Server)
    requires Inv(s)
    ensures var t := Locked(s.slots, r.socket, given, r.reason, r.path, r.inclusive);
            t.1.slot < |t.0| && t.0[t.1.slot].server == server
    ensures (forall b :: b in s.requests ==> s.requests[b].socket != r.socket) ==> server == given
    ensures forall b :: b in s.requests && s.requests[b].socket == r.socket ==> On(s, b, server)
  {
    var i := SlotOf(s.slots, r.socket);
    server := if i < |s.slots| then s.slots[i].server else given;
    forall b | b in s.requests && s.requests[b].socket == r.socket ensures On(s, b, server) {
      assert Names(s.slots, s.handles[b], s.requests[b]);
    }
    if i < |s.slots| {
      var b := SlotHasOwner(s, r.socket);
    }
  }

  lemma SlotHasOwner(s: System, socket: Socket) returns (b: nat)
    requires Shape(s.slots) && HandlesValid(s) && SlotOf(s.slots, socket) < |s.slots|
    ensures b in s.requests && s.requests[b].socket == socket
  {
    var i := SlotOf(s.slots, socket);
    var h := Handle(i, |s.slots[i].locks| - 1);
    assert s.slots[i].socket == Some(socket) && InRange(s.slots, h) && !LockAt(s.slots, h).released;
    b :| b in s.handles && s.handles[b] == h;
    assert Names(s.slots, h, s.requests[b]);
  }

  /** A wake-up leaves a lock waiting exactly if a granted one on any server overlaps with it; nothing
      else about anyone's locks changes. */
  lemma WokenLockWaits(s: System, socket: Socket, id: nat)
    requires Inv(s) && s.events[socket] > 0 && id in s.handles
    ensures var n := Next(s, Deliver(socket));
            && n.requests == s.requests && n.handles == s.handles
            && (if s.requests[id].socket != socket then (Waits(n, id) <==> Waits(s, id))
                else Waits(n, id) <==> Waits(s, id) && exists b :: Opposes(n, b, s.requests[id]))
            && (Waits(n, id) || Holds(n, id))
  {
    var n := Next(s, Deliver(socket));
    DeliverKeeps(s, socket);
    ObtainedGrants(s.slots, socket);
    var h := s.handles[id];
    assert Names(s.slots, h, s.requests[id]) && Names(n.slots, h, s.requests[id]);
    if s.requests[id].socket == socket {
      DeliveryGrantsExactly(s, socket, h);
      assert LockAt(n.slots, h) == LockAt(s.slots, h) || !LockAt(n.slots, h).waiting;
      BlockedMeans(n, id);
      if LockAt(s.slots, h).waiting && !LockAt(n.slots, h).waiting {
        assert !Blocked(n.slots, h.slot, LockAt(s.slots, h));
        if b :| Opposes(n, b, s.requests[id]) {
          BlockingIsOpposing(n, b, id);
          assert Blocks(n.slots, n.handles[b], h.slot, LockAt(s.slots, h));
        }
      }
    }
  }

  lemma {:induction false} WokenOnce(slots: Slots, socket: Socket)
    requires forall i, k :: 0 <= i < k < |slots| ==> slots[i].socket == None || slots[i].socket != slots[k].socket
    ensures Woken(slots)[socket] ==
              if exists i :: 0 <= i < |slots| && slots[i].socket == Some(socket) && HasWaiting(slots[i]) then 1 else 0
    decreases |slots|
  {
    if slots != [] {
      var front, last := slots[..|slots| - 1], slots[|slots| - 1];
      WokenOnce(front, socket);
      if i :| 0 <= i < |front| && front[i].socket == Some(socket) && HasWaiting(front[i]) {
        assert slots[i] == front[i];
      } else if last.socket == Some(socket) && HasWaiting(last) {
        assert slots[|slots| - 1] == last;
      }
    }
  }

  /** Giving up a granted lock sends one event to each socket that has a lock waiting, and none to
      others; giving up a lock that waits sends none. Nobody else starts or stops waiting. */
  lemma ReleaseWakes(s: System, id: nat, socket: Socket)
    requires Inv(s) && id in s.handles
    ensures var n := Next(s, Release(id));
            && (Waits(s, id) ==> n.events == s.events)
            && (Holds(s, id) ==> n.events[socket] == s.events[socket] + if SomeoneWaits(n, socket) then 1 else 0)
            && n.handles == s.handles - {id} && n.requests == s.requests - {id}
            && forall b :: b in n.handles ==> (Waits(n, b) <==> Waits(s, b)) && (Holds(n, b) <==> Holds(s, b))
  {
    var n := Next(s, Release(id));
    var h := s.handles[id];
    assert Names(s.slots, h, s.requests[id]);
    ReleaseKeeps(s, id);
    WokenOnce(n.slots, socket);
    WaitingIsOwned(n, socket);
    ReleaseLeavesOthers(s, id);
  }

  lemma ReleaseLeavesOthers(s: System, id: nat)
    requires Inv(s) && id in s.handles
    ensures var n := Next(s, Release(id));
            forall b :: b in n.handles ==> (Waits(n, b) <==> Waits(s, b)) && (Holds(n, b) <==> Holds(s, b))
  {
    var n := Next(s, Release(id));
    var h := s.handles[id];
    assert Names(s.slots, h, s.requests[id]);
    UnlockedShrinks(s.slots, h);
    ShrinkKeepsHandles(s, n.slots, id);
    forall b | b in n.handles ensures (Waits(n, b) <==> Waits(s, b)) && (Holds(n, b) <==> Holds(s, b)) {
      ShrinkLeaves(s, n, h, b);
    }
  }

  lemma ShrinkLeaves(s: System, n: System, h: Handle, b: nat)
    requires HandlesValid(s) && HandlesValid(n) && Shrunk(s.slots, n.slots, h)
    requires b in s.handles && b in n.handles && n.handles[b] == s.handles[b] != h
    ensures (Waits(n, b) <==> Waits(s, b)) && (Holds(n, b) <==> Holds(s, b))
  {
    assert Names(s.slots, s.handles[b], s.requests[b]) && Names(n.slots, n.handles[b], n.requests[b]);
  }

  lemma WaitingIsOwned(n: System, socket: Socket)
    requires HandlesValid(n) && Shape(n.slots)
    ensures (exists i :: 0 <= i < |n.slots| && n.slots[i].socket == Some(socket) && HasWaiting(n.slots[i]))
       <==> SomeoneWaits(n, socket)
  {
    if i :| 0 <= i < |n.slots| && n.slots[i].socket == Some(socket) && HasWaiting(n.slots[i]) {
      var j :| 0 <= j < |n.slots[i].locks| && n.slots[i].locks[j].waiting;
      var h := Handle(i, j);
      assert InRange(n.slots, h) && LockAt(n.slots, h).waiting;
      var b :| b in n.handles && n.handles[b] == h;
      assert Names(n.slots, h, n.requests[b]);
      assert Waits(n, b);
    }
    if b :| Waits(n, b) && b in n.requests && n.requests[b].socket == socket {
      var h := n.handles[b];
      assert Names(n.slots, h, n.requests[b]);
      assert n.slots[h.slot].locks[h.lock].waiting;
    }
  }
}
