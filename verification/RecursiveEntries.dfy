/** Each entry of a recursive operation is handled once, so that what is done for one directory is
    never taken for what is owed to another. */
module RecursiveEntries {
  import opened Text
  import opened ServerPaths
  import opened RecursiveOperation
  import opened RecursiveTermination
  import opened RecursiveOrder

  ghost predicate Handled(log: seq<Event>, i: int, x: int) {
    0 <= i < |log| && log[i].Processed? && log[i].dir.id == x
  }

  /** An entry waits for its listing. */
  predicate Open(q: seq<NewDir>, k: int, x: int) {
    0 <= k < |q| && q[k].doVisit && q[k].id == x
  }

  /** No entry is handled twice, or is still open once it was. */
  ghost predicate HandledOnce(q: seq<NewDir>, log: seq<Event>, n: nat) {
    && (forall i, x :: Handled(log, i, x) ==> x < n && log[i].trail == log[i].dir.Trail())
    && (forall i, x, k :: Handled(log, i, x) ==> !Open(q, k, x))
    && (forall i, m, x :: Handled(log, i, x) && Handled(log, m, x) ==> i == m)
  }

  predicate MarkersOnly(mode: Mode, q: seq<NewDir>) {
    forall k :: 0 <= k < |q| ==> q[k].doVisit || (mode == Delete && IsMarker(q[k]))
  }

  ghost predicate OwnEntries(s: State) {
    && Stacked(s) && MarkersOnly(s.mode, Queue(s.roots)) && HandledOnce(Queue(s.roots), s.log, s.nextId)
    && Ready(s)
  }

  /** What is open in r was open in q, or is new. */
  ghost predicate OpensNothingOld(q: seq<NewDir>, r: seq<NewDir>, n: nat) {
    forall k, x :: Open(r, k, x) && x < n ==> exists j :: Open(q, j, x)
  }

  lemma HandledKept(q: seq<NewDir>, r: seq<NewDir>, log: seq<Event>, events: seq<Event>, n: nat, m: nat)
    requires HandledOnce(q, log, n) && Quiet(events) && n <= m && OpensNothingOld(q, r, n)
    ensures HandledOnce(r, log + events, m)
  {
    var l := log + events;
    assert forall i :: |log| <= i < |l| ==> l[i] == events[i - |log|];
    assert forall i, x :: Handled(l, i, x) <==> Handled(log, i, x);
  }

  lemma {:induction false} DrainOwn(s: State)
    requires s.mode != Idle && MarkersOnly(s.mode, Queue(s.roots)) && HandledOnce(Queue(s.roots), s.log, s.nextId)
    ensures var t := Drain(s);
            && MarkersOnly(t.mode, Queue(t.roots)) && HandledOnce(Queue(t.roots), t.log, t.nextId)
    decreases |s.roots|, if s.roots == [] then 0 else |s.roots[0].dirs|
  {
    if s.roots == [] {
      HandledKept([], [], s.log, [Finished], s.nextId, s.nextId);
    } else {
      var dirs := s.roots[0].dirs;
      if dirs == [] {
        assert [] + Queue(s.roots[1..]) == Queue(s.roots[1..]);
        DrainOwn(s.(roots := s.roots[1..]));
      } else if s.mode == Delete && IsMarker(dirs[0]) {
        QueueTop(s, []);
        assert [] + dirs[1..] == dirs[1..] && [] + Queue(s.roots)[1..] == Queue(s.roots)[1..];
        PoppedOpens(Queue(s.roots), s.nextId);
        HandledKept(Queue(s.roots), Queue(s.roots)[1..], s.log, [RemovalOf(dirs[0])], s.nextId, s.nextId);
        DrainOwn(Emit(WithDirs(s, dirs[1..]), [RemovalOf(dirs[0])]));
      } else {
        HandledKept(Queue(s.roots), Queue(s.roots), s.log, [ListingOf(dirs[0])], s.nextId, s.nextId);
      }
    }
  }

  lemma PoppedOpens(q: seq<NewDir>, n: nat)
    requires q != []
    ensures OpensNothingOld(q, q[1..], n)
  {
    forall k, x | Open(q[1..], k, x) ensures exists j :: Open(q, j, x) {
      assert Open(q, k + 1, x);
    }
  }

  /** The front entry replaced by itself, by its marker, or by nothing. */
  lemma FrontOwn(s: State, top: seq<NewDir>, events: seq<Event>)
    requires s.mode != Idle && OwnEntries(s) && Quiet(events)
    requires |top| <= 1 && MarkersOnly(s.mode, top)
    requires forall d :: d in top && d.doVisit ==> d.id == s.roots[0].dirs[0].id && s.roots[0].dirs[0].doVisit
    ensures var t := Emit(WithDirs(s, top + s.roots[0].dirs[1..]), events);
            MarkersOnly(t.mode, Queue(t.roots)) && HandledOnce(Queue(t.roots), t.log, t.nextId)
  {
    QueueTop(s, top);
    var q, r := Queue(s.roots), top + Queue(s.roots)[1..];
    forall k, x | Open(r, k, x) ensures exists j :: Open(q, j, x) {
      assert Open(q, if k < |top| then 0 else k - |top| + 1, x);
    }
    HandledKept(q, r, s.log, events, s.nextId, s.nextId);
  }

  lemma FrontNext(s: State, top: seq<NewDir>, events: seq<Event>)
    requires s.mode != Idle && OwnEntries(s) && Quiet(events)
    requires |top| <= 1 && MarkersOnly(s.mode, top)
    requires forall d :: d in top && d.doVisit ==> d.id == s.roots[0].dirs[0].id && s.roots[0].dirs[0].doVisit
    ensures var t := NextOperation(Emit(WithDirs(s, top + s.roots[0].dirs[1..]), events));
            MarkersOnly(t.mode, Queue(t.roots)) && HandledOnce(Queue(t.roots), t.log, t.nextId) && Ready(t)
  {
    FrontOwn(s, top, events);
    DrainOwn(Emit(WithDirs(s, top + s.roots[0].dirs[1..]), events));
    DrainAtMost(Emit(WithDirs(s, top + s.roots[0].dirs[1..]), events), {});
  }

  /** The listing of the front entry is used, now that the entry is no longer open. */
  lemma MarkOwn(q: seq<NewDir>, log: seq<Event>, n: nat, e: Event)
    requires HandledOnce(q, log, n) && e.Processed? && e.trail == e.dir.Trail() && e.dir.id < n
    requires forall k :: !Open(q, k, e.dir.id)
    requires forall i :: !Handled(log, i, e.dir.id)
    ensures HandledOnce(q, log + [e], n)
  {
    var l := log + [e];
    forall i, x | Handled(l, i, x) ensures if i == |log| then x == e.dir.id else Handled(log, i, x) {
      assert i < |log| ==> l[i] == log[i];
    }
  }

  lemma {:induction false} ChildrenOwn(mode: Mode, dir: NewDir, listing: Listing, k: nat, id: nat)
    requires k <= |listing.entries|
    ensures var r := Children(mode, dir, listing, k, id);
            id <= r.1 && forall d :: d in r.0 ==> d.doVisit && d.id >= id
    decreases |listing.entries| - k
  {
    if k < |listing.entries| { ChildrenOwn(mode, dir, listing, k + 1, id); }
  }

  lemma ProcessOwn(s: State, dir: NewDir, listing: Listing)
    requires s.roots != [] && MarkersOnly(s.mode, Queue(s.roots)) && HandledOnce(Queue(s.roots), s.log, s.nextId)
    ensures var t := ProcessEntries(s, dir, listing);
            MarkersOnly(t.mode, Queue(t.roots)) && HandledOnce(Queue(t.roots), t.log, t.nextId)
  {
    var r := Children(s.mode, dir, listing, 0, s.nextId);
    var files := FilesToDelete(dir, listing, 0);
    EntryEventsQuiet(s, dir, listing, 0);
    var a := AllEntryEvents(s, dir, listing, 0);
    var b := if s.mode == Delete && files != [] then [DeleteFiles(dir.Trail(), listing.path, files)] else [];
    assert s.log + (a + b) == s.log + a + b;
    ChildrenOwn(s.mode, dir, listing, 0, s.nextId);
    QueueFront(s, r.0 + s.roots[0].dirs);
    assert r.0 + s.roots[0].dirs + Queue(s.roots[1..]) == r.0 + Queue(s.roots);
    var q, p := Queue(s.roots), r.0 + Queue(s.roots);
    assert forall k :: 0 <= k < |r.0| ==> p[k] == r.0[k] && r.0[k] in r.0;
    forall k, x | Open(p, k, x) && x < s.nextId ensures exists j :: Open(q, j, x) {
      assert Open(q, k - |r.0|, x);
    }
    forall k | 0 <= k < |p| ensures p[k].doVisit || (s.mode == Delete && IsMarker(p[k])) {
      assert if k < |r.0| then p[k] in r.0 else p[k] == q[k - |r.0|];
    }
    HandledKept(q, p, s.log, a + b, s.nextId, r.1);
  }

  lemma VisitOwn(s: State, dir: NewDir, listing: Listing)
    requires s.mode != Idle && OwnEntries(s) && dir == s.roots[0].dirs[0].(startDir := dir.startDir)
    ensures var t := Visit(s, dir, s.roots[0].dirs[1..], listing);
            MarkersOnly(t.mode, Queue(t.roots)) && HandledOnce(Queue(t.roots), t.log, t.nextId)
  {
    var rest := s.roots[0].dirs[1..];
    var top := PushMarker(s.mode, dir, []);
    assert PushMarker(s.mode, dir, rest) == top + rest;
    var t := WithDirs(s, top + rest);
    FrontOwn(s, top, []);
    EmitNothing(t);
    if Uses(s, dir, listing.path) {
      var root := t.roots[0].(visited := t.roots[0].visited + {listing.path});
      var e := Processed(dir.Trail(), t.roots[0], listing, dir);
      var v := t.(roots := t.roots[0 := root]);
      assert v.roots[1..] == t.roots[1..] && Queue(v.roots) == Queue(t.roots);
      FrontHandled(s, top);
      MarkOwn(Queue(t.roots), t.log, t.nextId, e);
      var u := Emit(v, [e]);
      if listing.entries == [] && s.mode == Transfer {
        HandledKept(Queue(u.roots), Queue(u.roots), u.log, [EmptyDir(dir.Trail())], u.nextId, u.nextId);
      } else {
        ProcessOwn(u, dir, listing);
      }
    }
  }

  /** The front entry was not handled yet, and nothing behind it, nor its marker, is open under its number. */
  lemma FrontHandled(s: State, top: seq<NewDir>)
    requires s.mode != Idle && OwnEntries(s)
    requires forall d :: d in top ==> !d.doVisit
    ensures var x := s.roots[0].dirs[0].id;
            && x < s.nextId && (forall i :: !Handled(s.log, i, x))
            && forall k :: !Open(Queue(WithDirs(s, top + s.roots[0].dirs[1..]).roots), k, x)
  {
    QueueTop(s, top);
    var q := Queue(s.roots);
    var x := q[0].id;
    assert q[0].Trail()[|q[0].Trail()| - 1] == x;
    assert q[0].doVisit && Open(q, 0, x);
    var r := top + q[1..];
    forall k ensures !Open(r, k, x) {
      if 0 <= k < |top| {
        assert r[k] in top;
      } else if |top| <= k < |r| {
        assert r[k] == q[k - |top| + 1];
        assert r[k].Trail()[|r[k].Trail()| - 1] == r[k].id;
      }
    }
  }

  lemma ListingOwn(s: State, listing: Listing)
    requires s.mode != Idle && OwnEntries(s) && !listing.failed
    ensures OwnEntries(OnListing(s, Some(listing)))
  {
    ListingStacked(s, listing);
    var rest := s.roots[0].dirs[1..];
    var (ok, dir) := BelowRoot(s.roots[0], s.roots[0].dirs[0], listing.path);
    if ok {
      VisitOwn(s, dir, listing);
      DrainOwn(Visit(s, dir, rest, listing));
      DrainAtMost(Visit(s, dir, rest, listing), {});
    } else {
      assert [] + rest == rest;
      FrontNext(s, [], []);
      EmitNothing(WithDirs(s, rest));
    }
  }

  lemma FailureOwn(s: State, error: bv32)
    requires s.mode != Idle && OwnEntries(s)
    ensures OwnEntries(OnFailure(s, error))
  {
    FailureStacked(s, error);
    QueueTop(s, []);
    var front, rest := s.roots[0].dirs[0], s.roots[0].dirs[1..];
    var f := s.(failed := true);
    assert Queue(s.roots)[0].doVisit;
    if !Canceled(error) {
      FrontNext(f, [front.(secondTry := true)], []);
      EmitNothing(WithDirs(f, [front.(secondTry := true)] + rest));
      var top := PushMarker(s.mode, front, []);
      assert PushMarker(s.mode, front, rest) == top + rest;
      FrontNext(f, top, if s.mode == ListOnly then [Unlistable(front.Trail())] else []);
    }
  }

  lemma NotDirOwn(s: State, connected: bool)
    requires s.mode != Idle && OwnEntries(s)
    ensures OwnEntries(OnNotDir(s, connected))
  {
    NotDirStacked(s, connected);
    var front, rest := s.roots[0].dirs[0], s.roots[0].dirs[1..];
    assert [] + rest == rest;
    FrontNext(s, [], []);
    EmitNothing(WithDirs(s, rest));
    FrontNext(s, [], [DeleteFiles(front.Trail(), front.parent, [front.subdir])]);
    FrontNext(s, [], [NoDirLink(front.Trail(), front.parent, front.subdir)]);
  }

  lemma StepOwn(s: State, r: Reply)
    requires OwnEntries(s)
    ensures OwnEntries(Step(s, r))
  {
    StopStacked(s);
    if s.mode != Idle {
      match r {
        case Listed(None) => HandledKept(Queue(s.roots), [], s.log, [], s.nextId, s.nextId); assert s.log + [] == s.log;
        case Listed(Some(listing)) => if !listing.failed { ListingOwn(s, listing); }
        case ListingFailed(error) => FailureOwn(s, error);
        case LinkIsNotDir(connected) => NotDirOwn(s, connected);
      }
    }
  }

  lemma {:induction false} StepsOwn(s: State, replies: seq<Reply>)
    requires OwnEntries(s)
    ensures OwnEntries(Steps(s, replies))
    decreases |replies|
  {
    if replies != [] {
      StepOwn(s, replies[0]);
      StepsOwn(Step(s, replies[0]), replies[1..]);
    }
  }

  lemma BegunOwn(mode: Mode, roots: seq<Root>, chmodFiles: bool, chmodDirs: bool, nextId: nat, replies: seq<Reply>)
    requires mode != Idle && Numbered(roots, nextId) && forall r :: 0 <= r < |roots| ==> FreshRoot(roots[r])
    ensures OwnEntries(Steps(Begin(mode, roots, chmodFiles, chmodDirs, nextId), replies))
  {
    var s := State(mode, roots, false, chmodFiles, chmodDirs, [], nextId);
    QueueFresh(roots);
    BeginStacked(mode, roots, chmodFiles, chmodDirs, nextId);
    DrainOwn(s);
    DrainAtMost(s, {});
    StepsOwn(Begin(mode, roots, chmodFiles, chmodDirs, nextId), replies);
  }

  /** Each entry's listing is used at most once, so no two used listings share a removal. */
  lemma EachEntryOnce(mode: Mode, roots: seq<Root>, chmodFiles: bool, chmodDirs: bool, nextId: nat, replies: seq<Reply>,
                      i: nat, m: nat)
    requires mode != Idle && Numbered(roots, nextId) && forall r :: 0 <= r < |roots| ==> FreshRoot(roots[r])
    requires var log := Steps(Begin(mode, roots, chmodFiles, chmodDirs, nextId), replies).log;
             i < m < |log| && log[i].Processed? && log[m].Processed?
    ensures var log := Steps(Begin(mode, roots, chmodFiles, chmodDirs, nextId), replies).log;
            log[i].trail != log[m].trail && RemovalOf(log[i].dir) != RemovalOf(log[m].dir)
  {
    BegunOwn(mode, roots, chmodFiles, chmodDirs, nextId, replies);
    var log := Steps(Begin(mode, roots, chmodFiles, chmodDirs, nextId), replies).log;
    var a, b := log[i].dir, log[m].dir;
    assert Handled(log, i, a.id) && Handled(log, m, b.id);
    assert a.Trail()[|a.Trail()| - 1] == a.id && b.Trail()[|b.Trail()| - 1] == b.id;
  }
}
