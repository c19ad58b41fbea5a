/** A recursive delete that runs to its end removes every directory it emptied. */
module RecursiveDelete {
  import opened Text
  import opened ServerPaths
  import opened RecursiveOperation
  import opened RecursiveTermination
  import opened RecursiveOrder

  predicate Removes(log: seq<Event>, m: int, d: NewDir) {
    0 <= m < |log| && log[m] == RemovalOf(d)
  }

  predicate Waits(q: seq<NewDir>, k: int, d: NewDir) {
    0 <= k < |q| && IsMarker(q[k]) && RemovalOf(q[k]) == RemovalOf(d)
  }

  /** A listing was used of a directory that is to be removed afterwards. */
  predicate IsOwed(e: Event) { e.Processed? && e.dir.doVisit && e.dir.recurse && e.dir.subdir != "" }

  /** The removal owed for event i was asked for later, or waits in the queue. */
  ghost predicate SettledAt(q: seq<NewDir>, log: seq<Event>, i: nat)
    requires i < |log| && IsOwed(log[i])
  {
    (exists m :: i < m && Removes(log, m, log[i].dir)) || (exists k :: Waits(q, k, log[i].dir))
  }

  ghost predicate Settled(q: seq<NewDir>, log: seq<Event>) {
    forall i :: 0 <= i < |log| && IsOwed(log[i]) ==> SettledAt(q, log, i)
  }

  /** Each listing that was used answers the request right before it. */
  predicate Asked(log: seq<Event>) {
    forall i :: 0 <= i < |log| && log[i].Processed? ==> i > 0 && log[i - 1] == ListingOf(log[i].dir)
  }

  ghost predicate Due(s: State) {
    s.mode == Delete && Asked(s.log) && Settled(Queue(s.roots), s.log)
  }

  predicate EndsWithListing(s: State) {
    && s.roots != [] && s.roots[0].dirs != []
    && s.log != [] && s.log[|s.log| - 1] == ListingOf(s.roots[0].dirs[0])
  }

  predicate Completed(s: State) { s.log != [] && s.log[|s.log| - 1].Finished? }

  ghost predicate SettledState(s: State) {
    if s.mode == Idle then Asked(s.log) && (Completed(s) ==> Settled([], s.log))
    else Due(s) && Ready(s) && EndsWithListing(s)
  }

  lemma SettledGrows(q: seq<NewDir>, r: seq<NewDir>, log: seq<Event>, events: seq<Event>)
    requires Settled(q, log) && Quiet(events)
    requires forall k, d :: Waits(q, k, d) ==> exists n :: Waits(r, n, d)
    ensures Settled(r, log + events)
  {
    var l := log + events;
    assert forall i :: |log| <= i < |l| ==> l[i] == events[i - |log|];
    forall i | 0 <= i < |l| && IsOwed(l[i]) ensures SettledAt(r, l, i) {
      assert l[i] == log[i] && SettledAt(q, log, i);
      if m :| i < m && Removes(log, m, log[i].dir) {
        assert Removes(l, m, l[i].dir);
      } else {
        var k :| Waits(q, k, log[i].dir);
        var n :| Waits(r, n, log[i].dir);
      }
    }
  }

  lemma AskedGrows(log: seq<Event>, events: seq<Event>)
    requires Asked(log) && Quiet(events)
    ensures Asked(log + events)
  {
    var l := log + events;
    assert forall i :: |log| <= i < |l| ==> l[i] == events[i - |log|];
  }

  lemma WaitsBehind(top: seq<NewDir>, q: seq<NewDir>)
    ensures forall k, d :: Waits(q, k, d) ==> exists n :: Waits(top + q, n, d)
  {
    forall k, d | Waits(q, k, d) ensures exists n :: Waits(top + q, n, d) {
      assert Waits(top + q, k + |top|, d);
    }
  }

  lemma WaitsWithoutFront(q: seq<NewDir>, top: seq<NewDir>)
    requires q != [] && !IsMarker(q[0])
    ensures forall k, d :: Waits(q, k, d) ==> exists n :: Waits(top + q[1..], n, d)
  {
    forall k, d | Waits(q, k, d) ensures exists n :: Waits(top + q[1..], n, d) {
      assert k != 0 && Waits(top + q[1..], k - 1 + |top|, d);
    }
  }

  lemma RemovalSettles(q: seq<NewDir>, log: seq<Event>)
    requires q != [] && Settled(q, log)
    ensures Settled(q[1..], log + [RemovalOf(q[0])])
  {
    var l := log + [RemovalOf(q[0])];
    forall i | 0 <= i < |l| && IsOwed(l[i]) ensures SettledAt(q[1..], l, i) {
      assert l[i] == log[i] && SettledAt(q, log, i);
      if m :| i < m && Removes(log, m, log[i].dir) {
        assert Removes(l, m, l[i].dir);
      } else {
        var k :| Waits(q, k, log[i].dir);
        if k == 0 { assert Removes(l, |log|, l[i].dir); } else { assert Waits(q[1..], k - 1, l[i].dir); }
      }
    }
  }

  lemma {:induction false} DrainSettled(s: State)
    requires Due(s)
    ensures SettledState(Drain(s))
    decreases |s.roots|, if s.roots == [] then 0 else |s.roots[0].dirs|
  {
    DrainAtMost(s, {});
    if s.roots == [] {
      AskedGrows(s.log, [Finished]);
      SettledGrows([], [], s.log, [Finished]);
    } else {
      var dirs := s.roots[0].dirs;
      if dirs == [] {
        assert [] + Queue(s.roots[1..]) == Queue(s.roots[1..]);
        DrainSettled(s.(roots := s.roots[1..]));
      } else if IsMarker(dirs[0]) {
        MarkerDue(s);
        DrainSettled(Emit(WithDirs(s, dirs[1..]), [RemovalOf(dirs[0])]));
      } else {
        AskedGrows(s.log, [ListingOf(dirs[0])]);
        SettledGrows(Queue(s.roots), Queue(s.roots), s.log, [ListingOf(dirs[0])]);
      }
    }
  }

  lemma MarkerDue(s: State)
    requires Due(s) && s.roots != [] && s.roots[0].dirs != []
    ensures var dirs := s.roots[0].dirs; Due(Emit(WithDirs(s, dirs[1..]), [RemovalOf(dirs[0])]))
  {
    var dirs := s.roots[0].dirs;
    QueueTop(s, []);
    assert [] + dirs[1..] == dirs[1..] && [] + Queue(s.roots)[1..] == Queue(s.roots)[1..];
    RemovalSettles(Queue(s.roots), s.log);
    AskedGrows(s.log, [RemovalOf(dirs[0])]);
  }

  /** The front entry is replaced by others and events are emitted, in the middle of a reply. */
  lemma FrontDue(s: State, top: seq<NewDir>, events: seq<Event>)
    requires s.mode != Idle && SettledState(s) && Quiet(events)
    ensures Due(Emit(WithDirs(s, top + s.roots[0].dirs[1..]), events))
  {
    AskedGrows(s.log, events);
    QueueTop(s, top);
    WaitsWithoutFront(Queue(s.roots), top);
    SettledGrows(Queue(s.roots), top + Queue(s.roots)[1..], s.log, events);
  }

  lemma FrontSettled(s: State, top: seq<NewDir>, events: seq<Event>)
    requires s.mode != Idle && SettledState(s) && Quiet(events)
    ensures SettledState(NextOperation(Emit(WithDirs(s, top + s.roots[0].dirs[1..]), events)))
  {
    FrontDue(s, top, events);
    DrainSettled(Emit(WithDirs(s, top + s.roots[0].dirs[1..]), events));
  }

  lemma ProcessDue(s: State, dir: NewDir, listing: Listing)
    requires s.roots != [] && Due(s)
    ensures Due(ProcessEntries(s, dir, listing))
  {
    var r := Children(s.mode, dir, listing, 0, s.nextId);
    var files := FilesToDelete(dir, listing, 0);
    EntryEventsQuiet(s, dir, listing, 0);
    var a := AllEntryEvents(s, dir, listing, 0);
    var b := if s.mode == Delete && files != [] then [DeleteFiles(dir.Trail(), listing.path, files)] else [];
    assert s.log + (a + b) == s.log + a + b;
    AskedGrows(s.log, a + b);
    QueueFront(s, r.0 + s.roots[0].dirs);
    assert r.0 + s.roots[0].dirs + Queue(s.roots[1..]) == r.0 + Queue(s.roots);
    WaitsBehind(r.0, Queue(s.roots));
    SettledGrows(Queue(s.roots), r.0 + Queue(s.roots), s.log, a + b);
  }

  lemma MarkDue(t: State, dir: NewDir, e: Event, root: Root)
    requires t.roots != [] && Due(t) && e.Processed? && e.dir == dir
    requires root.dirs == t.roots[0].dirs && t.log != [] && t.log[|t.log| - 1] == ListingOf(dir)
    requires Owed(Delete, dir) ==> root.dirs != [] && root.dirs[0] == dir.(doVisit := false)
    ensures Due(Emit(t.(roots := t.roots[0 := root]), [e]))
  {
    var u := Emit(t.(roots := t.roots[0 := root]), [e]);
    assert u.roots[1..] == t.roots[1..] && Queue(u.roots) == Queue(t.roots);
    assert forall i :: 0 <= i < |t.log| ==> u.log[i] == t.log[i];
    var q := Queue(t.roots);
    forall i | 0 <= i < |u.log| && IsOwed(u.log[i]) ensures SettledAt(q, u.log, i) {
      if i < |t.log| {
        assert u.log[i] == t.log[i] && SettledAt(q, t.log, i);
        if m :| i < m && Removes(t.log, m, t.log[i].dir) { assert Removes(u.log, m, u.log[i].dir); }
      } else {
        assert Waits(q, 0, u.log[i].dir);
      }
    }
  }

  lemma VisitDue(s: State, dir: NewDir, listing: Listing)
    requires s.mode != Idle && SettledState(s) && ListingOf(dir) == ListingOf(s.roots[0].dirs[0])
    ensures Due(Visit(s, dir, s.roots[0].dirs[1..], listing))
  {
    var rest := s.roots[0].dirs[1..];
    var top := PushMarker(s.mode, dir, []);
    assert PushMarker(s.mode, dir, rest) == top + rest;
    var t := WithDirs(s, top + rest);
    FrontDue(s, top, []);
    EmitNothing(t);
    if Uses(s, dir, listing.path) {
      var root := t.roots[0].(visited := t.roots[0].visited + {listing.path});
      var e := Processed(dir.Trail(), t.roots[0], listing, dir);
      MarkDue(t, dir, e, root);
      var u := Emit(t.(roots := t.roots[0 := root]), [e]);
      ProcessDue(u, dir, listing);
    }
  }

  /** The front entry is replaced by others, and the next operation is started. */
  lemma ReplacedSettled(s: State, top: seq<NewDir>, dirs: seq<NewDir>)
    requires s.mode != Idle && SettledState(s) && dirs == top + s.roots[0].dirs[1..]
    ensures SettledState(NextOperation(WithDirs(s, dirs)))
  {
    FrontSettled(s, top, []);
    EmitNothing(WithDirs(s, dirs));
  }

  lemma FailureSettled(s: State, error: bv32)
    requires SettledState(s) && s.mode != Idle
    ensures SettledState(OnFailure(s, error))
  {
    var front, rest := s.roots[0].dirs[0], s.roots[0].dirs[1..];
    var f := s.(failed := true);
    if !Canceled(error) {
      if !Critical(error) && !front.secondTry {
        ReplacedSettled(f, [front.(secondTry := true)], [front.(secondTry := true)] + rest);
      } else {
        ReplacedSettled(f, PushMarker(s.mode, front, []), PushMarker(s.mode, front, rest));
        EmitNothing(WithDirs(f, PushMarker(s.mode, front, rest)));
      }
    }
  }

  lemma NotDirSettled(s: State, connected: bool)
    requires SettledState(s) && s.mode != Idle
    ensures SettledState(OnNotDir(s, connected))
  {
    var front, rest := s.roots[0].dirs[0], s.roots[0].dirs[1..];
    assert [] + rest == rest;
    FrontSettled(s, [], []);
    EmitNothing(WithDirs(s, rest));
    FrontSettled(s, [], [DeleteFiles(front.Trail(), front.parent, [front.subdir])]);
  }

  lemma StepSettled(s: State, r: Reply)
    requires SettledState(s)
    ensures SettledState(Step(s, r))
  {
    if s.mode != Idle {
      match r {
        case Listed(None) =>
        case Listed(Some(listing)) =>
          if !listing.failed { ListingSettled(s, listing); }
        case ListingFailed(error) => FailureSettled(s, error);
        case LinkIsNotDir(connected) => NotDirSettled(s, connected);
      }
    }
  }

  lemma ListingSettled(s: State, listing: Listing)
    requires SettledState(s) && s.mode != Idle && !listing.failed
    ensures SettledState(OnListing(s, Some(listing)))
  {
    var front, rest := s.roots[0].dirs[0], s.roots[0].dirs[1..];
    var (ok, dir) := BelowRoot(s.roots[0], front, listing.path);
    if !ok {
      assert [] + rest == rest;
      FrontSettled(s, [], []);
      EmitNothing(WithDirs(s, rest));
    } else {
      VisitDue(s, dir, listing);
      VisitShape(s, dir, rest, listing);
      DrainSettled(Visit(s, dir, rest, listing));
    }
  }

  lemma {:induction false} StepsSettled(s: State, replies: seq<Reply>)
    requires SettledState(s)
    ensures SettledState(Steps(s, replies))
    decreases |replies|
  {
    if replies != [] {
      StepSettled(s, replies[0]);
      StepsSettled(Step(s, replies[0]), replies[1..]);
    }
  }

  lemma BegunSettled(roots: seq<Root>, nextId: nat, replies: seq<Reply>)
    ensures SettledState(Steps(Begin(Delete, roots, false, false, nextId), replies))
  {
    var s := State(Delete, roots, false, false, false, [], nextId);
    DrainSettled(s);
    StepsSettled(Drain(s), replies);
  }

  /** When a delete operation has run to its end, every directory with a name that it recursed into
      was asked to be listed right before, and has been asked to be removed after that, under the
      same parent and name. */
  lemma CompletedDeleteRemovesAll(roots: seq<Root>, nextId: nat, replies: seq<Reply>, i: nat)
    requires var t := Steps(Begin(Delete, roots, false, false, nextId), replies);
             Completed(t) && i < |t.log| && IsOwed(t.log[i])
    ensures var log := Steps(Begin(Delete, roots, false, false, nextId), replies).log;
            var d := log[i].dir;
            && i > 0 && log[i - 1] == ListDir(d.Trail(), d.parent, d.subdir, d.link != 0)
            && exists m :: i < m < |log| && log[m] == RemoveDir(d.Trail(), d.parent, d.subdir)
  {
    BegunSettled(roots, nextId, replies);
    var t := Steps(Begin(Delete, roots, false, false, nextId), replies);
    assert t.mode == Idle && Settled([], t.log) && SettledAt([], t.log, i);
    var m :| i < m && Removes(t.log, m, t.log[i].dir);
  }
}
