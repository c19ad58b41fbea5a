/** The order in which a recursive operation acts: children before their directory, and each
    directory once. */
module RecursiveOrder {
  import opened Text
  import opened ServerPaths
  import opened RecursiveOperation
  import opened RecursiveTermination

  function TrailOf(e: Event): seq<nat> {
    if e.Finished? then [] else e.trail
  }

  ghost predicate Removed(log: seq<Event>, i: int, x: nat) {
    0 <= i < |log| && log[i].RemoveDir? && log[i].trail != [] && log[i].trail[|log[i].trail| - 1] == x
  }

  /** No removed directory is on the trail. */
  ghost predicate Clean(log: seq<Event>, trail: seq<nat>) {
    forall i, x :: Removed(log, i, x) ==> x !in trail
  }

  ghost predicate Bounded(trail: seq<nat>, n: nat) {
    forall i :: 0 <= i < |trail| ==> trail[i] < n
  }

  /** The queue is a stack in which no entry lies behind one that it led to; what was removed
      is on the trail of nothing queued and of nothing that was asked for later. */
  ghost predicate Stack(q: seq<NewDir>, log: seq<Event>, n: nat) {
    && (forall k :: 0 <= k < |q| ==> Bounded(q[k].Trail(), n) && Clean(log, q[k].Trail()))
    && (forall j, k :: 0 <= j < k < |q| ==> q[j].id !in q[k].Trail())
    && (forall i :: 0 <= i < |log| ==> Bounded(TrailOf(log[i]), n))
    && (forall i, m, x :: Removed(log, i, x) && i < m < |log| ==> x !in TrailOf(log[m]))
  }

  // ---------- single changes of queue and log ----------

  lemma PopKeeps(q: seq<NewDir>, log: seq<Event>, n: nat)
    requires q != [] && Stack(q, log, n)
    ensures Stack(q[1..], log, n)
  {}

  /** The front entry again, changed in other fields. */
  lemma SwapKeeps(q: seq<NewDir>, d: NewDir, log: seq<Event>, n: nat)
    requires q != [] && Stack(q, log, n) && d.Trail() == q[0].Trail()
    ensures Stack([d] + q[1..], log, n)
  {
    var r := [d] + q[1..];
    assert d.id == d.Trail()[|d.Trail()| - 1] == q[0].id;
    assert forall k :: 0 <= k < |r| ==> r[k].Trail() == q[k].Trail() && r[k].id == q[k].id;
  }

  ghost predicate OfTrail(events: seq<Event>, trail: seq<nat>) {
    forall i :: 0 <= i < |events| ==> !events[i].RemoveDir? && (TrailOf(events[i]) == trail || events[i].Finished?)
  }

  lemma EmitKeeps(q: seq<NewDir>, log: seq<Event>, n: nat, events: seq<Event>, trail: seq<nat>)
    requires Stack(q, log, n) && OfTrail(events, trail) && Clean(log, trail) && Bounded(trail, n)
    ensures Stack(q, log + events, n)
    ensures forall t :: Clean(log, t) ==> Clean(log + events, t)
  {
    var l := log + events;
    assert forall i :: |log| <= i < |l| ==> l[i] == events[i - |log|];
    assert forall i, x :: Removed(l, i, x) ==> Removed(log, i, x);
  }

  lemma RemoveKeeps(q: seq<NewDir>, log: seq<Event>, n: nat)
    requires q != [] && Stack(q, log, n)
    ensures Stack(q[1..], log + [RemovalOf(q[0])], n)
  {
    var l := log + [RemovalOf(q[0])];
    var t := q[0].Trail();
    forall i, x | Removed(l, i, x) ensures if i == |log| then x == q[0].id else Removed(log, i, x) {
      assert i < |log| ==> l[i] == log[i];
    }
    forall k | 0 <= k < |q[1..]| ensures Clean(l, q[1..][k].Trail()) {
      assert q[1..][k] == q[k + 1];
    }
    assert forall m :: 0 <= m < |log| ==> l[m] == log[m];
  }

  lemma PushKeeps(q: seq<NewDir>, log: seq<Event>, n: nat, c: NewDir)
    requires Stack(q, log, n) && c.id == n && Clean(log, c.lineage) && Bounded(c.lineage, n)
    ensures Stack([c] + q, log, n + 1)
  {
    var r := [c] + q;
    assert forall k :: 0 < k < |r| ==> r[k] == q[k - 1];
    forall i, x | Removed(log, i, x) ensures x !in c.Trail() {
      assert x == TrailOf(log[i])[|log[i].trail| - 1];
    }
  }

  lemma {:induction false} ChildrenKeep(q: seq<NewDir>, log: seq<Event>, n: nat, mode: Mode, dir: NewDir,
                                        listing: Listing, k: nat)
    requires k <= |listing.entries|
    requires Stack(q, log, n) && Clean(log, dir.Trail()) && Bounded(dir.Trail(), n)
    ensures var r := Children(mode, dir, listing, k, n); n <= r.1 && Stack(r.0 + q, log, r.1)
    decreases |listing.entries| - k
  {
    if k == |listing.entries| {
      assert [] + q == q;
    } else {
      ChildrenKeep(q, log, n, mode, dir, listing, k + 1);
      var r := Children(mode, dir, listing, k + 1, n);
      var e := listing.entries[k];
      if Selected(dir, e) && IsVisitable(mode, e) && dir.recurse {
        var c := ChildOf(dir, listing.path, e, r.1);
        PushKeeps(r.0 + q, log, r.1, c);
        assert [c] + (r.0 + q) == [c] + r.0 + q;
      }
    }
  }

  lemma {:induction false} EntryEventsTrail(s: State, dir: NewDir, listing: Listing, k: nat)
    requires k <= |listing.entries|
    ensures OfTrail(AllEntryEvents(s, dir, listing, k), dir.Trail())
    decreases |listing.entries| - k
  {
    if k < |listing.entries| { EntryEventsTrail(s, dir, listing, k + 1); }
  }

  // ---------- the steps keep the stack ----------

  ghost predicate Stacked(s: State) {
    Stack(Queue(s.roots), s.log, s.nextId)
  }

  lemma QueueFront(s: State, dirs: seq<NewDir>)
    requires s.roots != []
    ensures Queue(WithDirs(s, dirs).roots) == dirs + Queue(s.roots[1..])
    ensures Queue(s.roots) == s.roots[0].dirs + Queue(s.roots[1..])
  {
    assert WithDirs(s, dirs).roots[1..] == s.roots[1..];
  }

  /** Replacing the front entry by others, seen in the whole queue. */
  lemma QueueTop(s: State, top: seq<NewDir>)
    requires s.roots != [] && s.roots[0].dirs != []
    ensures Queue(s.roots) != [] && Queue(s.roots)[0] == s.roots[0].dirs[0]
    ensures Queue(WithDirs(s, top + s.roots[0].dirs[1..]).roots) == top + Queue(s.roots)[1..]
  {
    var dirs := s.roots[0].dirs;
    QueueFront(s, top + dirs[1..]);
    assert Queue(s.roots)[1..] == dirs[1..] + Queue(s.roots[1..]);
    assert top + dirs[1..] + Queue(s.roots[1..]) == top + (dirs[1..] + Queue(s.roots[1..]));
  }

  lemma {:induction false} DrainStacked(s: State)
    requires Stacked(s)
    ensures Stacked(Drain(s))
    decreases |s.roots|, if s.roots == [] then 0 else |s.roots[0].dirs|
  {
    if s.roots == [] {
      EmitKeeps([], s.log, s.nextId, [Finished], []);
    } else {
      var dirs := s.roots[0].dirs;
      if dirs == [] {
        assert [] + Queue(s.roots[1..]) == Queue(s.roots[1..]);
        DrainStacked(s.(roots := s.roots[1..]));
      } else {
        QueueTop(s, []);
        assert [] + dirs[1..] == dirs[1..] && [] + Queue(s.roots)[1..] == Queue(s.roots)[1..];
        if s.mode == Delete && IsMarker(dirs[0]) {
          RemoveKeeps(Queue(s.roots), s.log, s.nextId);
          DrainStacked(Emit(WithDirs(s, dirs[1..]), [RemovalOf(dirs[0])]));
        } else {
          EmitKeeps(Queue(s.roots), s.log, s.nextId, [ListingOf(dirs[0])], dirs[0].Trail());
        }
      }
    }
  }

  lemma NextStacked(s: State)
    requires Stacked(s)
    ensures Stacked(NextOperation(s))
  {
    DrainStacked(s);
  }

  lemma EmitStacked(s: State, events: seq<Event>, trail: seq<nat>)
    requires Stacked(s) && OfTrail(events, trail) && Clean(s.log, trail) && Bounded(trail, s.nextId)
    ensures Stacked(Emit(s, events)) && Clean(Emit(s, events).log, trail)
  {
    EmitKeeps(Queue(s.roots), s.log, s.nextId, events, trail);
  }

  lemma ProcessStacked(s: State, dir: NewDir, listing: Listing)
    requires s.roots != [] && Stacked(s) && Clean(s.log, dir.Trail()) && Bounded(dir.Trail(), s.nextId)
    ensures Stacked(ProcessEntries(s, dir, listing))
  {
    var r := Children(s.mode, dir, listing, 0, s.nextId);
    ChildrenKeep(Queue(s.roots), s.log, s.nextId, s.mode, dir, listing, 0);
    QueueFront(s, r.0 + s.roots[0].dirs);
    assert r.0 + s.roots[0].dirs + Queue(s.roots[1..]) == r.0 + Queue(s.roots);
    var t := WithDirs(s, r.0 + s.roots[0].dirs).(nextId := r.1);
    assert Stacked(t);
    EntryEventsTrail(s, dir, listing, 0);
    EmitStacked(t, AllEntryEvents(s, dir, listing, 0), dir.Trail());
    var u := Emit(t, AllEntryEvents(s, dir, listing, 0));
    var files := FilesToDelete(dir, listing, 0);
    var last := if s.mode == Delete && files != [] then [DeleteFiles(dir.Trail(), listing.path, files)] else [];
    EmitStacked(u, last, dir.Trail());
    assert ProcessEntries(s, dir, listing) == Emit(u, last);
  }

  lemma MarkerStacked(s: State, dir: NewDir)
    requires s.roots != [] && s.roots[0].dirs != [] && Stacked(s) && dir.Trail() == s.roots[0].dirs[0].Trail()
    ensures var t := WithDirs(s, PushMarker(s.mode, dir, s.roots[0].dirs[1..])); Stacked(t)
    ensures Clean(s.log, dir.Trail()) && Bounded(dir.Trail(), s.nextId)
  {
    var rest := s.roots[0].dirs[1..];
    var top := PushMarker(s.mode, dir, []);
    assert PushMarker(s.mode, dir, rest) == top + rest;
    QueueTop(s, top);
    var q := Queue(s.roots);
    assert Clean(s.log, q[0].Trail());
    PopKeeps(q, s.log, s.nextId);
    if top == [] {
      assert [] + q[1..] == q[1..];
    } else {
      SwapKeeps(q, top[0], s.log, s.nextId);
      assert top == [top[0]];
    }
  }

  lemma VisitStacked(s: State, dir: NewDir, listing: Listing)
    requires s.roots != [] && s.roots[0].dirs != [] && Stacked(s) && dir.Trail() == s.roots[0].dirs[0].Trail()
    ensures Stacked(Visit(s, dir, s.roots[0].dirs[1..], listing))
  {
    var rest := s.roots[0].dirs[1..];
    var t := WithDirs(s, PushMarker(s.mode, dir, rest));
    MarkerStacked(s, dir);
    if Uses(s, dir, listing.path) {
      var root := t.roots[0].(visited := t.roots[0].visited + {listing.path});
      var v := t.(roots := t.roots[0 := root]);
      assert v.roots[1..] == t.roots[1..] && Queue(v.roots) == Queue(t.roots);
      var e := Processed(dir.Trail(), t.roots[0], listing, dir);
      EmitStacked(v, [e], dir.Trail());
      var u := Emit(v, [e]);
      if listing.entries == [] && s.mode == Transfer {
        EmitStacked(u, [EmptyDir(dir.Trail())], dir.Trail());
      } else {
        ProcessStacked(u, dir, listing);
      }
    }
  }

  lemma StopStacked(s: State)
    requires Stacked(s)
    ensures Stacked(Stop(s))
  {}

  lemma FrontPopped(s: State)
    requires Stacked(s) && s.roots != [] && s.roots[0].dirs != []
    ensures Stacked(WithDirs(s, s.roots[0].dirs[1..]))
  {
    var rest := s.roots[0].dirs[1..];
    QueueTop(s, []);
    assert [] + rest == rest && [] + Queue(s.roots)[1..] == Queue(s.roots)[1..];
    PopKeeps(Queue(s.roots), s.log, s.nextId);
  }

  lemma ListingStacked(s: State, listing: Listing)
    requires Stacked(s)
    ensures Stacked(OnListing(s, Some(listing)))
  {
    StopStacked(s);
    if s.mode != Idle && s.roots != [] && s.roots[0].dirs != [] && !listing.failed {
      var front, rest := s.roots[0].dirs[0], s.roots[0].dirs[1..];
      var (ok, dir) := BelowRoot(s.roots[0], front, listing.path);
      if !ok {
        FrontPopped(s);
        NextStacked(WithDirs(s, rest));
      } else {
        VisitStacked(s, dir, listing);
        NextStacked(Visit(s, dir, rest, listing));
      }
    }
  }

  lemma NotDirStacked(s: State, connected: bool)
    requires Stacked(s)
    ensures Stacked(OnNotDir(s, connected))
  {
    StopStacked(s);
    if s.mode != Idle && s.roots != [] && s.roots[0].dirs != [] {
      var front, popped := s.roots[0].dirs[0], WithDirs(s, s.roots[0].dirs[1..]);
      FrontPopped(s);
      MarkerStacked(s, front);
      var delete := [DeleteFiles(front.Trail(), front.parent, [front.subdir])];
      var link := [NoDirLink(front.Trail(), front.parent, front.subdir)];
      EmitStacked(popped, delete, front.Trail());
      EmitStacked(popped, link, front.Trail());
      NextStacked(popped);
      NextStacked(Emit(popped, delete));
      NextStacked(Emit(popped, link));
    }
  }

  lemma StepStacked(s: State, r: Reply)
    requires Stacked(s)
    ensures Stacked(Step(s, r))
  {
    match r {
      case Listed(None) => StopStacked(s);
      case Listed(Some(listing)) => ListingStacked(s, listing);
      case ListingFailed(error) =>
        if s.mode != Idle && s.roots != [] && s.roots[0].dirs != [] {
          FailureStacked(s, error);
        } else {
          StopStacked(s.(failed := true));
        }
      case LinkIsNotDir(connected) => NotDirStacked(s, connected);
    }
  }

  lemma FailureStacked(s: State, error: bv32)
    requires Stacked(s) && s.mode != Idle && s.roots != [] && s.roots[0].dirs != []
    ensures Stacked(OnFailure(s, error))
  {
    var f := s.(failed := true);
    var dir, rest := s.roots[0].dirs[0], s.roots[0].dirs[1..];
    MarkerStacked(f, dir);
    if Canceled(error) {
    } else if !Critical(error) && !dir.secondTry {
      var again := dir.(secondTry := true);
      QueueTop(f, [again]);
      SwapKeeps(Queue(f.roots), again, f.log, f.nextId);
      NextStacked(WithDirs(f, [again] + rest));
    } else {
      var t := WithDirs(f, PushMarker(f.mode, dir, rest));
      EmitStacked(t, [Unlistable(dir.Trail())], dir.Trail());
      assert Emit(t, []).log == t.log;
      NextStacked(Emit(t, if f.mode == ListOnly then [Unlistable(dir.Trail())] else []));
    }
  }

  lemma BeginStacked(mode: Mode, roots: seq<Root>, chmodFiles: bool, chmodDirs: bool, nextId: nat)
    requires mode != Idle && Numbered(roots, nextId) && forall i :: 0 <= i < |roots| ==> FreshRoot(roots[i])
    ensures Stacked(Begin(mode, roots, chmodFiles, chmodDirs, nextId))
  {
    QueueFresh(roots);
    var q := Queue(roots);
    assert forall k :: 0 <= k < |q| ==> q[k].Trail() == [q[k].id];
    NextStacked(State(mode, roots, false, chmodFiles, chmodDirs, [], nextId));
  }

  lemma {:induction false} QueueFresh(roots: seq<Root>)
    requires forall i :: 0 <= i < |roots| ==> FreshRoot(roots[i])
    ensures forall k :: 0 <= k < |Queue(roots)| ==>
              Queue(roots)[k].lineage == [] && Queue(roots)[k].startDir.Empty() && Queue(roots)[k].doVisit
    decreases |roots|
  {
    if roots != [] { QueueFresh(roots[1..]); }
  }

  lemma {:induction false} StepsStacked(s: State, replies: seq<Reply>)
    requires Stacked(s)
    ensures Stacked(Steps(s, replies))
    decreases |replies|
  {
    if replies != [] {
      StepStacked(s, replies[0]);
      StepsStacked(Step(s, replies[0]), replies[1..]);
    }
  }

  /** Removal is post-order: once it asks to remove a directory, the operation has nothing left
      to do with that directory or anything found below it, and asks for nothing there again. */
  lemma RemovalIsPostOrder(mode: Mode, roots: seq<Root>, chmodFiles: bool, chmodDirs: bool, nextId: nat,
                           replies: seq<Reply>, i: nat, x: nat)
    requires mode != Idle && Numbered(roots, nextId) && forall i :: 0 <= i < |roots| ==> FreshRoot(roots[i])
    requires Removed(Steps(Begin(mode, roots, chmodFiles, chmodDirs, nextId), replies).log, i, x)
    ensures var t := Steps(Begin(mode, roots, chmodFiles, chmodDirs, nextId), replies);
            && (forall k :: 0 <= k < |Queue(t.roots)| ==> x !in Queue(t.roots)[k].Trail())
            && (forall m :: i < m < |t.log| ==> x !in TrailOf(t.log[m]))
  {
    BeginStacked(mode, roots, chmodFiles, chmodDirs, nextId);
    StepsStacked(Begin(mode, roots, chmodFiles, chmodDirs, nextId), replies);
  }

  // ---------- each directory once per root ----------

  ghost predicate Visited(log: seq<Event>, i: int, key: nat, path: ServerPath) {
    0 <= i < |log| && log[i].Processed? && log[i].root.key == key && log[i].listing.path == path
  }

  ghost predicate Once(s: State) {
    && (forall i, m, key, path :: Visited(s.log, i, key, path) && Visited(s.log, m, key, path) ==> i == m)
    && (forall i, r, path :: 0 <= r < |s.roots| && Visited(s.log, i, s.roots[r].key, path) ==>
        path in s.roots[r].visited)
    && (forall i, k :: 0 <= i < k < |s.roots| ==> s.roots[i].key != s.roots[k].key)
  }

  ghost predicate Quiet(events: seq<Event>) {
    forall i :: 0 <= i < |events| ==> !events[i].Processed?
  }

  lemma QuietVisited(log: seq<Event>, events: seq<Event>)
    requires Quiet(events)
    ensures forall i, key, path :: Visited(log + events, i, key, path) <==> Visited(log, i, key, path)
  {
    var l := log + events;
    assert forall i :: |log| <= i < |l| ==> l[i] == events[i - |log|];
  }

  /** t has the roots of s except the first n, with the same marks. */
  ghost predicate RootsLeft(s: State, t: State, n: nat) {
    && n <= |s.roots| && |t.roots| == |s.roots| - n
    && forall r :: 0 <= r < |t.roots| ==>
        t.roots[r].key == s.roots[r + n].key && t.roots[r].visited == s.roots[r + n].visited
  }

  ghost predicate GrownQuietly(s: State, t: State) {
    |s.log| <= |t.log| && t.log[..|s.log|] == s.log && Quiet(t.log[|s.log|..])
  }

  lemma QuietStepOnce(s: State, t: State, n: nat)
    requires Once(s) && RootsLeft(s, t, n) && GrownQuietly(s, t)
    ensures Once(t)
  {
    QuietVisited(s.log, t.log[|s.log|..]);
    assert t.log == s.log + t.log[|s.log|..];
  }

  lemma EmitQuietly(s: State, t: State, events: seq<Event>)
    requires Quiet(events) && t.log == s.log + events
    ensures GrownQuietly(s, t)
  {
    assert t.log[|s.log|..] == events;
  }

  /** Emitting quiet events and changing the front root's queue. */
  lemma QuietOnce(s: State, dirs: seq<NewDir>, events: seq<Event>)
    requires s.roots != [] && Quiet(events) && Once(s)
    ensures Once(Emit(WithDirs(s, dirs), events))
  {
    var t := Emit(WithDirs(s, dirs), events);
    EmitQuietly(s, t, events);
    QuietStepOnce(s, t, 0);
  }

  lemma {:induction false} DrainOnce(s: State)
    requires Once(s)
    ensures Once(Drain(s))
    decreases |s.roots|, if s.roots == [] then 0 else |s.roots[0].dirs|
  {
    if s.roots == [] {
      EmitQuietly(s, Drain(s), [Finished]);
      QuietStepOnce(s, Drain(s), 0);
    } else {
      var dirs := s.roots[0].dirs;
      if dirs == [] {
        var t := s.(roots := s.roots[1..]);
        assert t.log == s.log + [];
        EmitQuietly(s, t, []);
        QuietStepOnce(s, t, 1);
        DrainOnce(t);
      } else if s.mode == Delete && IsMarker(dirs[0]) {
        QuietOnce(s, dirs[1..], [RemovalOf(dirs[0])]);
        DrainOnce(Emit(WithDirs(s, dirs[1..]), [RemovalOf(dirs[0])]));
      } else {
        QuietOnce(s, dirs, [ListingOf(dirs[0])]);
        assert s.roots[0 := s.roots[0].(dirs := dirs)] == s.roots;
      }
    }
  }

  lemma NextOnce(s: State)
    requires Once(s)
    ensures Once(NextOperation(s))
  {
    DrainOnce(s);
  }

  lemma QuietNext(s: State, dirs: seq<NewDir>, events: seq<Event>)
    requires s.roots != [] && Quiet(events) && Once(s)
    ensures Once(NextOperation(Emit(WithDirs(s, dirs), events)))
  {
    QuietOnce(s, dirs, events);
    NextOnce(Emit(WithDirs(s, dirs), events));
  }

  lemma EmitNothing(s: State)
    ensures Emit(s, []) == s
  {}

  lemma {:induction false} EntryEventsQuiet(s: State, dir: NewDir, listing: Listing, k: nat)
    requires k <= |listing.entries|
    ensures Quiet(AllEntryEvents(s, dir, listing, k))
    decreases |listing.entries| - k
  {
    if k < |listing.entries| { EntryEventsQuiet(s, dir, listing, k + 1); }
  }

  lemma ProcessOnce(s: State, dir: NewDir, listing: Listing)
    requires s.roots != [] && Once(s)
    ensures Once(ProcessEntries(s, dir, listing))
  {
    var r := Children(s.mode, dir, listing, 0, s.nextId);
    var files := FilesToDelete(dir, listing, 0);
    EntryEventsQuiet(s, dir, listing, 0);
    var a := AllEntryEvents(s, dir, listing, 0);
    var b := if s.mode == Delete && files != [] then [DeleteFiles(dir.Trail(), listing.path, files)] else [];
    QuietOnce(s.(nextId := r.1), r.0 + s.roots[0].dirs, a + b);
    assert s.log + (a + b) == s.log + a + b;
  }

  lemma VisitOnce(s: State, dir: NewDir, rest: seq<NewDir>, listing: Listing)
    requires s.roots != [] && Once(s)
    ensures Once(Visit(s, dir, rest, listing))
  {
    var t := WithDirs(s, PushMarker(s.mode, dir, rest));
    QuietOnce(s, PushMarker(s.mode, dir, rest), []);
    EmitNothing(t);
    if Uses(s, dir, listing.path) {
      var root := t.roots[0].(visited := t.roots[0].visited + {listing.path});
      var e := Processed(dir.Trail(), t.roots[0], listing, dir);
      var u := Emit(t.(roots := t.roots[0 := root]), [e]);
      MarkOnce(t, root, e);
      if listing.entries == [] && s.mode == Transfer {
        QuietOnce(u, u.roots[0].dirs, [EmptyDir(dir.Trail())]);
        assert u.roots[0 := u.roots[0].(dirs := u.roots[0].dirs)] == u.roots;
      } else {
        ProcessOnce(u, dir, listing);
      }
    }
  }

  lemma MarkOnce(t: State, root: Root, e: Event)
    requires t.roots != [] && Once(t) && e.Processed? && e.root == t.roots[0] && e.listing.path !in t.roots[0].visited
    requires root == t.roots[0].(visited := t.roots[0].visited + {e.listing.path})
    ensures Once(Emit(t.(roots := t.roots[0 := root]), [e]))
  {
    var u := Emit(t.(roots := t.roots[0 := root]), [e]);
    forall i, key, path | Visited(u.log, i, key, path)
      ensures if i < |t.log| then Visited(t.log, i, key, path) else key == root.key && path == e.listing.path
    {
      assert i < |t.log| ==> u.log[i] == t.log[i];
    }
    forall i, r, path | 0 <= r < |u.roots| && Visited(u.log, i, u.roots[r].key, path)
      ensures path in u.roots[r].visited
    {
      assert u.roots[r].key == t.roots[r].key;
    }
  }

  lemma ListingOnce(s: State, listing: Listing)
    requires Once(s) && s.mode != Idle && s.roots != [] && s.roots[0].dirs != []
    ensures Once(OnListing(s, Some(listing)))
  {
    var front, rest := s.roots[0].dirs[0], s.roots[0].dirs[1..];
    var (ok, dir) := BelowRoot(s.roots[0], front, listing.path);
    QuietNext(s, rest, []);
    EmitNothing(WithDirs(s, rest));
    if ok {
      VisitOnce(s, dir, rest, listing);
      NextOnce(Visit(s, dir, rest, listing));
    }
  }

  lemma FailureOnce(s: State, error: bv32)
    requires Once(s) && s.mode != Idle && s.roots != [] && s.roots[0].dirs != []
    ensures Once(OnFailure(s, error))
  {
    var f := s.(failed := true);
    var front, rest := s.roots[0].dirs[0], s.roots[0].dirs[1..];
    var again := [front.(secondTry := true)] + rest;
    QuietNext(f, again, []);
    EmitNothing(WithDirs(f, again));
    QuietNext(f, PushMarker(s.mode, front, rest), if s.mode == ListOnly then [Unlistable(front.Trail())] else []);
  }

  lemma NotDirOnce(s: State, connected: bool)
    requires Once(s) && s.mode != Idle && s.roots != [] && s.roots[0].dirs != []
    ensures Once(OnNotDir(s, connected))
  {
    var dir, rest := s.roots[0].dirs[0], s.roots[0].dirs[1..];
    QuietNext(s, rest, []);
    EmitNothing(WithDirs(s, rest));
    QuietNext(s, rest, [DeleteFiles(dir.Trail(), dir.parent, [dir.subdir])]);
    QuietNext(s, rest, [NoDirLink(dir.Trail(), dir.parent, dir.subdir)]);
  }

  lemma StepOnce(s: State, r: Reply)
    requires Once(s)
    ensures Once(Step(s, r))
  {
    if s.mode != Idle && s.roots != [] && s.roots[0].dirs != [] {
      match r
      case Listed(listing) => if listing.Some? { ListingOnce(s, listing.value); }
      case ListingFailed(error) => FailureOnce(s, error);
      case LinkIsNotDir(connected) => NotDirOnce(s, connected);
    }
  }

  lemma {:induction false} StepsOnce(s: State, replies: seq<Reply>)
    requires Once(s)
    ensures Once(Steps(s, replies))
    decreases |replies|
  {
    if replies != [] {
      StepOnce(s, replies[0]);
      StepsOnce(Step(s, replies[0]), replies[1..]);
    }
  }

  /** process_entries runs at most once for each path of each root. */
  lemma EachDirectoryOnce(mode: Mode, roots: seq<Root>, chmodFiles: bool, chmodDirs: bool, nextId: nat,
                          replies: seq<Reply>, i: nat, m: nat, key: nat, path: ServerPath)
    requires mode != Idle && Numbered(roots, nextId)
    requires var log := Steps(Begin(mode, roots, chmodFiles, chmodDirs, nextId), replies).log;
             Visited(log, i, key, path) && Visited(log, m, key, path)
    ensures i == m
  {
    NextOnce(State(mode, roots, false, chmodFiles, chmodDirs, [], nextId));
    StepsOnce(Begin(mode, roots, chmodFiles, chmodDirs, nextId), replies);
  }
}
