/** What a recursive operation must visit: when it has run to its end, it has asked for every directory
    it was given and for every one that the listings it used told it of. */
module RecursiveVisits {
  import opened Text
  import opened ServerPaths
  import opened RecursiveOperation
  import opened RecursiveTermination
  import opened RecursiveOrder
  import opened RecursiveDelete
  import opened RecursiveAnswers

  // ---------- every directory is visited ----------

  /** A listing to be asked for, at or behind a number in the log. */
  datatype Promise = Promise(from: nat, lineage: seq<nat>, parent: ServerPath, subdir: string, link: bool)

  predicate AskedAt(log: seq<Event>, m: int, p: Promise) {
    && p.from <= m < |log| && log[m].ListDir? && log[m].trail != [] && log[m].trail[..|log[m].trail| - 1] == p.lineage
    && log[m].parent == p.parent && log[m].subdir == p.subdir && log[m].link == p.link
  }

  predicate IsFor(d: NewDir, p: Promise) {
    && d.doVisit && d.lineage == p.lineage && d.parent == p.parent && d.subdir == p.subdir && (d.link != 0) == p.link
  }

  predicate QueuedAt(q: seq<NewDir>, n: int, p: Promise) {
    0 <= n < |q| && IsFor(q[n], p)
  }

  ghost predicate Promised(q: seq<NewDir>, log: seq<Event>, p: Promise) {
    (exists m :: AskedAt(log, m, p)) || (exists n :: QueuedAt(q, n, p))
  }

  /** Unless the operation was ended early, the promise is kept or will be. */
  ghost predicate Held(s: State, p: Promise) {
    s.mode != Idle || Completed(s) ==> Promised(Queue(s.roots), s.log, p)
  }

  lemma PromiseGrows(q: seq<NewDir>, r: seq<NewDir>, log: seq<Event>, events: seq<Event>, p: Promise)
    requires Promised(q, log, p)
    requires forall n :: QueuedAt(q, n, p) ==> exists j :: QueuedAt(r, j, p)
    ensures Promised(r, log + events, p)
  {
    if m :| AskedAt(log, m, p) {
      assert AskedAt(log + events, m, p);
    } else {
      var n :| QueuedAt(q, n, p);
      var j :| QueuedAt(r, j, p);
    }
  }

  lemma ListingAsks(d: NewDir, log: seq<Event>, p: Promise)
    requires IsFor(d, p) && p.from <= |log|
    ensures AskedAt(log + [ListingOf(d)], |log|, p)
  {
    assert d.Trail()[..|d.Trail()| - 1] == d.lineage;
  }

  lemma PoppedStays(q: seq<NewDir>, p: Promise)
    requires q != [] && !q[0].doVisit
    ensures forall n :: QueuedAt(q, n, p) ==> exists j :: QueuedAt(q[1..], j, p)
  {
    forall n | QueuedAt(q, n, p) ensures exists j :: QueuedAt(q[1..], j, p) {
      assert n != 0 && QueuedAt(q[1..], n - 1, p);
    }
  }

  lemma PushedStays(q: seq<NewDir>, top: seq<NewDir>, p: Promise)
    ensures forall n :: QueuedAt(q, n, p) ==> exists j :: QueuedAt(top + q, j, p)
  {
    forall n | QueuedAt(q, n, p) ensures exists j :: QueuedAt(top + q, j, p) {
      assert QueuedAt(top + q, n + |top|, p);
    }
  }

  lemma {:induction false} DrainHolds(s: State, p: Promise)
    requires s.mode != Idle && Promised(Queue(s.roots), s.log, p) && p.from <= |s.log|
    ensures Held(Drain(s), p)
    decreases |s.roots|, if s.roots == [] then 0 else |s.roots[0].dirs|
  {
    if s.roots == [] {
      PromiseGrows([], [], s.log, [Finished], p);
    } else {
      var dirs := s.roots[0].dirs;
      if dirs == [] {
        assert [] + Queue(s.roots[1..]) == Queue(s.roots[1..]);
        DrainHolds(s.(roots := s.roots[1..]), p);
      } else if s.mode == Delete && IsMarker(dirs[0]) {
        QueueTop(s, []);
        assert [] + dirs[1..] == dirs[1..] && [] + Queue(s.roots)[1..] == Queue(s.roots)[1..];
        PoppedStays(Queue(s.roots), p);
        PromiseGrows(Queue(s.roots), Queue(s.roots)[1..], s.log, [RemovalOf(dirs[0])], p);
        DrainHolds(Emit(WithDirs(s, dirs[1..]), [RemovalOf(dirs[0])]), p);
      } else {
        PromiseGrows(Queue(s.roots), Queue(s.roots), s.log, [ListingOf(dirs[0])], p);
      }
    }
  }

  /** The front entry was asked for last, so nothing is lost with it. */
  lemma FrontHolds(s: State, top: seq<NewDir>, events: seq<Event>, p: Promise)
    requires s.mode != Idle && Waiting(s) && Promised(Queue(s.roots), s.log, p) && p.from < |s.log|
    ensures var u := Emit(WithDirs(s, top + s.roots[0].dirs[1..]), events); Promised(Queue(u.roots), u.log, p)
  {
    QueueTop(s, top);
    var q := Queue(s.roots);
    if n :| QueuedAt(q, n, p) {
      if n == 0 {
        assert s.log[..|s.log| - 1] + [ListingOf(q[0])] == s.log;
        ListingAsks(q[0], s.log[..|s.log| - 1], p);
        PromiseGrows([], top + q[1..], s.log, events, p);
      } else {
        assert QueuedAt(top + q[1..], n - 1 + |top|, p);
      }
    } else {
      PromiseGrows([], top + q[1..], s.log, events, p);
    }
  }

  function Kids(s: State, dir: NewDir, listing: Listing): seq<NewDir> {
    Children(s.mode, dir, listing, 0, s.nextId).0
  }

  /** The front root is marked, and the entries of a listing are queued. */
  lemma UsedQueue(t: State, v: State, dir: NewDir, listing: Listing)
    requires t.roots != [] && |v.roots| == |t.roots| && v.roots[1..] == t.roots[1..]
    requires v.roots[0].dirs == t.roots[0].dirs
    requires v.mode == t.mode && v.nextId == t.nextId
    ensures Queue(v.roots) == Queue(t.roots)
    ensures Queue(ProcessEntries(v, dir, listing).roots) == Kids(t, dir, listing) + Queue(t.roots)
  {
    QueueFront(v, Kids(t, dir, listing) + v.roots[0].dirs);
    assert Kids(t, dir, listing) + v.roots[0].dirs + Queue(v.roots[1..]) == Kids(t, dir, listing) + Queue(v.roots);
  }

  lemma VisitQueue(s: State, dir: NewDir, rest: seq<NewDir>, listing: Listing)
    requires s.roots != []
    ensures var t := WithDirs(s, PushMarker(s.mode, dir, rest));
            Queue(Visit(s, dir, rest, listing).roots)
            == (if Uses(s, dir, listing.path) then Kids(s, dir, listing) else []) + Queue(t.roots)
  {
    var t := WithDirs(s, PushMarker(s.mode, dir, rest));
    assert [] + Queue(t.roots) == Queue(t.roots);
    if Uses(s, dir, listing.path) {
      var root := t.roots[0].(visited := t.roots[0].visited + {listing.path});
      var u := Emit(t.(roots := t.roots[0 := root]), [Processed(dir.Trail(), t.roots[0], listing, dir)]);
      assert u.roots[1..] == t.roots[1..];
      UsedQueue(t, u, dir, listing);
      assert Kids(t, dir, listing) == Kids(s, dir, listing);
    }
  }

  predicate Wanted(mode: Mode, dir: NewDir, listing: Listing, k: nat) {
    && k < |listing.entries| && dir.recurse
    && Chosen(dir, listing.entries[k]) && Descends(mode, listing.entries[k])
  }

  /** The listing of the directory that is entry k. */
  function ChildPromise(from: nat, dir: NewDir, listing: Listing, k: nat): Promise
    requires k < |listing.entries|
  {
    Promise(from, dir.Trail(), listing.path, listing.entries[k].name, listing.entries[k].isLink)
  }

  lemma {:induction false} KidQueued(mode: Mode, dir: NewDir, listing: Listing, j: nat, id: nat, from: nat, k: nat)
    returns (n: nat)
    requires j <= k && Wanted(mode, dir, listing, k)
    ensures QueuedAt(Children(mode, dir, listing, j, id).0, n, ChildPromise(from, dir, listing, k))
    decreases |listing.entries| - j
  {
    if j == k {
      n := 0;
    } else {
      n := KidQueued(mode, dir, listing, j + 1, id, from, k);
      var e := listing.entries[j];
      if Selected(dir, e) && IsVisitable(mode, e) { n := n + 1; }
    }
  }

  lemma MarkHolds(s: State, dir: NewDir, p: Promise)
    requires s.mode != Idle && Waiting(s) && Promised(Queue(s.roots), s.log, p) && p.from < |s.log|
    ensures Promised(Queue(WithDirs(s, PushMarker(s.mode, dir, s.roots[0].dirs[1..])).roots), s.log, p)
  {
    var rest, top := s.roots[0].dirs[1..], PushMarker(s.mode, dir, []);
    assert PushMarker(s.mode, dir, rest) == top + rest;
    FrontHolds(s, top, [], p);
    EmitNothing(WithDirs(s, top + rest));
  }

  lemma VisitExtends(s: State, dir: NewDir, rest: seq<NewDir>, listing: Listing) returns (more: seq<Event>)
    requires s.roots != []
    ensures Visit(s, dir, rest, listing).log == s.log + more
  {
    VisitLogs(s, dir, rest, listing);
    var e := Processed(dir.Trail(), WithDirs(s, PushMarker(s.mode, dir, rest)).roots[0], listing, dir);
    more := if Uses(s, dir, listing.path) then [e] + Block(s, dir, listing) else [];
    assert s.log + [e] + Block(s, dir, listing) == s.log + ([e] + Block(s, dir, listing));
  }

  lemma VisitHolds(s: State, dir: NewDir, listing: Listing, p: Promise)
    requires s.mode != Idle && Waiting(s) && Promised(Queue(s.roots), s.log, p) && p.from < |s.log|
    ensures var u := Visit(s, dir, s.roots[0].dirs[1..], listing); Promised(Queue(u.roots), u.log, p)
  {
    var rest := s.roots[0].dirs[1..];
    MarkHolds(s, dir, p);
    VisitQueue(s, dir, rest, listing);
    var more := VisitExtends(s, dir, rest, listing);
    var q := Queue(WithDirs(s, PushMarker(s.mode, dir, rest)).roots);
    var kids := if Uses(s, dir, listing.path) then Kids(s, dir, listing) else [];
    PushedStays(q, kids, p);
    PromiseGrows(q, kids + q, s.log, more, p);
  }

  /** The use of a listing promises the listings of its directories. */
  lemma VisitPromises(s: State, dir: NewDir, listing: Listing, from: nat, k: nat)
    requires s.mode != Idle && s.roots != [] && s.roots[0].dirs != [] && Uses(s, dir, listing.path)
    requires Wanted(s.mode, dir, listing, k)
    ensures var u := Visit(s, dir, s.roots[0].dirs[1..], listing);
            Promised(Queue(u.roots), u.log, ChildPromise(from, dir, listing, k))
  {
    var rest := s.roots[0].dirs[1..];
    VisitQueue(s, dir, rest, listing);
    var n := KidQueued(s.mode, dir, listing, 0, s.nextId, from, k);
    assert QueuedAt(Kids(s, dir, listing) + Queue(WithDirs(s, PushMarker(s.mode, dir, rest)).roots), n,
                    ChildPromise(from, dir, listing, k));
  }

  // ---------- promises over replies ----------

  lemma ListingHolds(s: State, listing: Listing, p: Promise)
    requires s.mode != Idle && Waiting(s) && Promised(Queue(s.roots), s.log, p) && p.from < |s.log| && !listing.failed
    ensures Held(OnListing(s, Some(listing)), p)
  {
    var front, rest := s.roots[0].dirs[0], s.roots[0].dirs[1..];
    var (ok, dir) := BelowRoot(s.roots[0], front, listing.path);
    if ok {
      VisitHolds(s, dir, listing, p);
      VisitLogs(s, dir, rest, listing);
      DrainHolds(Visit(s, dir, rest, listing), p);
    } else {
      assert [] + rest == rest;
      FrontHolds(s, [], [], p);
      EmitNothing(WithDirs(s, rest));
      DrainHolds(WithDirs(s, rest), p);
    }
  }

  lemma ReplacedHolds(s: State, top: seq<NewDir>, dirs: seq<NewDir>, events: seq<Event>, p: Promise)
    requires s.mode != Idle && Waiting(s) && Promised(Queue(s.roots), s.log, p) && p.from < |s.log|
    requires dirs == top + s.roots[0].dirs[1..]
    ensures Held(NextOperation(Emit(WithDirs(s, dirs), events)), p)
  {
    FrontHolds(s, top, events, p);
    DrainHolds(Emit(WithDirs(s, dirs), events), p);
  }

  lemma FailureHolds(s: State, error: bv32, p: Promise)
    requires s.mode != Idle && Waiting(s) && Promised(Queue(s.roots), s.log, p) && p.from < |s.log|
    ensures Held(OnFailure(s, error), p)
  {
    var f := s.(failed := true);
    var dir, rest := s.roots[0].dirs[0], s.roots[0].dirs[1..];
    if !Canceled(error) {
      if !Critical(error) && !dir.secondTry {
        ReplacedHolds(f, [dir.(secondTry := true)], [dir.(secondTry := true)] + rest, [], p);
        EmitNothing(WithDirs(f, [dir.(secondTry := true)] + rest));
      } else {
        ReplacedHolds(f, PushMarker(s.mode, dir, []), PushMarker(s.mode, dir, rest),
                      if s.mode == ListOnly then [Unlistable(dir.Trail())] else [], p);
      }
    }
  }

  lemma NotDirHolds(s: State, connected: bool, p: Promise)
    requires s.mode != Idle && Waiting(s) && Promised(Queue(s.roots), s.log, p) && p.from < |s.log|
    ensures Held(OnNotDir(s, connected), p)
  {
    var dir, rest := s.roots[0].dirs[0], s.roots[0].dirs[1..];
    assert [] + rest == rest;
    EmitNothing(WithDirs(s, rest));
    ReplacedHolds(s, [], rest, [], p);
    ReplacedHolds(s, [], rest, [DeleteFiles(dir.Trail(), dir.parent, [dir.subdir])], p);
    ReplacedHolds(s, [], rest, [NoDirLink(dir.Trail(), dir.parent, dir.subdir)], p);
  }

  lemma StepHolds(s: State, r: Reply, p: Promise)
    requires Waiting(s) && Held(s, p) && p.from < |s.log|
    ensures Held(Step(s, r), p)
  {
    if s.mode != Idle {
      match r {
        case Listed(None) =>
        case Listed(Some(listing)) => if !listing.failed { ListingHolds(s, listing, p); }
        case ListingFailed(error) => FailureHolds(s, error, p);
        case LinkIsNotDir(connected) => NotDirHolds(s, connected, p);
      }
    }
  }

  /** The only use of a listing that one reply can log. */
  lemma UsedNow(s: State, listing: Listing, i: nat) returns (dir: NewDir)
    requires s.mode != Idle && Waiting(s) && !listing.failed
    requires var log := OnListing(s, Some(listing)).log; |s.log| <= i < |log| && log[i].Processed?
    ensures var t := OnListing(s, Some(listing));
            && t.log[i].dir == dir && t.log[i].listing == listing && i == |s.log| && Uses(s, dir, listing.path)
            && t == Drain(Visit(s, dir, s.roots[0].dirs[1..], listing))
  {
    var t := OnListing(s, Some(listing));
    dir := BelowRoot(s.roots[0], s.roots[0].dirs[0], listing.path).1;
    var u, ask := ListingLeads(s, listing);
    DrainCloses(u);
    var closing := t.log[|u.log|..];
    assert t.log == s.log + ask + closing;
    AskedFirst(s, s.log, ask, closing, i);
  }

  /** A reply that makes the operation use a listing. */
  lemma ListingPromises(s: State, listing: Listing, i: nat, k: nat)
    requires s.mode != Idle && Waiting(s) && !listing.failed
    requires var log := OnListing(s, Some(listing)).log; |s.log| <= i < |log| && log[i].Processed?
    requires var e := OnListing(s, Some(listing)).log[i]; Wanted(s.mode, e.dir, e.listing, k)
    ensures var t := OnListing(s, Some(listing)); Held(t, ChildPromise(i + 1, t.log[i].dir, t.log[i].listing, k))
  {
    var dir := UsedNow(s, listing, i);
    var u := Visit(s, dir, s.roots[0].dirs[1..], listing);
    VisitPromises(s, dir, listing, i + 1, k);
    VisitLogs(s, dir, s.roots[0].dirs[1..], listing);
    DrainHolds(u, ChildPromise(i + 1, dir, listing, k));
  }

  /** Only the reply with a listing adds to the log that one was used. */
  lemma StepPromises(s: State, r: Reply, i: nat, k: nat)
    requires s.mode != Idle && Waiting(s)
    requires var log := Step(s, r).log; |s.log| <= i < |log| && log[i].Processed?
    requires var e := Step(s, r).log[i]; Wanted(s.mode, e.dir, e.listing, k)
    ensures var t := Step(s, r); Held(t, ChildPromise(i + 1, t.log[i].dir, t.log[i].listing, k))
  {
    var t := Step(s, r);
    match r {
      case Listed(None) =>
      case Listed(Some(listing)) => if !listing.failed { ListingPromises(s, listing, i, k); }
      case ListingFailed(error) => FailureUsesNone(s, error);
      case LinkIsNotDir(connected) => NotDirUsesNone(s, connected);
    }
  }

  predicate UsesNone(s: State, t: State) {
    forall x :: |s.log| <= x < |t.log| ==> !t.log[x].Processed?
  }

  lemma DrainUsesNone(s: State, u: State)
    requires u.mode != Idle && |s.log| <= |u.log| && UsesNone(s, u)
    ensures UsesNone(s, Drain(u))
  {
    DrainCloses(u);
    var t := Drain(u);
    forall x | |s.log| <= x < |t.log| ensures !t.log[x].Processed? {
      if x < |u.log| { assert t.log[x] == t.log[..|u.log|][x]; }
    }
  }

  lemma FailureUsesNone(s: State, error: bv32)
    requires s.mode != Idle && Waiting(s)
    ensures UsesNone(s, OnFailure(s, error))
  {
    if !Canceled(error) {
      var f := s.(failed := true);
      var dir, rest := s.roots[0].dirs[0], s.roots[0].dirs[1..];
      var u := if !Critical(error) && !dir.secondTry then WithDirs(f, [dir.(secondTry := true)] + rest)
               else Emit(WithDirs(f, PushMarker(s.mode, dir, rest)),
                         if s.mode == ListOnly then [Unlistable(dir.Trail())] else []);
      DrainUsesNone(s, u);
    }
  }

  lemma NotDirUsesNone(s: State, connected: bool)
    requires s.mode != Idle && Waiting(s)
    ensures UsesNone(s, OnNotDir(s, connected))
  {
    var u, ask := NotDirLeads(s, connected);
    assert forall x :: |s.log| <= x < |u.log| ==> u.log[x] == ask[x - |s.log|];
    DrainUsesNone(s, u);
  }

  lemma {:induction false} StepsHold(s: State, replies: seq<Reply>, p: Promise)
    requires Waiting(s) && Held(s, p) && p.from < |s.log|
    ensures Held(Steps(s, replies), p)
    decreases |replies|
  {
    if replies != [] {
      var t := Step(s, replies[0]);
      StepHolds(s, replies[0], p);
      StepExtends(s, replies[0]);
      StepsHold(t, replies[1..], p);
    }
  }

  /** Logs only grow, and the operation keeps its mode until it is over. */
  lemma StepExtends(s: State, r: Reply)
    requires Waiting(s)
    ensures var t := Step(s, r);
            Waiting(t) && s.log <= t.log && (t.mode == Idle || t.mode == s.mode) && (s.mode == Idle ==> t.log == s.log)
  {
    if s.mode != Idle {
      var u, ask := StepLeads(s, r);
      if !Stays(s, Step(s, r)) {
        DrainCloses(u);
        var t := Drain(u);
        assert t.log[..|s.log|] == t.log[..|u.log|][..|s.log|] == s.log;
      }
    }
  }

  lemma {:induction false} StepsExtend(s: State, replies: seq<Reply>)
    requires Waiting(s)
    ensures s.log <= Steps(s, replies).log && (s.mode == Idle ==> Steps(s, replies).log == s.log)
    decreases |replies|
  {
    if replies != [] {
      StepExtends(s, replies[0]);
      StepsExtend(Step(s, replies[0]), replies[1..]);
    }
  }

  lemma {:induction false} StepsPromise(s: State, replies: seq<Reply>, i: nat, k: nat, mode: Mode)
    requires Waiting(s) && (s.mode == Idle || s.mode == mode)
    requires var log := Steps(s, replies).log; |s.log| <= i < |log| && log[i].Processed?
    requires var e := Steps(s, replies).log[i]; Wanted(mode, e.dir, e.listing, k)
    ensures var t := Steps(s, replies); Held(t, ChildPromise(i + 1, t.log[i].dir, t.log[i].listing, k))
    decreases |replies|
  {
    StepsExtend(s, replies);
    var t := Step(s, replies[0]);
    StepExtends(s, replies[0]);
    StepsExtend(t, replies[1..]);
    if i < |t.log| {
      assert t.log[i] == Steps(s, replies).log[i];
      StepPromises(s, replies[0], i, k);
      UsedIsNotLast(s, replies[0], i);
      StepsHold(t, replies[1..], ChildPromise(i + 1, t.log[i].dir, t.log[i].listing, k));
    } else {
      StepsPromise(t, replies[1..], i, k, mode);
    }
  }

  lemma UsedIsNotLast(s: State, r: Reply, i: nat)
    requires s.mode != Idle && Waiting(s) && |s.log| <= i < |Step(s, r).log| && Step(s, r).log[i].Processed?
    ensures i + 1 < |Step(s, r).log|
  {
    var u, ask := StepLeads(s, r);
    var t := Step(s, r);
    if !Stays(s, t) {
      DrainCloses(u);
      assert Closes(t.log[|t.log| - 1]);
    }
  }

  // ---------- main results ----------

  lemma KeptAtEnd(t: State, p: Promise) returns (m: nat)
    requires Waiting(t) && Completed(t) && Held(t, p)
    ensures AskedAt(t.log, m, p)
  {
    assert t.mode == Idle && Queue(t.roots) == [];
    m :| AskedAt(t.log, m, p);
  }

  /** An operation that has run to its end has asked for every selected directory of every listing
      it used for an entry that recurses, after it used the listing. */
  lemma CompletedRunVisitsAll(mode: Mode, roots: seq<Root>, files: bool, dirs: bool, nextId: nat, replies: seq<Reply>,
                              i: nat, k: nat) returns (m: nat)
    requires mode != Idle
    requires var t := Steps(Begin(mode, roots, files, dirs, nextId), replies);
             Completed(t) && i < |t.log| && t.log[i].Processed? && Wanted(mode, t.log[i].dir, t.log[i].listing, k)
    ensures var log := Steps(Begin(mode, roots, files, dirs, nextId), replies).log;
            AskedAt(log, m, ChildPromise(i + 1, log[i].dir, log[i].listing, k))
  {
    var s := State(mode, roots, false, files, dirs, [], nextId);
    BegunFaithful(mode, roots, files, dirs, nextId, replies);
    DrainCloses(s);
    var b := Drain(s);
    StepsExtend(b, replies);
    var t := Steps(b, replies);
    assert forall x :: 0 <= x < |b.log| ==> Closes(b.log[x]) && b.log[x] == t.log[x];
    StepsPromise(b, replies, i, k, mode);
    m := KeptAtEnd(t, ChildPromise(i + 1, t.log[i].dir, t.log[i].listing, k));
  }

  /** And it has asked for every directory that the user of the class chose. */
  lemma CompletedRunVisitsChosen(mode: Mode, roots: seq<Root>, files: bool, dirs: bool, nextId: nat,
                                 replies: seq<Reply>, n: nat) returns (m: nat)
    requires mode != Idle && n < |Queue(roots)| && Queue(roots)[n].doVisit
    requires Completed(Steps(Begin(mode, roots, files, dirs, nextId), replies))
    ensures var d := Queue(roots)[n];
            AskedAt(Steps(Begin(mode, roots, files, dirs, nextId), replies).log, m,
                    Promise(0, d.lineage, d.parent, d.subdir, d.link != 0))
  {
    var d := Queue(roots)[n];
    var p := Promise(0, d.lineage, d.parent, d.subdir, d.link != 0);
    var s := State(mode, roots, false, files, dirs, [], nextId);
    BegunFaithful(mode, roots, files, dirs, nextId, replies);
    assert QueuedAt(Queue(s.roots), n, p);
    DrainCloses(s);
    DrainHolds(s, p);
    StepsHold(Drain(s), replies, p);
    m := KeptAtEnd(Steps(Drain(s), replies), p);
  }
}
