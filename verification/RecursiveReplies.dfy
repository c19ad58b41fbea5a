/** What each reply leads to: which listings are used, when a directory is asked for again, and what
    becomes of a link that is no directory. */
module RecursiveReplies {
  import opened Text
  import opened ServerPaths
  import opened RecursiveOperation
  import opened RecursiveTermination
  import opened RecursiveOrder
  import opened RecursiveDelete
  import opened RecursiveEntries
  import opened RecursiveAnswers

  // ---------- a root is marked with nothing but the paths used for it ----------

  ghost predicate Noted(s: State) {
    forall r, path :: 0 <= r < |s.roots| && path in s.roots[r].visited ==>
      exists i :: Visited(s.log, i, s.roots[r].key, path)
  }

  lemma NotedStays(s: State, t: State, n: nat)
    requires Noted(s) && RootsLeft(s, t, n) && s.log <= t.log
    ensures Noted(t)
  {
    forall r, path | 0 <= r < |t.roots| && path in t.roots[r].visited
      ensures exists i :: Visited(t.log, i, t.roots[r].key, path)
    {
      var i :| Visited(s.log, i, s.roots[r + n].key, path);
      assert Visited(t.log, i, t.roots[r].key, path);
    }
  }

  lemma LeavesOn(s: State, u: State, t: State, n: nat)
    requires RootsLeft(s, u, 0) && RootsLeft(u, t, n) && s.log <= u.log && u.log <= t.log
    ensures RootsLeft(s, t, n) && s.log <= t.log
  {}

  lemma RootDropped(s: State, t: State, n: nat)
    requires s.roots != [] && RootsLeft(s.(roots := s.roots[1..]), t, n)
    ensures RootsLeft(s, t, n + 1)
  {}

  lemma {:induction false} DrainLeaves(s: State) returns (n: nat)
    ensures RootsLeft(s, Drain(s), n) && s.log <= Drain(s).log
    decreases |s.roots|, if s.roots == [] then 0 else |s.roots[0].dirs|
  {
    n := 0;
    if s.roots != [] {
      var dirs := s.roots[0].dirs;
      if dirs == [] {
        n := DrainLeaves(s.(roots := s.roots[1..]));
        RootDropped(s, Drain(s), n);
        n := n + 1;
      } else if s.mode == Delete && IsMarker(dirs[0]) {
        var u := Emit(WithDirs(s, dirs[1..]), [RemovalOf(dirs[0])]);
        n := DrainLeaves(u);
        LeavesOn(s, u, Drain(u), n);
      }
    }
  }

  lemma DrainNoted(s: State)
    requires Noted(s)
    ensures Noted(Drain(s))
  {
    var n := DrainLeaves(s);
    NotedStays(s, Drain(s), n);
  }

  lemma ReplacedNoted(s: State, dirs: seq<NewDir>, events: seq<Event>)
    requires Noted(s) && s.roots != []
    ensures Noted(NextOperation(Emit(WithDirs(s, dirs), events)))
  {
    NotedStays(s, Emit(WithDirs(s, dirs), events), 0);
    DrainNoted(Emit(WithDirs(s, dirs), events));
  }

  lemma VisitRoots(s: State, dir: NewDir, rest: seq<NewDir>, listing: Listing)
    requires s.roots != []
    ensures var t := Visit(s, dir, rest, listing);
            && |t.roots| == |s.roots| && t.roots[1..] == s.roots[1..] && t.roots[0].key == s.roots[0].key
            && t.roots[0].visited
               == s.roots[0].visited + if Uses(s, dir, listing.path) then {listing.path} else {}
  {
    VisitShape(s, dir, rest, listing);
  }

  lemma VisitNoted(s: State, dir: NewDir, rest: seq<NewDir>, listing: Listing)
    requires s.roots != [] && Noted(s)
    ensures Noted(Visit(s, dir, rest, listing))
  {
    var t := Visit(s, dir, rest, listing);
    VisitRoots(s, dir, rest, listing);
    VisitLogs(s, dir, rest, listing);
    forall r, path | 0 <= r < |t.roots| && path in t.roots[r].visited
      ensures exists i :: Visited(t.log, i, t.roots[r].key, path)
    {
      assert r > 0 ==> t.roots[r] == t.roots[1..][r - 1] == s.roots[r];
      if path in s.roots[r].visited {
        var i :| Visited(s.log, i, s.roots[r].key, path);
        assert Visited(t.log, i, t.roots[r].key, path);
      } else {
        assert Visited(t.log, |s.log|, t.roots[r].key, path);
      }
    }
  }

  lemma FailureNoted(s: State, error: bv32)
    requires s.mode != Idle && Waiting(s) && Noted(s)
    ensures Noted(OnFailure(s, error))
  {
    var f := s.(failed := true);
    var dir, rest := s.roots[0].dirs[0], s.roots[0].dirs[1..];
    assert Noted(f);
    ReplacedNoted(f, [dir.(secondTry := true)] + rest, []);
    EmitNothing(WithDirs(f, [dir.(secondTry := true)] + rest));
    ReplacedNoted(f, PushMarker(s.mode, dir, rest), if s.mode == ListOnly then [Unlistable(dir.Trail())] else []);
  }

  lemma NotDirNoted(s: State, connected: bool)
    requires s.mode != Idle && Waiting(s) && Noted(s)
    ensures Noted(OnNotDir(s, connected))
  {
    var dir, rest := s.roots[0].dirs[0], s.roots[0].dirs[1..];
    ReplacedNoted(s, rest, []);
    EmitNothing(WithDirs(s, rest));
    ReplacedNoted(s, rest, [DeleteFiles(dir.Trail(), dir.parent, [dir.subdir])]);
    ReplacedNoted(s, rest, [NoDirLink(dir.Trail(), dir.parent, dir.subdir)]);
  }

  lemma ListingNoted(s: State, listing: Listing)
    requires s.mode != Idle && Waiting(s) && Noted(s) && !listing.failed
    ensures Noted(OnListing(s, Some(listing)))
  {
    var rest := s.roots[0].dirs[1..];
    var (ok, dir) := BelowRoot(s.roots[0], s.roots[0].dirs[0], listing.path);
    if ok {
      VisitNoted(s, dir, rest, listing);
      DrainNoted(Visit(s, dir, rest, listing));
    } else {
      ReplacedNoted(s, rest, []);
      EmitNothing(WithDirs(s, rest));
    }
  }

  ghost predicate Sound(s: State) { Waiting(s) && Noted(s) && Once(s) }

  lemma StepSound(s: State, r: Reply)
    requires Sound(s)
    ensures Sound(Step(s, r))
  {
    StepOnce(s, r);
    if s.mode != Idle {
      var u, ask := StepLeads(s, r);
      if !Stays(s, Step(s, r)) { DrainCloses(u); }
      match r {
        case Listed(None) =>
        case Listed(Some(listing)) => if !listing.failed { ListingNoted(s, listing); }
        case ListingFailed(error) => FailureNoted(s, error);
        case LinkIsNotDir(connected) => NotDirNoted(s, connected);
      }
    }
  }

  lemma {:induction false} StepsSound(s: State, replies: seq<Reply>)
    requires Sound(s)
    ensures Sound(Steps(s, replies))
    decreases |replies|
  {
    if replies != [] {
      StepSound(s, replies[0]);
      StepsSound(Step(s, replies[0]), replies[1..]);
    }
  }

  lemma BegunSound(mode: Mode, roots: seq<Root>, files: bool, dirs: bool, nextId: nat, replies: seq<Reply>)
    requires mode != Idle && Numbered(roots, nextId) && forall r :: 0 <= r < |roots| ==> FreshRoot(roots[r])
    ensures Sound(Steps(Begin(mode, roots, files, dirs, nextId), replies))
  {
    var s := State(mode, roots, false, files, dirs, [], nextId);
    NextOnce(s);
    DrainCloses(s);
    DrainNoted(s);
    StepsSound(Drain(s), replies);
  }

  // ---------- main results ----------

  /** The listing lies below the link target the entry was found under, or, without one, in its root;
      the listing of a link that the user chose may lie anywhere then. */
  predicate Allowed(root: Root, entry: NewDir, path: ServerPath) {
    if entry.startDir.Empty() then
      || IsSubdirOf(path, root.startDir, false, false) || entry.link == 2
      || (root.allowParent && path == root.startDir)
    else IsSubdirOf(path, entry.startDir, false, false)
  }

  /** A link that is not to be followed. */
  predicate Unfollowed(entry: NewDir) { entry.link != 0 && !entry.recurse }

  /** Over every run: a listing is used at once, for the entry that was asked for, exactly if it lies
      where it may, was not used for that root before, and the entry is no link to be left alone. */
  lemma UsedExactly(mode: Mode, roots: seq<Root>, files: bool, dirs: bool, nextId: nat, replies: seq<Reply>,
                    listing: Listing)
    requires mode != Idle && Numbered(roots, nextId) && forall r :: 0 <= r < |roots| ==> FreshRoot(roots[r])
    requires Steps(Begin(mode, roots, files, dirs, nextId), replies).mode != Idle && !listing.failed
    ensures var s := Steps(Begin(mode, roots, files, dirs, nextId), replies);
            var t := Step(s, Listed(Some(listing)));
            && s.roots != [] && s.roots[0].dirs != [] && |s.log| < |t.log| && t.log[..|s.log|] == s.log
            && var root, entry, e := s.roots[0], s.roots[0].dirs[0], t.log[|s.log|];
            && (e.Processed? <==> Allowed(root, entry, listing.path) && !Unfollowed(entry)
                                  && forall i :: !Visited(s.log, i, root.key, listing.path))
            && (e.Processed? ==> e.listing == listing && e.dir.(startDir := entry.startDir) == entry
                                 && e.root.key == root.key)
  {
    BegunSound(mode, roots, files, dirs, nextId, replies);
    ListingIsUsed(Steps(Begin(mode, roots, files, dirs, nextId), replies), listing);
  }

  /** The first event of a reply with a listing. */
  lemma ListingLogs(s: State, listing: Listing)
    requires s.mode != Idle && Waiting(s) && !listing.failed
    ensures var t := Step(s, Listed(Some(listing)));
            var (ok, dir) := BelowRoot(s.roots[0], s.roots[0].dirs[0], listing.path);
            && |s.log| < |t.log| && t.log[..|s.log|] == s.log
            && var e := t.log[|s.log|];
            && (e.Processed? <==> ok && Uses(s, dir, listing.path))
            && (e.Processed? ==> e.listing == listing && e.dir == dir && e.root.key == s.roots[0].key)
  {
    var t := Step(s, Listed(Some(listing)));
    var (ok, dir) := BelowRoot(s.roots[0], s.roots[0].dirs[0], listing.path);
    var u, ask := ListingLeads(s, listing);
    DrainCloses(u);
    assert t.log[..|s.log|] == t.log[..|u.log|][..|s.log|];
    assert t.log[|s.log|] == if ask == [] then t.log[|u.log|] else t.log[..|u.log|][|s.log|];
    if ask != [] { VisitLogs(s, dir, s.roots[0].dirs[1..], listing); }
  }

  lemma AllowedExactly(root: Root, entry: NewDir, path: ServerPath)
    ensures var (ok, dir) := BelowRoot(root, entry, path);
            && (ok <==> Allowed(root, entry, path)) && dir.(startDir := entry.startDir) == entry
            && (dir.link != 0 && !dir.recurse <==> Unfollowed(entry))
  {}

  lemma ListingIsUsed(s: State, listing: Listing)
    requires Sound(s) && s.mode != Idle && !listing.failed
    ensures var t := Step(s, Listed(Some(listing)));
            && |s.log| < |t.log| && t.log[..|s.log|] == s.log
            && var root, entry, e := s.roots[0], s.roots[0].dirs[0], t.log[|s.log|];
            && (e.Processed? <==> Allowed(root, entry, listing.path) && !Unfollowed(entry)
                                  && forall i :: !Visited(s.log, i, root.key, listing.path))
            && (e.Processed? ==> e.listing == listing && e.dir.(startDir := entry.startDir) == entry
                                 && e.root.key == root.key)
  {
    ListingLogs(s, listing);
    AllowedExactly(s.roots[0], s.roots[0].dirs[0], listing.path);
    MarkedExactly(s, listing.path);
  }

  lemma MarkedExactly(s: State, path: ServerPath)
    requires Sound(s) && s.roots != []
    ensures path in s.roots[0].visited <==> exists i :: Visited(s.log, i, s.roots[0].key, path)
  {
  }

  lemma FrontLeaves(s: State)
    requires s.roots != [] && s.roots[0].dirs != []
    ensures Queue(s.roots) != [] && Queue(WithDirs(s, s.roots[0].dirs[1..]).roots) == Queue(s.roots)[1..]
  {
    QueueTop(s, []);
    assert [] + s.roots[0].dirs[1..] == s.roots[0].dirs[1..] && [] + Queue(s.roots)[1..] == Queue(s.roots)[1..];
  }

  lemma EmptyRootLeaves(s: State)
    requires s.roots != [] && s.roots[0].dirs == []
    ensures Queue(s.roots[1..]) == Queue(s.roots)
  {
    assert [] + Queue(s.roots[1..]) == Queue(s.roots[1..]);
  }

  /** What is still to be listed was so before the next operation was started. */
  lemma {:induction false} DrainOpens(s: State, k: int, x: int) returns (j: int)
    requires Open(Queue(Drain(s).roots), k, x)
    ensures Open(Queue(s.roots), j, x)
    decreases |s.roots|, if s.roots == [] then 0 else |s.roots[0].dirs|
  {
    j := k;
    if s.roots != [] {
      var dirs := s.roots[0].dirs;
      if dirs == [] {
        EmptyRootLeaves(s);
        j := DrainOpens(s.(roots := s.roots[1..]), k, x);
      } else if s.mode == Delete && IsMarker(dirs[0]) {
        FrontLeaves(s);
        j := DrainOpens(Emit(WithDirs(s, dirs[1..]), [RemovalOf(dirs[0])]), k, x);
        j := j + 1;
      }
    }
  }

  ghost predicate StillOpen(s: State, x: int) { exists k :: Open(Queue(s.roots), k, x) }

  /** The front entry is given up for others, which are not to be visited. */
  lemma GivenUp(s: State, top: seq<NewDir>, dirs: seq<NewDir>, events: seq<Event>)
    requires s.mode != Idle && OwnEntries(s) && dirs == top + s.roots[0].dirs[1..]
    requires forall d :: d in top ==> !d.doVisit
    ensures !StillOpen(NextOperation(Emit(WithDirs(s, dirs), events)), s.roots[0].dirs[0].id)
  {
    FrontHandled(s, top);
    var u, x := Emit(WithDirs(s, dirs), events), s.roots[0].dirs[0].id;
    forall k ensures !Open(Queue(Drain(u).roots), k, x) {
      if Open(Queue(Drain(u).roots), k, x) { var j := DrainOpens(u, k, x); }
    }
  }

  /** The first failure of an entry, neither the user's (bits 1 and 3 set) nor critical (bits 1 and 2). */
  predicate Transient(s: State, error: bv32)
    requires s.roots != [] && s.roots[0].dirs != []
  {
    error & 10 != 10 && error & 6 != 6 && !s.roots[0].dirs[0].secondTry
  }

  /** Over every run: a directory that could not be listed is asked for again, and then at once,
      exactly if the error is neither critical nor the user's and was its first one. */
  lemma RetriedExactly(mode: Mode, roots: seq<Root>, files: bool, dirs: bool, nextId: nat, replies: seq<Reply>,
                       error: bv32)
    requires mode != Idle && Numbered(roots, nextId) && forall r :: 0 <= r < |roots| ==> FreshRoot(roots[r])
    requires Steps(Begin(mode, roots, files, dirs, nextId), replies).mode != Idle
    ensures var s := Steps(Begin(mode, roots, files, dirs, nextId), replies);
            var t := Step(s, ListingFailed(error));
            && s.roots != [] && s.roots[0].dirs != []
            && var entry := s.roots[0].dirs[0];
            && (StillOpen(t, entry.id) <==> Transient(s, error))
            && (Transient(s, error) ==>
                  t == s.(failed := true, log := s.log + [ListingOf(entry)],
                          roots := s.roots[0 := s.roots[0].(dirs := s.roots[0].dirs[0 := entry.(secondTry := true)])]))
  {
    BegunOwn(mode, roots, files, dirs, nextId, replies);
    FailureRetries(Steps(Begin(mode, roots, files, dirs, nextId), replies), error);
  }

  lemma FailureRetries(s: State, error: bv32)
    requires s.mode != Idle && OwnEntries(s)
    ensures var t, entry := Step(s, ListingFailed(error)), s.roots[0].dirs[0];
            && (StillOpen(t, entry.id) <==> Transient(s, error))
            && (Transient(s, error) ==>
                  t == s.(failed := true, log := s.log + [ListingOf(entry)],
                          roots := s.roots[0 := s.roots[0].(dirs := s.roots[0].dirs[0 := entry.(secondTry := true)])]))
  {
    var f := s.(failed := true);
    var entry, rest := s.roots[0].dirs[0], s.roots[0].dirs[1..];
    if Transient(s, error) {
      var u := WithDirs(f, [entry.(secondTry := true)] + rest);
      QueueTop(f, [entry.(secondTry := true)]);
      QueueTop(s, []);
      assert [entry.(secondTry := true)] + rest == s.roots[0].dirs[0 := entry.(secondTry := true)];
      assert Open(Queue(u.roots), 0, entry.id);
    } else if !Canceled(error) {
      GivenUp(f, PushMarker(s.mode, entry, []), PushMarker(s.mode, entry, rest),
              if s.mode == ListOnly then [Unlistable(entry.Trail())] else []);
    }
  }

  /** A directory that is given up: a delete removes it all the same if it was to be recursed into and
      has a name, a listing hands it on as one that could not be listed. */
  lemma GivenUpIsHandled(s: State, error: bv32)
    requires s.mode != Idle && Waiting(s) && error & 10 != 10 && !Transient(s, error)
    ensures var entry, t := s.roots[0].dirs[0], Step(s, ListingFailed(error));
            && |s.log| < |t.log| && t.log[..|s.log|] == s.log
            && (s.mode == Delete && entry.doVisit && entry.recurse && entry.subdir != "" ==>
                  t.log[|s.log|] == RemoveDir(entry.Trail(), entry.parent, entry.subdir))
            && (t.log[|s.log|].Unlistable? <==> s.mode == ListOnly)
            && (s.mode == ListOnly ==> t.log[|s.log|] == Unlistable(entry.Trail()))
  {
    var u, ask := FailureLeads(s, error);
    var entry, rest := s.roots[0].dirs[0], s.roots[0].dirs[1..];
    DrainCloses(u);
    var t := Drain(u);
    assert t.log[..|s.log|] == t.log[..|u.log|][..|s.log|];
    if s.mode == Delete && Owed(s.mode, entry) {
      assert (PushMarker(s.mode, entry, rest))[1..] == rest;
      var v := Emit(WithDirs(u, rest), [RemovalOf(u.roots[0].dirs[0])]);
      assert t == Drain(v);
      DrainExtends(v);
      assert t.log[|s.log|] == t.log[..|v.log|][|s.log|];
    } else if s.mode == ListOnly {
      assert t.log[|s.log|] == t.log[..|u.log|][|s.log|];
    }
  }

  lemma DrainExtends(s: State)
    ensures s.log <= Drain(s).log
  {
    var n := DrainLeaves(s);
  }

  /** What is asked for a link that turned out to be no directory. */
  predicate Handles(mode: Mode, entry: NewDir, e: Event) {
    && (e.DeleteFiles? <==> mode == Delete && entry.subdir != "")
    && (e.DeleteFiles? ==> e == DeleteFiles(entry.Trail(), entry.parent, [entry.subdir]))
    && (e.NoDirLink? <==> mode != Delete && mode != ListOnly)
    && (e.NoDirLink? ==> e == NoDirLink(entry.Trail(), entry.parent, entry.subdir))
  }

  lemma LinkEvents(s: State)
    requires s.mode != Idle && Waiting(s)
    ensures var t := Step(s, LinkIsNotDir(true));
            |s.log| < |t.log| && t.log[..|s.log|] == s.log && Handles(s.mode, s.roots[0].dirs[0], t.log[|s.log|])
  {
    var u, ask := NotDirLeads(s, true);
    DrainCloses(u);
    var t := Drain(u);
    assert t.log[..|s.log|] == t.log[..|u.log|][..|s.log|];
    assert t.log[|s.log|] == if ask == [] then t.log[|u.log|] else t.log[..|u.log|][|s.log|];
  }

  lemma LinkCloses(s: State)
    requires s.mode != Idle && OwnEntries(s)
    ensures !StillOpen(Step(s, LinkIsNotDir(true)), s.roots[0].dirs[0].id)
  {
    var entry, rest := s.roots[0].dirs[0], s.roots[0].dirs[1..];
    assert [] + rest == rest;
    EmitNothing(WithDirs(s, rest));
    GivenUp(s, [], rest, []);
    GivenUp(s, [], rest, [DeleteFiles(entry.Trail(), entry.parent, [entry.subdir])]);
    GivenUp(s, [], rest, [NoDirLink(entry.Trail(), entry.parent, entry.subdir)]);
  }

  /** A link that turns out to be no directory is not visited any more: a delete asks for it to be
      deleted as a file, any other operation but a listing hands it on. */
  lemma LinkIsHandled(mode: Mode, roots: seq<Root>, files: bool, dirs: bool, nextId: nat, replies: seq<Reply>)
    requires mode != Idle && Numbered(roots, nextId) && forall r :: 0 <= r < |roots| ==> FreshRoot(roots[r])
    requires Steps(Begin(mode, roots, files, dirs, nextId), replies).mode != Idle
    ensures var s := Steps(Begin(mode, roots, files, dirs, nextId), replies);
            var t := Step(s, LinkIsNotDir(true));
            && s.roots != [] && s.roots[0].dirs != [] && |s.log| < |t.log| && t.log[..|s.log|] == s.log
            && !StillOpen(t, s.roots[0].dirs[0].id) && Handles(mode, s.roots[0].dirs[0], t.log[|s.log|])
  {
    BegunOwn(mode, roots, files, dirs, nextId, replies);
    BegunFaithful(mode, roots, files, dirs, nextId, replies);
    LinkEvents(Steps(Begin(mode, roots, files, dirs, nextId), replies));
    LinkCloses(Steps(Begin(mode, roots, files, dirs, nextId), replies));
  }

  /** A reply without a listing, and a failure that is the user's, end the operation with nothing more
      asked for; a listing that failed, and any reply to an operation that has ended, change nothing
      but what a failure notes. */
  lemma RepliesThatStop(s: State, error: bv32, listing: Listing, r: Reply)
    requires Waiting(s) && s.mode != Idle
    ensures Step(s, Listed(None)) == s.(mode := Idle, roots := [])
    ensures error & 10 == 10 ==> Step(s, ListingFailed(error)) == s.(mode := Idle, roots := [], failed := true)
    ensures listing.failed ==> Step(s, Listed(Some(listing))) == s
    ensures var ended := s.(mode := Idle, roots := []);
            Step(ended, r) == if r.ListingFailed? then ended.(failed := true) else ended
  {
  }
}
