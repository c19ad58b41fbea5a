/** Every recursive operation comes to an end, whatever the server replies. */
module RecursiveTermination {
  import opened Text
  import opened ServerPaths
  import opened RecursiveOperation

  /** Fresh entries weigh most, then retried ones, then those only waiting to be removed. */
  function Weight(d: NewDir): nat {
    1 + (if d.doVisit then 2 else 0) + (if d.secondTry then 0 else 1)
  }

  function Weights(dirs: seq<NewDir>): nat {
    if dirs == [] then 0 else Weight(dirs[0]) + Weights(dirs[1..])
  }

  function Unvisited(s: State, universe: set<ServerPath>): set<ServerPath>
    requires s.roots != []
  {
    universe - s.roots[0].visited
  }

  /** Fewer roots, or fewer unvisited paths, or less weight queued. */
  predicate Less(t: State, s: State, universe: set<ServerPath>) {
    || |t.roots| < |s.roots|
    || (&& |t.roots| == |s.roots| && s.roots != []
        && (|| |Unvisited(t, universe)| < |Unvisited(s, universe)|
            || (|Unvisited(t, universe)| == |Unvisited(s, universe)|
                && Weights(t.roots[0].dirs) < Weights(s.roots[0].dirs))))
  }

  predicate SameMeasure(t: State, s: State, universe: set<ServerPath>) {
    && |t.roots| == |s.roots|
    && (s.roots != [] ==>
          |Unvisited(t, universe)| == |Unvisited(s, universe)| && Weights(t.roots[0].dirs) == Weights(s.roots[0].dirs))
  }

  predicate AtMost(t: State, s: State, universe: set<ServerPath>) {
    Less(t, s, universe) || SameMeasure(t, s, universe)
  }

  /** A reply that is acted upon; its path, if it is a listing, is one of the server's. */
  predicate Effective(r: Reply, universe: set<ServerPath>) {
    r.Listed? && r.listing.Some? ==> !r.listing.value.failed && r.listing.value.path in universe
  }

  /** The operation waits for the reply to a listing of its front entry. */
  predicate Ready(s: State) {
    s.mode != Idle ==> s.roots != [] && s.roots[0].dirs != [] && !(s.mode == Delete && IsMarker(s.roots[0].dirs[0]))
  }

  lemma {:induction false} DrainAtMost(s: State, universe: set<ServerPath>)
    ensures var t := Drain(s); (t.mode == Idle && t.roots == []) || (t.mode == s.mode && AtMost(t, s, universe))
    ensures Ready(Drain(s))
    decreases |s.roots|, if s.roots == [] then 0 else |s.roots[0].dirs|
  {
    if s.roots != [] {
      var dirs := s.roots[0].dirs;
      if dirs == [] {
        DrainAtMost(s.(roots := s.roots[1..]), universe);
      } else if s.mode == Delete && IsMarker(dirs[0]) {
        DrainAtMost(Emit(WithDirs(s, dirs[1..]), [RemovalOf(dirs[0])]), universe);
      }
    }
  }

  /** Once the measure has gone down, issuing due removals keeps it down. */
  lemma NextAtMost(s: State, m: State, universe: set<ServerPath>)
    requires m.mode != Idle && Less(m, s, universe)
    ensures var t := NextOperation(m); (t.mode == Idle && t.roots == []) || (t.mode == m.mode && Less(t, s, universe))
    ensures Ready(NextOperation(m))
  {
    DrainAtMost(m, universe);
  }

  lemma PopIsLess(s: State, dirs: seq<NewDir>, universe: set<ServerPath>)
    requires s.roots != [] && s.roots[0].dirs != [] && Weights(dirs) < Weights(s.roots[0].dirs)
    ensures Less(WithDirs(s, dirs), s, universe)
  {}

  lemma MarkerWeighsLess(mode: Mode, dir: NewDir, dirs: seq<NewDir>)
    requires dirs != [] && (Owed(mode, dir) ==> Weight(dir) <= Weight(dirs[0]))
    ensures Weights(PushMarker(mode, dir, dirs[1..])) < Weights(dirs)
  {
    if Owed(mode, dir) {
      var m := PushMarker(mode, dir, dirs[1..]);
      assert m[1..] == dirs[1..];
    }
  }

  predicate Uses(s: State, dir: NewDir, path: ServerPath)
    requires s.roots != []
  {
    !(dir.link != 0 && !dir.recurse) && path !in s.roots[0].visited
  }

  lemma VisitShape(s: State, dir: NewDir, rest: seq<NewDir>, listing: Listing)
    requires s.roots != []
    ensures var t := Visit(s, dir, rest, listing);
            && t.mode == s.mode && |t.roots| == |s.roots|
            && (if Uses(s, dir, listing.path) then t.roots[0].visited == s.roots[0].visited + {listing.path}
                else t.roots[0].visited == s.roots[0].visited && t.roots[0].dirs == PushMarker(s.mode, dir, rest))
  {}

  lemma VisitIsLess(s: State, dir: NewDir, listing: Listing, universe: set<ServerPath>)
    requires s.roots != [] && s.roots[0].dirs != [] && listing.path in universe
    requires Weight(dir) <= Weight(s.roots[0].dirs[0])
    ensures var t := Visit(s, dir, s.roots[0].dirs[1..], listing); t.mode == s.mode && Less(t, s, universe)
  {
    var dirs := s.roots[0].dirs;
    MarkerWeighsLess(s.mode, dir, dirs);
    VisitShape(s, dir, dirs[1..], listing);
    if Uses(s, dir, listing.path) {
      var before, now := universe - s.roots[0].visited, universe - (s.roots[0].visited + {listing.path});
      assert before == now + {listing.path} && listing.path !in now;
    }
  }

  /** Each reply that is acted upon brings the end nearer. */
  lemma StepDecreases(s: State, r: Reply, universe: set<ServerPath>)
    requires s.mode != Idle && Ready(s) && Effective(r, universe)
    ensures var t := Step(s, r); (t.mode == Idle && t.roots == []) || (t.mode == s.mode && Less(t, s, universe))
    ensures Ready(Step(s, r))
  {
    var dirs := s.roots[0].dirs;
    var front, rest := dirs[0], dirs[1..];
    PopIsLess(s, rest, universe);
    match r {
      case Listed(None) =>
      case Listed(Some(listing)) =>
        var (ok, dir) := BelowRoot(s.roots[0], front, listing.path);
        if !ok {
          NextAtMost(s, WithDirs(s, rest), universe);
        } else {
          VisitIsLess(s, dir, listing, universe);
          NextAtMost(s, Visit(s, dir, rest, listing), universe);
        }
      case ListingFailed(error) =>
        FailureDecreases(s, error, universe);
      case LinkIsNotDir(connected) =>
        NotDirDecreases(s, connected, universe);
    }
  }

  lemma FailureDecreases(s: State, error: bv32, universe: set<ServerPath>)
    requires s.mode != Idle && Ready(s)
    ensures var t := OnFailure(s, error);
            (t.mode == Idle && t.roots == []) || (t.mode == s.mode && Less(t, s, universe))
    ensures Ready(OnFailure(s, error))
  {
    var f := s.(failed := true);
    var dirs := s.roots[0].dirs;
    var dir, rest := dirs[0], dirs[1..];
    if Canceled(error) {
    } else if !Critical(error) && !dir.secondTry {
      var again := [dir.(secondTry := true)] + rest;
      assert again[1..] == rest;
      PopIsLess(f, again, universe);
      NextAtMost(s, WithDirs(f, again), universe);
    } else {
      MarkerWeighsLess(s.mode, dir, dirs);
      PopIsLess(f, PushMarker(s.mode, dir, rest), universe);
      var events := if s.mode == ListOnly then [Unlistable(dir.Trail())] else [];
      NextAtMost(s, Emit(WithDirs(f, PushMarker(s.mode, dir, rest)), events), universe);
    }
  }

  lemma NotDirDecreases(s: State, connected: bool, universe: set<ServerPath>)
    requires s.mode != Idle && Ready(s)
    ensures var t := OnNotDir(s, connected);
            (t.mode == Idle && t.roots == []) || (t.mode == s.mode && Less(t, s, universe))
    ensures Ready(OnNotDir(s, connected))
  {
    var dir, rest := s.roots[0].dirs[0], s.roots[0].dirs[1..];
    var t := WithDirs(s, rest);
    PopIsLess(s, rest, universe);
    var m := if !connected then t
             else if s.mode == Delete then
               if dir.subdir != "" then Emit(t, [DeleteFiles(dir.Trail(), dir.parent, [dir.subdir])]) else t
             else if s.mode != ListOnly then Emit(t, [NoDirLink(dir.Trail(), dir.parent, dir.subdir)])
             else t;
    NextAtMost(s, m, universe);
  }

  /** The state after the first n replies of an endless supply, from number start on. */
  ghost function After(s: State, replies: nat -> Reply, start: nat, n: nat): State
    decreases n
  {
    if n == 0 then s else After(Step(s, replies(start)), replies, start + 1, n - 1)
  }

  /** Whatever the replies, as long as their paths come from a finite set: after finitely many
      of them the operation is over and no root is left. */
  lemma {:induction false} EveryOperationEnds(s: State, replies: nat -> Reply, start: nat, universe: set<ServerPath>)
    requires Ready(s) && (s.mode == Idle ==> s.roots == [])
    requires forall n: nat :: Effective(replies(n), universe)
    ensures exists n: nat :: After(s, replies, start, n).mode == Idle && After(s, replies, start, n).roots == []
    decreases |s.roots|, if s.roots == [] then 0 else |Unvisited(s, universe)|,
              if s.roots == [] then 0 else Weights(s.roots[0].dirs)
  {
    if s.mode == Idle {
      assert After(s, replies, start, 0) == s;
    } else {
      var t := Step(s, replies(start));
      StepDecreases(s, replies(start), universe);
      if t.mode == Idle {
        assert After(s, replies, start, 1) == After(t, replies, start + 1, 0) == t;
      } else {
        EveryOperationEnds(t, replies, start + 1, universe);
        var n: nat :| After(t, replies, start + 1, n).mode == Idle && After(t, replies, start + 1, n).roots == [];
        assert After(s, replies, start, n + 1) == After(t, replies, start + 1, n);
      }
    }
  }

  /** In particular an operation just started, on whatever roots. */
  lemma StartedOperationEnds(mode: Mode, roots: seq<Root>, chmodFiles: bool, chmodDirs: bool, nextId: nat,
                             replies: nat -> Reply, universe: set<ServerPath>)
    requires mode != Idle
    requires forall n: nat :: Effective(replies(n), universe)
    ensures var s := Begin(mode, roots, chmodFiles, chmodDirs, nextId);
            exists n: nat :: After(s, replies, 0, n).mode == Idle && After(s, replies, 0, n).roots == []
  {
    DrainAtMost(State(mode, roots, false, chmodFiles, chmodDirs, [], nextId), universe);
    EveryOperationEnds(Begin(mode, roots, chmodFiles, chmodDirs, nextId), replies, 0, universe);
  }
}
