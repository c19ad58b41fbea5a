/** What a recursive operation must ask for when it uses a listing: each selected entry is handed on,
    deleted or changed, as the mode demands, once and with nothing left out. */
module RecursiveAnswers {
  import opened Text
  import opened ServerPaths
  import opened RecursiveOperation
  import opened RecursiveTermination
  import opened RecursiveOrder
  import opened RecursiveDelete

  // ---------- what is demanded ----------

  /** A restricted directory is about the entry of one name, any other about all that no filter holds back. */
  predicate Chosen(dir: NewDir, e: DirEntry) {
    match dir.restricted
    case None => !e.filtered
    case Some(name) => e.name == name
  }

  /** Directories are gone into; a delete takes a link to one for a file. */
  predicate Descends(mode: Mode, e: DirEntry) {
    if mode == Delete then e.isDir && !e.isLink else e.isDir
  }

  function Files(mode: Mode, dir: NewDir, listing: Listing): set<nat> {
    set k: nat | k < |listing.entries| && Chosen(dir, listing.entries[k]) && !Descends(mode, listing.entries[k])
  }

  function Changes(files: bool, dirs: bool, dir: NewDir, listing: Listing): set<nat> {
    set k: nat | k < |listing.entries| && Chosen(dir, listing.entries[k])
                 && ((files && !listing.entries[k].isDir) || (dirs && listing.entries[k].isDir))
  }

  /** f lists these numbers, each once, from the largest to the smallest. */
  ghost predicate Lists(f: seq<nat>, wanted: set<nat>) {
    && (forall x, y :: 0 <= x < y < |f| ==> f[x] > f[y])
    && (forall k :: k in f <==> k in wanted)
  }

  predicate NamesOf(f: seq<nat>, listing: Listing, names: seq<string>) {
    |names| == |f| && forall x :: 0 <= x < |f| ==> f[x] < |listing.entries| && names[x] == listing.entries[f[x]].name
  }

  /** The events that follow the use of a listing: one for each number in f, or a single one for all. */
  ghost predicate Answers(mode: Mode, files: bool, dirs: bool, e: Event, block: seq<Event>, f: seq<nat>,
                          names: seq<string>)
    requires e.Processed?
  {
    NamesOf(f, e.listing, names) &&
    match mode
    case Transfer =>
      Lists(f, Files(mode, e.dir, e.listing)) &&
      if e.listing.entries == [] then block == [EmptyDir(e.trail)]
      else |block| == |f| && forall x :: 0 <= x < |f| ==> block[x] == FileFound(e.trail, e.listing.path, names[x])
    case TransferFlatten =>
      Lists(f, Files(mode, e.dir, e.listing))
      && |block| == |f| && forall x :: 0 <= x < |f| ==> block[x] == FileFound(e.trail, e.listing.path, names[x])
    case Delete =>
      Lists(f, Files(mode, e.dir, e.listing))
      && block == if f == [] then [] else [DeleteFiles(e.trail, e.listing.path, names)]
    case Chmod =>
      Lists(f, Changes(files, dirs, e.dir, e.listing))
      && |block| == |f| && forall x :: 0 <= x < |f| ==> block[x] == SetMode(e.trail, e.listing.path, names[x])
    case _ => f == [] && block == []
  }

  // ---------- the entries of one listing ----------

  function Picked(n: nat, wanted: set<nat>, k: nat): seq<nat>
    requires k <= n
    decreases n - k
  {
    if k == n then [] else Picked(n, wanted, k + 1) + if k in wanted then [k] else []
  }

  lemma {:induction false} PickedLists(n: nat, wanted: set<nat>, k: nat)
    requires k <= n
    ensures var f := Picked(n, wanted, k);
            && (forall x, y :: 0 <= x < y < |f| ==> f[x] > f[y])
            && (forall j :: j in f <==> k <= j < n && j in wanted)
    decreases n - k
  {
    if k < n {
      PickedLists(n, wanted, k + 1);
      var f, g := Picked(n, wanted, k + 1), Picked(n, wanted, k);
      assert forall x :: 0 <= x < |f| ==> f[x] in f;
      assert forall j :: j in g <==> j in f || (j == k && k in wanted);
    }
  }

  function NamesAt(f: seq<nat>, listing: Listing): (names: seq<string>)
    requires forall x :: 0 <= x < |f| ==> f[x] < |listing.entries|
    ensures NamesOf(f, listing, names)
  {
    seq(|f|, x requires 0 <= x < |f| => listing.entries[f[x]].name)
  }

  lemma {:induction false} FilesAreFound(s: State, dir: NewDir, listing: Listing, k: nat)
    requires k <= |listing.entries| && (s.mode == Transfer || s.mode == TransferFlatten)
    ensures var f := Picked(|listing.entries|, Files(s.mode, dir, listing), k);
            var events := AllEntryEvents(s, dir, listing, k);
            |events| == |f| && forall x :: 0 <= x < |f| ==>
              f[x] < |listing.entries| && events[x] == FileFound(dir.Trail(), listing.path, listing.entries[f[x]].name)
    decreases |listing.entries| - k
  {
    if k < |listing.entries| { FilesAreFound(s, dir, listing, k + 1); }
  }

  lemma {:induction false} ModesAreSet(s: State, dir: NewDir, listing: Listing, k: nat)
    requires k <= |listing.entries| && s.mode == Chmod
    ensures var f := Picked(|listing.entries|, Changes(s.chmodFiles, s.chmodDirs, dir, listing), k);
            var events := AllEntryEvents(s, dir, listing, k);
            |events| == |f| && forall x :: 0 <= x < |f| ==>
              f[x] < |listing.entries| && events[x] == SetMode(dir.Trail(), listing.path, listing.entries[f[x]].name)
    decreases |listing.entries| - k
  {
    if k < |listing.entries| { ModesAreSet(s, dir, listing, k + 1); }
  }

  lemma {:induction false} FilesAreDeleted(dir: NewDir, listing: Listing, k: nat)
    requires k <= |listing.entries|
    ensures var f := Picked(|listing.entries|, Files(Delete, dir, listing), k);
            NamesOf(f, listing, FilesToDelete(dir, listing, k))
    decreases |listing.entries| - k
  {
    if k < |listing.entries| { FilesAreDeleted(dir, listing, k + 1); }
  }

  lemma {:induction false} NothingIsAsked(s: State, dir: NewDir, listing: Listing, k: nat)
    requires k <= |listing.entries| && (s.mode == Delete || s.mode == ListOnly || s.mode == Idle)
    ensures AllEntryEvents(s, dir, listing, k) == []
    decreases |listing.entries| - k
  {
    if k < |listing.entries| { NothingIsAsked(s, dir, listing, k + 1); }
  }

  /** What follows the use of a listing, as the steps log it. */
  function Block(s: State, dir: NewDir, listing: Listing): seq<Event> {
    if listing.entries == [] && s.mode == Transfer then [EmptyDir(dir.Trail())]
    else
      var files := FilesToDelete(dir, listing, 0);
      AllEntryEvents(s, dir, listing, 0)
      + if s.mode == Delete && files != [] then [DeleteFiles(dir.Trail(), listing.path, files)] else []
  }

  lemma DeletionAnswers(s: State, e: Event) returns (f: seq<nat>, names: seq<string>)
    requires e.Processed? && e.trail == e.dir.Trail() && s.mode == Delete
    ensures Answers(s.mode, s.chmodFiles, s.chmodDirs, e, Block(s, e.dir, e.listing), f, names)
  {
    var n := |e.listing.entries|;
    f := Picked(n, Files(Delete, e.dir, e.listing), 0);
    PickedLists(n, Files(Delete, e.dir, e.listing), 0);
    names := FilesToDelete(e.dir, e.listing, 0);
    FilesAreDeleted(e.dir, e.listing, 0);
    NothingIsAsked(s, e.dir, e.listing, 0);
  }

  lemma TransferAnswers(s: State, e: Event) returns (f: seq<nat>, names: seq<string>)
    requires e.Processed? && e.trail == e.dir.Trail() && (s.mode == Transfer || s.mode == TransferFlatten)
    ensures Answers(s.mode, s.chmodFiles, s.chmodDirs, e, Block(s, e.dir, e.listing), f, names)
  {
    var n := |e.listing.entries|;
    f := Picked(n, Files(s.mode, e.dir, e.listing), 0);
    PickedLists(n, Files(s.mode, e.dir, e.listing), 0);
    FilesAreFound(s, e.dir, e.listing, 0);
    names := NamesAt(f, e.listing);
    assert AllEntryEvents(s, e.dir, e.listing, 0) + [] == AllEntryEvents(s, e.dir, e.listing, 0);
  }

  lemma ChangesAnswer(s: State, e: Event) returns (f: seq<nat>, names: seq<string>)
    requires e.Processed? && e.trail == e.dir.Trail() && s.mode == Chmod
    ensures Answers(s.mode, s.chmodFiles, s.chmodDirs, e, Block(s, e.dir, e.listing), f, names)
  {
    var n := |e.listing.entries|;
    var wanted := Changes(s.chmodFiles, s.chmodDirs, e.dir, e.listing);
    f := Picked(n, wanted, 0);
    PickedLists(n, wanted, 0);
    ModesAreSet(s, e.dir, e.listing, 0);
    names := NamesAt(f, e.listing);
    assert AllEntryEvents(s, e.dir, e.listing, 0) + [] == AllEntryEvents(s, e.dir, e.listing, 0);
  }

  lemma BlockAnswers(s: State, e: Event) returns (f: seq<nat>, names: seq<string>)
    requires e.Processed? && e.trail == e.dir.Trail() && s.mode != Idle
    ensures Answers(s.mode, s.chmodFiles, s.chmodDirs, e, Block(s, e.dir, e.listing), f, names)
  {
    match s.mode
    case Delete => f, names := DeletionAnswers(s, e);
    case Chmod => f, names := ChangesAnswer(s, e);
    case ListOnly =>
      NothingIsAsked(s, e.dir, e.listing, 0);
      f, names := [], [];
    case _ => f, names := TransferAnswers(s, e);
  }

  // ---------- the events of one reply ----------

  /** The events that end the handling of a reply. */
  predicate Closes(e: Event) { e.ListDir? || e.RemoveDir? || e.Finished? }

  /** The operation waits for the reply to the request it made last. */
  predicate Waiting(s: State) {
    if s.mode == Idle then s.roots == [] else Ready(s) && EndsWithListing(s)
  }

  /** The second log goes on from the first, with events that close. */
  predicate GoesOn(log: seq<Event>, more: seq<Event>) {
    && |log| < |more| && more[..|log|] == log
    && forall x :: |log| <= x < |more| ==> Closes(more[x])
  }

  lemma ClosesBehind(log: seq<Event>, e: Event, more: seq<Event>)
    requires Closes(e) && GoesOn(log + [e], more)
    ensures GoesOn(log, more)
  {
    assert more[..|log|] == more[..|log| + 1][..|log|] == log;
    assert more[|log|] == more[..|log| + 1][|log|];
  }

  predicate SameChoice(s: State, t: State) {
    t.chmodFiles == s.chmodFiles && t.chmodDirs == s.chmodDirs
  }

  lemma {:induction false} DrainCloses(s: State)
    requires s.mode != Idle
    ensures var t := Drain(s);
            && GoesOn(s.log, t.log) && SameChoice(s, t) && Waiting(t) && (t.mode == Idle || t.mode == s.mode)
            && (t.mode == Idle ==> Completed(t) && t.roots == [])
    decreases |s.roots|, if s.roots == [] then 0 else |s.roots[0].dirs|
  {
    if s.roots != [] {
      var dirs := s.roots[0].dirs;
      if dirs == [] {
        DrainCloses(s.(roots := s.roots[1..]));
      } else if s.mode == Delete && IsMarker(dirs[0]) {
        var u := Emit(WithDirs(s, dirs[1..]), [RemovalOf(dirs[0])]);
        DrainCloses(u);
        ClosesBehind(s.log, RemovalOf(dirs[0]), Drain(u).log);
      }
    }
  }

  /** The listing is used: what Visit logs. */
  lemma VisitLogs(s: State, dir: NewDir, rest: seq<NewDir>, listing: Listing)
    requires s.roots != []
    ensures var t := Visit(s, dir, rest, listing);
            var e := Processed(dir.Trail(), WithDirs(s, PushMarker(s.mode, dir, rest)).roots[0], listing, dir);
            && SameChoice(s, t) && t.mode == s.mode
            && t.log == if Uses(s, dir, listing.path) then s.log + [e] + Block(s, dir, listing) else s.log
  {
    var t := WithDirs(s, PushMarker(s.mode, dir, rest));
    var e := Processed(dir.Trail(), t.roots[0], listing, dir);
    if Uses(s, dir, listing.path) && !(listing.entries == [] && s.mode == Transfer) {
      var u := Emit(t.(roots := t.roots[0 := t.roots[0].(visited := t.roots[0].visited + {listing.path})]), [e]);
      SameEvents(u, s, dir, listing, 0);
      var files := FilesToDelete(dir, listing, 0);
      var last := if s.mode == Delete && files != [] then [DeleteFiles(dir.Trail(), listing.path, files)] else [];
      assert u.log + AllEntryEvents(u, dir, listing, 0) + last == u.log + (AllEntryEvents(u, dir, listing, 0) + last);
    }
  }

  lemma {:induction false} SameEvents(u: State, s: State, dir: NewDir, listing: Listing, k: nat)
    requires k <= |listing.entries| && SameChoice(s, u) && u.mode == s.mode
    ensures AllEntryEvents(u, dir, listing, k) == AllEntryEvents(s, dir, listing, k)
    decreases |listing.entries| - k
  {
    if k < |listing.entries| { SameEvents(u, s, dir, listing, k + 1); }
  }

  /** Requests that do not follow the use of a listing. */
  predicate Aside(e: Event) { e.Unlistable? || e.DeleteFiles? || e.NoDirLink? }

  /** What a reply adds to the log before the next operation is started. */
  ghost predicate Asks(s: State, ask: seq<Event>) {
    || (forall x :: 0 <= x < |ask| ==> Aside(ask[x]))
    || (ask != [] && ask[0].Processed? && ask[0].trail == ask[0].dir.Trail()
        && ask[1..] == Block(s, ask[0].dir, ask[0].listing))
  }

  predicate Stays(s: State, t: State) {
    t.log == s.log && SameChoice(s, t) && (t == s || (t.mode == Idle && t.roots == []))
  }

  /** The state from which the next operation is started, and what was logged until then. */
  ghost predicate Leads(s: State, u: State, ask: seq<Event>) {
    u.mode == s.mode && SameChoice(s, u) && u.log == s.log + ask && Asks(s, ask)
  }

  lemma ListingLeads(s: State, listing: Listing) returns (u: State, ask: seq<Event>)
    requires s.mode != Idle && Waiting(s) && !listing.failed
    ensures Leads(s, u, ask) && OnListing(s, Some(listing)) == Drain(u)
    ensures var (ok, dir) := BelowRoot(s.roots[0], s.roots[0].dirs[0], listing.path);
            && (ask != [] <==> ok && Uses(s, dir, listing.path))
            && (ask != [] ==> u == Visit(s, dir, s.roots[0].dirs[1..], listing)
                              && ask[0].Processed? && ask[0].dir == dir && ask[0].listing == listing)
  {
    var front, rest := s.roots[0].dirs[0], s.roots[0].dirs[1..];
    var (ok, dir) := BelowRoot(s.roots[0], front, listing.path);
    u := if ok then Visit(s, dir, rest, listing) else WithDirs(s, rest);
    ask := [];
    assert s.log + ask == s.log;
    if ok {
      VisitLogs(s, dir, rest, listing);
      if Uses(s, dir, listing.path) {
        var e := Processed(dir.Trail(), WithDirs(s, PushMarker(s.mode, dir, rest)).roots[0], listing, dir);
        ask := [e] + Block(s, dir, listing);
        assert s.log + [e] + Block(s, dir, listing) == s.log + ask;
        assert ask[1..] == Block(s, dir, listing);
      }
    }
  }

  lemma FailureLeads(s: State, error: bv32) returns (u: State, ask: seq<Event>)
    requires s.mode != Idle && Waiting(s) && !Canceled(error)
    ensures Leads(s, u, ask) && OnFailure(s, error) == Drain(u)
    ensures var f, dir, rest := s.(failed := true), s.roots[0].dirs[0], s.roots[0].dirs[1..];
            Critical(error) || dir.secondTry ==>
              && ask == (if s.mode == ListOnly then [Unlistable(dir.Trail())] else [])
              && u == Emit(WithDirs(f, PushMarker(s.mode, dir, rest)), ask)
  {
    var f := s.(failed := true);
    var dir, rest := s.roots[0].dirs[0], s.roots[0].dirs[1..];
    if !Critical(error) && !dir.secondTry {
      u, ask := WithDirs(f, [dir.(secondTry := true)] + rest), [];
      assert s.log + ask == s.log;
    } else {
      ask := if s.mode == ListOnly then [Unlistable(dir.Trail())] else [];
      u := Emit(WithDirs(f, PushMarker(s.mode, dir, rest)), ask);
    }
  }

  lemma NotDirLeads(s: State, connected: bool) returns (u: State, ask: seq<Event>)
    requires s.mode != Idle && Waiting(s)
    ensures Leads(s, u, ask) && OnNotDir(s, connected) == Drain(u)
    ensures forall x :: 0 <= x < |ask| ==> Aside(ask[x])
    ensures ask == (if !connected || s.mode == ListOnly || (s.mode == Delete && s.roots[0].dirs[0].subdir == "") then []
                    else var d := s.roots[0].dirs[0];
                         if s.mode == Delete then [DeleteFiles(d.Trail(), d.parent, [d.subdir])]
                         else [NoDirLink(d.Trail(), d.parent, d.subdir)])
  {
    var dir, rest := s.roots[0].dirs[0], s.roots[0].dirs[1..];
    ask := if !connected || s.mode == ListOnly || (s.mode == Delete && dir.subdir == "") then []
           else if s.mode == Delete then [DeleteFiles(dir.Trail(), dir.parent, [dir.subdir])]
           else [NoDirLink(dir.Trail(), dir.parent, dir.subdir)];
    u := Emit(WithDirs(s, rest), ask);
    EmitNothing(WithDirs(s, rest));
  }

  /** A reply changes nothing, ends the operation early, or leads on to the next operation. */
  lemma StepLeads(s: State, r: Reply) returns (u: State, ask: seq<Event>)
    requires s.mode != Idle && Waiting(s)
    ensures Stays(s, Step(s, r)) || (Leads(s, u, ask) && Step(s, r) == Drain(u))
  {
    u, ask := s, [];
    match r
    case Listed(None) =>
    case Listed(Some(listing)) => if !listing.failed { u, ask := ListingLeads(s, listing); }
    case ListingFailed(error) => if !Canceled(error) { u, ask := FailureLeads(s, error); }
    case LinkIsNotDir(connected) => u, ask := NotDirLeads(s, connected);
  }

  // ---------- every entry is answered ----------

  ghost predicate AnsweredBy(mode: Mode, files: bool, dirs: bool, log: seq<Event>, i: int, m: int,
                             f: seq<nat>, names: seq<string>) {
    && 0 <= i < m < |log| && log[i].Processed? && Closes(log[m])
    && Answers(mode, files, dirs, log[i], log[i + 1..m], f, names)
  }

  ghost predicate IsAnswered(mode: Mode, files: bool, dirs: bool, log: seq<Event>, i: int) {
    exists m, f, names :: AnsweredBy(mode, files, dirs, log, i, m, f, names)
  }

  ghost predicate Answered(mode: Mode, files: bool, dirs: bool, log: seq<Event>) {
    forall i :: 0 <= i < |log| && log[i].Processed? ==> IsAnswered(mode, files, dirs, log, i)
  }

  predicate HandsOn(e: Event) { e.FileFound? || e.SetMode? }

  /** Event p is among those that directly follow the use i of a listing for the same entry. */
  predicate HandedOnBy(log: seq<Event>, p: int, i: int) {
    && 0 <= i < p < |log| && log[i].Processed? && HandsOn(log[p]) && log[i].trail == log[p].trail
    && forall x :: i < x < p ==> HandsOn(log[x])
  }

  ghost predicate NothingElse(log: seq<Event>) {
    forall p :: 0 <= p < |log| && HandsOn(log[p]) ==> exists i :: HandedOnBy(log, p, i)
  }

  lemma AnsweredStays(mode: Mode, files: bool, dirs: bool, log: seq<Event>, more: seq<Event>, i: nat)
    requires IsAnswered(mode, files, dirs, log, i)
    ensures IsAnswered(mode, files, dirs, log + more, i)
  {
    var m, f, names :| AnsweredBy(mode, files, dirs, log, i, m, f, names);
    assert (log + more)[i + 1..m] == log[i + 1..m];
    assert AnsweredBy(mode, files, dirs, log + more, i, m, f, names);
  }

  /** The events right behind a log: those asked for, and at least one that closes. */
  lemma AskedAnswered(s: State, log: seq<Event>, ask: seq<Event>, closing: seq<Event>, i: nat)
    returns (m: nat, f: seq<nat>, names: seq<string>)
    requires s.mode != Idle && Asks(s, ask) && closing != [] && forall x :: 0 <= x < |closing| ==> Closes(closing[x])
    requires |log| <= i < |log + ask + closing| && (log + ask + closing)[i].Processed?
    ensures AnsweredBy(s.mode, s.chmodFiles, s.chmodDirs, log + ask + closing, i, m, f, names)
  {
    var l := log + ask + closing;
    AskedFirst(s, log, ask, closing, i);
    m := |log| + |ask|;
    f, names := BlockAnswers(s, ask[0]);
    assert l[i + 1..m] == ask[1..];
    assert l[m] == closing[0];
  }

  /** Only the first of the events asked for can be the use of a listing. */
  lemma AskedFirst(s: State, log: seq<Event>, ask: seq<Event>, closing: seq<Event>, i: nat)
    requires Asks(s, ask) && forall x :: 0 <= x < |closing| ==> Closes(closing[x])
    requires |log| <= i < |log + ask + closing| && (log + ask + closing)[i].Processed?
    ensures i == |log| && ask != [] && (log + ask + closing)[i] == ask[0]
    ensures ask[0].Processed? && ask[0].trail == ask[0].dir.Trail()
    ensures ask[1..] == Block(s, ask[0].dir, ask[0].listing)
  {
    var l := log + ask + closing;
    assert forall x :: |log| <= x < |l| ==>
      l[x] == if x < |log| + |ask| then ask[x - |log|] else closing[x - |log| - |ask|];
    if i < |log| + |ask| && i != |log| { BlockIsQuiet(s, ask[0].dir, ask[0].listing); }
    assert forall x :: 0 < x < |ask| ==> ask[x] == ask[1..][x - 1];
  }

  lemma BlockIsQuiet(s: State, dir: NewDir, listing: Listing)
    ensures Quiet(Block(s, dir, listing))
  {
    EntryEventsQuiet(s, dir, listing, 0);
  }

  lemma AllAnswered(s: State, ask: seq<Event>, closing: seq<Event>)
    requires s.mode != Idle && Answered(s.mode, s.chmodFiles, s.chmodDirs, s.log) && Asks(s, ask)
    requires closing != [] && forall x :: 0 <= x < |closing| ==> Closes(closing[x])
    ensures Answered(s.mode, s.chmodFiles, s.chmodDirs, s.log + ask + closing)
  {
    var l := s.log + ask + closing;
    assert l == s.log + (ask + closing);
    forall i | 0 <= i < |l| && l[i].Processed? ensures IsAnswered(s.mode, s.chmodFiles, s.chmodDirs, l, i) {
      if i < |s.log| {
        assert l[i] == s.log[i];
        AnsweredStays(s.mode, s.chmodFiles, s.chmodDirs, s.log, ask + closing, i);
      } else {
        var m, f, names := AskedAnswered(s, s.log, ask, closing, i);
      }
    }
  }

  /** Every event hands something on for the entry of this trail. */
  predicate AllHand(events: seq<Event>, trail: seq<nat>) {
    forall x :: 0 <= x < |events| ==> HandsOn(events[x]) && events[x].trail == trail
  }

  lemma BothHand(a: seq<Event>, b: seq<Event>, trail: seq<nat>)
    requires AllHand(a, trail) && AllHand(b, trail)
    ensures AllHand(a + b, trail)
  {}

  lemma {:induction false} EventsHand(s: State, dir: NewDir, listing: Listing, k: nat)
    requires k <= |listing.entries|
    ensures AllHand(AllEntryEvents(s, dir, listing, k), dir.Trail())
    decreases |listing.entries| - k
  {
    if k < |listing.entries| {
      EventsHand(s, dir, listing, k + 1);
      var e := listing.entries[k];
      var found := if Selected(dir, e) && !IsVisitable(s.mode, e) && (s.mode == Transfer || s.mode == TransferFlatten)
                   then [FileFound(dir.Trail(), listing.path, e.name)] else [];
      var change := if Selected(dir, e) && s.mode == Chmod && (if e.isDir then s.chmodDirs else s.chmodFiles)
                 then [SetMode(dir.Trail(), listing.path, e.name)] else [];
      BothHand(found, change, dir.Trail());
      BothHand(AllEntryEvents(s, dir, listing, k + 1), found + change, dir.Trail());
    }
  }

  /** In a block, files are handed on and permissions set before anything else, for the block's entry. */
  lemma BlockHands(s: State, dir: NewDir, listing: Listing, x: nat)
    requires x < |Block(s, dir, listing)| && HandsOn(Block(s, dir, listing)[x])
    ensures Block(s, dir, listing)[x].trail == dir.Trail()
    ensures forall y :: 0 <= y < x ==> HandsOn(Block(s, dir, listing)[y])
  {
    EventsHand(s, dir, listing, 0);
    var a, block := AllEntryEvents(s, dir, listing, 0), Block(s, dir, listing);
    assert x < |a| && forall y :: 0 <= y <= x ==> block[y] == a[y];
  }

  lemma AskedHands(s: State, log: seq<Event>, ask: seq<Event>, closing: seq<Event>, p: nat)
    requires Asks(s, ask) && forall x :: 0 <= x < |closing| ==> Closes(closing[x])
    requires |log| <= p < |log + ask + closing| && HandsOn((log + ask + closing)[p])
    ensures HandedOnBy(log + ask + closing, p, |log|)
  {
    var l := log + ask + closing;
    assert forall x :: |log| + |ask| <= x < |l| ==> l[x] == closing[x - |log| - |ask|];
    assert forall x :: |log| <= x < |log| + |ask| ==> l[x] == ask[x - |log|];
    var x := p - |log| - 1;
    assert forall y :: 0 <= y < |ask| - 1 ==> ask[1..][y] == ask[y + 1];
    BlockHands(s, ask[0].dir, ask[0].listing, x);
    forall y | |log| < y < p ensures HandsOn(l[y]) {
      assert l[y] == ask[1..][y - |log| - 1];
    }
  }

  lemma NothingElseKept(s: State, ask: seq<Event>, closing: seq<Event>)
    requires NothingElse(s.log) && Asks(s, ask) && forall x :: 0 <= x < |closing| ==> Closes(closing[x])
    ensures NothingElse(s.log + ask + closing)
  {
    var l := s.log + ask + closing;
    forall p | 0 <= p < |l| && HandsOn(l[p]) ensures exists i :: HandedOnBy(l, p, i) {
      if p < |s.log| {
        assert l[p] == s.log[p];
        var i :| HandedOnBy(s.log, p, i);
        assert forall x :: i <= x < p ==> l[x] == s.log[x];
        assert HandedOnBy(l, p, i);
      } else {
        AskedHands(s, s.log, ask, closing, p);
      }
    }
  }

  ghost predicate Faithful(mode: Mode, files: bool, dirs: bool, s: State) {
    && Waiting(s) && (s.mode == Idle || s.mode == mode) && s.chmodFiles == files && s.chmodDirs == dirs
    && Answered(mode, files, dirs, s.log) && NothingElse(s.log)
  }

  lemma StepFaithful(mode: Mode, files: bool, dirs: bool, s: State, r: Reply)
    requires Faithful(mode, files, dirs, s)
    ensures Faithful(mode, files, dirs, Step(s, r))
  {
    if s.mode != Idle {
      var t := Step(s, r);
      var u, ask := StepLeads(s, r);
      if !Stays(s, t) {
        DrainCloses(u);
        var closing := t.log[|u.log|..];
        assert t.log == s.log + ask + closing;
        AllAnswered(s, ask, closing);
        NothingElseKept(s, ask, closing);
      }
    }
  }

  lemma {:induction false} StepsFaithful(mode: Mode, files: bool, dirs: bool, s: State, replies: seq<Reply>)
    requires Faithful(mode, files, dirs, s)
    ensures Faithful(mode, files, dirs, Steps(s, replies))
    decreases |replies|
  {
    if replies != [] {
      StepFaithful(mode, files, dirs, s, replies[0]);
      StepsFaithful(mode, files, dirs, Step(s, replies[0]), replies[1..]);
    }
  }

  lemma BegunFaithful(mode: Mode, roots: seq<Root>, files: bool, dirs: bool, nextId: nat, replies: seq<Reply>)
    requires mode != Idle
    ensures Faithful(mode, files, dirs, Steps(Begin(mode, roots, files, dirs, nextId), replies))
  {
    var s := State(mode, roots, false, files, dirs, [], nextId);
    DrainCloses(s);
    StepsFaithful(mode, files, dirs, Drain(s), replies);
  }

  // ---------- main results ----------

  /** Whatever the server replies: directly behind the use of a listing, and before any further
      directory is listed or removed, its selected entries are handed on, deleted or changed, each
      once and no other, as the mode demands. */
  lemma EveryEntryIsAnswered(mode: Mode, roots: seq<Root>, files: bool, dirs: bool, nextId: nat, replies: seq<Reply>,
                             i: nat) returns (m: nat, f: seq<nat>, names: seq<string>)
    requires mode != Idle
    requires var log := Steps(Begin(mode, roots, files, dirs, nextId), replies).log; i < |log| && log[i].Processed?
    ensures var log := Steps(Begin(mode, roots, files, dirs, nextId), replies).log;
            i < m < |log| && Closes(log[m]) && Answers(mode, files, dirs, log[i], log[i + 1..m], f, names)
  {
    BegunFaithful(mode, roots, files, dirs, nextId, replies);
    var log := Steps(Begin(mode, roots, files, dirs, nextId), replies).log;
    assert IsAnswered(mode, files, dirs, log, i);
    m, f, names :| AnsweredBy(mode, files, dirs, log, i, m, f, names);
  }

  /** No file is handed on, and no permission set, but directly behind the use of a listing for the
      same entry. */
  lemma NothingElseIsHandedOn(mode: Mode, roots: seq<Root>, files: bool, dirs: bool, nextId: nat, replies: seq<Reply>,
                              p: nat) returns (i: nat)
    requires mode != Idle
    requires var log := Steps(Begin(mode, roots, files, dirs, nextId), replies).log; p < |log| && HandsOn(log[p])
    ensures HandedOnBy(Steps(Begin(mode, roots, files, dirs, nextId), replies).log, p, i)
  {
    BegunFaithful(mode, roots, files, dirs, nextId, replies);
    i :| HandedOnBy(Steps(Begin(mode, roots, files, dirs, nextId), replies).log, p, i);
  }
}
