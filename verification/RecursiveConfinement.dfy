/** No recursive operation acts on anything but what it was given, or what listings named that
    lie within the roots and link targets it was given. */
module RecursiveConfinement {
  import opened Text
  import opened ServerPaths
  import opened RecursiveOperation
  import opened RecursiveTermination
  import opened RecursiveOrder

  predicate SameRoot(a: Root, b: Root) {
    a.key == b.key && a.startDir == b.startDir && a.allowParent == b.allowParent
  }

  ghost predicate ChosenRoot(chosen: seq<Root>, root: Root) {
    exists r :: 0 <= r < |chosen| && SameRoot(chosen[r], root)
  }

  /** The same entry up to what the operation itself changes. */
  predicate SameEntry(a: NewDir, b: NewDir) {
    b == a.(startDir := b.startDir, doVisit := b.doVisit, secondTry := b.secondTry)
  }

  /** The user of the class chose d for this root. */
  predicate NamedAt(chosen: seq<Root>, r: int, k: int, root: Root, d: NewDir) {
    && 0 <= r < |chosen| && 0 <= k < |chosen[r].dirs|
    && SameRoot(chosen[r], root) && SameEntry(chosen[r].dirs[k], d)
  }

  ghost predicate Named(chosen: seq<Root>, root: Root, d: NewDir) {
    exists r, k :: NamedAt(chosen, r, k, root, d)
  }

  /** Entry k of the listing that event j used has this name, and was selected. */
  predicate ListedAt(log: seq<Event>, j: int, k: int, trail: seq<nat>, path: ServerPath, name: string) {
    && 0 <= j < |log| && log[j].Processed? && log[j].trail == trail && log[j].listing.path == path
    && 0 <= k < |log[j].listing.entries| && log[j].listing.entries[k].name == name
    && Selected(log[j].dir, log[j].listing.entries[k])
  }

  /** That entry is a directory to go on with. */
  predicate DirectoryAt(mode: Mode, log: seq<Event>, j: int, k: int, trail: seq<nat>, path: ServerPath, name: string) {
    ListedAt(log, j, k, trail, path, name) && IsVisitable(mode, log[j].listing.entries[k])
  }

  /** That entry is a file, or, for a delete, a link. */
  predicate FileAt(mode: Mode, log: seq<Event>, j: int, k: int, trail: seq<nat>, path: ServerPath, name: string) {
    ListedAt(log, j, k, trail, path, name) && !IsVisitable(mode, log[j].listing.entries[k])
  }

  /** d is that directory: a link is not gone into any further, any other directory is. */
  predicate FoundAs(mode: Mode, log: seq<Event>, j: int, k: int, d: NewDir) {
    && DirectoryAt(mode, log, j, k, d.lineage, d.parent, d.subdir)
    && d.restricted == None && d.link <= 1 && (d.link == 1 <==> log[j].listing.entries[k].isLink)
    && (d.recurse <==> !log[j].listing.entries[k].isLink)
  }

  // ---------- what is acted upon ----------

  predicate ChosenAs(chosen: seq<Root>, r: int, k: int, d: NewDir) {
    0 <= r < |chosen| && 0 <= k < |chosen[r].dirs| && SameEntry(chosen[r].dirs[k], d)
  }

  /** The entry is as the user chose it, or as the listing of its parent told of it. */
  ghost predicate Stems(chosen: seq<Root>, mode: Mode, log: seq<Event>, d: NewDir) {
    (exists r, k :: ChosenAs(chosen, r, k, d)) || (exists j, k :: FoundAs(mode, log, j, k, d))
  }

  predicate ChosenAt(chosen: seq<Root>, r: int, k: int, trail: seq<nat>, parent: ServerPath, subdir: string) {
    && 0 <= r < |chosen| && 0 <= k < |chosen[r].dirs| && chosen[r].dirs[k].Trail() == trail
    && chosen[r].dirs[k].parent == parent && chosen[r].dirs[k].subdir == subdir
  }

  /** A listing used for the entry of this lineage named the directory. */
  ghost predicate Found(mode: Mode, log: seq<Event>, lineage: seq<nat>, parent: ServerPath, subdir: string) {
    exists j, k :: DirectoryAt(mode, log, j, k, lineage, parent, subdir)
  }

  /** The directory of this name was chosen, or is one that the listing of its parent named. */
  ghost predicate Known(chosen: seq<Root>, mode: Mode, log: seq<Event>, trail: seq<nat>,
                        parent: ServerPath, subdir: string) {
    || (exists r, k :: ChosenAt(chosen, r, k, trail, parent, subdir))
    || (trail != [] && Found(mode, log, trail[..|trail| - 1], parent, subdir))
  }

  /** The names are those of the selected files of the listing that event j used. */
  ghost predicate FilesOf(mode: Mode, log: seq<Event>, j: int, trail: seq<nat>, path: ServerPath, names: seq<string>) {
    forall name :: name in names <==> exists k :: FileAt(mode, log, j, k, trail, path, name)
  }

  /** What an event acts on was chosen, or a listing named it that was used before. */
  ghost predicate Justified(chosen: seq<Root>, mode: Mode, log: seq<Event>, e: Event) {
    match e
    case ListDir(trail, parent, subdir, _) => Known(chosen, mode, log, trail, parent, subdir)
    case RemoveDir(trail, parent, subdir) => Known(chosen, mode, log, trail, parent, subdir)
    case NoDirLink(trail, parent, subdir) => Known(chosen, mode, log, trail, parent, subdir)
    case DeleteFiles(trail, path, names) =>
      || (names != [] && exists j :: FilesOf(mode, log, j, trail, path, names))
      || (|names| == 1 && Known(chosen, mode, log, trail, path, names[0]))
    case SetMode(trail, path, name) => exists j, k :: ListedAt(log, j, k, trail, path, name)
    case FileFound(trail, path, name) => exists j, k :: FileAt(mode, log, j, k, trail, path, name)
    case Processed(trail, _, _, dir) =>
      trail == dir.Trail() && Known(chosen, mode, log, trail, dir.parent, dir.subdir) && Stems(chosen, mode, log, dir)
    case _ => true
  }

  // ---------- where it lies ----------

  predicate InRoot(e: Event)
    requires e.Processed?
  {
    || IsSubdirOf(e.listing.path, e.root.startDir, false, false)
    || (e.listing.path == e.root.startDir && e.root.allowParent)
  }

  /** Event h used the listing of a link that the user of the class chose; target is its path. */
  ghost predicate LinkAt(chosen: seq<Root>, log: seq<Event>, h: int, root: Root, trail: seq<nat>, target: ServerPath) {
    && 0 <= h < |log| && log[h].Processed? && log[h].trail == trail && log[h].listing.path == target
    && log[h].dir.link == 2 && SameRoot(log[h].root, root) && Named(chosen, root, log[h].dir)
  }

  /** The listing is that of a chosen link, or lies below the target of the chosen link it was found under. */
  ghost predicate AtLink(chosen: seq<Root>, log: seq<Event>, e: Event)
    requires e.Processed?
  {
    && e.trail != [] && !e.dir.startDir.Empty()
    && (exists h :: LinkAt(chosen, log, h, e.root, e.trail[..1], e.dir.startDir))
    && (e.listing.path == e.dir.startDir || IsSubdirOf(e.listing.path, e.dir.startDir, false, false))
  }

  ghost predicate Inside(chosen: seq<Root>, log: seq<Event>, e: Event)
    requires e.Processed?
  {
    ChosenRoot(chosen, e.root) && (InRoot(e) || AtLink(chosen, log, e))
  }

  /** A chosen link whose listing comes without a path: such a listing is used, but lies nowhere. */
  predicate Pathless(e: Event)
    requires e.Processed?
  {
    e.listing.path.Empty() && e.dir.link == 2 && !(e.listing.path == e.root.startDir && e.root.allowParent)
  }

  ghost predicate Placed(chosen: seq<Root>, log: seq<Event>, e: Event) {
    e.Processed? ==>
      && ChosenRoot(chosen, e.root)
      && if e.dir.startDir.Empty() then InRoot(e) || (e.listing.path.Empty() && e.dir.link == 2)
         else AtLink(chosen, log, e)
  }

  // ---------- the invariant ----------

  /** The entry only waits for the removal of its directory. */
  predicate Waits(mode: Mode, d: NewDir) {
    mode == Delete && IsMarker(d)
  }

  predicate FoundAt(mode: Mode, log: seq<Event>, j: int, k: int, root: Root, d: NewDir) {
    FoundAs(mode, log, j, k, d) && SameRoot(log[j].root, root) && d.startDir == log[j].dir.startDir
  }

  ghost predicate Grounded(chosen: seq<Root>, mode: Mode, log: seq<Event>, root: Root, d: NewDir) {
    if d.lineage == [] then Named(chosen, root, d) && (d.startDir.Empty() || Waits(mode, d))
    else exists j, k :: FoundAt(mode, log, j, k, root, d)
  }

  ghost predicate AllGrounded(chosen: seq<Root>, mode: Mode, log: seq<Event>, root: Root, dirs: seq<NewDir>) {
    forall k :: 0 <= k < |dirs| ==> Grounded(chosen, mode, log, root, dirs[k])
  }

  ghost predicate FitAt(chosen: seq<Root>, mode: Mode, log: seq<Event>, i: int)
    requires 0 <= i < |log|
  {
    Justified(chosen, mode, log[..i], log[i]) && Placed(chosen, log[..i + 1], log[i])
  }

  ghost predicate RootsFit(chosen: seq<Root>, mode: Mode, log: seq<Event>, roots: seq<Root>) {
    forall r :: 0 <= r < |roots| ==>
      ChosenRoot(chosen, roots[r]) && AllGrounded(chosen, mode, log, roots[r], roots[r].dirs)
  }

  ghost predicate LogFits(chosen: seq<Root>, mode: Mode, log: seq<Event>) {
    forall i :: 0 <= i < |log| ==> FitAt(chosen, mode, log, i)
  }

  ghost predicate Confined(chosen: seq<Root>, mode: Mode, s: State) {
    && (s.mode == Idle || s.mode == mode)
    && LogFits(chosen, mode, s.log) && RootsFit(chosen, mode, s.log, s.roots)
  }

  // ---------- longer logs ----------

  lemma ListedGrows(log: seq<Event>, events: seq<Event>)
    ensures forall j, k, t, p, n :: ListedAt(log, j, k, t, p, n) ==> ListedAt(log + events, j, k, t, p, n)
    ensures forall m, j, k, t, p, n :: DirectoryAt(m, log, j, k, t, p, n) ==>
        DirectoryAt(m, log + events, j, k, t, p, n)
    ensures forall m, j, k, t, p, n :: 0 <= j < |log| ==>
              (FileAt(m, log, j, k, t, p, n) <==> FileAt(m, log + events, j, k, t, p, n))
  {
    assert forall j :: 0 <= j < |log| ==> (log + events)[j] == log[j];
  }

  lemma FoundGrows(mode: Mode, log: seq<Event>, events: seq<Event>, t: seq<nat>, p: ServerPath, n: string)
    requires Found(mode, log, t, p, n)
    ensures Found(mode, log + events, t, p, n)
  {
    ListedGrows(log, events);
    var j, k :| DirectoryAt(mode, log, j, k, t, p, n);
    assert DirectoryAt(mode, log + events, j, k, t, p, n);
  }

  lemma KnownGrows(chosen: seq<Root>, mode: Mode, log: seq<Event>, events: seq<Event>, t: seq<nat>, p: ServerPath,
                   n: string)
    requires Known(chosen, mode, log, t, p, n)
    ensures Known(chosen, mode, log + events, t, p, n)
  {
    if t != [] && Found(mode, log, t[..|t| - 1], p, n) { FoundGrows(mode, log, events, t[..|t| - 1], p, n); }
  }

  lemma StemsGrows(chosen: seq<Root>, mode: Mode, log: seq<Event>, events: seq<Event>, d: NewDir)
    requires Stems(chosen, mode, log, d)
    ensures Stems(chosen, mode, log + events, d)
  {
    if j, k :| FoundAs(mode, log, j, k, d) {
      ListedGrows(log, events);
      assert FoundAs(mode, log + events, j, k, d);
    }
  }

  lemma FilesGrow(mode: Mode, log: seq<Event>, events: seq<Event>, j: int, t: seq<nat>, p: ServerPath,
                  names: seq<string>)
    requires FilesOf(mode, log, j, t, p, names) && names != []
    ensures FilesOf(mode, log + events, j, t, p, names)
  {
    ListedGrows(log, events);
    assert names[0] in names;
    var k0 :| FileAt(mode, log, j, k0, t, p, names[0]);
    forall name ensures (exists k :: FileAt(mode, log + events, j, k, t, p, name)) <==> name in names {
      if k :| FileAt(mode, log, j, k, t, p, name) { assert FileAt(mode, log + events, j, k, t, p, name); }
      if k :| FileAt(mode, log + events, j, k, t, p, name) { assert FileAt(mode, log, j, k, t, p, name); }
    }
  }

  lemma JustifiedGrows(chosen: seq<Root>, mode: Mode, log: seq<Event>, events: seq<Event>, e: Event)
    requires Justified(chosen, mode, log, e)
    ensures Justified(chosen, mode, log + events, e)
  {
    ListedGrows(log, events);
    match e
    case ListDir(trail, parent, subdir, _) => KnownGrows(chosen, mode, log, events, trail, parent, subdir);
    case RemoveDir(trail, parent, subdir) => KnownGrows(chosen, mode, log, events, trail, parent, subdir);
    case NoDirLink(trail, parent, subdir) => KnownGrows(chosen, mode, log, events, trail, parent, subdir);
    case DeleteFiles(trail, path, names) =>
      if j :| names != [] && FilesOf(mode, log, j, trail, path, names) {
        FilesGrow(mode, log, events, j, trail, path, names);
      } else {
        KnownGrows(chosen, mode, log, events, trail, path, names[0]);
      }
    case SetMode(trail, path, name) =>
      var j, k :| ListedAt(log, j, k, trail, path, name);
      assert ListedAt(log + events, j, k, trail, path, name);
    case FileFound(trail, path, name) =>
      var j, k :| FileAt(mode, log, j, k, trail, path, name);
      assert FileAt(mode, log + events, j, k, trail, path, name);
    case Processed(trail, _, _, dir) =>
      KnownGrows(chosen, mode, log, events, trail, dir.parent, dir.subdir);
      StemsGrows(chosen, mode, log, events, dir);
    case _ =>
  }

  lemma LinkGrows(chosen: seq<Root>, log: seq<Event>, events: seq<Event>)
    ensures forall h, r, t, p :: LinkAt(chosen, log, h, r, t, p) ==> LinkAt(chosen, log + events, h, r, t, p)
  {
    assert forall j :: 0 <= j < |log| ==> (log + events)[j] == log[j];
  }

  lemma PlacedGrows(chosen: seq<Root>, log: seq<Event>, events: seq<Event>, e: Event)
    requires Placed(chosen, log, e)
    ensures Placed(chosen, log + events, e)
  {
    LinkGrows(chosen, log, events);
    if e.Processed? && !e.dir.startDir.Empty() {
      var h :| LinkAt(chosen, log, h, e.root, e.trail[..1], e.dir.startDir);
      assert LinkAt(chosen, log + events, h, e.root, e.trail[..1], e.dir.startDir);
    }
  }

  lemma GroundedGrows(chosen: seq<Root>, mode: Mode, log: seq<Event>, events: seq<Event>, root: Root, d: NewDir)
    requires Grounded(chosen, mode, log, root, d)
    ensures Grounded(chosen, mode, log + events, root, d)
  {
    if d.lineage != [] {
      ListedGrows(log, events);
      var j, k :| FoundAt(mode, log, j, k, root, d);
      assert FoundAt(mode, log + events, j, k, root, d);
    }
  }

  lemma RootsGrow(chosen: seq<Root>, mode: Mode, log: seq<Event>, events: seq<Event>, roots: seq<Root>)
    requires RootsFit(chosen, mode, log, roots)
    ensures RootsFit(chosen, mode, log + events, roots)
  {
    forall r, k | 0 <= r < |roots| && 0 <= k < |roots[r].dirs|
      ensures Grounded(chosen, mode, log + events, roots[r], roots[r].dirs[k])
    {
      assert AllGrounded(chosen, mode, log, roots[r], roots[r].dirs);
      GroundedGrows(chosen, mode, log, events, roots[r], roots[r].dirs[k]);
    }
  }

  /** Events that are justified by the log as it was, none of them using a listing. */
  ghost predicate Allowed(chosen: seq<Root>, mode: Mode, log: seq<Event>, events: seq<Event>) {
    forall i :: 0 <= i < |events| ==> !events[i].Processed? && Justified(chosen, mode, log, events[i])
  }

  lemma Extends(chosen: seq<Root>, mode: Mode, log: seq<Event>, e: Event)
    requires LogFits(chosen, mode, log) && Justified(chosen, mode, log, e) && Placed(chosen, log + [e], e)
    ensures LogFits(chosen, mode, log + [e])
  {
    var l := log + [e];
    forall i | 0 <= i < |l| ensures FitAt(chosen, mode, l, i) {
      if i < |log| {
        assert FitAt(chosen, mode, log, i) && l[..i] == log[..i] && l[..i + 1] == log[..i + 1];
      } else {
        assert l[..i] == log && l[..i + 1] == l;
      }
    }
  }

  lemma {:induction false} LogGrows(chosen: seq<Root>, mode: Mode, log: seq<Event>, events: seq<Event>)
    requires LogFits(chosen, mode, log) && Allowed(chosen, mode, log, events)
    ensures LogFits(chosen, mode, log + events)
    decreases |events|
  {
    if events == [] {
      assert log + events == log;
    } else {
      var last := |events| - 1;
      LogGrows(chosen, mode, log, events[..last]);
      JustifiedGrows(chosen, mode, log, events[..last], events[last]);
      Extends(chosen, mode, log + events[..last], events[last]);
      assert log + events[..last] + [events[last]] == log + events;
    }
  }

  lemma EmitConfined(chosen: seq<Root>, mode: Mode, s: State, events: seq<Event>)
    requires Confined(chosen, mode, s) && Allowed(chosen, mode, s.log, events)
    ensures Confined(chosen, mode, Emit(s, events))
  {
    LogGrows(chosen, mode, s.log, events);
    RootsGrow(chosen, mode, s.log, events, s.roots);
  }

  // ---------- the queue ----------

  lemma SameRootGrounded(chosen: seq<Root>, mode: Mode, log: seq<Event>, a: Root, b: Root, d: NewDir)
    requires Grounded(chosen, mode, log, a, d) && SameRoot(a, b)
    ensures Grounded(chosen, mode, log, b, d)
  {
    if d.lineage == [] {
      var r, k :| NamedAt(chosen, r, k, a, d);
      assert NamedAt(chosen, r, k, b, d);
    } else {
      var j, k :| FoundAt(mode, log, j, k, a, d);
      assert FoundAt(mode, log, j, k, b, d);
    }
  }

  /** The front root with other entries and other marks. */
  lemma RootConfined(chosen: seq<Root>, mode: Mode, s: State, root: Root)
    requires s.roots != [] && Confined(chosen, mode, s) && SameRoot(s.roots[0], root)
    requires AllGrounded(chosen, mode, s.log, s.roots[0], root.dirs)
    ensures Confined(chosen, mode, s.(roots := s.roots[0 := root]))
  {
    forall k | 0 <= k < |root.dirs| ensures Grounded(chosen, mode, s.log, root, root.dirs[k]) {
      SameRootGrounded(chosen, mode, s.log, s.roots[0], root, root.dirs[k]);
    }
    var r :| 0 <= r < |chosen| && SameRoot(chosen[r], s.roots[0]);
    assert SameRoot(chosen[r], root);
  }

  lemma DirsConfined(chosen: seq<Root>, mode: Mode, s: State, dirs: seq<NewDir>)
    requires s.roots != [] && Confined(chosen, mode, s) && AllGrounded(chosen, mode, s.log, s.roots[0], dirs)
    ensures Confined(chosen, mode, WithDirs(s, dirs))
  {
    RootConfined(chosen, mode, s, s.roots[0].(dirs := dirs));
  }

  lemma EntryKnown(chosen: seq<Root>, mode: Mode, log: seq<Event>, root: Root, d: NewDir)
    requires Grounded(chosen, mode, log, root, d)
    ensures Known(chosen, mode, log, d.Trail(), d.parent, d.subdir)
  {
    assert d.Trail()[..|d.Trail()| - 1] == d.lineage;
    if d.lineage == [] {
      var r, k :| NamedAt(chosen, r, k, root, d);
      assert ChosenAt(chosen, r, k, d.Trail(), d.parent, d.subdir);
    } else {
      var j, k :| FoundAt(mode, log, j, k, root, d);
      assert DirectoryAt(mode, log, j, k, d.Trail()[..|d.Trail()| - 1], d.parent, d.subdir);
    }
  }

  lemma RemovalConfined(chosen: seq<Root>, mode: Mode, s: State)
    requires Confined(chosen, mode, s) && s.roots != [] && s.roots[0].dirs != []
    ensures Confined(chosen, mode, Emit(WithDirs(s, s.roots[0].dirs[1..]), [RemovalOf(s.roots[0].dirs[0])]))
  {
    FrontGrounded(chosen, mode, s);
    DirsConfined(chosen, mode, s, s.roots[0].dirs[1..]);
    EmitConfined(chosen, mode, WithDirs(s, s.roots[0].dirs[1..]), [RemovalOf(s.roots[0].dirs[0])]);
  }

  lemma RequestConfined(chosen: seq<Root>, mode: Mode, s: State)
    requires Confined(chosen, mode, s) && s.roots != [] && s.roots[0].dirs != []
    ensures Confined(chosen, mode, Emit(s, [ListingOf(s.roots[0].dirs[0])]))
  {
    FrontGrounded(chosen, mode, s);
    EmitConfined(chosen, mode, s, [ListingOf(s.roots[0].dirs[0])]);
  }

  lemma {:induction false} DrainConfined(chosen: seq<Root>, mode: Mode, s: State)
    requires Confined(chosen, mode, s)
    ensures Confined(chosen, mode, Drain(s))
    decreases |s.roots|, if s.roots == [] then 0 else |s.roots[0].dirs|
  {
    if s.roots == [] {
      EmitConfined(chosen, mode, Stop(s), [Finished]);
    } else {
      var dirs := s.roots[0].dirs;
      if dirs == [] {
        DrainConfined(chosen, mode, s.(roots := s.roots[1..]));
      } else if s.mode == Delete && IsMarker(dirs[0]) {
        RemovalConfined(chosen, mode, s);
        DrainConfined(chosen, mode, Emit(WithDirs(s, dirs[1..]), [RemovalOf(dirs[0])]));
      } else {
        RequestConfined(chosen, mode, s);
      }
    }
  }

  lemma FrontGrounded(chosen: seq<Root>, mode: Mode, s: State)
    requires Confined(chosen, mode, s) && s.roots != [] && s.roots[0].dirs != []
    ensures ChosenRoot(chosen, s.roots[0])
    ensures Grounded(chosen, mode, s.log, s.roots[0], s.roots[0].dirs[0])
    ensures AllGrounded(chosen, mode, s.log, s.roots[0], s.roots[0].dirs[1..])
    ensures var d := s.roots[0].dirs[0]; Known(chosen, mode, s.log, d.Trail(), d.parent, d.subdir)
  {
    assert AllGrounded(chosen, mode, s.log, s.roots[0], s.roots[0].dirs);
    EntryKnown(chosen, mode, s.log, s.roots[0], s.roots[0].dirs[0]);
  }

  // ---------- the entries of a listing ----------

  /** Event j used this listing for this entry. */
  predicate UsedBy(log: seq<Event>, j: int, root: Root, dir: NewDir, listing: Listing) {
    0 <= j < |log| && log[j].Processed? && SameRoot(log[j].root, root)
    && log[j].trail == dir.Trail() && log[j].dir == dir && log[j].listing == listing
  }

  lemma {:induction false} ChildrenGrounded(chosen: seq<Root>, mode: Mode, log: seq<Event>, j: int, root: Root,
                                            dir: NewDir, listing: Listing, k: nat, id: nat)
    requires k <= |listing.entries| && UsedBy(log, j, root, dir, listing)
    ensures AllGrounded(chosen, mode, log, root, Children(mode, dir, listing, k, id).0)
    decreases |listing.entries| - k
  {
    if k < |listing.entries| {
      ChildrenGrounded(chosen, mode, log, j, root, dir, listing, k + 1, id);
      var r := Children(mode, dir, listing, k + 1, id);
      var e := listing.entries[k];
      if Selected(dir, e) && IsVisitable(mode, e) && dir.recurse {
        assert FoundAt(mode, log, j, k, root, ChildOf(dir, listing.path, e, r.1));
      }
    }
  }

  lemma {:induction false} EntryEventsAllowed(chosen: seq<Root>, s: State, j: int, root: Root, dir: NewDir,
                                              listing: Listing, k: nat)
    requires k <= |listing.entries| && UsedBy(s.log, j, root, dir, listing)
    ensures Allowed(chosen, s.mode, s.log, AllEntryEvents(s, dir, listing, k))
    decreases |listing.entries| - k
  {
    if k < |listing.entries| {
      EntryEventsAllowed(chosen, s, j, root, dir, listing, k + 1);
      var e := listing.entries[k];
      if Selected(dir, e) {
        assert ListedAt(s.log, j, k, dir.Trail(), listing.path, e.name);
        if !IsVisitable(s.mode, e) { assert FileAt(s.mode, s.log, j, k, dir.Trail(), listing.path, e.name); }
      }
    }
  }

  lemma {:induction false} FilesAreListed(log: seq<Event>, j: int, root: Root, dir: NewDir, listing: Listing, k: nat,
                                          name: string)
    requires k <= |listing.entries| && UsedBy(log, j, root, dir, listing)
    ensures name in FilesToDelete(dir, listing, k) <==>
            exists n :: k <= n && FileAt(Delete, log, j, n, dir.Trail(), listing.path, name)
    decreases |listing.entries| - k
  {
    if k < |listing.entries| {
      FilesAreListed(log, j, root, dir, listing, k + 1, name);
      var e := listing.entries[k];
      var more := if Selected(dir, e) && !IsVisitable(Delete, e) then [e.name] else [];
      assert name in more <==> FileAt(Delete, log, j, k, dir.Trail(), listing.path, name);
      assert name in FilesToDelete(dir, listing, k) <==> name in FilesToDelete(dir, listing, k + 1) || name in more;
    }
  }

  lemma FilesAllowed(chosen: seq<Root>, log: seq<Event>, j: int, root: Root, dir: NewDir, listing: Listing)
    requires UsedBy(log, j, root, dir, listing)
    ensures FilesOf(Delete, log, j, dir.Trail(), listing.path, FilesToDelete(dir, listing, 0))
  {
    forall name ensures name in FilesToDelete(dir, listing, 0) <==>
                        exists k :: FileAt(Delete, log, j, k, dir.Trail(), listing.path, name) {
      FilesAreListed(log, j, root, dir, listing, 0, name);
      if k :| FileAt(Delete, log, j, k, dir.Trail(), listing.path, name) {
        assert 0 <= k && FileAt(Delete, log, j, k, dir.Trail(), listing.path, name);
      }
    }
  }

  lemma ProcessConfined(chosen: seq<Root>, mode: Mode, s: State, j: int, dir: NewDir, listing: Listing)
    requires s.roots != [] && Confined(chosen, mode, s) && s.mode == mode
    requires UsedBy(s.log, j, s.roots[0], dir, listing)
    ensures Confined(chosen, mode, ProcessEntries(s, dir, listing))
  {
    var r := Children(mode, dir, listing, 0, s.nextId);
    var files := FilesToDelete(dir, listing, 0);
    ChildrenGrounded(chosen, mode, s.log, j, s.roots[0], dir, listing, 0, s.nextId);
    EntryEventsAllowed(chosen, s, j, s.roots[0], dir, listing, 0);
    FilesAllowed(chosen, s.log, j, s.roots[0], dir, listing);
    var a := AllEntryEvents(s, dir, listing, 0);
    var b := if mode == Delete && files != [] then [DeleteFiles(dir.Trail(), listing.path, files)] else [];
    assert AllGrounded(chosen, mode, s.log, s.roots[0], s.roots[0].dirs);
    DirsConfined(chosen, mode, s, r.0 + s.roots[0].dirs);
    var t := WithDirs(s, r.0 + s.roots[0].dirs);
    EmitConfined(chosen, mode, t, a + b);
    assert s.log + (a + b) == s.log + a + b;
    assert ProcessEntries(s, dir, listing) == Emit(t, a + b).(nextId := r.1);
  }

  // ---------- a listing is used ----------

  lemma LinkSameRoot(chosen: seq<Root>, log: seq<Event>, h: int, a: Root, b: Root, t: seq<nat>, p: ServerPath)
    requires LinkAt(chosen, log, h, a, t, p) && SameRoot(a, b)
    ensures LinkAt(chosen, log, h, b, t, p)
  {
    NamedSameRoot(chosen, a, b, log[h].dir);
  }

  lemma PlacedInWhole(chosen: seq<Root>, mode: Mode, log: seq<Event>, j: int)
    requires LogFits(chosen, mode, log) && 0 <= j < |log|
    ensures Placed(chosen, log, log[j])
  {
    assert FitAt(chosen, mode, log, j);
    PlacedGrows(chosen, log[..j + 1], log[j + 1..], log[j]);
    assert log[..j + 1] + log[j + 1..] == log;
  }

  /** The listing that named an entry. */
  lemma FinderOf(chosen: seq<Root>, mode: Mode, log: seq<Event>, root: Root, d: NewDir) returns (j: int, k: int)
    requires Grounded(chosen, mode, log, root, d) && d.lineage != []
    ensures FoundAt(mode, log, j, k, root, d)
  {
    j, k :| FoundAt(mode, log, j, k, root, d);
  }

  /** Below a chosen link: the link's listing was used, and this entry's target is its path. */
  lemma FoundBelowLink(chosen: seq<Root>, mode: Mode, log: seq<Event>, root: Root, d: NewDir) returns (h: int)
    requires LogFits(chosen, mode, log) && Grounded(chosen, mode, log, root, d)
    requires d.lineage != [] && !d.startDir.Empty()
    ensures LinkAt(chosen, log, h, root, d.Trail()[..1], d.startDir)
  {
    var j, k := FinderOf(chosen, mode, log, root, d);
    PlacedInWhole(chosen, mode, log, j);
    h := LinkOf(chosen, log, log[j]);
    assert d.Trail()[..1] == d.lineage[..1];
    LinkSameRoot(chosen, log, h, log[j].root, root, d.Trail()[..1], d.startDir);
  }

  lemma LinkOf(chosen: seq<Root>, log: seq<Event>, e: Event) returns (h: int)
    requires e.Processed? && Placed(chosen, log, e) && !e.dir.startDir.Empty()
    ensures e.trail != [] && LinkAt(chosen, log, h, e.root, e.trail[..1], e.dir.startDir)
  {
    h :| LinkAt(chosen, log, h, e.root, e.trail[..1], e.dir.startDir);
  }

  /** What BelowRecursionRoot lets pass is placed, once it is used. */
  lemma UsedPlaced(chosen: seq<Root>, mode: Mode, log: seq<Event>, root: Root, front: NewDir, e: Event)
    requires LogFits(chosen, mode, log) && ChosenRoot(chosen, root) && Grounded(chosen, mode, log, root, front)
    requires !Waits(mode, front) && e.Processed? && SameRoot(root, e.root) && e.trail == front.Trail()
    requires BelowRoot(root, front, e.listing.path) == (true, e.dir)
    ensures Placed(chosen, log + [e], e)
  {
    var r :| 0 <= r < |chosen| && SameRoot(chosen[r], root);
    assert SameRoot(chosen[r], e.root);
    if !front.startDir.Empty() {
      var h := FoundBelowLink(chosen, mode, log, root, front);
      LinkSameRoot(chosen, log, h, root, e.root, e.trail[..1], front.startDir);
      LinkGrows(chosen, log, [e]);
      assert LinkAt(chosen, log + [e], h, e.root, e.trail[..1], e.dir.startDir);
    } else if !e.dir.startDir.Empty() {
      LinkItself(chosen, mode, log, root, front, e);
    }
  }

  /** The listing of a chosen link that leads out of its root. */
  lemma LinkItself(chosen: seq<Root>, mode: Mode, log: seq<Event>, root: Root, front: NewDir, e: Event)
    requires Grounded(chosen, mode, log, root, front) && front.link == 2
    requires e.Processed? && SameRoot(root, e.root) && e.trail == front.Trail()
    requires e.dir == front.(startDir := e.listing.path)
    ensures LinkAt(chosen, log + [e], |log|, e.root, e.trail[..1], e.dir.startDir)
  {
    LinkIsNamed(chosen, mode, log, root, front);
    NamedSameRoot(chosen, root, e.root, front);
    SameEntryNamed(chosen, e.root, front, e.dir);
    assert e.trail[..1] == e.trail;
    assert (log + [e])[|log|] == e;
  }

  lemma NamedSameRoot(chosen: seq<Root>, a: Root, b: Root, d: NewDir)
    requires Named(chosen, a, d) && SameRoot(a, b)
    ensures Named(chosen, b, d)
  {
    var r, k :| NamedAt(chosen, r, k, a, d);
    assert NamedAt(chosen, r, k, b, d);
  }

  lemma SameEntryNamed(chosen: seq<Root>, root: Root, a: NewDir, b: NewDir)
    requires Named(chosen, root, a) && SameEntry(a, b)
    ensures Named(chosen, root, b)
  {
    var r, k :| NamedAt(chosen, r, k, root, a);
    assert NamedAt(chosen, r, k, root, b);
  }

  /** Only the user of the class names links that may be followed out of a root. */
  lemma LinkIsNamed(chosen: seq<Root>, mode: Mode, log: seq<Event>, root: Root, d: NewDir)
    requires Grounded(chosen, mode, log, root, d) && d.link == 2
    ensures d.lineage == [] && Named(chosen, root, d)
  {
  }

  /** An entry in another stage of its handling is grounded alike. */
  lemma StageGrounded(chosen: seq<Root>, mode: Mode, log: seq<Event>, root: Root, a: NewDir, b: NewDir)
    requires Grounded(chosen, mode, log, root, a) && SameEntry(a, b)
    requires a.startDir == b.startDir || (a.link == 2 && Waits(mode, b))
    requires Waits(mode, a) ==> Waits(mode, b)
    ensures Grounded(chosen, mode, log, root, b)
  {
    if a.lineage == [] {
      SameEntryNamed(chosen, root, a, b);
    } else {
      var j, k :| FoundAt(mode, log, j, k, root, a);
      assert FoundAt(mode, log, j, k, root, b);
    }
  }

  lemma EntryStems(chosen: seq<Root>, mode: Mode, log: seq<Event>, root: Root, front: NewDir, d: NewDir)
    requires Grounded(chosen, mode, log, root, front) && SameEntry(front, d)
    ensures Stems(chosen, mode, log, d)
  {
    if front.lineage == [] {
      var r, k :| NamedAt(chosen, r, k, root, front);
      assert ChosenAs(chosen, r, k, d);
    } else {
      var j, k :| FoundAt(mode, log, j, k, root, front);
      assert FoundAs(mode, log, j, k, d);
    }
  }

  lemma UseJustified(chosen: seq<Root>, mode: Mode, log: seq<Event>, root: Root, front: NewDir, e: Event)
    requires Grounded(chosen, mode, log, root, front) && e.Processed? && e.trail == front.Trail()
    requires BelowRoot(root, front, e.listing.path) == (true, e.dir)
    ensures Justified(chosen, mode, log, e)
  {
    EntryKnown(chosen, mode, log, root, front);
    EntryStems(chosen, mode, log, root, front, e.dir);
  }

  lemma UseFits(chosen: seq<Root>, mode: Mode, log: seq<Event>, root: Root, front: NewDir, e: Event)
    requires LogFits(chosen, mode, log) && ChosenRoot(chosen, root) && Grounded(chosen, mode, log, root, front)
    requires !Waits(mode, front) && e.Processed? && SameRoot(root, e.root) && e.trail == front.Trail()
    requires BelowRoot(root, front, e.listing.path) == (true, e.dir)
    ensures LogFits(chosen, mode, log + [e])
  {
    UseJustified(chosen, mode, log, root, front, e);
    UsedPlaced(chosen, mode, log, root, front, e);
    Extends(chosen, mode, log, e);
  }

  lemma UseConfined(chosen: seq<Root>, mode: Mode, s: State, front: NewDir, e: Event)
    requires s.roots != [] && Confined(chosen, mode, s) && Grounded(chosen, mode, s.log, s.roots[0], front)
    requires !Waits(mode, front) && e.Processed? && SameRoot(s.roots[0], e.root) && e.trail == front.Trail()
    requires BelowRoot(s.roots[0], front, e.listing.path) == (true, e.dir)
    ensures Confined(chosen, mode, Emit(s, [e]))
  {
    UseFits(chosen, mode, s.log, s.roots[0], front, e);
    RootsGrow(chosen, mode, s.log, [e], s.roots);
  }

  /** The front entry may be replaced by its removal marker. */
  lemma MarkerGrounded(chosen: seq<Root>, mode: Mode, log: seq<Event>, root: Root, front: NewDir, dir: NewDir)
    requires Grounded(chosen, mode, log, root, front) && Owed(mode, dir)
    requires SameEntry(front, dir) && (front.startDir == dir.startDir || front.link == 2)
    ensures Grounded(chosen, mode, log, root, dir.(doVisit := false))
  {
    StageGrounded(chosen, mode, log, root, front, dir.(doVisit := false));
  }

  /** The front entry is taken off, or replaced by its removal marker. */
  lemma MarkConfined(chosen: seq<Root>, mode: Mode, s: State, dir: NewDir)
    requires Confined(chosen, mode, s) && s.roots != [] && s.roots[0].dirs != []
    requires var front := s.roots[0].dirs[0];
             SameEntry(front, dir) && (front.startDir == dir.startDir || front.link == 2)
    ensures Confined(chosen, mode, WithDirs(s, PushMarker(mode, dir, s.roots[0].dirs[1..])))
  {
    FrontGrounded(chosen, mode, s);
    var rest := s.roots[0].dirs[1..];
    if Owed(mode, dir) {
      MarkerGrounded(chosen, mode, s.log, s.roots[0], s.roots[0].dirs[0], dir);
      DirsConfined(chosen, mode, s, [dir.(doVisit := false)] + rest);
    } else {
      DirsConfined(chosen, mode, s, rest);
    }
  }

  /** The front root with a path more among those it visited. */
  function Marked(s: State, path: ServerPath): State
    requires s.roots != []
  {
    s.(roots := s.roots[0 := s.roots[0].(visited := s.roots[0].visited + {path})])
  }

  lemma MarkedConfined(chosen: seq<Root>, mode: Mode, s: State, path: ServerPath)
    requires s.roots != [] && Confined(chosen, mode, s)
    ensures Confined(chosen, mode, Marked(s, path))
  {
    assert AllGrounded(chosen, mode, s.log, s.roots[0], s.roots[0].dirs);
    RootConfined(chosen, mode, s, s.roots[0].(visited := s.roots[0].visited + {path}));
  }

  /** What Visit comes to, after it has taken the front entry off or marked it. */
  lemma VisitIs(s: State, dir: NewDir, rest: seq<NewDir>, listing: Listing)
    requires s.roots != []
    ensures var t := WithDirs(s, PushMarker(s.mode, dir, rest));
            var e := Processed(dir.Trail(), t.roots[0], listing, dir);
            var u := Emit(Marked(t, listing.path), [e]);
            var v := Visit(s, dir, rest, listing);
            v == t || v == Emit(u, [EmptyDir(dir.Trail())]) || v == ProcessEntries(u, dir, listing)
  {
  }

  /** The front entry's listing may be used, and t is what is left once the entry is taken off or marked. */
  predicate Usable(mode: Mode, s: State, t: State, dir: NewDir, path: ServerPath) {
    && s.mode == t.mode == mode && mode != Idle && Ready(s) && s.roots != [] && s.roots[0].dirs != []
    && t.roots != [] && t.log == s.log && SameRoot(s.roots[0], t.roots[0])
    && BelowRoot(s.roots[0], s.roots[0].dirs[0], path) == (true, dir)
  }

  lemma UsableSame(mode: Mode, s: State, t: State, dir: NewDir, path: ServerPath)
    requires Usable(mode, s, t, dir, path)
    ensures BelowRoot(Marked(t, path).roots[0], s.roots[0].dirs[0], path) == (true, dir)
    ensures !Waits(mode, s.roots[0].dirs[0]) && s.roots[0].dirs[0].Trail() == dir.Trail()
    ensures SameEntry(s.roots[0].dirs[0], dir)
    ensures s.roots[0].dirs[0].startDir == dir.startDir || s.roots[0].dirs[0].link == 2
  {
  }

  lemma MarkedUse(chosen: seq<Root>, mode: Mode, s: State, t: State, dir: NewDir, listing: Listing)
    requires Confined(chosen, mode, s) && Confined(chosen, mode, t) && Usable(mode, s, t, dir, listing.path)
    ensures var u := Emit(Marked(t, listing.path),
                          [Processed(dir.Trail(), t.roots[0], listing, dir)]);
            && Confined(chosen, mode, Emit(u, [EmptyDir(dir.Trail())]))
            && Confined(chosen, mode, ProcessEntries(u, dir, listing))
  {
    UsableSame(mode, s, t, dir, listing.path);
    MarkedConfined(chosen, mode, t, listing.path);
    FrontStays(chosen, mode, s, t, listing.path);
    UseListing(chosen, mode, Marked(t, listing.path), s.roots[0].dirs[0],
               Processed(dir.Trail(), t.roots[0], listing, dir));
  }

  lemma VisitConfined(chosen: seq<Root>, mode: Mode, s: State, dir: NewDir, listing: Listing)
    requires Confined(chosen, mode, s) && s.mode == mode && mode != Idle && Ready(s)
    requires BelowRoot(s.roots[0], s.roots[0].dirs[0], listing.path) == (true, dir)
    ensures Confined(chosen, mode, Visit(s, dir, s.roots[0].dirs[1..], listing))
  {
    var t := WithDirs(s, PushMarker(mode, dir, s.roots[0].dirs[1..]));
    assert Usable(mode, s, t, dir, listing.path);
    UsableSame(mode, s, t, dir, listing.path);
    VisitIs(s, dir, s.roots[0].dirs[1..], listing);
    MarkConfined(chosen, mode, s, dir);
    MarkedUse(chosen, mode, s, t, dir, listing);
  }

  lemma FrontStays(chosen: seq<Root>, mode: Mode, s: State, t: State, path: ServerPath)
    requires Confined(chosen, mode, s) && Ready(s) && s.roots != [] && t.roots != [] && s.roots[0].dirs != []
    requires t.log == s.log && SameRoot(s.roots[0], t.roots[0])
    ensures Grounded(chosen, mode, Marked(t, path).log, Marked(t, path).roots[0], s.roots[0].dirs[0])
  {
    FrontGrounded(chosen, mode, s);
    SameRootGrounded(chosen, mode, s.log, s.roots[0], Marked(t, path).roots[0], s.roots[0].dirs[0]);
  }

  /** The listing is noted as used, and its entries are processed. */
  lemma UseListing(chosen: seq<Root>, mode: Mode, v: State, front: NewDir, e: Event)
    requires v.roots != [] && Confined(chosen, mode, v) && v.mode == mode
    requires Grounded(chosen, mode, v.log, v.roots[0], front) && !Waits(mode, front)
    requires e.Processed? && SameRoot(v.roots[0], e.root) && e.trail == front.Trail() == e.dir.Trail()
    requires BelowRoot(v.roots[0], front, e.listing.path) == (true, e.dir)
    ensures var u := Emit(v, [e]);
            && Confined(chosen, mode, Emit(u, [EmptyDir(e.trail)]))
            && Confined(chosen, mode, ProcessEntries(u, e.dir, e.listing))
  {
    var u := Emit(v, [e]);
    UseConfined(chosen, mode, v, front, e);
    EmitConfined(chosen, mode, u, [EmptyDir(e.trail)]);
    assert UsedBy(u.log, |v.log|, u.roots[0], e.dir, e.listing);
    ProcessConfined(chosen, mode, u, |v.log|, e.dir, e.listing);
  }

  // ---------- the replies ----------

  lemma ListingConfined(chosen: seq<Root>, mode: Mode, s: State, listing: Listing)
    requires Confined(chosen, mode, s) && s.mode != Idle && Ready(s) && !listing.failed
    ensures Confined(chosen, mode, OnListing(s, Some(listing))) && Ready(OnListing(s, Some(listing)))
  {
    var front, rest := s.roots[0].dirs[0], s.roots[0].dirs[1..];
    FrontGrounded(chosen, mode, s);
    var (ok, dir) := BelowRoot(s.roots[0], front, listing.path);
    if !ok {
      assert [] + rest == rest;
      DirsConfined(chosen, mode, s, rest);
      DrainConfined(chosen, mode, WithDirs(s, rest));
      DrainAtMost(WithDirs(s, rest), {});
    } else {
      VisitConfined(chosen, mode, s, dir, listing);
      DrainConfined(chosen, mode, Visit(s, dir, rest, listing));
      DrainAtMost(Visit(s, dir, rest, listing), {});
    }
  }

  /** The front entry is tried once more. */
  lemma AgainConfined(chosen: seq<Root>, mode: Mode, s: State)
    requires Confined(chosen, mode, s) && s.mode != Idle && Ready(s)
    ensures var again := [s.roots[0].dirs[0].(secondTry := true)] + s.roots[0].dirs[1..];
            Confined(chosen, mode, WithDirs(s, again))
  {
    var front, rest := s.roots[0].dirs[0], s.roots[0].dirs[1..];
    FrontGrounded(chosen, mode, s);
    StageGrounded(chosen, mode, s.log, s.roots[0], front, front.(secondTry := true));
    DirsConfined(chosen, mode, s, [front.(secondTry := true)] + rest);
  }

  /** The front entry is given up. */
  lemma GivenUpConfined(chosen: seq<Root>, mode: Mode, s: State, events: seq<Event>)
    requires Confined(chosen, mode, s) && s.mode != Idle && Ready(s) && Allowed(chosen, mode, s.log, events)
    ensures var marked := PushMarker(mode, s.roots[0].dirs[0], s.roots[0].dirs[1..]);
            Confined(chosen, mode, Emit(WithDirs(s, marked), events))
  {
    MarkConfined(chosen, mode, s, s.roots[0].dirs[0]);
    EmitConfined(chosen, mode, WithDirs(s, PushMarker(mode, s.roots[0].dirs[0], s.roots[0].dirs[1..])), events);
  }

  lemma NextConfined(chosen: seq<Root>, mode: Mode, s: State)
    requires Confined(chosen, mode, s) && s.mode != Idle
    ensures Confined(chosen, mode, NextOperation(s)) && Ready(NextOperation(s))
  {
    DrainConfined(chosen, mode, s);
    DrainAtMost(s, {});
  }

  lemma FailureConfined(chosen: seq<Root>, mode: Mode, s: State, error: bv32)
    requires Confined(chosen, mode, s) && s.mode != Idle && Ready(s)
    ensures Confined(chosen, mode, OnFailure(s, error)) && Ready(OnFailure(s, error))
  {
    var front, rest := s.roots[0].dirs[0], s.roots[0].dirs[1..];
    var f := s.(failed := true);
    if !Canceled(error) {
      if !Critical(error) && !front.secondTry {
        AgainConfined(chosen, mode, f);
        NextConfined(chosen, mode, WithDirs(f, [front.(secondTry := true)] + rest));
      } else {
        var events := if mode == ListOnly then [Unlistable(front.Trail())] else [];
        GivenUpConfined(chosen, mode, f, events);
        NextConfined(chosen, mode, Emit(WithDirs(f, PushMarker(mode, front, rest)), events));
      }
    }
  }

  lemma PoppedConfined(chosen: seq<Root>, mode: Mode, s: State, events: seq<Event>)
    requires Confined(chosen, mode, s) && s.mode != Idle && Ready(s) && Allowed(chosen, mode, s.log, events)
    ensures var t := NextOperation(Emit(WithDirs(s, s.roots[0].dirs[1..]), events));
            Confined(chosen, mode, t) && Ready(t)
  {
    FrontGrounded(chosen, mode, s);
    var t := WithDirs(s, s.roots[0].dirs[1..]);
    DirsConfined(chosen, mode, s, s.roots[0].dirs[1..]);
    EmitConfined(chosen, mode, t, events);
    DrainConfined(chosen, mode, Emit(t, events));
    DrainAtMost(Emit(t, events), {});
  }

  lemma NotDirConfined(chosen: seq<Root>, mode: Mode, s: State, connected: bool)
    requires Confined(chosen, mode, s) && s.mode != Idle && Ready(s)
    ensures Confined(chosen, mode, OnNotDir(s, connected)) && Ready(OnNotDir(s, connected))
  {
    FrontGrounded(chosen, mode, s);
    var front, rest := s.roots[0].dirs[0], s.roots[0].dirs[1..];
    PoppedConfined(chosen, mode, s, []);
    EmitNothing(WithDirs(s, rest));
    PoppedConfined(chosen, mode, s, [DeleteFiles(front.Trail(), front.parent, [front.subdir])]);
    PoppedConfined(chosen, mode, s, [NoDirLink(front.Trail(), front.parent, front.subdir)]);
  }

  lemma StepConfined(chosen: seq<Root>, mode: Mode, s: State, r: Reply)
    requires Confined(chosen, mode, s) && Ready(s)
    ensures Confined(chosen, mode, Step(s, r)) && Ready(Step(s, r))
  {
    if s.mode != Idle {
      match r
      case Listed(listing) =>
        if listing.Some? && !listing.value.failed { ListingConfined(chosen, mode, s, listing.value); }
      case ListingFailed(error) => FailureConfined(chosen, mode, s, error);
      case LinkIsNotDir(connected) => NotDirConfined(chosen, mode, s, connected);
    }
  }

  lemma {:induction false} StepsConfined(chosen: seq<Root>, mode: Mode, s: State, replies: seq<Reply>)
    requires Confined(chosen, mode, s) && Ready(s)
    ensures Confined(chosen, mode, Steps(s, replies))
    decreases |replies|
  {
    if replies != [] {
      StepConfined(chosen, mode, s, replies[0]);
      StepsConfined(chosen, mode, Step(s, replies[0]), replies[1..]);
    }
  }

  lemma BegunConfined(mode: Mode, roots: seq<Root>, chmodFiles: bool, chmodDirs: bool, nextId: nat, replies: seq<Reply>)
    requires mode != Idle && forall r :: 0 <= r < |roots| ==> FreshRoot(roots[r])
    ensures Confined(roots, mode, Steps(Begin(mode, roots, chmodFiles, chmodDirs, nextId), replies))
  {
    var s := State(mode, roots, false, chmodFiles, chmodDirs, [], nextId);
    forall r, k | 0 <= r < |roots| && 0 <= k < |roots[r].dirs|
      ensures Grounded(roots, mode, [], roots[r], roots[r].dirs[k])
    {
      assert NamedAt(roots, r, k, roots[r], roots[r].dirs[k]);
    }
    forall r | 0 <= r < |roots| ensures ChosenRoot(roots, roots[r]) {
      assert SameRoot(roots[r], roots[r]);
    }
    assert Confined(roots, mode, s);
    DrainConfined(roots, mode, s);
    DrainAtMost(s, {});
    StepsConfined(roots, mode, Drain(s), replies);
  }

  // ---------- main results ----------

  /** Whatever the server replies: a directory that is listed or removed was chosen, or is a
      directory that the used listing of its parent names; a file that is deleted or changed is
      named by the used listing of its directory, or is a chosen or found link itself. */
  lemma OnlyWhatWasNamed(mode: Mode, roots: seq<Root>, chmodFiles: bool, chmodDirs: bool, nextId: nat,
                         replies: seq<Reply>, i: nat)
    requires mode != Idle && forall r :: 0 <= r < |roots| ==> FreshRoot(roots[r])
    requires i < |Steps(Begin(mode, roots, chmodFiles, chmodDirs, nextId), replies).log|
    ensures var log := Steps(Begin(mode, roots, chmodFiles, chmodDirs, nextId), replies).log;
            Justified(roots, mode, log[..i], log[i])
  {
    BegunConfined(mode, roots, chmodFiles, chmodDirs, nextId, replies);
    var log := Steps(Begin(mode, roots, chmodFiles, chmodDirs, nextId), replies).log;
    assert FitAt(roots, mode, log, i);
  }

  /** Whatever the server replies: each listing that is used lies in a chosen root, or is that of a
      chosen link or lies below its target, exactly unless a chosen link's listing has no path. */
  lemma NothingOutside(mode: Mode, roots: seq<Root>, chmodFiles: bool, chmodDirs: bool, nextId: nat,
                       replies: seq<Reply>, i: nat)
    requires mode != Idle && forall r :: 0 <= r < |roots| ==> FreshRoot(roots[r])
    requires var log := Steps(Begin(mode, roots, chmodFiles, chmodDirs, nextId), replies).log;
             i < |log| && log[i].Processed?
    ensures var log := Steps(Begin(mode, roots, chmodFiles, chmodDirs, nextId), replies).log;
            Inside(roots, log[..i + 1], log[i]) <==> !Pathless(log[i])
  {
    BegunConfined(mode, roots, chmodFiles, chmodDirs, nextId, replies);
    var log := Steps(Begin(mode, roots, chmodFiles, chmodDirs, nextId), replies).log;
    assert FitAt(roots, mode, log, i);
  }

  // ---------- the exception occurs ----------

  const NOWHERE := ServerPath(UNIX, None)
  const CHOSEN := ServerPath(UNIX, Some(PathData(["a"], None)))
  const LINK := NewDir(CHOSEN, "link", None, NOWHERE, 2, true, true, false, 0, [])
  const ROOT := Root(CHOSEN, false, {}, [LINK], 0)
  const REPLY := Listing(NOWHERE, false, [DirEntry("f", false, false, false)])

  lemma PathlessBegins()
    ensures Begin(Delete, [ROOT], false, false, 1) ==
            State(Delete, [ROOT], false, false, false, [ListingOf(LINK)], 1)
  {
    assert [ListingOf(LINK)] == [] + [ListingOf(LINK)];
  }

  /** What the listing's only entry leads to. */
  lemma PathlessIsProcessed(u: State)
    requires u.mode == Delete && u.nextId == 1 && u.roots != [] && u.roots[0].dirs == [LINK.(doVisit := false)]
    ensures ProcessEntries(u, LINK, REPLY) == Emit(u, [DeleteFiles([0], NOWHERE, ["f"])])
  {
    assert FilesToDelete(LINK, REPLY, 1) == [] && FilesToDelete(LINK, REPLY, 0) == ["f"];
    assert AllEntryEvents(u, LINK, REPLY, 1) == [] && AllEntryEvents(u, LINK, REPLY, 0) == [];
    assert Children(Delete, LINK, REPLY, 1, 1) == ([], 1) && Children(Delete, LINK, REPLY, 0, 1) == ([], 1);
    assert [] + u.roots[0].dirs == u.roots[0].dirs;
    assert u.roots[0 := u.roots[0].(dirs := u.roots[0].dirs)] == u.roots;
    assert u.log + [] == u.log;
    assert LINK.Trail() == [0];
  }

  /** All that is left is the removal of the link's directory. */
  lemma PathlessEnds(u: State)
    requires u.mode == Delete && |u.roots| == 1 && u.roots[0].dirs == [LINK.(doVisit := false)]
    ensures NextOperation(u).log == u.log + [RemovalOf(LINK), Finished]
  {
    var v := Emit(WithDirs(u, []), [RemovalOf(LINK)]);
    assert u.roots[0].dirs[1..] == [];
    assert RemovalOf(LINK.(doVisit := false)) == RemovalOf(LINK);
    assert Drain(u) == Drain(v);
    assert v.roots[1..] == [];
    assert Drain(v) == Drain(v.(roots := []));
    assert u.log + [RemovalOf(LINK)] + [Finished] == u.log + [RemovalOf(LINK), Finished];
  }

  lemma PathlessIsVisited(s: State)
    requires s == State(Delete, [ROOT], false, false, false, [ListingOf(LINK)], 1)
    ensures var t := Step(s, Listed(Some(REPLY)));
            |t.log| > 2 && t.log[2] == DeleteFiles([0], NOWHERE, ["f"])
            && t.log[1] == Processed([0], ROOT.(dirs := [LINK.(doVisit := false)]), REPLY, LINK)
  {
    var t := WithDirs(s, [LINK.(doVisit := false)]);
    assert s.roots[0].dirs[1..] == [];
    assert [LINK.(doVisit := false)] + [] == [LINK.(doVisit := false)];
    var e := Processed([0], t.roots[0], REPLY, LINK);
    var u := Emit(Marked(t, NOWHERE), [e]);
    PathlessIsProcessed(u);
    PathlessEnds(Emit(u, [DeleteFiles([0], NOWHERE, ["f"])]));
    assert LINK.Trail() == [0];
    assert BelowRoot(ROOT, LINK, NOWHERE) == (true, LINK);
    assert Visit(s, LINK, [], REPLY) == ProcessEntries(u, LINK, REPLY);
  }

  /** A listing without a path is used for a chosen link, and its file is to be deleted. */
  lemma PathlessIsUsed()
    ensures FreshRoot(ROOT) && Numbered([ROOT], 1)
    ensures var log := Steps(Begin(Delete, [ROOT], false, false, 1), [Listed(Some(REPLY))]).log;
            && |log| > 2 && log[1].Processed? && Pathless(log[1]) && !Inside([ROOT], log, log[1])
            && log[2] == DeleteFiles([0], NOWHERE, ["f"])
  {
    PathlessBegins();
    var s := Begin(Delete, [ROOT], false, false, 1);
    PathlessIsVisited(s);
    assert Steps(s, [Listed(Some(REPLY))]) == Step(s, Listed(Some(REPLY)));
    assert Queue([ROOT]) == [LINK];
  }
}
