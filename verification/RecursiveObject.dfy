/** The recursive operation as an object whose methods update its fields in place. */
module RecursiveObject {
  import opened Text
  import opened ServerPaths
  import opened RecursiveOperation

  lemma SameEntryEvents(s: State, t: State, dir: NewDir, path: ServerPath, e: DirEntry)
    requires s.mode == t.mode && s.chmodFiles == t.chmodFiles && s.chmodDirs == t.chmodDirs
    ensures EntryEvents(s, dir, path, e) == EntryEvents(t, dir, path, e)
  {}

  lemma ChildrenStep(mode: Mode, dir: NewDir, listing: Listing, i: nat, id: nat, below: seq<NewDir>)
    requires i < |listing.entries|
    ensures var e := listing.entries[i];
            var r := Children(mode, dir, listing, i + 1, id);
            var queued := Selected(dir, e) && IsVisitable(mode, e) && dir.recurse;
            && Children(mode, dir, listing, i, id).0 + below
               == (if queued then [ChildOf(dir, listing.path, e, r.1)] else []) + (r.0 + below)
            && Children(mode, dir, listing, i, id).1 == r.1 + (if queued then 1 else 0)
  {
    var r := Children(mode, dir, listing, i + 1, id);
    var c := [ChildOf(dir, listing.path, listing.entries[i], r.1)];
    assert c + r.0 + below == c + (r.0 + below) && [] + (r.0 + below) == r.0 + below;
  }

  lemma SameVisit(s: State, dir: NewDir, rest: seq<NewDir>, listing: Listing)
    requires s.roots != []
    ensures Visit(WithDirs(s, rest), dir, rest, listing) == Visit(s, dir, rest, listing)
  {
    assert WithDirs(WithDirs(s, rest), PushMarker(s.mode, dir, rest)) == WithDirs(s, PushMarker(s.mode, dir, rest));
  }

  ghost function GivenUp(s: State, dir: NewDir, rest: seq<NewDir>): State
    requires s.roots != []
  {
    Emit(WithDirs(s, PushMarker(s.mode, dir, rest)), if s.mode == ListOnly then [Unlistable(dir.Trail())] else [])
  }

  class RemoteRecursiveOperation {
    var mode: Mode
    var roots: seq<Root>
    var failed: bool
    var chmodFiles: bool
    var chmodDirs: bool
    /** Whether there is data for changing permissions; an operation that does so is not started without. */
    var hasChmodData: bool
    var log: seq<Event>
    var nextId: nat

    ghost function Value(): State
      reads this
    {
      State(mode, roots, failed, chmodFiles, chmodDirs, log, nextId)
    }

    constructor ()
      ensures Value() == State(Idle, [], false, false, false, [], 0) && !hasChmodData
    {
      mode, roots, failed, log := Idle, [], false, [];
      chmodFiles, chmodDirs, hasChmodData, nextId := false, false, false, 0;
    }

    method SetChmodData(files: bool, dirs: bool)
      modifies this`chmodFiles, this`chmodDirs, this`hasChmodData
      ensures Value() == old(Value()).(chmodFiles := files, chmodDirs := dirs) && hasChmodData
    {
      chmodFiles, chmodDirs, hasChmodData := files, dirs, true;
    }

    method AddRecursionRoot(root: Root)
      modifies this
      ensures Value() == if root.dirs == [] || root.startDir.Empty() then old(Value())
                         else old(Value()).(roots := old(roots) + [root])
    {
      if root.dirs != [] && !root.startDir.Empty() { roots := roots + [root]; }
    }

    /** Starts with an empty history; nothing happens while another operation runs, without a root,
        or without the data that the mode needs. */
    method StartRecursiveOperation(m: Mode)
      modifies this
      ensures if old(mode) != Idle || (m == Chmod && !old(hasChmodData)) || old(roots) == []
              then Value() == old(Value()).(failed := false)
              else Value() == Begin(m, old(roots), old(chmodFiles), old(chmodDirs), old(nextId))
    {
      failed := false;
      if mode != Idle { return; }
      if m == Chmod && !hasChmodData { return; }
      if roots == [] { return; }
      log := [];
      mode := m;
      NextOperationLoop();
    }

    method StopRecursiveOperation()
      modifies this
      ensures Value() == Stop(old(Value())) && !hasChmodData
    {
      mode, roots := Idle, [];
      hasChmodData := false;
    }

    method NextOperationLoop()
      modifies this
      ensures Value() == NextOperation(old(Value()))
    {
      if mode == Idle { return; }
      ghost var goal := Drain(Value());
      while roots != []
        invariant mode != Idle && Drain(Value()) == goal
        decreases |roots|
      {
        ghost var count := |roots|;
        while roots[0].dirs != []
          invariant roots != [] && |roots| == count
          invariant mode != Idle && Drain(Value()) == goal
          decreases |roots[0].dirs|
        {
          var dir := roots[0].dirs[0];
          if mode == Delete && !dir.doVisit && dir.recurse {
            log := log + [RemoveDir(dir.Trail(), dir.parent, dir.subdir)];
            roots := roots[0 := roots[0].(dirs := roots[0].dirs[1..])];
            continue;
          }
          log := log + [ListDir(dir.Trail(), dir.parent, dir.subdir, dir.link != 0)];
          return;
        }
        roots := roots[1..];
      }
      StopRecursiveOperation();
      log := log + [Finished];
    }

    /** One round of the loop of process_entries. */
    method ProcessEntry(e: DirEntry, path: ServerPath, dir: NewDir) returns (file: seq<string>)
      requires roots != []
      modifies this`roots, this`log, this`nextId
      ensures file == if Selected(dir, e) && mode == Delete && !IsVisitable(Delete, e) then [e.name] else []
      ensures log == old(log) + EntryEvents(old(Value()), dir, path, e)
      ensures var queued := Selected(dir, e) && IsVisitable(mode, e) && dir.recurse;
              && nextId == old(nextId) + (if queued then 1 else 0)
              && roots == old(roots)[0 := old(roots)[0].(dirs :=
                   (if queued then [ChildOf(dir, path, e, old(nextId))] else []) + old(roots)[0].dirs)]
    {
      file := [];
      assert [] + roots[0].dirs == roots[0].dirs;
      if Selected(dir, e) {
        if e.isDir && (!e.isLink || mode != Delete) {
          if dir.recurse {
            var child := NewDir(path, e.name, None, dir.startDir, 0, true, true, false, nextId, dir.Trail());
            if e.isLink { child := child.(link := 1, recurse := false); }
            nextId := nextId + 1;
            roots := roots[0 := roots[0].(dirs := [child] + roots[0].dirs)];
          }
        } else if mode == Transfer || mode == TransferFlatten {
          log := log + [FileFound(dir.Trail(), path, e.name)];
        } else if mode == Delete {
          file := [e.name];
        }
        if mode == Chmod && ((!e.isDir && chmodFiles) || (e.isDir && chmodDirs)) {
          log := log + [SetMode(dir.Trail(), path, e.name)];
        }
      }
    }

    /** The loop over the entries, from the last to the first, so that the first is visited first. */
    method ProcessEachEntry(listing: Listing, dir: NewDir) returns (files: seq<string>)
      requires roots != []
      modifies this`roots, this`log, this`nextId
      ensures files == if mode == Delete then FilesToDelete(dir, listing, 0) else []
      ensures log == old(log) + AllEntryEvents(old(Value()), dir, listing, 0)
      ensures nextId == Children(mode, dir, listing, 0, old(nextId)).1
      ensures var children := Children(mode, dir, listing, 0, old(nextId)).0;
              roots == old(roots)[0 := old(roots)[0].(dirs := children + old(roots)[0].dirs)]
    {
      files := [];
      var i := |listing.entries|;
      ghost var before, front := Value(), roots[0];
      assert [] + front.dirs == front.dirs;
      while i > 0
        invariant 0 <= i <= |listing.entries| && roots != []
        invariant files == if mode == Delete then FilesToDelete(dir, listing, i) else []
        invariant log == before.log + AllEntryEvents(before, dir, listing, i)
        invariant nextId == Children(mode, dir, listing, i, before.nextId).1
        invariant roots[1..] == before.roots[1..]
        invariant roots[0] == front.(dirs := Children(mode, dir, listing, i, before.nextId).0 + front.dirs)
      {
        i := i - 1;
        ghost var now := Value();
        var file := ProcessEntry(listing.entries[i], listing.path, dir);
        files := files + file;
        SameEntryEvents(now, before, dir, listing.path, listing.entries[i]);
        ChildrenStep(mode, dir, listing, i, before.nextId, front.dirs);
      }
      assert roots == before.roots[0 := roots[0]];
    }

    method ProcessEntriesLoop(listing: Listing, dir: NewDir)
      requires roots != []
      modifies this`roots, this`log, this`nextId
      ensures Value() == ProcessEntries(old(Value()), dir, listing)
    {
      var files := ProcessEachEntry(listing, dir);
      if mode == Delete && files != [] {
        log := log + [DeleteFiles(dir.Trail(), listing.path, files)];
      }
    }

    method PushMarkerOf(dir: NewDir)
      requires roots != []
      modifies this`roots
      ensures Value() == WithDirs(old(Value()), PushMarker(mode, dir, old(roots)[0].dirs))
    {
      if mode == Delete && dir.doVisit && dir.recurse && dir.subdir != "" {
        roots := roots[0 := roots[0].(dirs := [dir.(doVisit := false)] + roots[0].dirs)];
      }
    }

    method ProcessDirectoryListing(reply: Option<Listing>)
      modifies this
      ensures Value() == OnListing(old(Value()), reply)
    {
      if reply.None? { StopRecursiveOperation(); return; }
      var listing := reply.value;
      if mode == Idle || roots == [] || listing.failed { return; }
      if roots[0].dirs == [] { StopRecursiveOperation(); return; }
      ghost var s := Value();
      var front := roots[0].dirs[0];
      var below, dir := BelowRecursionRoot(listing.path, front);
      roots := roots[0 := roots[0].(dirs := roots[0].dirs[1..])];
      assert Value() == WithDirs(s, s.roots[0].dirs[1..]);
      if below {
        VisitListing(listing, dir);
        SameVisit(s, dir, s.roots[0].dirs[1..], listing);
      }
      NextOperationLoop();
    }

    method VisitListing(listing: Listing, dir: NewDir)
      requires roots != []
      modifies this
      ensures Value() == Visit(old(Value()), dir, old(roots)[0].dirs, listing)
    {
      PushMarkerOf(dir);
      if dir.link != 0 && !dir.recurse { return; }
      if listing.path in roots[0].visited { return; }
      log := log + [Processed(dir.Trail(), roots[0], listing, dir)];
      roots := roots[0 := roots[0].(visited := roots[0].visited + {listing.path})];
      if listing.entries == [] && mode == Transfer {
        log := log + [EmptyDir(dir.Trail())];
      } else {
        ProcessEntriesLoop(listing, dir);
      }
    }

    method BelowRecursionRoot(path: ServerPath, front: NewDir) returns (below: bool, dir: NewDir)
      requires roots != []
      ensures (below, dir) == BelowRoot(roots[0], front, path)
    {
      dir := front;
      if !dir.startDir.Empty() {
        below := CheckSubdir(path, dir.startDir, false, false);
        return;
      }
      below := CheckSubdir(path, roots[0].startDir, false, false);
      if below { return; }
      if path == roots[0].startDir && roots[0].allowParent { return true, dir; }
      if dir.link == 2 { return true, dir.(startDir := path); }
    }

    /** The entry is not tried again; its directory may have to be removed all the same. */
    method GiveUp(dir: NewDir)
      requires roots != []
      modifies this
      ensures Value() == GivenUp(old(Value()), dir, old(roots)[0].dirs)
    {
      PushMarkerOf(dir);
      if mode == ListOnly { log := log + [Unlistable(dir.Trail())]; }
    }

    method ListingFailedWith(error: bv32)
      modifies this
      ensures Value() == OnFailure(old(Value()), error)
    {
      failed := true;
      if mode == Idle || roots == [] { return; }
      if Canceled(error) || roots[0].dirs == [] { StopRecursiveOperation(); return; }
      ghost var f := Value();
      var dir := roots[0].dirs[0];
      roots := roots[0 := roots[0].(dirs := roots[0].dirs[1..])];
      if !Critical(error) && !dir.secondTry {
        roots := roots[0 := roots[0].(dirs := [dir.(secondTry := true)] + roots[0].dirs)];
        assert Value() == WithDirs(f, [dir.(secondTry := true)] + f.roots[0].dirs[1..]);
      } else {
        GiveUp(dir);
        assert Value() == GivenUp(f, dir, f.roots[0].dirs[1..]);
      }
      NextOperationLoop();
    }

    method LinkIsNotDirectory(connected: bool)
      modifies this
      ensures Value() == OnNotDir(old(Value()), connected)
    {
      if mode == Idle || roots == [] { return; }
      if roots[0].dirs == [] { StopRecursiveOperation(); return; }
      var dir := roots[0].dirs[0];
      roots := roots[0 := roots[0].(dirs := roots[0].dirs[1..])];
      if connected {
        if mode == Delete {
          if dir.subdir != "" { log := log + [DeleteFiles(dir.Trail(), dir.parent, [dir.subdir])]; }
        } else if mode != ListOnly {
          log := log + [NoDirLink(dir.Trail(), dir.parent, dir.subdir)];
        }
      }
      NextOperationLoop();
    }
  }
}
