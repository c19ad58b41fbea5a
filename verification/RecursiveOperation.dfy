/** Recursive transfer, delete, chmod and listing on the server: a worklist driven by the
    server's replies, whatever these are. */
module RecursiveOperation {
  import opened Text
  import opened ServerPaths

  datatype Mode = Idle | Transfer | TransferFlatten | Delete | Chmod | ListOnly

  /** An entry of a listing; filtered is the verdict of the user's filename filters on it. */
  datatype DirEntry = DirEntry(name: string, isDir: bool, isLink: bool, filtered: bool)

  datatype Listing = Listing(path: ServerPath, failed: bool, entries: seq<DirEntry>)

  /** A directory to visit, or, when doVisit is off, to remove now that it was visited.
      link: 0 no link, 1 link found on the way, 2 link named by the user.
      id numbers the entries in the order they are queued; lineage lists the ids of the
      entries whose listings led to this one. Both are history, the program has neither. */
  datatype NewDir = NewDir(
    parent: ServerPath, subdir: string, restricted: Option<string>, startDir: ServerPath,
    link: nat, doVisit: bool, recurse: bool, secondTry: bool, id: nat, lineage: seq<nat>)
  {
    function Trail(): seq<nat> { lineage + [id] }
  }

  /** key tells the roots of one operation apart; it is history too. */
  datatype Root = Root(startDir: ServerPath, allowParent: bool, visited: set<ServerPath>, dirs: seq<NewDir>, key: nat)

  /** What the operation asks for, with the trail of the entry that made it ask. Processed notes
      that a listing was used: for which root, and for which entry, whose startDir is the link target
      it is under. */
  datatype Event =
    | ListDir(trail: seq<nat>, parent: ServerPath, subdir: string, link: bool)
    | RemoveDir(trail: seq<nat>, parent: ServerPath, subdir: string)
    | DeleteFiles(trail: seq<nat>, path: ServerPath, names: seq<string>)
    | SetMode(trail: seq<nat>, path: ServerPath, name: string)
    | FileFound(trail: seq<nat>, path: ServerPath, name: string)
    | EmptyDir(trail: seq<nat>)
    | NoDirLink(trail: seq<nat>, parent: ServerPath, subdir: string)
    | Unlistable(trail: seq<nat>)
    | Processed(trail: seq<nat>, root: Root, listing: Listing, dir: NewDir)
    | Finished

  datatype State = State(
    mode: Mode, roots: seq<Root>, failed: bool, chmodFiles: bool, chmodDirs: bool,
    log: seq<Event>, nextId: nat)

  datatype Reply = Listed(listing: Option<Listing>) | ListingFailed(error: bv32) | LinkIsNotDir(connected: bool)

  const FZ_REPLY_CRITICALERROR: bv32 := 0x0006
  const FZ_REPLY_CANCELED: bv32 := 0x000a

  // ---------- the steps ----------

  function Stop(s: State): State {
    s.(mode := Idle, roots := [])
  }

  function Emit(s: State, events: seq<Event>): State {
    s.(log := s.log + events)
  }

  /** The front root with other entries to visit. */
  function WithDirs(s: State, dirs: seq<NewDir>): State
    requires s.roots != []
  {
    s.(roots := s.roots[0 := s.roots[0].(dirs := dirs)])
  }

  predicate IsMarker(d: NewDir) { !d.doVisit && d.recurse }

  function RemovalOf(d: NewDir): Event { RemoveDir(d.Trail(), d.parent, d.subdir) }

  function ListingOf(d: NewDir): Event { ListDir(d.Trail(), d.parent, d.subdir, d.link != 0) }

  /** The loops of NextOperation: issues removals that are due, then asks for the next listing. */
  function Drain(s: State): State
    decreases |s.roots|, if s.roots == [] then 0 else |s.roots[0].dirs|
  {
    if s.roots == [] then Emit(Stop(s), [Finished])
    else
      var dirs := s.roots[0].dirs;
      if dirs == [] then Drain(s.(roots := s.roots[1..]))
      else if s.mode == Delete && IsMarker(dirs[0]) then Drain(Emit(WithDirs(s, dirs[1..]), [RemovalOf(dirs[0])]))
      else Emit(s, [ListingOf(dirs[0])])
  }

  function NextOperation(s: State): State {
    if s.mode == Idle then s else Drain(s)
  }

  /** BelowRecursionRoot: whether a listing may be used, and the start directory it is under. */
  function BelowRoot(root: Root, dir: NewDir, path: ServerPath): (bool, NewDir) {
    if !dir.startDir.Empty() then (IsSubdirOf(path, dir.startDir, false, false), dir)
    else if IsSubdirOf(path, root.startDir, false, false) then (true, dir)
    else if path == root.startDir && root.allowParent then (true, dir)
    else if dir.link == 2 then (true, dir.(startDir := path))
    else (false, dir)
  }

  predicate Selected(dir: NewDir, e: DirEntry) {
    if dir.restricted.Some? then e.name == dir.restricted.value else !e.filtered
  }

  predicate IsVisitable(mode: Mode, e: DirEntry) { e.isDir && (!e.isLink || mode != Delete) }

  function ChildOf(dir: NewDir, path: ServerPath, e: DirEntry, id: nat): NewDir {
    NewDir(path, e.name, None, dir.startDir, if e.isLink then 1 else 0, true, !e.isLink, false, id, dir.Trail())
  }

  /** The entries queued for a listing's entries from number k on, and the next free id; the
      loop runs from the last entry to the first and queues at the front. */
  function Children(mode: Mode, dir: NewDir, listing: Listing, k: nat, id: nat): (r: (seq<NewDir>, nat))
    requires k <= |listing.entries|
    decreases |listing.entries| - k
  {
    if k == |listing.entries| then ([], id)
    else
      var r := Children(mode, dir, listing, k + 1, id);
      var e := listing.entries[k];
      if Selected(dir, e) && IsVisitable(mode, e) && dir.recurse
      then ([ChildOf(dir, listing.path, e, r.1)] + r.0, r.1 + 1)
      else r
  }

  function EntryEvents(s: State, dir: NewDir, path: ServerPath, e: DirEntry): seq<Event> {
    if !Selected(dir, e) then []
    else
      (if !IsVisitable(s.mode, e) && (s.mode == Transfer || s.mode == TransferFlatten)
       then [FileFound(dir.Trail(), path, e.name)] else [])
      + (if s.mode == Chmod && (if e.isDir then s.chmodDirs else s.chmodFiles)
         then [SetMode(dir.Trail(), path, e.name)] else [])
  }

  function AllEntryEvents(s: State, dir: NewDir, listing: Listing, k: nat): seq<Event>
    requires k <= |listing.entries|
    decreases |listing.entries| - k
  {
    if k == |listing.entries| then []
    else AllEntryEvents(s, dir, listing, k + 1) + EntryEvents(s, dir, listing.path, listing.entries[k])
  }

  function FilesToDelete(dir: NewDir, listing: Listing, k: nat): seq<string>
    requires k <= |listing.entries|
    decreases |listing.entries| - k
  {
    if k == |listing.entries| then []
    else
      var e := listing.entries[k];
      FilesToDelete(dir, listing, k + 1) + if Selected(dir, e) && !IsVisitable(Delete, e) then [e.name] else []
  }

  /** process_entries */
  function ProcessEntries(s: State, dir: NewDir, listing: Listing): State
    requires s.roots != []
  {
    var r := Children(s.mode, dir, listing, 0, s.nextId);
    var files := FilesToDelete(dir, listing, 0);
    var t := WithDirs(s, r.0 + s.roots[0].dirs).(nextId := r.1);
    Emit(Emit(t, AllEntryEvents(s, dir, listing, 0)),
         if s.mode == Delete && files != [] then [DeleteFiles(dir.Trail(), listing.path, files)] else [])
  }

  predicate Owed(mode: Mode, dir: NewDir) {
    mode == Delete && dir.doVisit && dir.recurse && dir.subdir != ""
  }

  /** The directory itself is removed once what is queued above it is done. */
  function PushMarker(mode: Mode, dir: NewDir, dirs: seq<NewDir>): seq<NewDir> {
    if Owed(mode, dir) then [dir.(doVisit := false)] + dirs else dirs
  }

  /** A usable listing for the front entry dir: everything up to the final NextOperation. */
  function Visit(s: State, dir: NewDir, rest: seq<NewDir>, listing: Listing): State
    requires s.roots != []
  {
    var t := WithDirs(s, PushMarker(s.mode, dir, rest));
    if dir.link != 0 && !dir.recurse then t
    else if listing.path in t.roots[0].visited then t
    else
      var root := t.roots[0].(visited := t.roots[0].visited + {listing.path});
      var u := Emit(t.(roots := t.roots[0 := root]),
                    [Processed(dir.Trail(), t.roots[0], listing, dir)]);
      if listing.entries == [] && s.mode == Transfer then Emit(u, [EmptyDir(dir.Trail())])
      else ProcessEntries(u, dir, listing)
  }

  function OnListing(s: State, reply: Option<Listing>): State {
    if reply.None? then Stop(s)
    else if s.mode == Idle || s.roots == [] || reply.value.failed then s
    else if s.roots[0].dirs == [] then Stop(s)
    else
      var front, rest := s.roots[0].dirs[0], s.roots[0].dirs[1..];
      var (ok, dir) := BelowRoot(s.roots[0], front, reply.value.path);
      NextOperation(if ok then Visit(s, dir, rest, reply.value) else WithDirs(s, rest))
  }

  predicate Canceled(error: bv32) { error & FZ_REPLY_CANCELED == FZ_REPLY_CANCELED }

  predicate Critical(error: bv32) { error & FZ_REPLY_CRITICALERROR == FZ_REPLY_CRITICALERROR }

  function OnFailure(s0: State, error: bv32): State {
    var s := s0.(failed := true);
    if s.mode == Idle || s.roots == [] then s
    else if Canceled(error) || s.roots[0].dirs == [] then Stop(s)
    else
      var dir, rest := s.roots[0].dirs[0], s.roots[0].dirs[1..];
      if !Critical(error) && !dir.secondTry then NextOperation(WithDirs(s, [dir.(secondTry := true)] + rest))
      else
        NextOperation(Emit(WithDirs(s, PushMarker(s.mode, dir, rest)),
                           if s.mode == ListOnly then [Unlistable(dir.Trail())] else []))
  }

  function OnNotDir(s: State, connected: bool): State {
    if s.mode == Idle || s.roots == [] then s
    else if s.roots[0].dirs == [] then Stop(s)
    else
      var dir, rest := s.roots[0].dirs[0], s.roots[0].dirs[1..];
      var t := WithDirs(s, rest);
      NextOperation(
        if !connected then t
        else if s.mode == Delete then
          if dir.subdir != "" then Emit(t, [DeleteFiles(dir.Trail(), dir.parent, [dir.subdir])]) else t
        else if s.mode != ListOnly then Emit(t, [NoDirLink(dir.Trail(), dir.parent, dir.subdir)])
        else t)
  }

  function Step(s: State, r: Reply): State {
    match r
    case Listed(listing) => OnListing(s, listing)
    case ListingFailed(error) => OnFailure(s, error)
    case LinkIsNotDir(connected) => OnNotDir(s, connected)
  }

  function Steps(s: State, replies: seq<Reply>): State
    decreases |replies|
  {
    if replies == [] then s else Steps(Step(s, replies[0]), replies[1..])
  }

  /** A root as the user of the class sets it up: plain entries with fresh ids. */
  predicate FreshRoot(root: Root) {
    && root.visited == {}
    && forall i :: 0 <= i < |root.dirs| ==>
         root.dirs[i].doVisit && root.dirs[i].lineage == [] && root.dirs[i].startDir.Empty() && !root.dirs[i].secondTry
  }

  /** All entries of all roots, in the order they come to the front. */
  function Queue(roots: seq<Root>): seq<NewDir>
    decreases |roots|
  {
    if roots == [] then [] else roots[0].dirs + Queue(roots[1..])
  }

  ghost predicate Numbered(roots: seq<Root>, nextId: nat) {
    && (forall i :: 0 <= i < |Queue(roots)| ==> Queue(roots)[i].id < nextId)
    && (forall i, k :: 0 <= i < k < |Queue(roots)| ==> Queue(roots)[i].id != Queue(roots)[k].id)
    && (forall i, k :: 0 <= i < k < |roots| ==> roots[i].key != roots[k].key)
  }

  /** start_recursive_operation on roots that were added before. */
  function Begin(mode: Mode, roots: seq<Root>, chmodFiles: bool, chmodDirs: bool, nextId: nat): State {
    NextOperation(State(mode, roots, false, chmodFiles, chmodDirs, [], nextId))
  }
}
