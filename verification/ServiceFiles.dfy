/**
 The cache of service files, as functions on values: entries indexed by bus name, and by file name in a table for each
 service directory.

 A `BusActivationEntry *` is an index into an arena and a `BusServiceDirectory *` one into a list of directories.  `ok`
 turns false, and stays so, when freed memory would be used or an assertion of the source fails.
 */
module ServiceFiles {
  import opened BusTypes

  type EntryId = nat
  type DirId = nat

  /** What a service file says. */
  datatype Content = Content(name: string, exec: string, user: Option<string>, systemdService: Option<string>)

  /** A file as it is now; no content if it cannot be loaded, or lacks a name or a command. */
  datatype File = File(mtime: int, content: Option<Content>)

  /** By directory and file name. */
  type FileSystem = map<string, map<string, File>>

  function FileAt(fs: FileSystem, dir: string, filename: string): Option<File> {
    if dir in fs && filename in fs[dir] then Some(fs[dir][filename]) else None
  }

  datatype Entry = Entry(refcount: int, content: Content, mtime: int, dir: DirId, filename: string)

  datatype Slot = Live(entry: Entry) | Gone

  datatype Directory = Open(path: string, entries: map<string, EntryId>) | Closed

  datatype Cache = Cache(arena: seq<Slot>, names: map<string, EntryId>, dirs: seq<Directory>,
                         directories: map<string, DirId>, ok: bool)

  const NO_FILES := Cache([], map[], [], map[], true)

  predicate IsLive(c: Cache, id: EntryId) {
    id < |c.arena| && c.arena[id].Live?
  }

  predicate IsOpen(c: Cache, dir: DirId) {
    dir < |c.dirs| && c.dirs[dir].Open?
  }

  function EntryOf(c: Cache, id: EntryId): Entry
    requires IsLive(c, id)
  {
    c.arena[id].entry
  }

  // ---------------------------------------------------------------------------------------------
  // References and tables

  /** `bus_activation_entry_ref` */
  function Ref(c: Cache, id: EntryId): Cache {
    if !IsLive(c, id) || EntryOf(c, id).refcount <= 0 then c.(ok := false)
    else
      var e := EntryOf(c, id);
      c.(arena := c.arena[id := Live(e.(refcount := e.refcount + 1))])
  }

  /** `bus_activation_entry_unref` */
  function Unref(c: Cache, id: EntryId): Cache {
    if !IsLive(c, id) || EntryOf(c, id).refcount <= 0 then c.(ok := false)
    else
      var e := EntryOf(c, id);
      c.(arena := c.arena[id := if e.refcount > 1 then Live(e.(refcount := e.refcount - 1)) else Gone])
  }

  function RemoveNamed(c: Cache, name: string): Cache {
    if name !in c.names then c else Unref(c.(names := c.names - {name}), c.names[name])
  }

  /** The reference given becomes the table's; a different old value loses its own. */
  function InsertNamed(c: Cache, name: string, id: EntryId): Cache {
    var inserted := c.(names := c.names[name := id]);
    if name in c.names && c.names[name] != id then Unref(inserted, c.names[name]) else inserted
  }

  function WithFiles(c: Cache, dir: DirId, entries: map<string, EntryId>): Cache
    requires IsOpen(c, dir)
  {
    c.(dirs := c.dirs[dir := Open(c.dirs[dir].path, entries)])
  }

  function RemoveFile(c: Cache, dir: DirId, filename: string): Cache {
    if !IsOpen(c, dir) then c.(ok := false)
    else
      var entries := c.dirs[dir].entries;
      if filename !in entries then c else Unref(WithFiles(c, dir, entries - {filename}), entries[filename])
  }

  function InsertFile(c: Cache, dir: DirId, filename: string, id: EntryId): Cache {
    if !IsOpen(c, dir) then c.(ok := false)
    else
      var entries := c.dirs[dir].entries;
      var inserted := WithFiles(c, dir, entries[filename := id]);
      if filename in entries && entries[filename] != id then Unref(inserted, entries[filename]) else inserted
  }

  // ---------------------------------------------------------------------------------------------
  // One file

  /** Where memory fails, in the order of the source. */
  datatype Fault = NoFault | NoPath | NoLoad | NoUpdate | NoNameSlot | NoDirSlot

  /** Done, given up on for now, or stopped for lack of memory. */
  datatype Verdict = Done | Ignored | NoMemory

  /** A file not seen before; a table that has no room for it keeps the reference made for it. */
  function AddEntry(c: Cache, dir: DirId, filename: string, f: File, fault: Fault): (Cache, Verdict)
    requires f.content.Some?
  {
    var content := f.content.value;
    if content.name in c.names then (c, Ignored)
    else
      var id := |c.arena|;
      var born := c.(arena := c.arena + [Live(Entry(1, content, 0, dir, filename))]);
      if fault == NoNameSlot then (Unref(Ref(born, id), id), NoMemory)
      else
        var named := InsertNamed(Ref(born, id), content.name, id);
        if fault == NoDirSlot then (Unref(RemoveNamed(Ref(named, id), content.name), id), NoMemory)
        else (Unref(Stamp(InsertFile(Ref(named, id), dir, filename, id), id, f.mtime), id), Done)
  }

  function Stamp(c: Cache, id: EntryId, mtime: int): Cache {
    if !IsLive(c, id) then c.(ok := false) else c.(arena := c.arena[id := Live(EntryOf(c, id).(mtime := mtime))])
  }

  function Rewrite(c: Cache, id: EntryId, content: Content): Cache {
    if !IsLive(c, id) then c.(ok := false) else c.(arena := c.arena[id := Live(EntryOf(c, id).(content := content))])
  }

  /**
   A file that has an entry.  Its old name leaves the table before the new one is looked up, so on a clash the entry
   stays in its directory's table only.
   */
  function RefreshEntry(c: Cache, id: EntryId, f: File, fault: Fault): (Cache, Verdict)
    requires f.content.Some?
  {
    var content := f.content.value;
    if !IsLive(c, id) then (c.(ok := false), Ignored)
    else
      var unnamed := RemoveNamed(Ref(c, id), EntryOf(c, id).content.name);
      if content.name in unnamed.names then (Unref(unnamed, id), Ignored)
      else
        var rewritten := Rewrite(unnamed, id, content);
        if fault == NoNameSlot then
          (Unref(RemoveFile(Ref(rewritten, id), EntryOf(c, id).dir, EntryOf(c, id).filename), id), NoMemory)
        else (Unref(Stamp(InsertNamed(Ref(rewritten, id), content.name, id), id, f.mtime), id), Done)
  }

  /** `update_desktop_file_entry` */
  function UpdateEntry(c: Cache, dir: DirId, filename: string, f: Option<File>, fault: Fault): (Cache, Verdict) {
    if fault == NoUpdate then (c, NoMemory)
    else if f.None? || f.value.content.None? then (c, Ignored)
    else if !IsOpen(c, dir) then (c.(ok := false), Ignored)
    else if filename in c.dirs[dir].entries then RefreshEntry(c, c.dirs[dir].entries[filename], f.value, fault)
    else AddEntry(c, dir, filename, f.value, fault)
  }

  /** `check_service_file`: the entry as it is afterwards, if its file is still there. */
  function Check(c: Cache, id: EntryId, fs: FileSystem, fault: Fault): (Cache, Option<EntryId>, Verdict) {
    if !IsLive(c, id) || !IsOpen(c, EntryOf(c, id).dir) then (c.(ok := false), None, Ignored)
    else
      var e := EntryOf(c, id);
      var f := FileAt(fs, c.dirs[e.dir].path, e.filename);
      if fault == NoPath then (c, Some(id), NoMemory)
      else if f.None? then
        var unnamed := RemoveNamed(c, e.content.name);
        if !IsLive(unnamed, id) then (unnamed.(ok := false), None, Ignored)
        else (RemoveFile(unnamed, e.dir, e.filename), None, Done)
      else if f.value.mtime <= e.mtime then (c, Some(id), Done)
      else if fault == NoLoad then (c, Some(id), NoMemory)
      else if f.value.content.None? then (c, Some(id), Done)
      else
        var (c', verdict) := UpdateEntry(c, e.dir, e.filename, f, fault);
        (c', Some(id), if verdict == NoMemory then NoMemory else Done)
  }

  // ---------------------------------------------------------------------------------------------
  // Directories

  predicate IsServiceFile(filename: string) {
    |filename| >= 8 && filename[|filename| - 8..] == ".service"
  }

  /** The names that end so, and only they. */
  lemma ServiceFileIff(filename: string)
    ensures IsServiceFile(filename) <==> exists stem :: filename == stem + ".service"
  {
    if IsServiceFile(filename) { assert filename == filename[..|filename| - 8] + ".service"; }
    forall stem | filename == stem + ".service" ensures IsServiceFile(filename) {
      assert filename[|filename| - 8..] == ".service";
    }
  }

  datatype Listed = Listed(filename: string, fault: Fault)

  /** One name of a directory listing. */
  function Visit(c: Cache, dir: DirId, l: Listed, fs: FileSystem): (Cache, Verdict) {
    if !IsServiceFile(l.filename) then (c, Done)
    else if !IsOpen(c, dir) then (c.(ok := false), Ignored)
    else if l.filename in c.dirs[dir].entries then
      var (c', _, verdict) := Check(c, c.dirs[dir].entries[l.filename], fs, l.fault); (c', verdict)
    else if l.fault == NoPath || l.fault == NoLoad then (c, NoMemory)
    else
      var (c', verdict) := UpdateEntry(c, dir, l.filename, FileAt(fs, c.dirs[dir].path, l.filename), l.fault);
      (c', if verdict == NoMemory then NoMemory else Done)
  }

  function VisitAll(c: Cache, dir: DirId, listing: seq<Listed>, fs: FileSystem): (Cache, Verdict)
    decreases |listing|
  {
    if listing == [] then (c, Done)
    else
      var (c', verdict) := Visit(c, dir, listing[0], fs);
      if verdict == NoMemory then (c', NoMemory) else VisitAll(c', dir, listing[1..], fs)
  }

  /** A directory to scan; no listing if it cannot be opened. */
  datatype Scan = Scan(dir: DirId, listing: Option<seq<Listed>>)

  /** `update_directory` */
  function UpdateDirectory(c: Cache, scan: Scan, fs: FileSystem): (Cache, Verdict) {
    if scan.listing.None? then (c, Ignored) else VisitAll(c, scan.dir, scan.listing.value, fs)
  }

  /** `update_service_cache`; scans come in the order in which the directories are walked. */
  function UpdateCache(c: Cache, scans: seq<Scan>, fs: FileSystem): (Cache, Verdict)
    decreases |scans|
  {
    if scans == [] then (c, Done)
    else
      var (c', verdict) := UpdateDirectory(c, scans[0], fs);
      if verdict == NoMemory then (c', NoMemory) else UpdateCache(c', scans[1..], fs)
  }

  /** What one lookup meets. */
  datatype Lookup = Lookup(name: string, fs: FileSystem, fault: Fault, scans: seq<Scan>)

  /** `activation_find_entry` */
  function Find(c: Cache, l: Lookup): (Cache, Option<EntryId>) {
    if l.name in c.names then
      var (c', found, verdict) := Check(c, c.names[l.name], l.fs, l.fault);
      (c', if verdict == NoMemory then None else found)
    else
      var (c', verdict) := UpdateCache(c, l.scans, l.fs);
      (c', if verdict == NoMemory || l.name !in c'.names then None else Some(c'.names[l.name]))
  }

  // ---------------------------------------------------------------------------------------------
  // Loading

  /** A directory of the configuration; freed is the order in which a table it replaces gives up its entries. */
  datatype DirectoryLoad = DirectoryLoad(path: string, listing: Option<seq<Listed>>, freed: seq<EntryId>)

  function UnrefAll(c: Cache, ids: seq<EntryId>): Cache
    decreases |ids|
  {
    if ids == [] then c else UnrefAll(Unref(c, ids[0]), ids[1..])
  }

  /** A table for a directory; a table that was there for the same path is freed, with all it holds. */
  function OpenDirectory(c: Cache, d: DirectoryLoad): Cache {
    var begun := c.(dirs := c.dirs + [Open(d.path, map[])], directories := c.directories[d.path := |c.dirs|]);
    if d.path !in c.directories then begun
    else if !IsOpen(c, c.directories[d.path]) then c.(ok := false)
    else UnrefAll(begun.(dirs := begun.dirs[c.directories[d.path] := Closed]), d.freed)
  }

  /** The loop of `bus_activation_reload`: it stops when memory fails. */
  function Load(c: Cache, todo: seq<DirectoryLoad>, fs: FileSystem): (Cache, bool)
    decreases |todo|
  {
    if todo == [] then (c, true)
    else
      var (c', verdict) := UpdateDirectory(OpenDirectory(c, todo[0]), Scan(|c.dirs|, todo[0].listing), fs);
      if verdict == NoMemory then (c', false) else Load(c', todo[1..], fs)
  }

  /** Freeing the table of names, in the order in which it gives up its entries. */
  function FreeNames(c: Cache, walk: seq<string>): Cache
    decreases |walk|
  {
    if walk == [] then c else FreeNames(RemoveNamed(c, walk[0]), walk[1..])
  }

  function FreeFiles(c: Cache, dir: DirId, walk: seq<string>): Cache
    decreases |walk|
  {
    if walk == [] then c else FreeFiles(RemoveFile(c, dir, walk[0]), dir, walk[1..])
  }

  /** The table of one directory, and the order in which it gives up its entries. */
  datatype TableWalk = TableWalk(dir: DirId, files: seq<string>)

  /** `bus_service_directory_unref`, of the last reference. */
  function FreeTable(c: Cache, w: TableWalk): Cache {
    if !IsOpen(c, w.dir) then c.(ok := false)
    else
      var emptied := FreeFiles(c, w.dir, w.files);
      if !IsOpen(emptied, w.dir) then emptied.(ok := false) else emptied.(dirs := emptied.dirs[w.dir := Closed])
  }

  function FreeTables(c: Cache, walks: seq<TableWalk>): Cache
    decreases |walks|
  {
    if walks == [] then c else FreeTables(FreeTable(c, walks[0]), walks[1..])
  }

  /** What one reload meets: how the old tables are walked, and the directories of the configuration. */
  datatype Reload = Reload(names: seq<string>, tables: seq<TableWalk>, todo: seq<DirectoryLoad>, fs: FileSystem)

  function FreeAll(c: Cache, r: Reload): Cache {
    FreeTables(FreeNames(c, r.names), r.tables).(directories := map[])
  }

  /** `bus_activation_reload`: the tables that there were are freed, then each directory gets a new one. */
  function ReloadAll(c: Cache, r: Reload): (Cache, bool) {
    Load(FreeAll(c, r), r.todo, r.fs)
  }
}
