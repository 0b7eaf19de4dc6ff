/** `BusActivation`, the part that caches service files, changed in place. */
module ServiceCache {
  import opened BusTypes
  import opened Spec = ServiceFiles

  class FileCache {
    var arena: seq<Slot>
    var names: map<string, EntryId>
    var dirs: seq<Directory>
    var directories: map<string, DirId>
    // No freed memory has been used.
    ghost var ok: bool

    ghost function State(): Cache
      reads this
    {
      Spec.Cache(arena, names, dirs, directories, ok)
    }

    constructor ()
      ensures State() == NO_FILES
    {
      arena, names, dirs, directories, ok := [], map[], [], map[], true;
    }

    /** `bus_activation_entry_ref` */
    method Ref(id: EntryId)
      modifies this`arena, this`ok
      ensures State() == Spec.Ref(old(State()), id)
    {
      if id < |arena| && arena[id].Live? && arena[id].entry.refcount > 0 {
        var e := arena[id].entry;
        arena := arena[id := Live(e.(refcount := e.refcount + 1))];
      } else {
        ok := false;
      }
    }

    /** `bus_activation_entry_unref` */
    method Unref(id: EntryId)
      modifies this`arena, this`ok
      ensures State() == Spec.Unref(old(State()), id)
    {
      if !(id < |arena| && arena[id].Live? && arena[id].entry.refcount > 0) {
        ok := false;
        return;
      }
      var e := arena[id].entry;
      e := e.(refcount := e.refcount - 1);
      arena := arena[id := if e.refcount > 0 then Live(e) else Gone];
    }

    method RemoveFromNames(name: string)
      modifies this`arena, this`names, this`ok
      ensures State() == RemoveNamed(old(State()), name)
    {
      if name in names {
        var id := names[name];
        names := names - {name};
        Unref(id);
      }
    }

    method InsertIntoNames(name: string, id: EntryId)
      modifies this`arena, this`names, this`ok
      ensures State() == InsertNamed(old(State()), name, id)
    {
      if name in names && names[name] != id {
        var previous := names[name];
        names := names[name := id];
        Unref(previous);
      } else {
        names := names[name := id];
      }
    }

    method RemoveFromDirectory(dir: DirId, filename: string)
      modifies this`arena, this`dirs, this`ok
      ensures State() == RemoveFile(old(State()), dir, filename)
    {
      if !(dir < |dirs| && dirs[dir].Open?) {
        ok := false;
        return;
      }
      var entries := dirs[dir].entries;
      if filename in entries {
        dirs := dirs[dir := Open(dirs[dir].path, entries - {filename})];
        Unref(entries[filename]);
      }
    }

    method InsertIntoDirectory(dir: DirId, filename: string, id: EntryId)
      modifies this`arena, this`dirs, this`ok
      ensures State() == InsertFile(old(State()), dir, filename, id)
    {
      if !(dir < |dirs| && dirs[dir].Open?) {
        ok := false;
        return;
      }
      var entries := dirs[dir].entries;
      dirs := dirs[dir := Open(dirs[dir].path, entries[filename := id])];
      if filename in entries && entries[filename] != id {
        Unref(entries[filename]);
      }
    }

    method SetTime(id: EntryId, mtime: int)
      modifies this`arena, this`ok
      ensures State() == Stamp(old(State()), id, mtime)
    {
      if id < |arena| && arena[id].Live? {
        arena := arena[id := Live(arena[id].entry.(mtime := mtime))];
      } else {
        ok := false;
      }
    }

    /** The branch of `update_desktop_file_entry` for a new file. */
    method AddNewEntry(dir: DirId, filename: string, f: File, fault: Fault) returns (verdict: Verdict)
      requires f.content.Some?
      modifies this
      ensures (State(), verdict) == AddEntry(old(State()), dir, filename, f, fault)
    {
      var content := f.content.value;
      if content.name in names {
        return Ignored;
      }
      var id := |arena|;
      arena := arena + [Live(Entry(1, content, 0, dir, filename))];
      Ref(id);
      if fault == NoNameSlot {
        Unref(id);
        return NoMemory;
      }
      InsertIntoNames(content.name, id);
      Ref(id);
      if fault == NoDirSlot {
        RemoveFromNames(content.name);
        Unref(id);
        return NoMemory;
      }
      InsertIntoDirectory(dir, filename, id);
      SetTime(id, f.mtime);
      Unref(id);
      verdict := Done;
    }

    /** The branch of `update_desktop_file_entry` for a file that has an entry. */
    method RefreshOldEntry(id: EntryId, f: File, fault: Fault) returns (verdict: Verdict)
      requires f.content.Some?
      modifies this
      ensures (State(), verdict) == RefreshEntry(old(State()), id, f, fault)
    {
      if !(id < |arena| && arena[id].Live?) {
        ok := false;
        return Ignored;
      }
      var content := f.content.value;
      var e := arena[id].entry;
      Ref(id);
      RemoveFromNames(e.content.name);
      if content.name in names {
        Unref(id);
        return Ignored;
      }
      if id < |arena| && arena[id].Live? {
        arena := arena[id := Live(arena[id].entry.(content := content))];
      } else {
        ok := false;
      }
      Ref(id);
      if fault == NoNameSlot {
        RemoveFromDirectory(e.dir, e.filename);
        Unref(id);
        return NoMemory;
      }
      InsertIntoNames(content.name, id);
      SetTime(id, f.mtime);
      Unref(id);
      verdict := Done;
    }

    /** `update_desktop_file_entry` */
    method UpdateDesktopFileEntry(dir: DirId, filename: string, f: Option<File>,
                                  fault: Fault)
      returns (verdict: Verdict)
      modifies this
      ensures (State(), verdict) == UpdateEntry(old(State()), dir, filename, f, fault)
    {
      if fault == NoUpdate {
        return NoMemory;
      }
      if f.None? || f.value.content.None? {
        return Ignored;
      }
      if !(dir < |dirs| && dirs[dir].Open?) {
        ok := false;
        return Ignored;
      }
      if filename in dirs[dir].entries {
        verdict := RefreshOldEntry(dirs[dir].entries[filename], f.value, fault);
      } else {
        verdict := AddNewEntry(dir, filename, f.value, fault);
      }
    }

    /** `check_service_file` */
    method CheckServiceFile(id: EntryId, fs: FileSystem,
                            fault: Fault)
      returns (found: Option<EntryId>, verdict: Verdict)
      modifies this
      ensures (State(), found, verdict) == Check(old(State()), id, fs, fault)
    {
      if !(id < |arena| && arena[id].Live?) || !(arena[id].entry.dir < |dirs| && dirs[arena[id].entry.dir].Open?) {
        ok := false;
        return None, Ignored;
      }
      var e := arena[id].entry;
      if fault == NoPath {
        return Some(id), NoMemory;
      }
      var f := FileAt(fs, dirs[e.dir].path, e.filename);
      if f.None? {
        RemoveFromNames(e.content.name);
        if id < |arena| && arena[id].Live? {
          RemoveFromDirectory(e.dir, e.filename);
          return None, Done;
        }
        ok := false;
        return None, Ignored;
      }
      if f.value.mtime > e.mtime {
        if fault == NoLoad {
          return Some(id), NoMemory;
        }
        if f.value.content.Some? {
          var updated := UpdateDesktopFileEntry(e.dir, e.filename, f, fault);
          if updated == NoMemory {
            return Some(id), NoMemory;
          }
        }
      }
      found, verdict := Some(id), Done;
    }

    /** The body of the loop of `update_directory`. */
    method VisitFile(dir: DirId, l: Listed, fs: FileSystem) returns (verdict: Verdict)
      modifies this
      ensures (State(), verdict) == Visit(old(State()), dir, l, fs)
    {
      if !IsServiceFile(l.filename) {
        return Done;
      }
      if !(dir < |dirs| && dirs[dir].Open?) {
        ok := false;
        return Ignored;
      }
      if l.filename in dirs[dir].entries {
        var _, checked := CheckServiceFile(dirs[dir].entries[l.filename], fs, l.fault);
        return checked;
      }
      if l.fault == NoPath || l.fault == NoLoad {
        return NoMemory;
      }
      verdict := UpdateDesktopFileEntry(dir, l.filename, FileAt(fs, dirs[dir].path, l.filename), l.fault);
      if verdict != NoMemory {
        verdict := Done;
      }
    }

    /** `update_directory` */
    method Update(scan: Scan, fs: FileSystem) returns (verdict: Verdict)
      modifies this
      ensures (State(), verdict) == UpdateDirectory(old(State()), scan, fs)
    {
      if scan.listing.None? {
        return Ignored;
      }
      var todo := scan.listing.value;
      while todo != []
        invariant VisitAll(State(), scan.dir, todo, fs) == VisitAll(old(State()), scan.dir, scan.listing.value, fs)
      {
        verdict := VisitFile(scan.dir, todo[0], fs);
        if verdict == NoMemory {
          return;
        }
        todo := todo[1..];
      }
      verdict := Done;
    }

    /** `activation_find_entry`, with `update_service_cache` */
    method FindEntry(l: Lookup) returns (found: Option<EntryId>)
      modifies this
      ensures (State(), found) == Find(old(State()), l)
    {
      if l.name in names {
        var checked, verdict := CheckServiceFile(names[l.name], l.fs, l.fault);
        return if verdict == NoMemory then None else checked;
      }
      var todo := l.scans;
      while todo != []
        invariant UpdateCache(State(), todo, l.fs) == UpdateCache(old(State()), l.scans, l.fs)
      {
        var verdict := Update(todo[0], l.fs);
        if verdict == NoMemory {
          return None;
        }
        todo := todo[1..];
      }
      found := if l.name in names then Some(names[l.name]) else None;
    }

    /** One directory of `bus_activation_reload`. */
    method AddDirectory(d: DirectoryLoad)
      modifies this
      ensures State() == OpenDirectory(old(State()), d)
    {
      var id := |dirs|;
      if d.path in directories {
        var previous := directories[d.path];
        if !(previous < |dirs| && dirs[previous].Open?) {
          ok := false;
          return;
        }
        dirs := dirs + [Open(d.path, map[])];
        directories := directories[d.path := id];
        dirs := dirs[previous := Closed];
        var todo := d.freed;
        while todo != []
          invariant UnrefAll(State(), todo) == OpenDirectory(old(State()), d)
        {
          Unref(todo[0]);
          todo := todo[1..];
        }
      } else {
        dirs := dirs + [Open(d.path, map[])];
        directories := directories[d.path := id];
      }
    }

    /** The loop of `bus_activation_reload`. */
    method LoadDirectories(todo: seq<DirectoryLoad>, fs: FileSystem) returns (loaded: bool)
      modifies this
      ensures (State(), loaded) == Load(old(State()), todo, fs)
    {
      var left := todo;
      while left != []
        invariant Load(State(), left, fs) == Load(old(State()), todo, fs)
      {
        var id := |dirs|;
        AddDirectory(left[0]);
        var verdict := Update(Scan(id, left[0].listing), fs);
        if verdict == NoMemory {
          return false;
        }
        left := left[1..];
      }
      loaded := true;
    }

    /** The table of names is freed. */
    method FreeNamesTable(walk: seq<string>)
      modifies this
      ensures State() == FreeNames(old(State()), walk)
    {
      var todo := walk;
      while todo != []
        invariant FreeNames(State(), todo) == FreeNames(old(State()), walk)
      {
        RemoveFromNames(todo[0]);
        todo := todo[1..];
      }
    }

    /** `bus_service_directory_unref`, of the last reference. */
    method FreeDirectory(w: TableWalk)
      modifies this
      ensures State() == FreeTable(old(State()), w)
    {
      if !(w.dir < |dirs| && dirs[w.dir].Open?) {
        ok := false;
        return;
      }
      var todo := w.files;
      while todo != []
        invariant FreeFiles(State(), w.dir, todo) == FreeFiles(old(State()), w.dir, w.files)
      {
        RemoveFromDirectory(w.dir, todo[0]);
        todo := todo[1..];
      }
      if w.dir < |dirs| && dirs[w.dir].Open? {
        dirs := dirs[w.dir := Closed];
      } else {
        ok := false;
      }
    }

    /** `bus_activation_reload` */
    method Reload(r: Spec.Reload) returns (loaded: bool)
      modifies this
      ensures (State(), loaded) == ReloadAll(old(State()), r)
    {
      FreeNamesTable(r.names);
      var walks := r.tables;
      while walks != []
        invariant FreeTables(State(), walks) == FreeTables(FreeNames(old(State()), r.names), r.tables)
      {
        FreeDirectory(walks[0]);
        walks := walks[1..];
      }
      directories := map[];
      loaded := LoadDirectories(r.todo, r.fs);
    }
  }
}
