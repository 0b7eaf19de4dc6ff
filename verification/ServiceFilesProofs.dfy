/** The two indexes of the service files agree in every state, and what a lookup finds is there. */
module ServiceFilesProofs {
  import opened BusTypes
  import opened Lists
  import opened ServiceFiles

  // ---------------------------------------------------------------------------------------------
  // The invariant

  predicate InDirectory(c: Cache, id: EntryId) {
    IsLive(c, id)
    && var e := EntryOf(c, id);
    IsOpen(c, e.dir) && e.filename in c.dirs[e.dir].entries && c.dirs[e.dir].entries[e.filename] == id
  }

  predicate InNames(c: Cache, id: EntryId) {
    IsLive(c, id) && var name := EntryOf(c, id).content.name; name in c.names && c.names[name] == id
  }

  /** An entry found by name has that name, and its directory's table has it under its file name. */
  ghost predicate NamesRight(c: Cache) {
    forall name :: name in c.names ==> InNames(c, c.names[name]) && InDirectory(c, c.names[name])
                                       && EntryOf(c, c.names[name]).content.name == name
  }

  /** An entry found by file name is of that file, in that directory. */
  predicate FileRight(c: Cache, dir: DirId, filename: string) {
    IsOpen(c, dir) && filename in c.dirs[dir].entries ==>
      var id := c.dirs[dir].entries[filename];
      IsLive(c, id) && EntryOf(c, id).dir == dir && EntryOf(c, id).filename == filename
  }

  ghost predicate FilesRight(c: Cache) {
    forall dir: DirId, filename :: FileRight(c, dir, filename)
  }

  function References(c: Cache, id: EntryId): nat {
    (if InNames(c, id) then 1 else 0) + if InDirectory(c, id) then 1 else 0
  }

  /** No table and no caller holds more references than are counted; tight says that none is lost either. */
  predicate CountRight(c: Cache, held: multiset<EntryId>, tight: bool, id: EntryId) {
    if IsLive(c, id) then
      var n := EntryOf(c, id).refcount;
      n > 0 && n >= References(c, id) + held[id] && (tight ==> n == References(c, id) + held[id])
    else held[id] == 0
  }

  ghost predicate CountsRight(c: Cache, held: multiset<EntryId>, tight: bool) {
    forall id: EntryId :: CountRight(c, held, tight, id)
  }

  ghost predicate Inv(c: Cache, held: multiset<EntryId>, tight: bool) {
    c.ok && NamesRight(c) && FilesRight(c) && CountsRight(c, held, tight)
  }

  // ---------------------------------------------------------------------------------------------
  // References and tables

  /** Only reference counts and the tables differ, and entries that are gone. */
  ghost predicate SameFacts(c: Cache, c': Cache) {
    |c'.arena| == |c.arena| && |c'.dirs| == |c.dirs| && c'.directories == c.directories
    && (forall id: EntryId :: IsLive(c', id) ==> SameFact(c, c', id))
    && (forall dir: DirId ::
          IsOpen(c', dir) == IsOpen(c, dir) && (IsOpen(c, dir) ==> c'.dirs[dir].path == c.dirs[dir].path))
  }

  predicate SameFact(c: Cache, c': Cache, id: EntryId) {
    IsLive(c, id) && IsLive(c', id) && EntryOf(c', id).(refcount := 0) == EntryOf(c, id).(refcount := 0)
  }

  lemma SameFactsLater(a: Cache, b: Cache, c: Cache)
    requires SameFacts(a, b) && SameFacts(b, c)
    ensures SameFacts(a, c)
  {
    forall id: EntryId | IsLive(c, id) ensures SameFact(a, c, id) {
      assert SameFact(b, c, id);
      assert SameFact(a, b, id);
    }
  }

  lemma RefKeeps(c: Cache, held: multiset<EntryId>, tight: bool, id: EntryId)
    requires Inv(c, held, tight) && IsLive(c, id)
    ensures var c' := Ref(c, id);
            && Inv(c', held + multiset{id}, tight) && SameFacts(c, c') && c'.names == c.names && c'.dirs == c.dirs
            && forall x: EntryId :: InNames(c', x) == InNames(c, x) && InDirectory(c', x) == InDirectory(c, x)
                                    && IsLive(c', x) == IsLive(c, x)
  {
    var c' := Ref(c, id);
    assert CountRight(c, held, tight, id);
    forall x: EntryId
      ensures InNames(c', x) == InNames(c, x) && InDirectory(c', x) == InDirectory(c, x)
      ensures CountRight(c', held + multiset{id}, tight, x)
    {
      assert CountRight(c, held, tight, x);
    }
    forall dir: DirId, f ensures FileRight(c', dir, f) { assert FileRight(c, dir, f); }
  }

  /** Giving up a reference; what some table has stays live. */
  lemma UnrefKeeps(c: Cache, held: multiset<EntryId>, tight: bool, id: EntryId)
    requires Inv(c, held + multiset{id}, tight)
    ensures var c' := Unref(c, id);
            && Inv(c', held, tight) && SameFacts(c, c') && c'.names == c.names && c'.dirs == c.dirs
            && forall x: EntryId :: InNames(c', x) == InNames(c, x) && InDirectory(c', x) == InDirectory(c, x)
                                    && (IsLive(c, x) && x != id ==> IsLive(c', x))
  {
    assert CountRight(c, held + multiset{id}, tight, id);
    var c' := Unref(c, id);
    forall x: EntryId
      ensures InNames(c', x) == InNames(c, x) && InDirectory(c', x) == InDirectory(c, x)
              && CountRight(c', held, tight, x)
    {
      assert CountRight(c, held + multiset{id}, tight, x);
    }
    forall dir: DirId, f ensures FileRight(c', dir, f) {
      assert FileRight(c, dir, f);
      if IsOpen(c, dir) && f in c.dirs[dir].entries {
        assert InDirectory(c, c.dirs[dir].entries[f]);
      }
    }
  }

  /** A name may leave the table at any time. */
  lemma RemoveNamedKeeps(c: Cache, held: multiset<EntryId>, tight: bool, name: string)
    requires Inv(c, held, tight)
    ensures var c' := RemoveNamed(c, name);
            && Inv(c', held, tight) && SameFacts(c, c') && c'.names == c.names - {name} && c'.dirs == c.dirs
            && forall x: EntryId :: InDirectory(c', x) == InDirectory(c, x)
                                    && (InNames(c', x) <==> InNames(c, x) && EntryOf(c, x).content.name != name)
  {
    if name in c.names {
      var id := c.names[name];
      var taken := c.(names := c.names - {name});
      forall x: EntryId
        ensures InNames(taken, x) <==> InNames(c, x) && x != id
        ensures InDirectory(taken, x) == InDirectory(c, x) && CountRight(taken, held + multiset{id}, tight, x)
      {
        assert CountRight(c, held, tight, x);
      }
      forall dir: DirId, f ensures FileRight(taken, dir, f) { assert FileRight(c, dir, f); }
      UnrefKeeps(taken, held, tight, id);
      SameFactsLater(c, taken, Unref(taken, id));
    } else {
      assert c.names - {name} == c.names;
    }
  }

  /** A file may leave its table once its name has. */
  lemma RemoveFileKeeps(c: Cache, held: multiset<EntryId>, tight: bool, id: EntryId)
    requires Inv(c, held, tight) && InDirectory(c, id) && !InNames(c, id)
    ensures var c' := RemoveFile(c, EntryOf(c, id).dir, EntryOf(c, id).filename);
            && Inv(c', held, tight) && SameFacts(c, c') && c'.names == c.names
            && forall x: EntryId ::
                 InNames(c', x) == InNames(c, x) && (InDirectory(c', x) <==> InDirectory(c, x) && x != id)
  {
    var e := EntryOf(c, id);
    var taken := WithFiles(c, e.dir, c.dirs[e.dir].entries - {e.filename});
    forall dir: DirId, f ensures FileRight(taken, dir, f) { assert FileRight(c, dir, f); }
    forall x: EntryId
      ensures InNames(taken, x) == InNames(c, x) && (InDirectory(taken, x) <==> InDirectory(c, x) && x != id)
      ensures CountRight(taken, held + multiset{id}, tight, x)
    {
      assert CountRight(c, held, tight, x);
    }
    UnrefKeeps(taken, held, tight, id);
    SameFactsLater(c, taken, Unref(taken, id));
  }

  /** A free name may be given to an entry of some directory's table, which a caller holds. */
  lemma InsertNamedKeeps(c: Cache, held: multiset<EntryId>, tight: bool, id: EntryId)
    requires Inv(c, held + multiset{id}, tight) && InDirectory(c, id) && EntryOf(c, id).content.name !in c.names
    ensures var name := EntryOf(c, id).content.name;
            var c' := InsertNamed(c, name, id);
            && Inv(c', held, tight) && SameFacts(c, c') && c' == c.(names := c.names[name := id])
            && forall x: EntryId ::
                 InDirectory(c', x) == InDirectory(c, x) && (InNames(c', x) <==> InNames(c, x) || x == id)
  {
    var c' := InsertNamed(c, EntryOf(c, id).content.name, id);
    forall x: EntryId
      ensures InDirectory(c', x) == InDirectory(c, x) && (InNames(c', x) <==> InNames(c, x) || x == id)
      ensures CountRight(c', held, tight, x)
    {
      assert CountRight(c, held + multiset{id}, tight, x);
    }
    forall dir: DirId, f ensures FileRight(c', dir, f) { assert FileRight(c, dir, f); }
  }

  // ---------------------------------------------------------------------------------------------
  // What an update may change

  /** An entry says what its file says now. */
  predicate Current(c: Cache, id: EntryId, fs: FileSystem) {
    IsLive(c, id) && IsOpen(c, EntryOf(c, id).dir)
    && var e := EntryOf(c, id);
    FileAt(fs, c.dirs[e.dir].path, e.filename) == Some(File(e.mtime, Some(e.content)))
  }

  ghost predicate SameDirs(c: Cache, c': Cache) {
    |c'.dirs| == |c.dirs| && c'.directories == c.directories
    && forall dir: DirId ::
         IsOpen(c', dir) == IsOpen(c, dir) && (IsOpen(c, dir) ==> c'.dirs[dir].path == c.dirs[dir].path)
  }

  /**
   Every entry a directory has is as it was, or as its file is; every name is as it was, or of an entry that is current.
   */
  ghost predicate Follows(c: Cache, c': Cache, fs: FileSystem) {
    && SameDirs(c, c')
    && (forall id: EntryId ::
          InDirectory(c', id) ==> (InDirectory(c, id) && SameFact(c, c', id)) || Current(c', id, fs))
    && (forall name :: name in c'.names ==>
          (name in c.names && c'.names[name] == c.names[name]) || Current(c', c'.names[name], fs))
  }

  lemma FollowsLater(a: Cache, b: Cache, c: Cache, fs: FileSystem)
    requires Follows(a, b, fs) && Follows(b, c, fs) && NamesRight(c)
    ensures Follows(a, c, fs)
  {
    forall id: EntryId | InDirectory(c, id)
      ensures (InDirectory(a, id) && SameFact(a, c, id)) || Current(c, id, fs)
    {
      if !Current(c, id, fs) {
        assert InDirectory(b, id) && SameFact(b, c, id);
        assert !Current(b, id, fs);
      }
    }
    forall name | name in c.names
      ensures (name in a.names && c.names[name] == a.names[name]) || Current(c, c.names[name], fs)
    {
      var id := c.names[name];
      assert InDirectory(c, id);
      if !Current(c, id, fs) {
        assert InDirectory(b, id) && SameFact(b, c, id);
        assert !Current(b, id, fs);
      }
    }
  }

  predicate TableFault(fault: Fault) {
    fault in {NoNameSlot, NoDirSlot}
  }

  // ---------------------------------------------------------------------------------------------
  // A new file

  lemma AddLeak(c: Cache, dir: DirId, filename: string, f: File, fault: Fault)
    requires f.content.Some? && f.content.value.name !in c.names && TableFault(fault)
    ensures AddEntry(c, dir, filename, f, fault)
         == (c.(arena := c.arena + [Live(Entry(1, f.content.value, 0, dir, filename))]), NoMemory)
  {
    var (id, content) := (|c.arena|, f.content.value);
    var born := c.(arena := c.arena + [Live(Entry(1, content, 0, dir, filename))]);
    if fault == NoNameSlot {
      assert Unref(Ref(born, id), id).arena == born.arena;
    } else {
      var named := InsertNamed(Ref(born, id), content.name, id);
      var unnamed := RemoveNamed(Ref(named, id), content.name);
      assert unnamed.names == c.names;
      assert Unref(unnamed, id).arena == born.arena;
    }
  }

  lemma AddExact(c: Cache, dir: DirId, filename: string, f: File, fault: Fault)
    requires f.content.Some? && f.content.value.name !in c.names && !TableFault(fault)
    requires IsOpen(c, dir) && filename !in c.dirs[dir].entries
    ensures AddEntry(c, dir, filename, f, fault) == (Added(c, dir, filename, f), Done)
  {
    var (id, content) := (|c.arena|, f.content.value);
    var born := c.(arena := c.arena + [Live(Entry(1, content, 0, dir, filename))]);
    var named := InsertNamed(Ref(born, id), content.name, id);
    var filed := InsertFile(Ref(named, id), dir, filename, id);
    var r := Unref(Stamp(filed, id, f.mtime), id);
    assert r.arena == Added(c, dir, filename, f).arena;
  }

  /** The cache with one more entry, in both tables. */
  function Added(c: Cache, dir: DirId, filename: string, f: File): Cache
    requires f.content.Some? && IsOpen(c, dir)
  {
    WithFiles(c.(arena := c.arena + [Live(Entry(2, f.content.value, f.mtime, dir, filename))],
                 names := c.names[f.content.value.name := |c.arena|]),
              dir, c.dirs[dir].entries[filename := |c.arena|])
  }

  lemma AddedTables(c: Cache, held: multiset<EntryId>, tight: bool, dir: DirId, filename: string, f: File)
    requires Inv(c, held, tight) && f.content.Some? && f.content.value.name !in c.names
    requires IsOpen(c, dir) && filename !in c.dirs[dir].entries
    ensures var c' := Added(c, dir, filename, f);
            forall x: EntryId :: (InDirectory(c', x) <==> InDirectory(c, x) || x == |c.arena|)
                                 && (InNames(c', x) <==> InNames(c, x) || x == |c.arena|)
  {
    var c' := Added(c, dir, filename, f);
    forall x: EntryId
      ensures (InDirectory(c', x) <==> InDirectory(c, x) || x == |c.arena|)
              && (InNames(c', x) <==> InNames(c, x) || x == |c.arena|)
    {
      if IsLive(c, x) {
        assert FileRight(c, EntryOf(c, x).dir, EntryOf(c, x).filename);
      }
    }
  }

  lemma AddedRight(c: Cache, held: multiset<EntryId>, tight: bool, dir: DirId, filename: string, f: File)
    requires Inv(c, held, tight) && f.content.Some? && f.content.value.name !in c.names
    requires IsOpen(c, dir) && filename !in c.dirs[dir].entries
    ensures Inv(Added(c, dir, filename, f), held, tight)
  {
    var c' := Added(c, dir, filename, f);
    AddedTables(c, held, tight, dir, filename, f);
    assert CountRight(c, held, tight, |c.arena|);
    forall d: DirId, g ensures FileRight(c', d, g) { assert FileRight(c, d, g); }
    forall x: EntryId ensures CountRight(c', held, tight, x) { assert CountRight(c, held, tight, x); }
  }

  lemma AddedFollows(c: Cache, dir: DirId, filename: string, f: File, fs: FileSystem)
    requires f.content.Some? && IsOpen(c, dir) && FileAt(fs, c.dirs[dir].path, filename) == Some(f)
    requires var c' := Added(c, dir, filename, f);
             forall x: EntryId :: (InDirectory(c', x) <==> InDirectory(c, x) || x == |c.arena|)
                                  && (InNames(c', x) <==> InNames(c, x) || x == |c.arena|)
    ensures Follows(c, Added(c, dir, filename, f), fs)
  {
    var c' := Added(c, dir, filename, f);
    assert Current(c', |c.arena|, fs);
    assert forall x: EntryId :: InDirectory(c, x) ==> SameFact(c, c', x);
  }

  lemma AddedKeeps(c: Cache, held: multiset<EntryId>, tight: bool, dir: DirId, filename: string, f: File,
                   fs: FileSystem)
    requires Inv(c, held, tight) && f.content.Some? && f.content.value.name !in c.names
    requires IsOpen(c, dir) && filename !in c.dirs[dir].entries && FileAt(fs, c.dirs[dir].path, filename) == Some(f)
    ensures Inv(Added(c, dir, filename, f), held, tight) && Follows(c, Added(c, dir, filename, f), fs)
  {
    AddedRight(c, held, tight, dir, filename, f);
    AddedTables(c, held, tight, dir, filename, f);
    AddedFollows(c, dir, filename, f, fs);
  }

  /** An entry that no table has room for is lost, not freed. */
  lemma LeakedKeeps(c: Cache, held: multiset<EntryId>, tight: bool, e: Entry, fs: FileSystem)
    requires Inv(c, held, tight) && e.refcount == 1
    ensures var c' := c.(arena := c.arena + [Live(e)]); Inv(c', held, false) && Follows(c, c', fs)
  {
    var c' := c.(arena := c.arena + [Live(e)]);
    var id := |c.arena|;
    assert CountRight(c, held, tight, id);
    forall d: DirId, g ensures FileRight(c', d, g) { assert FileRight(c, d, g); }
    forall name | name in c.names ensures c.names[name] != id { assert InNames(c, c.names[name]); }
    forall x: EntryId
      ensures InDirectory(c', x) == InDirectory(c, x) && InNames(c', x) == InNames(c, x)
      ensures CountRight(c', held, false, x)
    {
      assert CountRight(c, held, tight, x);
      assert FileRight(c, e.dir, e.filename);
    }
  }

  lemma Loosen(c: Cache, held: multiset<EntryId>, tight: bool, tight': bool)
    requires Inv(c, held, tight) && (tight' ==> tight)
    ensures Inv(c, held, tight')
  {
    forall x: EntryId ensures CountRight(c, held, tight', x) { assert CountRight(c, held, tight, x); }
  }

  lemma AddKeeps(c: Cache, held: multiset<EntryId>, tight: bool, dir: DirId, filename: string, f: File, fault: Fault,
                 fs: FileSystem)
    requires Inv(c, held, tight) && f.content.Some?
    requires IsOpen(c, dir) && filename !in c.dirs[dir].entries && FileAt(fs, c.dirs[dir].path, filename) == Some(f)
    ensures var (c', verdict) := AddEntry(c, dir, filename, f, fault);
            Inv(c', held, tight && !TableFault(fault)) && Follows(c, c', fs)
  {
    Loosen(c, held, tight, tight && !TableFault(fault));
    if f.content.value.name !in c.names {
      if TableFault(fault) {
        AddLeak(c, dir, filename, f, fault);
        LeakedKeeps(c, held, tight, Entry(1, f.content.value, 0, dir, filename), fs);
      } else {
        AddExact(c, dir, filename, f, fault);
        AddedKeeps(c, held, tight, dir, filename, f, fs);
      }
    }
  }

  // ---------------------------------------------------------------------------------------------
  // A known file

  /** The first half of a refresh: the entry, held, leaves the names. */
  function Unnamed(c: Cache, id: EntryId): Cache
    requires IsLive(c, id)
  {
    RemoveNamed(Ref(c, id), EntryOf(c, id).content.name)
  }

  lemma UnnamedKeeps(c: Cache, held: multiset<EntryId>, tight: bool, id: EntryId)
    requires Inv(c, held, tight) && InDirectory(c, id)
    ensures var c' := Unnamed(c, id);
            && Inv(c', held + multiset{id}, tight) && SameFacts(c, c') && IsLive(c', id) && !InNames(c', id)
            && c'.names == c.names - {EntryOf(c, id).content.name} && c'.dirs == c.dirs
            && forall x: EntryId :: InDirectory(c', x) == InDirectory(c, x)
  {
    var c1 := Ref(c, id);
    RefKeeps(c, held, tight, id);
    RemoveNamedKeeps(c1, held + multiset{id}, tight, EntryOf(c, id).content.name);
    SameFactsLater(c, c1, Unnamed(c, id));
    assert InDirectory(c, id);
  }

  /** What it says and when it was written may change while an entry has no name. */
  lemma RewriteKeeps(c: Cache, held: multiset<EntryId>, tight: bool, id: EntryId, content: Content)
    requires Inv(c, held, tight) && IsLive(c, id) && !InNames(c, id) && content.name !in c.names
    ensures var c' := Rewrite(c, id, content);
            && Inv(c', held, tight) && c' == c.(arena := c'.arena) && |c'.arena| == |c.arena|
            && IsLive(c', id) && EntryOf(c', id) == EntryOf(c, id).(content := content)
            && forall x: EntryId ::
                 (x != id ==> IsLive(c', x) == IsLive(c, x) && (IsLive(c, x) ==> EntryOf(c', x) == EntryOf(c, x)))
                                    && InDirectory(c', x) == InDirectory(c, x) && InNames(c', x) == InNames(c, x)
  {
    var c' := Rewrite(c, id, content);
    forall d: DirId, g ensures FileRight(c', d, g) { assert FileRight(c, d, g); }
    forall x: EntryId
      ensures InDirectory(c', x) == InDirectory(c, x) && InNames(c', x) == InNames(c, x)
              && CountRight(c', held, tight, x)
    {
      assert CountRight(c, held, tight, x);
    }
  }

  lemma StampKeeps(c: Cache, held: multiset<EntryId>, tight: bool, id: EntryId, mtime: int)
    requires Inv(c, held, tight) && IsLive(c, id)
    ensures var c' := Stamp(c, id, mtime);
            && Inv(c', held, tight) && c' == c.(arena := c'.arena) && |c'.arena| == |c.arena|
            && IsLive(c', id) && EntryOf(c', id) == EntryOf(c, id).(mtime := mtime)
            && forall x: EntryId ::
                 (x != id ==> IsLive(c', x) == IsLive(c, x) && (IsLive(c, x) ==> EntryOf(c', x) == EntryOf(c, x)))
                                    && InDirectory(c', x) == InDirectory(c, x) && InNames(c', x) == InNames(c, x)
  {
    var c' := Stamp(c, id, mtime);
    forall d: DirId, g ensures FileRight(c', d, g) { assert FileRight(c, d, g); }
    forall x: EntryId
      ensures InDirectory(c', x) == InDirectory(c, x) && InNames(c', x) == InNames(c, x)
              && CountRight(c', held, tight, x)
    {
      assert CountRight(c, held, tight, x);
    }
  }

  /** As SameFacts, but for one entry. */
  ghost predicate SameOthers(c: Cache, c': Cache, id: EntryId) {
    && SameDirs(c, c') && |c'.arena| == |c.arena|
    && forall x: EntryId :: x != id && IsLive(c', x) ==> SameFact(c, c', x)
  }

  lemma SameOthersLater(a: Cache, b: Cache, c: Cache, id: EntryId)
    requires SameOthers(a, b, id) && SameOthers(b, c, id)
    ensures SameOthers(a, c, id)
  {
    forall x: EntryId | x != id && IsLive(c, x) ensures SameFact(a, c, x) {
      assert SameFact(b, c, x) && SameFact(a, b, x);
    }
  }

  /** A name inserted, a time stamped and the local reference given up: the refresh is done. */
  lemma FinishKeeps(c: Cache, held: multiset<EntryId>, tight: bool, id: EntryId, mtime: int)
    requires Inv(c, held + multiset{id}, tight) && InDirectory(c, id) && EntryOf(c, id).content.name !in c.names
    ensures var e := EntryOf(c, id);
            var c' := Unref(Stamp(InsertNamed(Ref(c, id), e.content.name, id), id, mtime), id);
            && Inv(c', held, tight) && SameOthers(c, c', id) && c'.names == c.names[e.content.name := id]
            && InDirectory(c', id) && EntryOf(c', id).(refcount := 0) == e.(refcount := 0, mtime := mtime)
            && forall x: EntryId :: InDirectory(c', x) == InDirectory(c, x)
  {
    var name := EntryOf(c, id).content.name;
    var all := held + multiset{id};
    RefKeeps(c, all, tight, id);
    var c1 := Ref(c, id);
    InsertNamedKeeps(c1, all, tight, id);
    var c2 := InsertNamed(c1, name, id);
    SameFactsLater(c, c1, c2);
    StampKeeps(c2, all, tight, id, mtime);
    var c3 := Stamp(c2, id, mtime);
    SameOthersLater(c, c2, c3, id);
    UnrefKeeps(c3, held, tight, id);
    var c4 := Unref(c3, id);
    SameOthersLater(c, c3, c4, id);
    assert InDirectory(c4, id);
    assert SameFact(c3, c4, id) && SameFact(c1, c2, id) && SameFact(c, c1, id);
  }

  /** No room in the names: the entry leaves its directory's table too, but one reference to it is lost. */
  lemma DropKeeps(c: Cache, held: multiset<EntryId>, tight: bool, id: EntryId)
    requires Inv(c, held + multiset{id}, tight) && InDirectory(c, id) && !InNames(c, id)
    ensures var c' := Unref(RemoveFile(Ref(c, id), EntryOf(c, id).dir, EntryOf(c, id).filename), id);
            && Inv(c', held, false) && SameFacts(c, c') && c'.names == c.names
            && forall x: EntryId :: InDirectory(c', x) <==> InDirectory(c, x) && x != id
  {
    var all := held + multiset{id};
    RefKeeps(c, all, tight, id);
    var c1 := Ref(c, id);
    RemoveFileKeeps(c1, all + multiset{id}, tight, id);
    var c2 := RemoveFile(c1, EntryOf(c, id).dir, EntryOf(c, id).filename);
    SameFactsLater(c, c1, c2);
    UnrefKeeps(c2, all, tight, id);
    var c3 := Unref(c2, id);
    SameFactsLater(c, c2, c3);
    forall x: EntryId ensures CountRight(c3, held, false, x) { assert CountRight(c3, all, tight, x); }
  }

  predicate Renewed(c: Cache, c': Cache, id: EntryId, f: File) {
    && IsLive(c, id) && IsLive(c', id) && f.content.Some?
    && EntryOf(c', id).(refcount := 0) == EntryOf(c, id).(refcount := 0, content := f.content.value, mtime := f.mtime)
  }

  /** What a refresh does to its entry and to the names. */
  ghost predicate Refreshed(c: Cache, c': Cache, id: EntryId, f: File, verdict: Verdict)
    requires IsLive(c, id) && f.content.Some?
  {
    var others := c.names - {EntryOf(c, id).content.name};
    var name := f.content.value.name;
    match verdict
    case Done =>
      && name !in others && c'.names == others[name := id]
      && InDirectory(c', id) && Renewed(c, c', id, f)
    case Ignored => name in others && c'.names == others && InDirectory(c', id) && SameFact(c, c', id)
    case NoMemory => name !in others && c'.names == others
  }

  lemma RewrittenFollows(c: Cache, c1: Cache, c': Cache, id: EntryId, f: File, fs: FileSystem)
    requires InDirectory(c, id) && f.content.Some?
    requires FileAt(fs, c.dirs[EntryOf(c, id).dir].path, EntryOf(c, id).filename) == Some(f)
    requires SameDirs(c, c1) && SameOthers(c1, c', id)
    requires forall x: EntryId :: x != id && InDirectory(c', x) ==> InDirectory(c, x) && SameFact(c, c1, x)
    requires IsLive(c', id) && EntryOf(c', id).(refcount := 0)
          == EntryOf(c, id).(refcount := 0, content := f.content.value, mtime := f.mtime)
    requires forall name :: name in c'.names ==>
               c'.names[name] == id || (name in c.names && c'.names[name] == c.names[name])
    ensures Follows(c, c', fs)
  {
    assert Current(c', id, fs);
    forall x: EntryId | x != id && InDirectory(c', x) ensures SameFact(c, c', x) {
      assert SameFact(c1, c', x) && SameFact(c, c1, x);
    }
  }

  lemma RefreshKeeps(c: Cache, held: multiset<EntryId>, tight: bool, id: EntryId, f: File, fault: Fault, fs: FileSystem)
    requires Inv(c, held, tight) && InDirectory(c, id) && f.content.Some?
    requires FileAt(fs, c.dirs[EntryOf(c, id).dir].path, EntryOf(c, id).filename) == Some(f)
    ensures var (c', verdict) := RefreshEntry(c, id, f, fault);
            Inv(c', held, tight && !TableFault(fault)) && Follows(c, c', fs) && Refreshed(c, c', id, f, verdict)
  {
    var content := f.content.value;
    var (c', verdict) := RefreshEntry(c, id, f, fault);
    var c2 := Unnamed(c, id);
    UnnamedKeeps(c, held, tight, id);
    assert SameFact(c, c2, id) && InDirectory(c2, id);
    if content.name in c2.names {
      UnrefKeeps(c2, held, tight, id);
      SameFactsLater(c, c2, c');
      Loosen(c', held, tight, tight && !TableFault(fault));
      assert InDirectory(c', id) && SameFact(c, c', id);
    } else {
      RewriteKeeps(c2, held + multiset{id}, tight, id, content);
      var c3 := Rewrite(c2, id, content);
      assert InDirectory(c3, id);
      if fault == NoNameSlot {
        DropKeeps(c3, held, tight, id);
        DroppedFollows(c, c2, c3, c', id, fs);
      } else {
        FinishKeeps(c3, held, tight, id, f.mtime);
        Loosen(c', held, tight, tight && !TableFault(fault));
        forall x: EntryId | x != id && InDirectory(c', x) ensures InDirectory(c, x) && SameFact(c, c2, x) {
          assert InDirectory(c3, x);
        }
        forall x: EntryId | x != id && IsLive(c', x) ensures SameFact(c2, c', x) { assert SameFact(c3, c', x); }
        RewrittenFollows(c, c2, c', id, f, fs);
      }
    }
  }

  lemma DroppedFollows(c: Cache, c2: Cache, c3: Cache, c': Cache, id: EntryId, fs: FileSystem)
    requires SameFacts(c, c2) && SameOthers(c2, c3, id) && SameFacts(c3, c') && c'.names.Keys <= c.names.Keys
    requires forall name :: name in c'.names ==> c'.names[name] == c.names[name]
    requires forall x: EntryId :: InDirectory(c', x) ==> x != id && InDirectory(c, x)
    ensures Follows(c, c', fs)
  {
    forall x: EntryId | InDirectory(c', x) ensures SameFact(c, c', x) {
      assert SameFact(c3, c', x);
      assert SameFact(c2, c3, x);
      assert SameFact(c, c2, x);
    }
  }

  lemma FollowsSelf(c: Cache, fs: FileSystem)
    ensures Follows(c, c, fs)
  {
    assert forall id: EntryId :: InDirectory(c, id) ==> SameFact(c, c, id);
  }

  lemma UpdateKeeps(c: Cache, held: multiset<EntryId>, tight: bool, dir: DirId, filename: string, fs: FileSystem,
                    fault: Fault)
    requires Inv(c, held, tight) && IsOpen(c, dir)
    ensures var f := FileAt(fs, c.dirs[dir].path, filename);
            var (c', verdict) := UpdateEntry(c, dir, filename, f, fault);
            && Inv(c', held, tight && !TableFault(fault)) && Follows(c, c', fs)
            && (fault != NoUpdate && f.Some? && f.value.content.Some? && filename in c.dirs[dir].entries ==>
                  var id := c.dirs[dir].entries[filename]; InDirectory(c, id) && Refreshed(c, c', id, f.value, verdict))
  {
    var f := FileAt(fs, c.dirs[dir].path, filename);
    Loosen(c, held, tight, tight && !TableFault(fault));
    FollowsSelf(c, fs);
    assert FileRight(c, dir, filename);
    if fault != NoUpdate && f.Some? && f.value.content.Some? {
      if filename in c.dirs[dir].entries {
        RefreshKeeps(c, held, tight, c.dirs[dir].entries[filename], f.value, fault, fs);
      } else {
        AddKeeps(c, held, tight, dir, filename, f.value, fault, fs);
      }
    }
  }

  /** The file is newer than its entry, can be read, and nobody else has the name it gives. */
  predicate Refreshes(c: Cache, id: EntryId, f: File) {
    IsLive(c, id) && f.mtime > EntryOf(c, id).mtime && f.content.Some?
    && f.content.value.name !in c.names - {EntryOf(c, id).content.name}
  }

  /** What a check finds: the entry, up to date where that could be done, exactly if the file is there. */
  ghost predicate Checked(c: Cache, c': Cache, id: EntryId, f: Option<File>, found: Option<EntryId>) {
    match f
    case None => found == None && !InDirectory(c', id)
    case Some(file) =>
      && found == Some(id) && InDirectory(c', id)
      && if Refreshes(c, id, file) then
           InNames(c', id) && Renewed(c, c', id, file)
         else SameFact(c, c', id)
  }

  function FileOf(c: Cache, id: EntryId, fs: FileSystem): Option<File>
    requires InDirectory(c, id)
  {
    FileAt(fs, c.dirs[EntryOf(c, id).dir].path, EntryOf(c, id).filename)
  }

  lemma MissingKeeps(c: Cache, held: multiset<EntryId>, tight: bool, id: EntryId, fs: FileSystem)
    requires Inv(c, held, tight) && InDirectory(c, id)
    ensures var e := EntryOf(c, id);
            var c1 := RemoveNamed(c, e.content.name);
            var c' := RemoveFile(c1, e.dir, e.filename);
            IsLive(c1, id) && Inv(c', held, tight) && Follows(c, c', fs) && !InDirectory(c', id)
  {
    var e := EntryOf(c, id);
    RemoveNamedKeeps(c, held, tight, e.content.name);
    var c1 := RemoveNamed(c, e.content.name);
    assert InDirectory(c1, id) && SameFact(c, c1, id);
    RemoveFileKeeps(c1, held, tight, id);
    var c' := RemoveFile(c1, e.dir, e.filename);
    SameFactsLater(c, c1, c');
    forall x: EntryId | InDirectory(c', x) ensures SameFact(c, c', x) && InDirectory(c, x) {
      assert InDirectory(c1, x);
    }
  }

  lemma CheckKeeps(c: Cache, held: multiset<EntryId>, tight: bool, id: EntryId, fs: FileSystem, fault: Fault)
    requires Inv(c, held, tight) && InDirectory(c, id)
    ensures var (c', found, verdict) := Check(c, id, fs, fault);
            && Inv(c', held, tight && !TableFault(fault)) && Follows(c, c', fs)
            && (verdict != NoMemory ==> Checked(c, c', id, FileOf(c, id, fs), found))
  {
    Loosen(c, held, tight, tight && !TableFault(fault));
    FollowsSelf(c, fs);
    assert SameFact(c, c, id);
    var e := EntryOf(c, id);
    var f := FileOf(c, id, fs);
    var (c', found, verdict) := Check(c, id, fs, fault);
    if fault != NoPath && f.None? {
      MissingKeeps(c, held, tight, id, fs);
      Loosen(c', held, tight, tight && !TableFault(fault));
    } else if f.Some? && f.value.mtime > e.mtime && fault !in {NoPath, NoLoad} && f.value.content.Some? {
      UpdateKeeps(c, held, tight, e.dir, e.filename, fs, fault);
    }
  }

  // ---------------------------------------------------------------------------------------------
  // Scans

  predicate NoTableFault(listing: seq<Listed>) {
    forall l :: l in listing ==> !TableFault(l.fault)
  }

  lemma VisitKeeps(c: Cache, held: multiset<EntryId>, tight: bool, dir: DirId, l: Listed, fs: FileSystem)
    requires Inv(c, held, tight) && IsOpen(c, dir)
    ensures var c' := Visit(c, dir, l, fs).0; Inv(c', held, tight && !TableFault(l.fault)) && Follows(c, c', fs)
  {
    Loosen(c, held, tight, tight && !TableFault(l.fault));
    FollowsSelf(c, fs);
    assert FileRight(c, dir, l.filename);
    if l.filename in c.dirs[dir].entries {
      CheckKeeps(c, held, tight, c.dirs[dir].entries[l.filename], fs, l.fault);
    } else {
      UpdateKeeps(c, held, tight, dir, l.filename, fs, l.fault);
    }
  }

  lemma {:induction false} VisitAllKeeps(c: Cache, held: multiset<EntryId>, tight: bool, dir: DirId,
                                         listing: seq<Listed>, fs: FileSystem)
    requires Inv(c, held, tight) && IsOpen(c, dir)
    ensures var c' := VisitAll(c, dir, listing, fs).0;
            Inv(c', held, tight && NoTableFault(listing)) && Follows(c, c', fs)
    decreases |listing|
  {
    if listing == [] {
      FollowsSelf(c, fs);
    } else {
      VisitKeeps(c, held, tight, dir, listing[0], fs);
      var (c1, verdict) := Visit(c, dir, listing[0], fs);
      var tight1 := tight && !TableFault(listing[0].fault);
      Loosen(c1, held, tight1, tight && NoTableFault(listing));
      if verdict != NoMemory {
        VisitAllKeeps(c1, held, tight1, dir, listing[1..], fs);
        var c' := VisitAll(c, dir, listing, fs).0;
        Loosen(c', held, tight1 && NoTableFault(listing[1..]), tight && NoTableFault(listing));
        FollowsLater(c, c1, c', fs);
      }
    }
  }

  predicate ScanHasRoom(scan: Scan) {
    scan.listing.Some? ==> NoTableFault(scan.listing.value)
  }

  lemma UpdateDirectoryKeeps(c: Cache, held: multiset<EntryId>, tight: bool, scan: Scan, fs: FileSystem)
    requires Inv(c, held, tight) && IsOpen(c, scan.dir)
    ensures var c' := UpdateDirectory(c, scan, fs).0; Inv(c', held, tight && ScanHasRoom(scan)) && Follows(c, c', fs)
  {
    FollowsSelf(c, fs);
    if scan.listing.Some? { VisitAllKeeps(c, held, tight, scan.dir, scan.listing.value, fs); }
  }

  predicate ScansHaveRoom(scans: seq<Scan>) {
    forall scan :: scan in scans ==> ScanHasRoom(scan)
  }

  lemma {:induction false} UpdateCacheKeeps(c: Cache, held: multiset<EntryId>, tight: bool, scans: seq<Scan>,
                                            fs: FileSystem)
    requires Inv(c, held, tight) && forall scan :: scan in scans ==> IsOpen(c, scan.dir)
    ensures var c' := UpdateCache(c, scans, fs).0; Inv(c', held, tight && ScansHaveRoom(scans)) && Follows(c, c', fs)
    decreases |scans|
  {
    if scans == [] {
      FollowsSelf(c, fs);
    } else {
      UpdateDirectoryKeeps(c, held, tight, scans[0], fs);
      var (c1, verdict) := UpdateDirectory(c, scans[0], fs);
      var tight1 := tight && ScanHasRoom(scans[0]);
      Loosen(c1, held, tight1, tight && ScansHaveRoom(scans));
      if verdict != NoMemory {
        UpdateCacheKeeps(c1, held, tight1, scans[1..], fs);
        var c' := UpdateCache(c, scans, fs).0;
        Loosen(c', held, tight1 && ScansHaveRoom(scans[1..]), tight && ScansHaveRoom(scans));
        FollowsLater(c, c1, c', fs);
      }
    }
  }

  // ---------------------------------------------------------------------------------------------
  // Lookups

  predicate LookupHasRoom(l: Lookup) {
    !TableFault(l.fault) && ScansHaveRoom(l.scans)
  }

  ghost predicate CanScan(c: Cache, l: Lookup) {
    forall scan :: scan in l.scans ==> IsOpen(c, scan.dir)
  }

  lemma FindKeeps(c: Cache, tight: bool, l: Lookup)
    requires Inv(c, multiset{}, tight) && CanScan(c, l)
    ensures var c' := Find(c, l).0; Inv(c', multiset{}, tight && LookupHasRoom(l)) && Follows(c, c', l.fs)
  {
    var c' := Find(c, l).0;
    if l.name in c.names {
      CheckKeeps(c, multiset{}, tight, c.names[l.name], l.fs, l.fault);
      Loosen(c', multiset{}, tight && !TableFault(l.fault), tight && LookupHasRoom(l));
    } else {
      UpdateCacheKeeps(c, multiset{}, tight, l.scans, l.fs);
      Loosen(c', multiset{}, tight && ScansHaveRoom(l.scans), tight && LookupHasRoom(l));
    }
  }

  /** A file as it was at one time. */
  datatype Version = Version(dir: string, filename: string, mtime: int)

  /** Every change of a file changes its time, so that its time tells what it said. */
  ghost predicate Dated(fs: FileSystem, history: map<Version, Option<Content>>) {
    forall dir, filename :: FileAt(fs, dir, filename).Some? ==>
      var f := FileAt(fs, dir, filename).value;
      var v := Version(dir, filename, f.mtime);
      v in history && history[v] == f.content
  }

  predicate FaithfulEntry(c: Cache, history: map<Version, Option<Content>>, id: EntryId) {
    InDirectory(c, id) ==>
      var e := EntryOf(c, id);
      var v := Version(c.dirs[e.dir].path, e.filename, e.mtime);
      v in history && history[v] == Some(e.content)
  }

  /** Every entry says what its file said when it was last read. */
  ghost predicate Faithful(c: Cache, history: map<Version, Option<Content>>) {
    forall id: EntryId :: FaithfulEntry(c, history, id)
  }

  lemma FollowsFaithfully(c: Cache, c': Cache, fs: FileSystem, history: map<Version, Option<Content>>)
    requires Follows(c, c', fs) && Faithful(c, history) && Dated(fs, history)
    ensures Faithful(c', history)
  {
    forall id: EntryId ensures FaithfulEntry(c', history, id) {
      if InDirectory(c', id) && !Current(c', id, fs) {
        assert InDirectory(c, id) && SameFact(c, c', id);
        assert FaithfulEntry(c, history, id);
      }
    }
  }

  /**
   A lookup that succeeds finds an entry whose file is there now.  A name not known before leads to an entry of that
   name that is up to date.  A known name leads to its entry, brought up to date exactly if its file was not changed or
   could be read again without a clash; then it may turn out to have another name, which it has exactly if the file
   gives another one.
   */
  lemma FindIsSound(c: Cache, tight: bool, l: Lookup, history: map<Version, Option<Content>>)
    requires Inv(c, multiset{}, tight) && CanScan(c, l) && Faithful(c, history) && Dated(l.fs, history)
    ensures var (c', found) := Find(c, l);
            found.Some? ==>
              && InDirectory(c', found.value) && FileOf(c', found.value, l.fs).Some?
              && if l.name !in c.names then
                   Current(c', found.value, l.fs) && EntryOf(c', found.value).content.name == l.name
                 else
                   && found.value == c.names[l.name] && InDirectory(c, found.value)
                   && var f := FileOf(c, found.value, l.fs);
                   && f.Some? && f == FileOf(c', found.value, l.fs)
                   && (f.value.mtime >= EntryOf(c, found.value).mtime ==>
                         (Current(c', found.value, l.fs)
                          <==> f.value.mtime == EntryOf(c, found.value).mtime || Refreshes(c, found.value, f.value)))
                   && EntryOf(c', found.value).content.name
                      == if Refreshes(c, found.value, f.value) then f.value.content.value.name else l.name
  {
    var (c', found) := Find(c, l);
    FindKeeps(c, tight, l);
    if found.Some? {
      if l.name in c.names {
        var id := c.names[l.name];
        CheckKeeps(c, multiset{}, tight, id, l.fs, l.fault);
        assert FaithfulEntry(c, history, id);
        KnownIsSound(c, c', id, l.fs, history);
      } else {
        assert InNames(c', found.value) && Current(c', found.value, l.fs);
      }
    }
  }

  lemma KnownIsSound(c: Cache, c': Cache, id: EntryId, fs: FileSystem, history: map<Version, Option<Content>>)
    requires InDirectory(c, id) && Follows(c, c', fs) && FileOf(c, id, fs).Some?
    requires Checked(c, c', id, FileOf(c, id, fs), Some(id))
    requires FaithfulEntry(c, history, id) && Dated(fs, history)
    ensures var f := FileOf(c, id, fs);
            && InDirectory(c', id) && f == FileOf(c', id, fs)
            && (f.value.mtime >= EntryOf(c, id).mtime ==>
                  (Current(c', id, fs) <==> f.value.mtime == EntryOf(c, id).mtime || Refreshes(c, id, f.value)))
            && (!Refreshes(c, id, f.value) ==> SameFact(c, c', id))
  {
    var (e, e') := (EntryOf(c, id), EntryOf(c', id));
    assert e.(refcount := 0).dir == e'.(refcount := 0).dir && e.(refcount := 0).filename == e'.(refcount := 0).filename;
  }

  // ---------------------------------------------------------------------------------------------
  // Loading

  /** Each directory of the configuration has its table, and there is no other. */
  ghost predicate DirectoriesRight(c: Cache) {
    && (forall path :: path in c.directories ==>
          IsOpen(c, c.directories[path]) && c.dirs[c.directories[path]].path == path)
    && (forall dir: DirId :: IsOpen(c, dir) ==>
          c.dirs[dir].path in c.directories && c.directories[c.dirs[dir].path] == dir)
  }

  function Paths(todo: seq<DirectoryLoad>): seq<string> {
    seq(|todo|, i requires 0 <= i < |todo| => todo[i].path)
  }

  ghost predicate AllNew(c: Cache, todo: seq<DirectoryLoad>) {
    NoRepeats(Paths(todo)) && forall i :: 0 <= i < |todo| ==> todo[i].path !in c.directories
  }

  predicate LoadHasRoom(todo: seq<DirectoryLoad>) {
    forall d :: d in todo ==> d.listing.Some? ==> NoTableFault(d.listing.value)
  }

  lemma OpenKeeps(c: Cache, held: multiset<EntryId>, tight: bool, d: DirectoryLoad,
                  history: map<Version, Option<Content>>)
    requires Inv(c, held, tight) && DirectoriesRight(c) && d.path !in c.directories && Faithful(c, history)
    ensures var c' := OpenDirectory(c, d);
            Inv(c', held, tight) && DirectoriesRight(c') && IsOpen(c', |c.dirs|) && Faithful(c', history)
  {
    var c' := OpenDirectory(c, d);
    forall x: EntryId
      ensures InDirectory(c', x) == InDirectory(c, x) && InNames(c', x) == InNames(c, x)
      ensures CountRight(c', held, tight, x) && FaithfulEntry(c', history, x)
    {
      assert CountRight(c, held, tight, x) && FaithfulEntry(c, history, x);
    }
    forall dir: DirId, f ensures FileRight(c', dir, f) { assert FileRight(c, dir, f); }
  }

  /** Loading distinct directories, of whatever contents, leaves the indexes in agreement. */
  lemma {:induction false} LoadKeeps(c: Cache, tight: bool, todo: seq<DirectoryLoad>, fs: FileSystem,
                                     history: map<Version, Option<Content>>)
    requires Inv(c, multiset{}, tight) && DirectoriesRight(c) && AllNew(c, todo) && Faithful(c, history)
             && Dated(fs, history)
    ensures var c' := Load(c, todo, fs).0;
            Inv(c', multiset{}, tight && LoadHasRoom(todo)) && DirectoriesRight(c') && Faithful(c', history)
    decreases |todo|
  {
    if todo != [] {
      OpenKeeps(c, multiset{}, tight, todo[0], history);
      var emptied := OpenDirectory(c, todo[0]);
      var scan := Scan(|c.dirs|, todo[0].listing);
      UpdateDirectoryKeeps(emptied, multiset{}, tight, scan, fs);
      var (c1, verdict) := UpdateDirectory(emptied, scan, fs);
      FollowsFaithfully(emptied, c1, fs, history);
      var tight1 := tight && ScanHasRoom(scan);
      Loosen(c1, multiset{}, tight1, tight && LoadHasRoom(todo));
      if verdict != NoMemory {
        assert forall i :: 0 <= i < |todo[1..]| ==> Paths(todo[1..])[i] == Paths(todo)[i + 1];
        forall i | 0 <= i < |todo[1..]| ensures todo[1..][i].path !in c1.directories {
          assert Paths(todo)[0] != Paths(todo)[i + 1];
        }
        LoadKeeps(c1, tight1, todo[1..], fs, history);
        Loosen(Load(c, todo, fs).0, multiset{}, tight1 && LoadHasRoom(todo[1..]), tight && LoadHasRoom(todo));
      }
    }
  }

  /** The contents of a directory that has one service file. */
  function OneFile(content: Content): FileSystem {
    map["/d" := map["a.service" := File(1, Some(content))]]
  }

  /** One load of it. */
  const ONE_LISTING := [Listed("a.service", NoFault)]
  const ONE_LOAD := DirectoryLoad("/d", Some(ONE_LISTING), [0])

  function LoadedOnce(content: Content): Cache {
    Cache([Live(Entry(2, content, 1, 0, "a.service"))], map[content.name := 0], [Open("/d", map["a.service" := 0])],
          map["/d" := 0], true)
  }

  function LoadedTwice(content: Content): Cache {
    Cache([Live(Entry(1, content, 1, 0, "a.service"))], map[content.name := 0], [Closed, Open("/d", map[])],
          map["/d" := 1], true)
  }

  lemma LoadOnce(content: Content)
    ensures UpdateDirectory(OpenDirectory(NO_FILES, ONE_LOAD), Scan(0, Some(ONE_LISTING)), OneFile(content))
         == (LoadedOnce(content), Done)
  {
    var c := OpenDirectory(NO_FILES, ONE_LOAD);
    var f := File(1, Some(content));
    AddExact(c, 0, "a.service", f, NoFault);
    assert Added(c, 0, "a.service", f) == LoadedOnce(content);
    assert "a.service"[1..] == ".service";
    assert Visit(c, 0, ONE_LISTING[0], OneFile(content)) == (LoadedOnce(content), Done);
    assert ONE_LISTING[1..] == [];
  }

  lemma LoadTwice(content: Content)
    ensures UpdateDirectory(OpenDirectory(LoadedOnce(content), ONE_LOAD), Scan(1, Some(ONE_LISTING)), OneFile(content))
         == (LoadedTwice(content), Done)
  {
    var c := OpenDirectory(LoadedOnce(content), ONE_LOAD);
    assert [0][1..] == [];
    assert c == LoadedTwice(content);
    assert "a.service"[1..] == ".service";
    assert Visit(c, 1, ONE_LISTING[0], OneFile(content)) == (c, Done);
    assert ONE_LISTING[1..] == [];
  }

  /** The same directory twice: its first table is freed while its entry is still found by name, and next used. */
  lemma RepeatedDirectoryFails(content: Content)
    ensures var c := Load(NO_FILES, [ONE_LOAD, ONE_LOAD], OneFile(content)).0;
            && c.ok && content.name in c.names && !InDirectory(c, c.names[content.name])
            && !Find(c, Lookup(content.name, OneFile(content), NoFault, [])).0.ok
  {
    LoadOnce(content);
    LoadTwice(content);
    assert [ONE_LOAD, ONE_LOAD][1..] == [ONE_LOAD] && [ONE_LOAD][1..] == [];
    assert Load(LoadedOnce(content), [ONE_LOAD], OneFile(content)) == Load(LoadedTwice(content), [], OneFile(content));
  }
}
