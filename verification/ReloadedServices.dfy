/** Which services are known after a reload, by the directories of the configuration and the files that are there. */
module ReloadedServices {
  import opened BusTypes
  import opened Lists
  import opened ServiceFiles
  import opened ServiceFilesProofs
  import opened ServiceLookups
  import opened ServiceReloads

  /** A file by its directory and name. */
  datatype Source = Source(path: string, filename: string)

  /** The service that a file gives. */
  ghost predicate GivesName(s: Source, fs: FileSystem, name: string) {
    var f := FileAt(fs, s.path, s.filename);
    && (exists stem :: s.filename == stem + ".service")
    && f.Some? && f.value.content.Some? && f.value.content.value.name == name
  }

  /** The first file that gives a name. */
  ghost function FirstOf(sources: seq<Source>, fs: FileSystem, name: string): (first: Option<Source>)
    ensures first.Some? ==> GivesName(first.value, fs, name)
  {
    if sources == [] then None
    else
      var (before, last) := (sources[..|sources| - 1], sources[|sources| - 1]);
      if FirstOf(before, fs, name).Some? then FirstOf(before, fs, name)
      else if GivesName(last, fs, name) then Some(last) else None
  }

  function SourcesIn(path: string, listing: seq<Listed>): seq<Source> {
    seq(|listing|, i requires 0 <= i < |listing| => Source(path, listing[i].filename))
  }

  /** All the files that are listed, directory by directory. */
  function Sources(todo: seq<DirectoryLoad>): seq<Source> {
    if todo == [] then []
    else (if todo[0].listing.Some? then SourcesIn(todo[0].path, todo[0].listing.value) else []) + Sources(todo[1..])
  }

  /** The entry of this name is the file's, as it is. */
  ghost predicate IsEntryOf(c: Cache, name: string, s: Source, fs: FileSystem)
    requires GivesName(s, fs, name)
  {
    && name in c.names && IsLive(c, c.names[name])
    && var e := EntryOf(c, c.names[name]);
    && IsOpen(c, e.dir) && c.dirs[e.dir].path == s.path && e.filename == s.filename
    && e.content == FileAt(fs, s.path, s.filename).value.content.value
    && e.mtime == FileAt(fs, s.path, s.filename).value.mtime
  }

  ghost predicate KnowsName(c: Cache, sources: seq<Source>, fs: FileSystem, name: string) {
    match FirstOf(sources, fs, name)
    case None => name !in c.names
    case Some(s) => IsEntryOf(c, name, s, fs)
  }

  /** Exactly the names that some file gives are known, each from the first file that gives it. */
  ghost predicate Knows(c: Cache, sources: seq<Source>, fs: FileSystem) {
    forall name :: KnowsName(c, sources, fs, name)
  }

  lemma FirstOn(sources: seq<Source>, s: Source, fs: FileSystem, name: string)
    ensures FirstOf(sources + [s], fs, name)
         == if FirstOf(sources, fs, name).Some? then FirstOf(sources, fs, name)
            else if GivesName(s, fs, name) then Some(s) else None
  {
    assert (sources + [s])[..|sources|] == sources;
  }

  /** The paths of directories stay, and so do entries but for their reference counts. */
  ghost predicate Stays(c: Cache, c': Cache) {
    && |c'.arena| >= |c.arena| && |c'.dirs| >= |c.dirs|
    && (forall id: EntryId :: IsLive(c, id) ==> SameFact(c, c', id))
    && (forall dir: DirId :: IsOpen(c, dir) ==> IsOpen(c', dir) && c'.dirs[dir].path == c.dirs[dir].path)
  }

  lemma EntryStays(c: Cache, c': Cache, name: string, s: Source, fs: FileSystem)
    requires GivesName(s, fs, name) && IsEntryOf(c, name, s, fs) && Stays(c, c')
    requires name in c'.names && c'.names[name] == c.names[name]
    ensures IsEntryOf(c', name, s, fs)
  {
    assert SameFact(c, c', c.names[name]);
  }

  lemma GivesIff(c: Cache, s: Stop, fs: FileSystem, name: string)
    requires IsOpen(c, s.dir) && s.listed.filename !in c.dirs[s.dir].entries
    ensures Gives(c, s, fs, name) <==> GivesName(Source(c.dirs[s.dir].path, s.listed.filename), fs, name)
  {
    ServiceFileIff(s.listed.filename);
  }

  /** The same directories are there. */
  ghost predicate SamePaths(c: Cache, c': Cache) {
    && c'.directories == c.directories && |c'.dirs| == |c.dirs|
    && forall dir: DirId :: (IsOpen(c', dir) <==> IsOpen(c, dir))
                            && (IsOpen(c, dir) ==> c'.dirs[dir].path == c.dirs[dir].path)
  }

  /** What a visit of a file without an entry leaves. */
  ghost predicate VisitedNew(c: Cache, c': Cache, s: Stop) {
    && Stays(c, c') && SamePaths(c, c') && IsOpen(c, s.dir)
    && forall f :: f in c'.dirs[s.dir].entries ==> f in c.dirs[s.dir].entries || f == s.listed.filename
  }

  lemma AddedKnows(c: Cache, s: Stop, fs: FileSystem, sources: seq<Source>)
    requires Knows(c, sources, fs) && IsOpen(c, s.dir) && s.listed.filename !in c.dirs[s.dir].entries
    requires IsServiceFile(s.listed.filename) && IsNews(c, s, fs)
    requires FileOn(c, s, fs).value.content.value.name !in c.names
    ensures var c' := Added(c, s.dir, s.listed.filename, FileOn(c, s, fs).value);
            && VisitedNew(c, c', s)
            && Knows(c', sources + [Source(c.dirs[s.dir].path, s.listed.filename)], fs)
  {
    var (f, source) := (FileOn(c, s, fs).value, Source(c.dirs[s.dir].path, s.listed.filename));
    var c' := Added(c, s.dir, s.listed.filename, f);
    forall id: EntryId | IsLive(c, id) ensures SameFact(c, c', id) {}
    forall name ensures KnowsName(c', sources + [source], fs, name) {
      assert KnowsName(c, sources, fs, name);
      FirstOn(sources, source, fs, name);
      GivesIff(c, s, fs, name);
      if FirstOf(sources, fs, name).Some? {
        EntryStays(c, c', name, FirstOf(sources, fs, name).value, fs);
      }
    }
  }

  lemma PassedKnows(c: Cache, s: Stop, fs: FileSystem, sources: seq<Source>)
    requires Knows(c, sources, fs) && IsOpen(c, s.dir) && s.listed.filename !in c.dirs[s.dir].entries
    requires IsServiceFile(s.listed.filename) && IsNews(c, s, fs) ==>
               FileOn(c, s, fs).value.content.value.name in c.names
    ensures VisitedNew(c, c, s) && Knows(c, sources + [Source(c.dirs[s.dir].path, s.listed.filename)], fs)
  {
    var source := Source(c.dirs[s.dir].path, s.listed.filename);
    forall name ensures KnowsName(c, sources + [source], fs, name) {
      assert KnowsName(c, sources, fs, name);
      FirstOn(sources, source, fs, name);
      GivesIff(c, s, fs, name);
    }
  }

  lemma VisitKnows(c: Cache, tight: bool, s: Stop, fs: FileSystem, sources: seq<Source>)
    requires CanVisit(c, tight, s) && s.listed.filename !in c.dirs[s.dir].entries && Knows(c, sources, fs)
    ensures var (c', verdict) := VisitStop(c, s, fs);
            && verdict == Done && Inv(c', multiset{}, tight) && VisitedNew(c, c', s)
            && Knows(c', sources + [Source(c.dirs[s.dir].path, s.listed.filename)], fs)
  {
    VisitKeeps(c, multiset{}, tight, s.dir, s.listed, fs);
    if IsServiceFile(s.listed.filename) && IsNews(c, s, fs) {
      NewIsAdded(c, tight, s, fs);
      if FileOn(c, s, fs).value.content.value.name in c.names {
        PassedKnows(c, s, fs, sources);
      } else {
        AddedKnows(c, s, fs, sources);
      }
    } else {
      OldNews(c, tight, s, fs);
      PassedKnows(c, s, fs, sources);
    }
  }

  // ---------------------------------------------------------------------------------------------
  // Directories

  /** Each file is listed once, and memory lasts. */
  predicate ListedOnce(listing: seq<Listed>) {
    && (forall i :: 0 <= i < |listing| ==> listing[i].fault == NoFault)
    && forall i, j :: 0 <= i < j < |listing| ==> listing[i].filename != listing[j].filename
  }

  /** None of these files has an entry. */
  ghost predicate AllFresh(c: Cache, dir: DirId, listing: seq<Listed>) {
    IsOpen(c, dir) && forall i :: 0 <= i < |listing| ==> listing[i].filename !in c.dirs[dir].entries
  }

  lemma RestFresh(c: Cache, c': Cache, dir: DirId, listing: seq<Listed>)
    requires listing != [] && ListedOnce(listing) && AllFresh(c, dir, listing)
    requires VisitedNew(c, c', Stop(dir, listing[0]))
    ensures ListedOnce(listing[1..]) && AllFresh(c', dir, listing[1..])
  {
    var rest := listing[1..];
    forall i | 0 <= i < |rest| ensures rest[i].fault == NoFault && rest[i].filename !in c'.dirs[dir].entries {
      assert rest[i] == listing[i + 1] && listing[0].filename != listing[i + 1].filename;
    }
    forall i, j | 0 <= i < j < |rest| ensures rest[i].filename != rest[j].filename {
      assert rest[i] == listing[i + 1] && rest[j] == listing[j + 1];
    }
  }

  lemma {:induction false} ListingKnows(c: Cache, tight: bool, dir: DirId, listing: seq<Listed>, fs: FileSystem,
                                        sources: seq<Source>)
    requires Inv(c, multiset{}, tight) && ListedOnce(listing) && AllFresh(c, dir, listing) && Knows(c, sources, fs)
    ensures var (c', verdict) := VisitAll(c, dir, listing, fs);
            && verdict == Done && Inv(c', multiset{}, tight) && SamePaths(c, c')
            && Knows(c', sources + SourcesIn(c.dirs[dir].path, listing), fs)
    decreases |listing|
  {
    var path := c.dirs[dir].path;
    if listing == [] {
      assert sources + SourcesIn(path, listing) == sources;
    } else {
      var s := Stop(dir, listing[0]);
      VisitKnows(c, tight, s, fs, sources);
      var c1 := VisitStop(c, s, fs).0;
      RestFresh(c, c1, dir, listing);
      ListingKnows(c1, tight, dir, listing[1..], fs, sources + [Source(path, listing[0].filename)]);
      FirstSource(sources, path, listing);
    }
  }

  lemma FirstSource(sources: seq<Source>, path: string, listing: seq<Listed>)
    requires listing != []
    ensures sources + [Source(path, listing[0].filename)] + SourcesIn(path, listing[1..])
         == sources + SourcesIn(path, listing)
  {
  }

  /** Distinct directories, whose files are listed once each, with memory for everything. */
  ghost predicate WellListed(todo: seq<DirectoryLoad>) {
    && NoRepeats(Paths(todo))
    && forall i :: 0 <= i < |todo| ==> todo[i].listing.Some? ==> ListedOnce(todo[i].listing.value)
  }

  lemma OpenKnows(c: Cache, tight: bool, d: DirectoryLoad, fs: FileSystem, sources: seq<Source>)
    requires Inv(c, multiset{}, tight) && DirectoriesRight(c) && d.path !in c.directories && Knows(c, sources, fs)
    ensures var c' := OpenDirectory(c, d);
            && Inv(c', multiset{}, tight) && DirectoriesRight(c') && Knows(c', sources, fs)
            && IsOpen(c', |c.dirs|) && c'.dirs[|c.dirs|] == Open(d.path, map[])
            && c'.directories == c.directories[d.path := |c.dirs|]
  {
    var c' := OpenDirectory(c, d);
    forall x: EntryId ensures InDirectory(c', x) == InDirectory(c, x) && CountRight(c', multiset{}, tight, x) {
      assert CountRight(c, multiset{}, tight, x);
    }
    forall dir: DirId, f ensures FileRight(c', dir, f) { assert FileRight(c, dir, f); }
    forall name ensures KnowsName(c', sources, fs, name) {
      assert KnowsName(c, sources, fs, name);
      if FirstOf(sources, fs, name).Some? {
        EntryStays(c, c', name, FirstOf(sources, fs, name).value, fs);
      }
    }
  }

  lemma DirectoryKnows(c: Cache, tight: bool, d: DirectoryLoad, fs: FileSystem, sources: seq<Source>)
    requires Inv(c, multiset{}, tight) && DirectoriesRight(c) && d.path !in c.directories && Knows(c, sources, fs)
    requires d.listing.Some? ==> ListedOnce(d.listing.value)
    ensures var (c', verdict) := UpdateDirectory(OpenDirectory(c, d), Scan(|c.dirs|, d.listing), fs);
            && verdict != NoMemory && Inv(c', multiset{}, tight) && DirectoriesRight(c')
            && c'.directories.Keys == c.directories.Keys + {d.path}
            && Knows(c', sources + Sources([d]), fs)
  {
    var begun := OpenDirectory(c, d);
    OpenKnows(c, tight, d, fs, sources);
    if d.listing.Some? {
      ListingKnows(begun, tight, |c.dirs|, d.listing.value, fs, sources);
      assert Sources([d]) == SourcesIn(d.path, d.listing.value) + [];
      assert Sources([d]) == SourcesIn(d.path, d.listing.value);
    } else {
      assert Sources([d]) == [] + [];
      assert sources + Sources([d]) == sources;
    }
  }

  lemma SourcesOn(sources: seq<Source>, todo: seq<DirectoryLoad>)
    requires todo != []
    ensures sources + Sources([todo[0]]) + Sources(todo[1..]) == sources + Sources(todo)
  {
    var first := if todo[0].listing.Some? then SourcesIn(todo[0].path, todo[0].listing.value) else [];
    assert [todo[0]][1..] == [];
    assert Sources([todo[0]]) == first + [] == first;
    Regroup(sources, first, Sources(todo[1..]));
  }

  lemma RestListed(todo: seq<DirectoryLoad>, directories: map<string, DirId>, directories': map<string, DirId>)
    requires todo != [] && WellListed(todo) && forall i :: 0 <= i < |todo| ==> todo[i].path !in directories
    requires directories'.Keys == directories.Keys + {todo[0].path}
    ensures WellListed(todo[1..]) && forall i :: 0 <= i < |todo[1..]| ==> todo[1..][i].path !in directories'
  {
    var rest := todo[1..];
    assert forall i :: 0 <= i < |rest| ==> Paths(rest)[i] == Paths(todo)[i + 1];
    forall i | 0 <= i < |rest| ensures rest[i].path !in directories' {
      assert Paths(todo)[0] != Paths(todo)[i + 1];
    }
  }

  function PathSet(todo: seq<DirectoryLoad>): set<string> {
    set d | d in todo :: d.path
  }

  lemma PathSetOn(todo: seq<DirectoryLoad>)
    requires todo != []
    ensures PathSet(todo) == {todo[0].path} + PathSet(todo[1..])
  {
    assert todo == [todo[0]] + todo[1..];
  }

  lemma {:induction false} LoadKnows(c: Cache, tight: bool, todo: seq<DirectoryLoad>, fs: FileSystem,
                                     sources: seq<Source>)
    requires Inv(c, multiset{}, tight) && DirectoriesRight(c) && WellListed(todo) && Knows(c, sources, fs)
    requires forall i :: 0 <= i < |todo| ==> todo[i].path !in c.directories
    ensures var (c', ok) := Load(c, todo, fs); ok && Knows(c', sources + Sources(todo), fs)
    ensures Load(c, todo, fs).0.directories.Keys == c.directories.Keys + PathSet(todo)
    decreases |todo|
  {
    if todo == [] {
      assert sources + Sources(todo) == sources;
    } else {
      DirectoryKnows(c, tight, todo[0], fs, sources);
      var c1 := UpdateDirectory(OpenDirectory(c, todo[0]), Scan(|c.dirs|, todo[0].listing), fs).0;
      RestListed(todo, c.directories, c1.directories);
      LoadKnows(c1, tight, todo[1..], fs, sources + Sources([todo[0]]));
      SourcesOn(sources, todo);
      PathSetOn(todo);
    }
  }

  /**
   With memory for everything, a reload comes to its end although directories cannot be opened and files cannot be read,
   and then exactly the services are known that the listed files give, each from the first file that gives it.
   */
  lemma ReloadKnows(c: Cache, tight: bool, r: Reload)
    requires Inv(c, multiset{}, tight) && WalksAll(c, r) && WellListed(r.todo)
    ensures var (c', ok) := ReloadAll(c, r);
            && ok && c' == Step(c, Reloaded(r))
            && Knows(c', Sources(r.todo), r.fs) && c'.directories.Keys == PathSet(r.todo)
  {
    FreeAllFrees(c, tight, r);
    var freed := FreeAll(c, r);
    forall name ensures KnowsName(freed, [], r.fs, name) {}
    LoadKnows(freed, tight, r.todo, r.fs, []);
    assert [] + Sources(r.todo) == Sources(r.todo);
  }
}
