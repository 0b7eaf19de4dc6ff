/** Which names are known after a scan of the directories, and so exactly when a lookup misses a file that is there. */
module ServiceLookups {
  import opened BusTypes
  import opened ServiceFiles
  import opened ServiceFilesProofs

  // ---------------------------------------------------------------------------------------------
  // One file

  /** A file name that a scan comes to. */
  datatype Stop = Stop(dir: DirId, listed: Listed)

  /** What the directory's table has on a file: what it said, and when it was written. */
  function Cached(c: Cache, dir: DirId, filename: string): Option<(Content, int)> {
    if IsOpen(c, dir) && filename in c.dirs[dir].entries && IsLive(c, c.dirs[dir].entries[filename]) then
      var e := EntryOf(c, c.dirs[dir].entries[filename]); Some((e.content, e.mtime))
    else None
  }

  function FileOn(c: Cache, s: Stop, fs: FileSystem): Option<File> {
    if IsOpen(c, s.dir) then FileAt(fs, c.dirs[s.dir].path, s.listed.filename) else None
  }

  /** The file can be read, and has no entry or is newer than that. */
  predicate IsNews(c: Cache, s: Stop, fs: FileSystem) {
    var (f, cached) := (FileOn(c, s, fs), Cached(c, s.dir, s.listed.filename));
    f.Some? && f.value.content.Some? && (cached.Some? ==> f.value.mtime > cached.value.1)
  }

  /** The scan learns the name from this file. */
  predicate Gives(c: Cache, s: Stop, fs: FileSystem, name: string) {
    IsServiceFile(s.listed.filename) && IsNews(c, s, fs) && FileOn(c, s, fs).value.content.value.name == name
  }

  /**
   The scan forgets the name at this file, whose entry has it, or had it before a clash: the file is gone, or it gives
   another name now.
   */
  predicate Takes(c: Cache, s: Stop, fs: FileSystem, name: string) {
    var cached := Cached(c, s.dir, s.listed.filename);
    && IsServiceFile(s.listed.filename) && cached.Some? && cached.value.0.name == name
    && (FileOn(c, s, fs).None? || (IsNews(c, s, fs) && FileOn(c, s, fs).value.content.value.name != name))
  }

  function VisitStop(c: Cache, s: Stop, fs: FileSystem): (Cache, Verdict) {
    Visit(c, s.dir, s.listed, fs)
  }

  ghost predicate CanVisit(c: Cache, tight: bool, s: Stop) {
    Inv(c, multiset{}, tight) && IsOpen(c, s.dir) && s.listed.fault == NoFault
  }

  lemma CachedIsListed(c: Cache, tight: bool, dir: DirId, filename: string)
    requires Inv(c, multiset{}, tight) && IsOpen(c, dir) && filename in c.dirs[dir].entries
    ensures var id := c.dirs[dir].entries[filename];
            InDirectory(c, id) && EntryOf(c, id).dir == dir && EntryOf(c, id).filename == filename
  {
    assert FileRight(c, dir, filename);
  }

  /** A file that has an entry. */
  ghost predicate IsKnown(c: Cache, tight: bool, s: Stop) {
    && CanVisit(c, tight, s) && s.listed.filename in c.dirs[s.dir].entries && IsServiceFile(s.listed.filename)
    && IsLive(c, c.dirs[s.dir].entries[s.listed.filename])
  }

  function EntryAt(c: Cache, s: Stop): EntryId
    requires IsOpen(c, s.dir) && s.listed.filename in c.dirs[s.dir].entries
  {
    c.dirs[s.dir].entries[s.listed.filename]
  }

  /** One entry, and where it is in the tables, may differ. */
  ghost predicate SameElsewhere(c: Cache, c': Cache, s: Stop, id: EntryId) {
    && |c.arena| <= |c'.arena| && |c'.dirs| == |c.dirs|
    && (forall dir: DirId :: IsOpen(c, dir) ==>
          IsOpen(c', dir) && c'.dirs[dir].path == c.dirs[dir].path
          && (dir != s.dir ==> c'.dirs[dir] == c.dirs[dir])
          && c'.dirs[dir].entries - {s.listed.filename} == c.dirs[dir].entries - {s.listed.filename})
    && (forall x: EntryId :: x != id && x < |c.arena| && IsLive(c', x) ==> SameFact(c, c', x))
  }

  lemma GoneNames(c: Cache, tight: bool, s: Stop, fs: FileSystem)
    requires IsKnown(c, tight, s) && FileOn(c, s, fs).None?
    ensures var (c', verdict) := VisitStop(c, s, fs);
            var id := EntryAt(c, s);
            && verdict == Done && c'.names == c.names - {EntryOf(c, id).content.name} && SameElsewhere(c, c', s, id)
  {
    var id := EntryAt(c, s);
    CachedIsListed(c, tight, s.dir, s.listed.filename);
    RemoveNamedKeeps(c, multiset{}, tight, EntryOf(c, id).content.name);
    var c1 := RemoveNamed(c, EntryOf(c, id).content.name);
    assert InDirectory(c1, id) && SameFact(c, c1, id);
    RemoveFileKeeps(c1, multiset{}, tight, id);
    SameFactsLater(c, c1, RemoveFile(c1, s.dir, s.listed.filename));
  }

  /** Only the names, the reference counts and one entry may differ, and entries that are gone. */
  ghost predicate SameBut(c: Cache, c': Cache, id: EntryId) {
    && c'.dirs == c.dirs && |c'.arena| == |c.arena|
    && forall x: EntryId :: x != id && IsLive(c', x) ==> SameFact(c, c', x)
  }

  lemma SameButLater(a: Cache, b: Cache, c: Cache, id: EntryId)
    requires SameBut(a, b, id) && SameBut(b, c, id)
    ensures SameBut(a, c, id)
  {
    forall x: EntryId | x != id && IsLive(c, x) ensures SameFact(a, c, x) {
      assert SameFact(b, c, x) && SameFact(a, b, x);
    }
  }

  lemma StepsAreSame(c: Cache, id: EntryId, x: EntryId, name: string, content: Content, mtime: int)
    ensures SameBut(c, Ref(c, x), id) && SameBut(c, Unref(c, x), id)
    ensures SameBut(c, RemoveNamed(c, name), id) && SameBut(c, InsertNamed(c, name, id), id)
    ensures SameBut(c, Rewrite(c, id, content), id) && SameBut(c, Stamp(c, id, mtime), id)
  {
  }

  lemma UnnamedSame(c: Cache, id: EntryId)
    requires IsLive(c, id)
    ensures SameBut(c, Unnamed(c, id), id)
  {
    var (content, name) := (EntryOf(c, id).content, EntryOf(c, id).content.name);
    StepsAreSame(c, id, id, name, content, 0);
    StepsAreSame(Ref(c, id), id, id, name, content, 0);
    SameButLater(c, Ref(c, id), Unnamed(c, id), id);
  }

  lemma NamedSame(c: Cache, id: EntryId, f: File)
    requires f.content.Some?
    ensures var content := f.content.value;
            SameBut(c, Unref(Stamp(InsertNamed(Ref(Rewrite(c, id, content), id), content.name, id), id, f.mtime), id),
                    id)
  {
    var content := f.content.value;
    var rewritten := Rewrite(c, id, content);
    var named := InsertNamed(Ref(rewritten, id), content.name, id);
    var stamped := Stamp(named, id, f.mtime);
    StepsAreSame(c, id, id, content.name, content, f.mtime);
    StepsAreSame(rewritten, id, id, content.name, content, f.mtime);
    SameButLater(c, rewritten, Ref(rewritten, id), id);
    StepsAreSame(Ref(rewritten, id), id, id, content.name, content, f.mtime);
    SameButLater(c, Ref(rewritten, id), named, id);
    StepsAreSame(named, id, id, content.name, content, f.mtime);
    SameButLater(c, named, stamped, id);
    StepsAreSame(stamped, id, id, content.name, content, f.mtime);
    SameButLater(c, stamped, Unref(stamped, id), id);
  }

  lemma RefreshSame(c: Cache, id: EntryId, f: File)
    requires IsLive(c, id) && f.content.Some?
    ensures SameBut(c, RefreshEntry(c, id, f, NoFault).0, id)
  {
    var unnamed := Unnamed(c, id);
    UnnamedSame(c, id);
    StepsAreSame(unnamed, id, id, "", f.content.value, 0);
    NamedSame(unnamed, id, f);
    SameButLater(c, unnamed, RefreshEntry(c, id, f, NoFault).0, id);
  }

  /** A known file that is newer is read, whatever name it gives. */
  lemma NewsRefreshes(c: Cache, tight: bool, s: Stop, fs: FileSystem)
    requires IsKnown(c, tight, s) && IsNews(c, s, fs)
    ensures VisitStop(c, s, fs) == (RefreshEntry(c, EntryAt(c, s), FileOn(c, s, fs).value, NoFault).0, Done)
    ensures InDirectory(c, EntryAt(c, s))
    ensures var e := EntryOf(c, EntryAt(c, s)); FileAt(fs, c.dirs[e.dir].path, e.filename) == FileOn(c, s, fs)
  {
    CachedIsListed(c, tight, s.dir, s.listed.filename);
  }

  lemma NewsNames(c: Cache, tight: bool, s: Stop, fs: FileSystem)
    requires IsKnown(c, tight, s) && IsNews(c, s, fs)
    ensures var (c', verdict) := VisitStop(c, s, fs);
            var id := EntryAt(c, s);
            var others := c.names - {EntryOf(c, id).content.name};
            && verdict == Done && SameBut(c, c', id)
            && c'.names.Keys == others.Keys + {FileOn(c, s, fs).value.content.value.name}
  {
    var (id, f) := (EntryAt(c, s), FileOn(c, s, fs).value);
    NewsRefreshes(c, tight, s, fs);
    RefreshKeeps(c, multiset{}, tight, id, f, NoFault, fs);
    RefreshSame(c, id, f);
  }

  lemma SameButElsewhere(c: Cache, c': Cache, s: Stop, id: EntryId)
    requires SameBut(c, c', id)
    ensures SameElsewhere(c, c', s, id)
  {
  }

  /** The other files. */
  ghost predicate SameCached(c: Cache, c': Cache, s: Stop) {
    forall dir: DirId, g :: IsOpen(c, dir) && !(dir == s.dir && g == s.listed.filename) ==>
                              IsOpen(c', dir) && c'.dirs[dir].path == c.dirs[dir].path
                              && Cached(c', dir, g) == Cached(c, dir, g)
  }

  lemma ElsewhereCached(c: Cache, c': Cache, tight: bool, s: Stop, id: EntryId)
    requires Inv(c, multiset{}, tight) && Inv(c', multiset{}, tight) && SameElsewhere(c, c', s, id) && IsOpen(c, s.dir)
    requires id < |c.arena| ==> s.listed.filename in c.dirs[s.dir].entries && id == EntryAt(c, s)
    ensures SameCached(c, c', s)
  {
    forall dir: DirId, g | IsOpen(c, dir) && !(dir == s.dir && g == s.listed.filename)
      ensures Cached(c', dir, g) == Cached(c, dir, g)
    {
      assert g in c'.dirs[dir].entries - {s.listed.filename} <==> g in c.dirs[dir].entries - {s.listed.filename};
      if g in c.dirs[dir].entries {
        var x := c.dirs[dir].entries[g];
        assert FileRight(c, dir, g) && FileRight(c', dir, g);
        if id < |c.arena| { assert FileRight(c, s.dir, s.listed.filename); }
        assert SameFact(c, c', x);
      }
    }
  }

  /** What one file does to the names; all the others are cached as before. */
  ghost predicate Learns(c: Cache, c': Cache, s: Stop, fs: FileSystem) {
    && SameCached(c, c', s)
    && forall name :: name in c'.names <==> Gives(c, s, fs, name) || (name in c.names && !Takes(c, s, fs, name))
  }

  lemma GoneLearns(c: Cache, tight: bool, s: Stop, fs: FileSystem)
    requires IsKnown(c, tight, s) && FileOn(c, s, fs).None? && Inv(VisitStop(c, s, fs).0, multiset{}, tight)
    ensures VisitStop(c, s, fs).1 != NoMemory && Learns(c, VisitStop(c, s, fs).0, s, fs)
  {
    GoneNames(c, tight, s, fs);
    ElsewhereCached(c, VisitStop(c, s, fs).0, tight, s, EntryAt(c, s));
  }

  lemma NewsLearns(c: Cache, tight: bool, s: Stop, fs: FileSystem)
    requires IsKnown(c, tight, s) && IsNews(c, s, fs) && Inv(VisitStop(c, s, fs).0, multiset{}, tight)
    ensures VisitStop(c, s, fs).1 != NoMemory && Learns(c, VisitStop(c, s, fs).0, s, fs)
  {
    NewsNames(c, tight, s, fs);
    SameButElsewhere(c, VisitStop(c, s, fs).0, s, EntryAt(c, s));
    ElsewhereCached(c, VisitStop(c, s, fs).0, tight, s, EntryAt(c, s));
  }

  lemma AddedElsewhere(c: Cache, s: Stop, f: File)
    requires IsOpen(c, s.dir) && f.content.Some?
    ensures SameElsewhere(c, Added(c, s.dir, s.listed.filename, f), s, |c.arena|)
  {
    var c' := Added(c, s.dir, s.listed.filename, f);
    assert c'.dirs[s.dir].entries - {s.listed.filename} == c.dirs[s.dir].entries - {s.listed.filename};
  }

  /** A file without an entry that can be read gets one, unless its name is taken. */
  lemma NewIsAdded(c: Cache, tight: bool, s: Stop, fs: FileSystem)
    requires CanVisit(c, tight, s) && IsServiceFile(s.listed.filename) && IsNews(c, s, fs)
    requires s.listed.filename !in c.dirs[s.dir].entries
    ensures var f := FileOn(c, s, fs).value;
            VisitStop(c, s, fs)
            == (if f.content.value.name in c.names then c else Added(c, s.dir, s.listed.filename, f), Done)
  {
    var f := FileOn(c, s, fs).value;
    if f.content.value.name !in c.names { AddExact(c, s.dir, s.listed.filename, f, NoFault); }
  }

  lemma NewLearns(c: Cache, tight: bool, s: Stop, fs: FileSystem)
    requires CanVisit(c, tight, s) && IsServiceFile(s.listed.filename) && IsNews(c, s, fs)
    requires s.listed.filename !in c.dirs[s.dir].entries && Inv(VisitStop(c, s, fs).0, multiset{}, tight)
    ensures VisitStop(c, s, fs).1 != NoMemory && Learns(c, VisitStop(c, s, fs).0, s, fs)
  {
    var f := FileOn(c, s, fs).value;
    NewIsAdded(c, tight, s, fs);
    if f.content.value.name !in c.names {
      AddedElsewhere(c, s, f);
      ElsewhereCached(c, Added(c, s.dir, s.listed.filename, f), tight, s, |c.arena|);
    }
  }

  /** Nothing happens at any other file. */
  lemma OldNews(c: Cache, tight: bool, s: Stop, fs: FileSystem)
    requires CanVisit(c, tight, s) && (IsServiceFile(s.listed.filename) ==> !IsNews(c, s, fs))
    requires IsKnown(c, tight, s) ==> FileOn(c, s, fs).Some?
    ensures VisitStop(c, s, fs).0 == c && VisitStop(c, s, fs).1 != NoMemory
  {
    if s.listed.filename in c.dirs[s.dir].entries { CachedIsListed(c, tight, s.dir, s.listed.filename); }
  }

  lemma VisitLearns(c: Cache, tight: bool, s: Stop, fs: FileSystem)
    requires CanVisit(c, tight, s)
    ensures var (c', verdict) := VisitStop(c, s, fs);
            verdict != NoMemory && Inv(c', multiset{}, tight) && Learns(c, c', s, fs)
  {
    VisitKeeps(c, multiset{}, tight, s.dir, s.listed, fs);
    if s.listed.filename in c.dirs[s.dir].entries { CachedIsListed(c, tight, s.dir, s.listed.filename); }
    if IsKnown(c, tight, s) && FileOn(c, s, fs).None? {
      GoneLearns(c, tight, s, fs);
    } else if IsServiceFile(s.listed.filename) && IsNews(c, s, fs) {
      if s.listed.filename in c.dirs[s.dir].entries {
        NewsLearns(c, tight, s, fs);
      } else {
        NewLearns(c, tight, s, fs);
      }
    } else {
      OldNews(c, tight, s, fs);
    }
  }

  // ---------------------------------------------------------------------------------------------
  // A scan of all directories

  function VisitEach(c: Cache, stops: seq<Stop>, fs: FileSystem): (Cache, Verdict)
    decreases |stops|
  {
    if stops == [] then (c, Done)
    else
      var (c', verdict) := VisitStop(c, stops[0], fs);
      if verdict == NoMemory then (c', NoMemory) else VisitEach(c', stops[1..], fs)
  }

  function StopsIn(dir: DirId, listing: seq<Listed>): seq<Stop> {
    seq(|listing|, i requires 0 <= i < |listing| => Stop(dir, listing[i]))
  }

  /** The files that a scan comes to, in order. */
  function Stops(scans: seq<Scan>): seq<Stop>
    decreases |scans|
  {
    if scans == [] then []
    else (if scans[0].listing.Some? then StopsIn(scans[0].dir, scans[0].listing.value) else []) + Stops(scans[1..])
  }

  lemma {:induction false} VisitAllIsEach(c: Cache, dir: DirId, listing: seq<Listed>, fs: FileSystem)
    ensures VisitAll(c, dir, listing, fs) == VisitEach(c, StopsIn(dir, listing), fs)
    decreases |listing|
  {
    if listing != [] {
      assert StopsIn(dir, listing)[1..] == StopsIn(dir, listing[1..]);
      VisitAllIsEach(Visit(c, dir, listing[0], fs).0, dir, listing[1..], fs);
    }
  }

  lemma {:induction false} EachConcat(c: Cache, first: seq<Stop>, rest: seq<Stop>, fs: FileSystem)
    ensures VisitEach(c, first + rest, fs)
         == if VisitEach(c, first, fs).1 == NoMemory then VisitEach(c, first, fs)
            else VisitEach(VisitEach(c, first, fs).0, rest, fs)
    decreases |first|
  {
    if first == [] {
      assert first + rest == rest;
    } else {
      assert (first + rest)[1..] == first[1..] + rest;
      EachConcat(VisitStop(c, first[0], fs).0, first[1..], rest, fs);
    }
  }

  lemma {:induction false} EachEnds(c: Cache, stops: seq<Stop>, fs: FileSystem)
    ensures VisitEach(c, stops, fs).1 in {Done, NoMemory}
    decreases |stops|
  {
    if stops != [] { EachEnds(VisitStop(c, stops[0], fs).0, stops[1..], fs); }
  }

  lemma {:induction false} UpdateIsEach(c: Cache, scans: seq<Scan>, fs: FileSystem)
    ensures UpdateCache(c, scans, fs) == VisitEach(c, Stops(scans), fs)
    decreases |scans|
  {
    if scans != [] {
      UpdateIsEach(UpdateDirectory(c, scans[0], fs).0, scans[1..], fs);
      if scans[0].listing.Some? {
        var first := StopsIn(scans[0].dir, scans[0].listing.value);
        VisitAllIsEach(c, scans[0].dir, scans[0].listing.value, fs);
        EachConcat(c, first, Stops(scans[1..]), fs);
        EachEnds(c, first, fs);
      } else {
        assert [] + Stops(scans[1..]) == Stops(scans[1..]);
      }
    }
  }

  predicate SameFile(s: Stop, t: Stop) {
    s.dir == t.dir && s.listed.filename == t.listed.filename
  }

  /** A scan comes to each file once, in directories that are there, and memory lasts. */
  ghost predicate Orderly(c: Cache, stops: seq<Stop>) {
    && (forall s :: s in stops ==> IsOpen(c, s.dir) && s.listed.fault == NoFault)
    && forall i, j :: 0 <= i < j < |stops| ==> !SameFile(stops[i], stops[j])
  }

  /** Whether the name is known in the end, by what there is at the start. */
  ghost predicate NamedAfter(c: Cache, stops: seq<Stop>, fs: FileSystem, name: string, before: bool)
    decreases |stops|
  {
    if stops == [] then before
    else NamedAfter(c, stops[1..], fs, name, Gives(c, stops[0], fs, name) || (before && !Takes(c, stops[0], fs, name)))
  }

  lemma {:induction false} NamedAfterSame(c: Cache, c': Cache, stops: seq<Stop>, fs: FileSystem, name: string,
                                          before: bool)
    requires forall s :: s in stops ==> (Gives(c', s, fs, name) <==> Gives(c, s, fs, name))
                                        && (Takes(c', s, fs, name) <==> Takes(c, s, fs, name))
    ensures NamedAfter(c', stops, fs, name, before) == NamedAfter(c, stops, fs, name, before)
    decreases |stops|
  {
    if stops != [] {
      assert stops[0] in stops;
      NamedAfterSame(c, c', stops[1..], fs, name,
                     Gives(c, stops[0], fs, name) || (before && !Takes(c, stops[0], fs, name)));
    }
  }

  lemma OrderlyRest(c: Cache, c': Cache, stops: seq<Stop>, fs: FileSystem, name: string)
    requires Orderly(c, stops) && stops != [] && SameCached(c, c', stops[0])
    requires forall dir: DirId :: IsOpen(c, dir) ==> IsOpen(c', dir) && c'.dirs[dir].path == c.dirs[dir].path
    ensures Orderly(c', stops[1..])
    ensures forall s :: s in stops[1..] ==> (Gives(c', s, fs, name) <==> Gives(c, s, fs, name))
                                            && (Takes(c', s, fs, name) <==> Takes(c, s, fs, name))
  {
    var rest := stops[1..];
    forall s | s in rest
      ensures (Gives(c', s, fs, name) <==> Gives(c, s, fs, name)) && (Takes(c', s, fs, name) <==> Takes(c, s, fs, name))
    {
      var i :| 0 <= i < |rest| && rest[i] == s;
      assert !SameFile(stops[0], stops[i + 1]) && stops[i + 1] in stops;
      assert Cached(c', s.dir, s.listed.filename) == Cached(c, s.dir, s.listed.filename);
    }
    forall i, j | 0 <= i < j < |rest| ensures !SameFile(rest[i], rest[j]) {
      assert !SameFile(stops[i + 1], stops[j + 1]);
    }
  }

  lemma {:induction false} EachLearns(c: Cache, tight: bool, stops: seq<Stop>, fs: FileSystem, name: string)
    requires Inv(c, multiset{}, tight) && Orderly(c, stops)
    ensures var (c', verdict) := VisitEach(c, stops, fs);
            verdict == Done && (name in c'.names <==> NamedAfter(c, stops, fs, name, name in c.names))
    decreases |stops|
  {
    if stops != [] {
      assert stops[0] in stops;
      VisitLearns(c, tight, stops[0], fs);
      VisitKeeps(c, multiset{}, tight, stops[0].dir, stops[0].listed, fs);
      var c1 := VisitStop(c, stops[0], fs).0;
      OrderlyRest(c, c1, stops, fs, name);
      EachLearns(c1, tight, stops[1..], fs, name);
      NamedAfterSame(c, c1, stops[1..], fs, name, name in c1.names);
    }
  }

  /** Some file gives the name, and no later one takes it away. */
  ghost predicate Remains(c: Cache, stops: seq<Stop>, fs: FileSystem, name: string) {
    exists i :: 0 <= i < |stops| && Gives(c, stops[i], fs, name)
                && forall j :: i < j < |stops| ==> !Takes(c, stops[j], fs, name)
  }

  ghost predicate NoneTakes(c: Cache, stops: seq<Stop>, fs: FileSystem, name: string) {
    forall s :: s in stops ==> !Takes(c, s, fs, name)
  }

  lemma RemainsFirst(c: Cache, stops: seq<Stop>, fs: FileSystem, name: string)
    requires stops != []
    ensures Remains(c, stops, fs, name)
            <==> Remains(c, stops[1..], fs, name)
                 || (Gives(c, stops[0], fs, name) && NoneTakes(c, stops[1..], fs, name))
  {
    var rest := stops[1..];
    if Remains(c, stops, fs, name) {
      var i :| 0 <= i < |stops| && Gives(c, stops[i], fs, name)
               && forall j :: i < j < |stops| ==> !Takes(c, stops[j], fs, name);
      assert forall j :: 0 <= j < |rest| ==> rest[j] == stops[j + 1];
      if i > 0 { assert Gives(c, rest[i - 1], fs, name); }
    }
    if Remains(c, rest, fs, name) {
      var i :| 0 <= i < |rest| && Gives(c, rest[i], fs, name)
               && forall j :: i < j < |rest| ==> !Takes(c, rest[j], fs, name);
      assert Gives(c, stops[i + 1], fs, name);
      forall j | i + 1 < j < |stops| ensures !Takes(c, stops[j], fs, name) { assert stops[j] == rest[j - 1]; }
    }
    if Gives(c, stops[0], fs, name) && NoneTakes(c, rest, fs, name) {
      forall j | 0 < j < |stops| ensures !Takes(c, stops[j], fs, name) { assert stops[j] == rest[j - 1]; }
    }
  }

  lemma {:induction false} NamedAfterIff(c: Cache, stops: seq<Stop>, fs: FileSystem, name: string, before: bool)
    ensures NamedAfter(c, stops, fs, name, before)
            <==> Remains(c, stops, fs, name) || (before && NoneTakes(c, stops, fs, name))
    decreases |stops|
  {
    if stops != [] {
      RemainsFirst(c, stops, fs, name);
      NamedAfterIff(c, stops[1..], fs, name,
                    Gives(c, stops[0], fs, name) || (before && !Takes(c, stops[0], fs, name)));
      assert forall s :: s in stops <==> s == stops[0] || s in stops[1..];
    }
  }

  // ---------------------------------------------------------------------------------------------
  // Lookups

  /**
   With memory for everything, a lookup of a known name fails exactly if the file of its own entry is gone, whatever
   other files give that name.  A lookup of any other name fails exactly if every file that gives it, being new or newer
   than its entry, is followed by one whose entry has that name from before a clash, and which is gone or renamed.
   */
  lemma FindIff(c: Cache, tight: bool, l: Lookup)
    requires Inv(c, multiset{}, tight) && Orderly(c, Stops(l.scans)) && l.fault == NoFault
    ensures Find(c, l).1.Some?
            <==> if l.name in c.names then InDirectory(c, c.names[l.name]) && FileOf(c, c.names[l.name], l.fs).Some?
                 else Remains(c, Stops(l.scans), l.fs, l.name)
  {
    if l.name in c.names {
      CheckKeeps(c, multiset{}, tight, c.names[l.name], l.fs, l.fault);
    } else {
      UpdateIsEach(c, l.scans, l.fs);
      EachLearns(c, tight, Stops(l.scans), l.fs, l.name);
      NamedAfterIff(c, Stops(l.scans), l.fs, l.name, false);
    }
  }

  /** Unless an entry has the name from before a clash, a lookup of an unknown name misses no file that gives it. */
  lemma FindIsComplete(c: Cache, tight: bool, l: Lookup)
    requires Inv(c, multiset{}, tight) && Orderly(c, Stops(l.scans)) && l.name !in c.names
    requires forall dir: DirId, g ::
               Cached(c, dir, g).Some? ==> Cached(c, dir, g).value.0.name != l.name
    ensures Find(c, l).1.Some? <==> exists s :: s in Stops(l.scans) && Gives(c, s, l.fs, l.name)
  {
    var stops := Stops(l.scans);
    FindIff(c, tight, l.(fault := NoFault));
    if s :| s in stops && Gives(c, s, l.fs, l.name) {
      var i :| 0 <= i < |stops| && stops[i] == s;
      assert forall j :: i < j < |stops| ==> !Takes(c, stops[j], l.fs, l.name);
    }
  }

  // ---------------------------------------------------------------------------------------------
  // A service that is lost

  function Says(name: string): Content {
    Content(name, "/bin/" + name, None, None)
  }

  function FileSaying(mtime: int, name: string): File {
    File(mtime, Some(Says(name)))
  }

  // Two files were read, of services x and y.
  const TWO_SERVICES :=
    Cache([Live(Entry(2, Says("x"), 1, 0, "a.service")), Live(Entry(2, Says("y"), 1, 0, "b.service"))],
          map["x" := 0, "y" := 1], [Open("/d", map["a.service" := 0, "b.service" := 1])], map["/d" := 0], true)

  // The second comes to say x as well, and a third says y.
  const CLASH: FileSystem :=
    map["/d" := map["a.service" := FileSaying(1, "x"), "b.service" := FileSaying(2, "x"),
                    "c.service" := FileSaying(1, "y")]]

  const STRANDED :=
    Cache([Live(Entry(2, Says("x"), 1, 0, "a.service")), Live(Entry(1, Says("y"), 1, 0, "b.service")),
           Live(Entry(2, Says("y"), 1, 0, "c.service"))],
          map["x" := 0, "y" := 2], [Open("/d", map["a.service" := 0, "b.service" := 1, "c.service" := 2])],
          map["/d" := 0], true)

  // Then the second says w.
  const RENAMED: FileSystem :=
    map["/d" := map["a.service" := FileSaying(1, "x"), "b.service" := FileSaying(3, "w"),
                    "c.service" := FileSaying(1, "y")]]

  const A := Stop(0, Listed("a.service", NoFault))
  const B := Stop(0, Listed("b.service", NoFault))
  const C := Stop(0, Listed("c.service", NoFault))

  const SCAN := [Scan(0, Some([A.listed, B.listed, C.listed]))]

  lemma AreServiceFiles()
    ensures IsServiceFile(A.listed.filename) && IsServiceFile(B.listed.filename) && IsServiceFile(C.listed.filename)
  {
    assert "a.service"[1..] == ".service" && "b.service"[1..] == ".service" && "c.service"[1..] == ".service";
  }

  lemma ScanStops(c: Cache)
    requires IsOpen(c, 0)
    ensures Stops(SCAN) == [A, B, C] && Orderly(c, [A, B, C])
  {
    assert SCAN[1..] == [] && StopsIn(0, SCAN[0].listing.value) == [A, B, C];
  }

  /** Three files in turn. */
  lemma ThreeStops(c: Cache, s: seq<Stop>, fs: FileSystem, c1: Cache, c2: Cache, c3: Cache)
    requires |s| == 3 && VisitStop(c, s[0], fs).1 != NoMemory && VisitStop(c, s[0], fs).0 == c1
    requires VisitStop(c1, s[1], fs).1 != NoMemory && VisitStop(c1, s[1], fs).0 == c2
    requires VisitStop(c2, s[2], fs).1 != NoMemory && VisitStop(c2, s[2], fs).0 == c3
    ensures VisitEach(c, s, fs) == (c3, Done)
  {
    assert s[1..][0] == s[1] && s[1..][1..][0] == s[2] && s[1..][1..][1..] == [];
    assert VisitEach(c2, s[1..][1..], fs) == VisitEach(c3, [], fs);
  }

  /** The caches in which the entries of a and b, and perhaps c, are these. */
  lemma TwoRight()
    ensures Inv(TWO_SERVICES, multiset{}, true)
  {
    forall id: EntryId ensures CountRight(TWO_SERVICES, multiset{}, true, id) {}
    forall dir: DirId, g ensures FileRight(TWO_SERVICES, dir, g) {}
  }

  lemma StrandedRight()
    ensures Inv(STRANDED, multiset{}, true)
  {
    forall id: EntryId ensures CountRight(STRANDED, multiset{}, true, id) {}
    forall dir: DirId, g ensures FileRight(STRANDED, dir, g) {}
  }

  const CLASHED := TWO_SERVICES.(arena := TWO_SERVICES.arena[1 := Live(Entry(1, Says("y"), 1, 0, "b.service"))],
                                 names := map["x" := 0])

  lemma ClashedRight()
    ensures Inv(CLASHED, multiset{}, true)
  {
    forall id: EntryId ensures CountRight(CLASHED, multiset{}, true, id) {}
    forall dir: DirId, g ensures FileRight(CLASHED, dir, g) {}
  }

  lemma ClashRefreshes()
    ensures RefreshEntry(TWO_SERVICES, 1, FileSaying(2, "x"), NoFault).0 == CLASHED
  {
  }

  /** The second file clashes, and its entry loses its name. */
  lemma SecondClashes()
    ensures VisitStop(TWO_SERVICES, B, CLASH) == (CLASHED, Done)
  {
    TwoRight();
    AreServiceFiles();
    ClashRefreshes();
    NewsRefreshes(TWO_SERVICES, true, B, CLASH);
  }

  lemma StrandedIsAdded()
    ensures Added(CLASHED, 0, "c.service", FileSaying(1, "y")) == STRANDED
  {
  }

  /** The third gets that name. */
  lemma ThirdIsAdded()
    ensures VisitStop(CLASHED, C, CLASH) == (STRANDED, Done)
  {
    ClashedRight();
    AreServiceFiles();
    StrandedIsAdded();
    NewIsAdded(CLASHED, true, C, CLASH);
  }

  lemma ClashStrands()
    ensures Find(TWO_SERVICES, Lookup("z", CLASH, NoFault, SCAN)).0 == STRANDED
  {
    TwoRight();
    ScanStops(TWO_SERVICES);
    UpdateIsEach(TWO_SERVICES, SCAN, CLASH);
    OldNews(TWO_SERVICES, true, A, CLASH);
    SecondClashes();
    ThirdIsAdded();
    ThreeStops(TWO_SERVICES, [A, B, C], CLASH, TWO_SERVICES, CLASHED, STRANDED);
  }

  /** The file c.service has its entry, which no longer has a name. */
  ghost predicate Lost(c: Cache) {
    && Inv(c, multiset{}, true) && IsOpen(c, 0) && c.dirs[0].path == "/d" && "y" !in c.names
    && Cached(c, 0, "c.service") == Some((Says("y"), 1))
  }

  /** A name that is taken is no longer known, and other files are cached as before. */
  lemma TakenElsewhere(c: Cache, c': Cache, s: Stop, fs: FileSystem, name: string, dir: DirId, g: string)
    requires Learns(c, c', s, fs) && Takes(c, s, fs, name)
    requires IsOpen(c, dir) && !(dir == s.dir && g == s.listed.filename)
    ensures name !in c'.names && IsOpen(c', dir) && c'.dirs[dir].path == c.dirs[dir].path
    ensures Cached(c', dir, g) == Cached(c, dir, g)
  {
    assert !Gives(c, s, fs, name);
    assert Cached(c', dir, g) == Cached(c, dir, g);
  }

  lemma SecondIsTaken()
    ensures Takes(STRANDED, B, RENAMED, "y")
  {
    AreServiceFiles();
  }

  /** At the second file its old name is taken, which is the name of the third. */
  lemma SecondTakes()
    ensures VisitStop(STRANDED, B, RENAMED).1 != NoMemory && Lost(VisitStop(STRANDED, B, RENAMED).0)
  {
    StrandedRight();
    SecondIsTaken();
    VisitLearns(STRANDED, true, B, RENAMED);
    TakenElsewhere(STRANDED, VisitStop(STRANDED, B, RENAMED).0, B, RENAMED, "y", 0, "c.service");
  }

  lemma LostStays(c: Cache)
    requires Lost(c)
    ensures VisitStop(c, C, RENAMED).1 != NoMemory && VisitStop(c, C, RENAMED).0 == c
  {
    OldNews(c, true, C, RENAMED);
  }

  lemma FirstStays()
    ensures VisitStop(STRANDED, A, RENAMED).1 != NoMemory && VisitStop(STRANDED, A, RENAMED).0 == STRANDED
  {
    StrandedRight();
    OldNews(STRANDED, true, A, RENAMED);
  }

  /** So it is after a lookup of another name. */
  lemma RenameTakes()
    ensures Lost(Find(STRANDED, Lookup("w", RENAMED, NoFault, SCAN)).0)
  {
    var c := VisitStop(STRANDED, B, RENAMED).0;
    ScanStops(STRANDED);
    UpdateIsEach(STRANDED, SCAN, RENAMED);
    FirstStays();
    SecondTakes();
    LostStays(c);
    ThreeStops(STRANDED, [A, B, C], RENAMED, STRANDED, c, c);
  }

  lemma LostIsNotGiven(c: Cache, s: Stop)
    requires Lost(c) && s in [A, B, C]
    ensures !Gives(c, s, RENAMED, "y")
  {
  }

  lemma FoundBefore()
    ensures Find(STRANDED, Lookup("y", CLASH, NoFault, SCAN)).1.Some?
  {
    StrandedRight();
    ScanStops(STRANDED);
    FindIff(STRANDED, true, Lookup("y", CLASH, NoFault, SCAN));
  }

  lemma LostAfter(c: Cache)
    requires Lost(c)
    ensures Find(c, Lookup("y", RENAMED, NoFault, SCAN)).1.None?
  {
    ScanStops(c);
    FindIff(c, true, Lookup("y", RENAMED, NoFault, SCAN));
    forall i | 0 <= i < 3 ensures !Gives(c, [A, B, C][i], RENAMED, "y") { LostIsNotGiven(c, [A, B, C][i]); }
  }

  /** After two lookups of other names the service y is lost, although its file has been there unchanged since. */
  lemma ServiceIsLost()
    ensures var c := Find(TWO_SERVICES, Lookup("z", CLASH, NoFault, SCAN)).0;
            var c' := Find(c, Lookup("w", RENAMED, NoFault, SCAN)).0;
            && FileAt(CLASH, "/d", "c.service") == FileAt(RENAMED, "/d", "c.service") == Some(FileSaying(1, "y"))
            && Find(c, Lookup("y", CLASH, NoFault, SCAN)).1.Some?
            && Find(c', Lookup("y", RENAMED, NoFault, SCAN)).1.None?
  {
    ClashStrands();
    FoundBefore();
    RenameTakes();
    LostAfter(Find(STRANDED, Lookup("w", RENAMED, NoFault, SCAN)).0);
  }
}
