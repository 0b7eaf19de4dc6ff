/** The service files over whole runs of reloads and lookups: a reload frees everything there was. */
module ServiceReloads {
  import opened BusTypes
  import opened Lists
  import opened ServiceFiles
  import opened ServiceFilesProofs

  // ---------------------------------------------------------------------------------------------
  // Freeing the tables

  lemma {:induction false} FreeNamesKeeps(c: Cache, tight: bool, walk: seq<string>)
    requires Inv(c, multiset{}, tight)
    ensures var c' := FreeNames(c, walk);
            && Inv(c', multiset{}, tight) && c'.dirs == c.dirs && c'.directories == c.directories
            && |c'.arena| == |c.arena| && forall name :: name in c'.names <==> name in c.names && name !in walk
    decreases |walk|
  {
    if walk != [] {
      RemoveNamedKeeps(c, multiset{}, tight, walk[0]);
      FreeNamesKeeps(RemoveNamed(c, walk[0]), tight, walk[1..]);
    }
  }

  /** Nothing is found by name. */
  ghost predicate Nameless(c: Cache, tight: bool) {
    Inv(c, multiset{}, tight) && c.names == map[]
  }

  /** Only one directory's table differs, and by these files. */
  ghost predicate Emptied(c: Cache, c': Cache, dir: DirId, files: seq<string>) {
    && IsOpen(c, dir) && IsOpen(c', dir) && |c'.dirs| == |c.dirs| && c'.directories == c.directories
    && |c'.arena| == |c.arena|
    && (forall d: DirId :: d < |c.dirs| && d != dir ==> c'.dirs[d] == c.dirs[d])
    && (forall f :: f in c'.dirs[dir].entries ==> f in c.dirs[dir].entries && f !in files)
  }

  lemma FreeFileKeeps(c: Cache, tight: bool, dir: DirId, filename: string)
    requires Nameless(c, tight) && IsOpen(c, dir)
    ensures Nameless(RemoveFile(c, dir, filename), tight)
    ensures Emptied(c, RemoveFile(c, dir, filename), dir, [filename])
  {
    if filename in c.dirs[dir].entries {
      assert FileRight(c, dir, filename);
      RemoveFileKeeps(c, multiset{}, tight, c.dirs[dir].entries[filename]);
    }
  }

  lemma {:induction false} FreeFilesKeeps(c: Cache, tight: bool, dir: DirId, files: seq<string>)
    requires Nameless(c, tight) && IsOpen(c, dir)
    ensures Nameless(FreeFiles(c, dir, files), tight) && Emptied(c, FreeFiles(c, dir, files), dir, files)
    decreases |files|
  {
    if files != [] {
      FreeFileKeeps(c, tight, dir, files[0]);
      FreeFilesKeeps(RemoveFile(c, dir, files[0]), tight, dir, files[1..]);
    }
  }

  /** A table that has given up its entries is freed. */
  lemma CloseKeeps(c: Cache, tight: bool, dir: DirId)
    requires Nameless(c, tight) && IsOpen(c, dir) && c.dirs[dir].entries == map[]
    ensures Nameless(c.(dirs := c.dirs[dir := Closed]), tight)
  {
    var c' := c.(dirs := c.dirs[dir := Closed]);
    forall x: EntryId ensures InDirectory(c', x) == InDirectory(c, x) && CountRight(c', multiset{}, tight, x) {
      assert CountRight(c, multiset{}, tight, x);
    }
    forall d: DirId, f ensures FileRight(c', d, f) { assert FileRight(c, d, f); }
  }

  /** A walk meets every file of its table. */
  ghost predicate WalksTable(c: Cache, w: TableWalk) {
    IsOpen(c, w.dir) && forall f :: f in c.dirs[w.dir].entries ==> f in w.files
  }

  lemma FreeTableKeeps(c: Cache, tight: bool, w: TableWalk)
    requires Nameless(c, tight) && WalksTable(c, w)
    ensures var c' := FreeTable(c, w);
            && Nameless(c', tight) && |c'.dirs| == |c.dirs| && c'.dirs[w.dir].Closed?
            && |c'.arena| == |c.arena|
            && forall d: DirId :: d < |c.dirs| && d != w.dir ==> c'.dirs[d] == c.dirs[d]
  {
    FreeFilesKeeps(c, tight, w.dir, w.files);
    var emptied := FreeFiles(c, w.dir, w.files);
    assert emptied.dirs[w.dir].entries == map[];
    CloseKeeps(emptied, tight, w.dir);
  }

  /** The walks meet every open table once. */
  ghost predicate WalksTables(c: Cache, walks: seq<TableWalk>) {
    && (forall i, j :: 0 <= i < j < |walks| ==> walks[i].dir != walks[j].dir)
    && (forall w :: w in walks ==> WalksTable(c, w))
    && (forall dir: DirId :: IsOpen(c, dir) ==> exists w :: w in walks && w.dir == dir)
  }

  lemma {:induction false} FreeTablesKeeps(c: Cache, tight: bool, walks: seq<TableWalk>)
    requires Nameless(c, tight) && WalksTables(c, walks)
    ensures var c' := FreeTables(c, walks);
            Nameless(c', tight) && |c'.arena| == |c.arena| && forall dir: DirId :: !IsOpen(c', dir)
    decreases |walks|
  {
    if walks != [] {
      var (w, rest) := (walks[0], walks[1..]);
      assert WalksTable(c, w);
      FreeTableKeeps(c, tight, w);
      var c' := FreeTable(c, w);
      forall x | x in rest ensures WalksTable(c', x) {
        var i :| 0 <= i < |rest| && rest[i] == x;
        assert walks[i + 1] == x && walks[0].dir != walks[i + 1].dir;
        assert x in walks;
      }
      forall dir: DirId | IsOpen(c', dir) ensures exists x :: x in rest && x.dir == dir {
        assert IsOpen(c, dir) && dir != w.dir;
        var x :| x in walks && x.dir == dir;
        assert x in rest;
      }
      FreeTablesKeeps(c', tight, rest);
    }
  }

  lemma SameWalks(c: Cache, c': Cache, walks: seq<TableWalk>)
    requires WalksTables(c, walks) && c'.dirs == c.dirs
    ensures WalksTables(c', walks)
  {
    forall w | w in walks ensures WalksTable(c', w) { assert WalksTable(c, w); }
    forall dir: DirId | IsOpen(c', dir) ensures exists w :: w in walks && w.dir == dir { assert IsOpen(c, dir); }
  }

  /** How a reload walks the tables there are. */
  ghost predicate WalksAll(c: Cache, r: Reload) {
    (forall name :: name in c.names ==> name in r.names) && WalksTables(c, r.tables)
  }

  /**
   Freeing the tables leaves none, and no freed memory is used on the way; unless a table ran out of room before, every
   entry there was is gone.
   */
  lemma FreeAllFrees(c: Cache, tight: bool, r: Reload)
    requires Inv(c, multiset{}, tight) && WalksAll(c, r)
    ensures var c' := FreeAll(c, r);
            && Inv(c', multiset{}, tight) && c'.names == c'.directories == map[] && |c'.arena| == |c.arena|
            && (forall dir: DirId :: !IsOpen(c', dir))
            && (tight ==> forall id: EntryId :: !IsLive(c', id))
  {
    FreeNamesKeeps(c, tight, r.names);
    var named := FreeNames(c, r.names);
    assert named.names == map[];
    SameWalks(c, named, r.tables);
    FreeTablesKeeps(named, tight, r.tables);
    var freed := FreeTables(named, r.tables);
    var c' := FreeAll(c, r);
    assert forall dir: DirId :: IsOpen(c', dir) == IsOpen(freed, dir);
    forall id: EntryId
      ensures InDirectory(c', id) == InDirectory(freed, id) == false && CountRight(c', multiset{}, tight, id)
    {
      assert CountRight(freed, multiset{}, tight, id);
    }
    if tight {
      forall id: EntryId ensures !IsLive(c', id) { assert CountRight(c', multiset{}, tight, id); }
    }
    forall d: DirId, f ensures FileRight(c', d, f) { assert FileRight(freed, d, f); }
  }

  // ---------------------------------------------------------------------------------------------
  // Every run

  datatype Event = Reloaded(r: Reload) | LookedUp(l: Lookup)

  function Step(c: Cache, e: Event): Cache {
    match e
    case Reloaded(r) => ReloadAll(c, r).0
    case LookedUp(l) => Find(c, l).0
  }

  /** A reload walks the tables and is given distinct directories; all see the files as the history has them. */
  ghost predicate Possible(c: Cache, e: Event, history: map<Version, Option<Content>>) {
    match e
    case Reloaded(r) => WalksAll(c, r) && NoRepeats(Paths(r.todo)) && Dated(r.fs, history)
    case LookedUp(l) => CanScan(c, l) && Dated(l.fs, history)
  }

  predicate HasRoom(e: Event) {
    match e
    case Reloaded(r) => LoadHasRoom(r.todo)
    case LookedUp(l) => LookupHasRoom(l)
  }

  ghost predicate Kept(c: Cache, tight: bool, history: map<Version, Option<Content>>) {
    Inv(c, multiset{}, tight) && DirectoriesRight(c) && Faithful(c, history)
  }

  lemma StepKeeps(c: Cache, tight: bool, e: Event, history: map<Version, Option<Content>>)
    requires Kept(c, tight, history) && Possible(c, e, history)
    ensures Kept(Step(c, e), tight && HasRoom(e), history)
  {
    match e
    case Reloaded(r) =>
      FreeAllFrees(c, tight, r);
      LoadKeeps(FreeAll(c, r), tight, r.todo, r.fs, history);
    case LookedUp(l) =>
      FindKeeps(c, tight, l);
      FollowsFaithfully(c, Find(c, l).0, l.fs, history);
  }

  function Run(c: Cache, events: seq<Event>): Cache
    decreases |events|
  {
    if events == [] then c else Run(Step(c, events[0]), events[1..])
  }

  ghost predicate AllPossible(c: Cache, events: seq<Event>, history: map<Version, Option<Content>>)
    decreases |events|
  {
    events != [] ==> Possible(c, events[0], history) && AllPossible(Step(c, events[0]), events[1..], history)
  }

  predicate AllHaveRoom(events: seq<Event>) {
    forall e :: e in events ==> HasRoom(e)
  }

  lemma {:induction false} RunKeeps(c: Cache, tight: bool, events: seq<Event>, history: map<Version, Option<Content>>)
    requires Kept(c, tight, history) && AllPossible(c, events, history)
    ensures Kept(Run(c, events), tight && AllHaveRoom(events), history)
    decreases |events|
  {
    if events != [] {
      StepKeeps(c, tight, events[0], history);
      var tight1 := tight && HasRoom(events[0]);
      RunKeeps(Step(c, events[0]), tight1, events[1..], history);
      Loosen(Run(c, events), multiset{}, tight1 && AllHaveRoom(events[1..]), tight && AllHaveRoom(events));
    }
  }

  /**
   In every state that reloads, of distinct directories each, and lookups lead to, in any order, whatever the files
   become meanwhile and wherever memory fails: no freed memory is used, an entry found by name has that name, and its
   directory's table has it under its file name.  Unless a table ran out of room, an entry has one reference for each
   table it is in, and is gone if it is in none.
   */
  lemma EveryRun(events: seq<Event>, history: map<Version, Option<Content>>)
    requires AllPossible(NO_FILES, events, history)
    ensures var c := Run(NO_FILES, events);
            && c.ok
            && (forall name :: name in c.names ==>
                  InDirectory(c, c.names[name]) && EntryOf(c, c.names[name]).content.name == name)
            && (AllHaveRoom(events) ==>
                  forall id: EntryId :: IsLive(c, id) ==> EntryOf(c, id).refcount == References(c, id) > 0)
            && Faithful(c, history)
  {
    RunKeeps(NO_FILES, true, events, history);
    var c := Run(NO_FILES, events);
    if AllHaveRoom(events) {
      forall id: EntryId | IsLive(c, id) ensures EntryOf(c, id).refcount == References(c, id) > 0 {
        assert CountRight(c, multiset{}, true, id);
      }
    }
  }
}
