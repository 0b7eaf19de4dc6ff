/** What every run keeps of the connections: the lists, their lengths, the counts of users and the order of age. */
module ConnectionListsProofs {
  import opened BusTypes
  import opened Lists
  import opened ConnectionLists

  // ---------------------------------------------------------------------------------------------
  // The invariant

  /** The completed connections of a user. */
  function CountUser(data: map<ConnId, ConnData>, completed: seq<ConnId>, user: UserId): nat {
    if completed == [] then 0
    else
      (if completed[0] in data && data[completed[0]].user == Some(user) then 1 else 0)
      + CountUser(data, completed[1..], user)
  }

  /** Both lists are without repeats, and a connection is in the completed one if and only if it has a name. */
  ghost predicate ListsRight(c: Connections) {
    && NoRepeats(c.completed) && NoRepeats(c.incomplete)
    && (forall conn :: conn in c.completed <==> conn in c.data && c.data[conn].name.Some?)
    && (forall conn :: conn in c.incomplete <==> conn in c.data && c.data[conn].name.None?)
  }

  /** A user's count is the number of its completed connections, and of those that failed for lack of log info. */
  ghost predicate CountsRight(c: Connections, lost: multiset<UserId>) {
    forall user: UserId :: CountRight(c, lost, user)
  }

  predicate CountRight(c: Connections, lost: multiset<UserId>, user: UserId) {
    CountOf(c.byUser, user) == CountUser(c.data, c.completed, user) + lost[user]
    && (user in c.byUser ==> c.byUser[user] > 0)
  }

  /** Oldest first, and none from the future. */
  ghost predicate Aged(c: Connections, clock: Time) {
    && (forall conn :: conn in c.data ==> c.data[conn].connectedAt <= clock)
    && forall i, j :: 0 <= i < j < |c.incomplete| && c.incomplete[i] in c.data && c.incomplete[j] in c.data ==>
         c.data[c.incomplete[i]].connectedAt <= c.data[c.incomplete[j]].connectedAt
  }

  predicate LengthsRight(c: Connections) {
    c.nCompleted == |c.completed| && c.nIncomplete == |c.incomplete|
  }

  ghost predicate LimitsKept(c: Connections, limits: Limits) {
    c.nCompleted <= limits.maxCompleted && forall user: UserId :: CountOf(c.byUser, user) <= limits.maxPerUser
  }

  ghost predicate Inv(c: Connections, lost: multiset<UserId>, clock: Time, limits: Limits) {
    c.ok && LengthsRight(c) && ListsRight(c) && CountsRight(c, lost) && Aged(c, clock) && LimitsKept(c, limits)
  }

  // ---------------------------------------------------------------------------------------------
  // Expiry

  /** What a scan of the whole list does: every connection past the timeout is closed. */
  function FullScan(c: Connections, todo: seq<ConnId>, now: Time, timeout: nat): map<ConnId, ConnData> {
    map conn | conn in c.data ::
      if conn in todo && PastTimeout(c.data[conn], now, timeout) then c.data[conn].(closed := true) else c.data[conn]
  }

  predicate Survives(c: Connections, todo: seq<ConnId>, i: nat, now: Time, timeout: nat) {
    i < |todo| && todo[i] in c.data && !PastTimeout(c.data[todo[i]], now, timeout)
  }

  /** The time that is left for a connection, in milliseconds. */
  function TimeLeft(d: ConnData, now: Time, timeout: nat): int {
    (1000 * timeout - (now - d.connectedAt)) / 1000
  }

  /** The timer is for the connection with the least time left, if any is left. */
  ghost predicate TimerRight(c: Connections, todo: seq<ConnId>, timer: Option<int>, now: Time, timeout: nat) {
    match timer
    case None => forall i: nat :: !Survives(c, todo, i, now, timeout)
    case Some(interval) =>
      && (exists i: nat :: Survives(c, todo, i, now, timeout) && interval == TimeLeft(c.data[todo[i]], now, timeout))
      && forall i: nat :: Survives(c, todo, i, now, timeout) ==> interval <= TimeLeft(c.data[todo[i]], now, timeout)
  }

  ghost predicate OldestFirst(data: map<ConnId, ConnData>, todo: seq<ConnId>) {
    && (forall conn :: conn in todo ==> conn in data)
    && forall i, j :: 0 <= i < j < |todo| ==> data[todo[i]].connectedAt <= data[todo[j]].connectedAt
  }

  lemma ScanAfterClose(c: Connections, todo: seq<ConnId>, now: Time, timeout: nat)
    requires todo != [] && todo[0] in c.data && todo[0] !in todo[1..] && PastTimeout(c.data[todo[0]], now, timeout)
    ensures FullScan(Close(c, todo[0]), todo[1..], now, timeout) == FullScan(c, todo, now, timeout)
  {
    var next := Close(c, todo[0]);
    forall x | x in c.data ensures FullScan(next, todo[1..], now, timeout)[x] == FullScan(c, todo, now, timeout)[x] {
      assert x in todo <==> x == todo[0] || x in todo[1..];
    }
  }

  /** If the oldest may stay, all may. */
  lemma StopHere(c: Connections, todo: seq<ConnId>, now: Time, timeout: nat)
    requires todo != [] && OldestFirst(c.data, todo) && todo[0] in c.data && !PastTimeout(c.data[todo[0]], now, timeout)
    ensures FullScan(c, todo, now, timeout) == c.data
    ensures TimerRight(c, todo, Some(TimeLeft(c.data[todo[0]], now, timeout)), now, timeout)
  {
    forall x | x in todo ensures x in c.data && !PastTimeout(c.data[x], now, timeout) {
      var i :| 0 <= i < |todo| && todo[i] == x;
    }
    assert Survives(c, todo, 0, now, timeout);
    forall i: nat | Survives(c, todo, i, now, timeout)
      ensures TimeLeft(c.data[todo[0]], now, timeout) <= TimeLeft(c.data[todo[i]], now, timeout)
    {
      assert c.data[todo[0]].connectedAt <= c.data[todo[i]].connectedAt;
    }
  }

  /**
   Stopping early makes no difference: the same connections are closed as if all were looked at, and no other thing.
   */
  lemma {:induction false} ExpireScansAll(c: Connections, todo: seq<ConnId>, now: Time, timeout: nat)
    requires NoRepeats(todo) && OldestFirst(c.data, todo)
    ensures var c' := ExpireFrom(c, todo, now, timeout);
            c' == c.(data := FullScan(c, todo, now, timeout), timer := c'.timer)
            && TimerRight(c, todo, c'.timer, now, timeout)
    decreases |todo|
  {
    if todo == [] {
      assert FullScan(c, todo, now, timeout) == c.data;
    } else {
      var (conn, rest) := (todo[0], todo[1..]);
      assert conn in todo;
      if PastTimeout(c.data[conn], now, timeout) {
        var next := Close(c, conn);
        RestOldestFirst(c, todo);
        ExpireScansAll(next, rest, now, timeout);
        ScanAfterClose(c, todo, now, timeout);
        TimerFromRest(c, next, todo, ExpireFrom(next, rest, now, timeout).timer, now, timeout);
      } else {
        StopHere(c, todo, now, timeout);
      }
    }
  }

  /** No connection that is due to be closed comes after one that may stay. */
  ghost predicate DueFirst(c: Connections, todo: seq<ConnId>, now: Time, timeout: nat) {
    forall i, j :: 0 <= i < j < |todo| && Due(c, todo[j], now, timeout) && todo[i] in c.data ==>
      PastTimeout(c.data[todo[i]], now, timeout)
  }

  predicate Due(c: Connections, conn: ConnId, now: Time, timeout: nat) {
    conn in c.data && PastTimeout(c.data[conn], now, timeout) && !c.data[conn].closed
  }

  lemma DueFirstAfterClose(c: Connections, todo: seq<ConnId>, now: Time, timeout: nat)
    requires todo != [] && NoRepeats(todo) && todo[0] in c.data && PastTimeout(c.data[todo[0]], now, timeout)
    ensures DueFirst(Close(c, todo[0]), todo[1..], now, timeout) <==> DueFirst(c, todo, now, timeout)
  {
    var (next, rest) := (Close(c, todo[0]), todo[1..]);
    forall i | 0 <= i < |rest|
      ensures rest[i] == todo[i + 1] && Due(next, rest[i], now, timeout) == Due(c, todo[i + 1], now, timeout)
      ensures rest[i] in c.data ==> next.data[rest[i]] == c.data[rest[i]]
    {
      assert todo[0] != todo[i + 1];
    }
    if DueFirst(next, rest, now, timeout) {
      forall i, j | 0 <= i < j < |todo| && Due(c, todo[j], now, timeout) && todo[i] in c.data
        ensures PastTimeout(c.data[todo[i]], now, timeout)
      {
        if i > 0 { assert todo[i] == rest[i - 1] && todo[j] == rest[j - 1]; }
      }
    }
  }

  /** Whatever the clock did: stopping early closes what a full scan closes if and only if those due come first. */
  lemma {:induction false} StopsEarlyRightly(c: Connections, todo: seq<ConnId>, now: Time, timeout: nat)
    requires NoRepeats(todo) && forall conn :: conn in todo ==> conn in c.data
    ensures ExpireFrom(c, todo, now, timeout).data == FullScan(c, todo, now, timeout)
            <==> DueFirst(c, todo, now, timeout)
    decreases |todo|
  {
    if todo == [] {
      assert FullScan(c, todo, now, timeout) == c.data;
    } else {
      assert todo[0] in todo;
      var rest := todo[1..];
      assert forall i :: 0 <= i < |rest| ==> rest[i] == todo[i + 1];
      assert todo[0] !in rest;
      if PastTimeout(c.data[todo[0]], now, timeout) {
        ScanAfterClose(c, todo, now, timeout);
        DueFirstAfterClose(c, todo, now, timeout);
        StopsEarlyRightly(Close(c, todo[0]), rest, now, timeout);
      } else {
        StopsAtOnce(c, todo, now, timeout);
      }
    }
  }

  lemma StopsAtOnce(c: Connections, todo: seq<ConnId>, now: Time, timeout: nat)
    requires todo != [] && (forall conn :: conn in todo ==> conn in c.data)
    requires todo[0] in c.data && !PastTimeout(c.data[todo[0]], now, timeout)
    ensures c.data == FullScan(c, todo, now, timeout) <==> DueFirst(c, todo, now, timeout)
  {
    var scanned := FullScan(c, todo, now, timeout);
    if c.data == scanned {
      forall conn | conn in todo ensures !Due(c, conn, now, timeout) {
        assert scanned[conn] == c.data[conn];
      }
    }
    if DueFirst(c, todo, now, timeout) {
      forall conn | conn in c.data ensures scanned[conn] == c.data[conn] {
        if conn in todo {
          var j :| 0 <= j < |todo| && todo[j] == conn;
          assert j > 0 ==> !Due(c, todo[j], now, timeout);
          assert PastTimeout(c.data[conn], now, timeout) ==> c.data[conn].(closed := true) == c.data[conn];
        }
      }
    }
  }

  lemma RestOldestFirst(c: Connections, todo: seq<ConnId>)
    requires todo != [] && NoRepeats(todo) && OldestFirst(c.data, todo) && todo[0] in c.data
    ensures var next := Close(c, todo[0]);
            && NoRepeats(todo[1..]) && OldestFirst(next.data, todo[1..]) && todo[0] !in todo[1..]
            && forall x :: x in todo[1..] ==> x in c.data && x in next.data && next.data[x] == c.data[x]
  {
    var rest := todo[1..];
    assert forall i :: 0 <= i < |rest| ==> rest[i] == todo[i + 1];
    assert todo[0] !in rest;
    forall x | x in rest ensures x in c.data { assert x in todo; }
  }

  lemma TimerFromRest(c: Connections, next: Connections, todo: seq<ConnId>, timer: Option<int>, now: Time, timeout: nat)
    requires todo != [] && todo[0] in c.data && PastTimeout(c.data[todo[0]], now, timeout)
    requires forall x :: x in todo[1..] ==> x in c.data && x in next.data && next.data[x] == c.data[x]
    requires TimerRight(next, todo[1..], timer, now, timeout)
    ensures TimerRight(c, todo, timer, now, timeout)
  {
    var rest := todo[1..];
    forall i: nat ensures Survives(c, todo, i + 1, now, timeout) <==> Survives(next, rest, i, now, timeout) {
      if i < |rest| { assert rest[i] == todo[i + 1] && rest[i] in rest; }
    }
    assert !Survives(c, todo, 0, now, timeout);
    forall i: nat | Survives(c, todo, i, now, timeout)
      ensures i > 0 && Survives(next, rest, i - 1, now, timeout) && next.data[rest[i - 1]] == c.data[todo[i]]
    {
      assert Survives(c, todo, i - 1 + 1, now, timeout);
      assert rest[i - 1] in rest;
    }
    if timer.Some? {
      var i: nat :| Survives(next, rest, i, now, timeout) && timer.value == TimeLeft(next.data[rest[i]], now, timeout);
      assert rest[i] in rest;
      assert Survives(c, todo, i + 1, now, timeout);
    }
  }

  // ---------------------------------------------------------------------------------------------
  // Closing and timers change nothing that counts

  ghost predicate SameButClosed(c: Connections, c': Connections) {
    && c' == c.(data := c'.data, timer := c'.timer) && c'.data.Keys == c.data.Keys
    && forall conn :: conn in c.data ==> c'.data[conn].(closed := false) == c.data[conn].(closed := false)
  }

  lemma {:induction false} CountUserSame(data: map<ConnId, ConnData>, data': map<ConnId, ConnData>, list: seq<ConnId>,
                                         user: UserId)
    requires forall conn :: conn in list ==> conn in data && conn in data' && data'[conn].user == data[conn].user
    ensures CountUser(data', list, user) == CountUser(data, list, user)
  {
    if list != [] {
      assert list[0] in list;
      CountUserSame(data, data', list[1..], user);
    }
  }

  lemma SameButClosedKeeps(c: Connections, c': Connections, lost: multiset<UserId>, clock: Time, limits: Limits)
    requires Inv(c, lost, clock, limits) && SameButClosed(c, c')
    ensures Inv(c', lost, clock, limits)
  {
    forall conn | conn in c.data
      ensures c'.data[conn].name == c.data[conn].name && c'.data[conn].user == c.data[conn].user
      ensures c'.data[conn].connectedAt == c.data[conn].connectedAt
    {
      assert c'.data[conn].(closed := false) == c.data[conn].(closed := false);
    }
    forall user: UserId ensures CountRight(c', lost, user) {
      assert CountRight(c, lost, user);
      CountUserSame(c.data, c'.data, c.completed, user);
    }
  }

  lemma CloseKeeps(c: Connections, conn: ConnId, lost: multiset<UserId>, clock: Time, limits: Limits)
    requires Inv(c, lost, clock, limits) && conn in c.data
    ensures Inv(Close(c, conn), lost, clock, limits)
  {
    SameButClosedKeeps(c, Close(c, conn), lost, clock, limits);
  }

  lemma IncompleteOldestFirst(c: Connections, clock: Time)
    requires ListsRight(c) && Aged(c, clock)
    ensures NoRepeats(c.incomplete) && OldestFirst(c.data, c.incomplete)
  {
    forall i | 0 <= i < |c.incomplete| ensures c.incomplete[i] in c.data { assert c.incomplete[i] in c.incomplete; }
  }

  /**
   In every state a run reaches, expiry closes exactly the connections past the timeout, and sets the timer for the
   rest.
   */
  lemma ExpireKeeps(c: Connections, lost: multiset<UserId>, clock: Time, now: Time, limits: Limits)
    requires Inv(c, lost, clock, limits)
    ensures var c' := Expire(c, now, limits.timeout);
            && Inv(c', lost, clock, limits)
            && c' == c.(data := FullScan(c, c.incomplete, now, limits.timeout), timer := c'.timer)
            && TimerRight(c, c.incomplete, c'.timer, now, limits.timeout)
  {
    IncompleteOldestFirst(c, clock);
    ExpireScansAll(c, c.incomplete, now, limits.timeout);
    SameButClosedKeeps(c, Expire(c, now, limits.timeout), lost, clock, limits);
  }

  // ---------------------------------------------------------------------------------------------
  // Coming

  lemma ListedKeeps(c: Connections, conn: ConnId, user: Option<UserId>, lost: multiset<UserId>, clock: Time, now: Time,
                    limits: Limits)
    requires Inv(c, lost, clock, limits) && conn !in c.data && clock <= now
    ensures var listed := c.(data := c.data[conn := ConnData(None, user, now, false)],
                             incomplete := c.incomplete + [conn], nIncomplete := c.nIncomplete + 1);
            Inv(listed, lost, now, limits)
  {
    var listed := c.(data := c.data[conn := ConnData(None, user, now, false)], incomplete := c.incomplete + [conn],
                     nIncomplete := c.nIncomplete + 1);
    assert conn !in c.incomplete && conn !in c.completed;
    forall u: UserId ensures CountRight(listed, lost, u) {
      assert CountRight(c, lost, u);
      CountUserSame(c.data, listed.data, c.completed, u);
    }
    forall i, j | 0 <= i < j < |listed.incomplete|
      ensures listed.data[listed.incomplete[i]].connectedAt <= listed.data[listed.incomplete[j]].connectedAt
    {
      assert c.incomplete[i] in c.incomplete;
      if j < |c.incomplete| { assert c.incomplete[j] in c.incomplete; }
    }
  }

  lemma SetUpKeeps(c: Connections, conn: ConnId, user: Option<UserId>, now: Time, later: Time, fails: bool,
                   lost: multiset<UserId>, clock: Time, limits: Limits)
    requires Inv(c, lost, clock, limits) && conn !in c.data && clock <= now <= later
    ensures Inv(SetUp(c, conn, user, now, later, fails, limits).0, lost, later, limits)
  {
    Later(c, lost, clock, later, limits);
    if !fails {
      ListedKeeps(c, conn, user, lost, clock, now, limits);
      var listed := c.(data := c.data[conn := ConnData(None, user, now, false)], incomplete := c.incomplete + [conn],
                       nIncomplete := c.nIncomplete + 1);
      Later(listed, lost, now, later, limits);
      ExpireKeeps(listed, lost, later, later, limits);
      var expired := Expire(listed, later, limits.timeout);
      assert expired.incomplete[0] in expired.incomplete;
      CloseKeeps(expired, expired.incomplete[0], lost, later, limits);
    }
  }

  lemma Later(c: Connections, lost: multiset<UserId>, clock: Time, later: Time, limits: Limits)
    requires Inv(c, lost, clock, limits) && clock <= later
    ensures Inv(c, lost, later, limits)
  {
  }

  // ---------------------------------------------------------------------------------------------
  // Saying hello

  lemma {:induction false} CountUserAppend(data: map<ConnId, ConnData>, list: seq<ConnId>, conn: ConnId, user: UserId)
    ensures CountUser(data, list + [conn], user)
         == CountUser(data, list, user) + if conn in data && data[conn].user == Some(user) then 1 else 0
  {
    if list != [] {
      assert (list + [conn])[1..] == list[1..] + [conn];
      CountUserAppend(data, list[1..], conn, user);
    }
  }

  /** The number of users' entries after a hello that got as far as counting. */
  lemma CountedKeeps(c: Connections, user: UserId, lost: multiset<UserId>, clock: Time, memory: bool, limits: Limits)
    requires Inv(c, lost, clock, limits) && CountOf(c.byUser, user) < limits.maxPerUser
    ensures var (counted, ok) := Adjust(c, user, 1, memory);
            if ok then Inv(counted, lost + multiset{user}, clock, limits) && counted == c.(byUser := counted.byUser)
            else counted == c
  {
    assert CountRight(c, lost, user);
    var (counted, ok) := Adjust(c, user, 1, memory);
    if ok {
      forall u: UserId
        ensures CountRight(counted, lost + multiset{user}, u) && CountOf(counted.byUser, u) <= limits.maxPerUser
      {
        assert CountRight(c, lost, u);
      }
    }
  }

  lemma MovedLists(c: Connections, conn: ConnId, name: string, clock: Time)
    requires ListsRight(c) && LengthsRight(c) && Aged(c, clock) && conn in c.data && c.data[conn].name.None?
    ensures var moved := Move(c, conn, name);
            ListsRight(moved) && LengthsRight(moved) && Aged(moved, clock) && moved.nIncomplete >= 0
            && moved.nCompleted > 0
  {
    assert conn in c.incomplete && conn !in c.completed;
    RemoveFirstNoRepeats(c.incomplete, conn);
    RemovedAged(c, Move(c, conn, name).data, conn, clock);
  }

  /** Moving a connection that is counted already to the completed ones. */
  lemma MovedKeeps(c: Connections, conn: ConnId, name: string, lost: multiset<UserId>, clock: Time, limits: Limits)
    requires Inv(c, lost + UserOf(c, conn), clock, limits)
    requires conn in c.data && c.data[conn].name.None? && c.nCompleted < limits.maxCompleted
    ensures var moved := Move(c, conn, name);
            Inv(moved, lost, clock, limits) && moved.nIncomplete >= 0 && moved.nCompleted > 0
  {
    var moved := Move(c, conn, name);
    MovedLists(c, conn, name, clock);
    assert conn !in c.completed;
    forall u: UserId ensures CountRight(moved, lost, u) {
      assert CountRight(c, lost + UserOf(c, conn), u);
      CountUserAppend(moved.data, c.completed, conn, u);
      CountUserSame(c.data, moved.data, c.completed, u);
    }
  }

  function UserOf(c: Connections, conn: ConnId): multiset<UserId> {
    if conn in c.data && c.data[conn].user.Some? then multiset{c.data[conn].user.value} else multiset{}
  }

  lemma {:induction false} RemoveFirstUnlinks<T>(s: seq<T>, x: T) returns (k: nat)
    requires x in s
    ensures k < |s| && s[k] == x && RemoveFirst(s, x) == Unlink(s, k)
  {
    if s[0] == x {
      k := 0;
      assert Unlink(s, 0) == s[1..];
    } else {
      k := RemoveFirstUnlinks(s[1..], x);
      k := k + 1;
      assert [s[0]] + Unlink(s[1..], k - 1) == Unlink(s, k);
    }
  }

  lemma RemoveFirstLength<T>(s: seq<T>, x: T)
    requires x in s
    ensures |RemoveFirst(s, x)| == |s| - 1
  {
    var k := RemoveFirstUnlinks(s, x);
  }

  lemma RemoveFirstOrdered(s: seq<ConnId>, x: ConnId, data: map<ConnId, ConnData>)
    requires OldestFirst(data, s) && x in s
    ensures OldestFirst(data, RemoveFirst(s, x))
    ensures forall y :: y in RemoveFirst(s, x) ==> y in s
  {
    var k := RemoveFirstUnlinks(s, x);
    var r := RemoveFirst(s, x);
    forall i | 0 <= i < |r| ensures r[i] == (if i < k then s[i] else s[i + 1]) && r[i] in s {}
    forall i, j | 0 <= i < j < |r| ensures data[r[i]].connectedAt <= data[r[j]].connectedAt {
      var (i', j') := (if i < k then i else i + 1, if j < k then j else j + 1);
      assert data[s[i']].connectedAt <= data[s[j']].connectedAt;
    }
  }

  /** Taking one out leaves the others in order. */
  lemma RemovedAged(c: Connections, data: map<ConnId, ConnData>, conn: ConnId, clock: Time)
    requires ListsRight(c) && Aged(c, clock) && conn in c.incomplete
    requires forall x :: x in c.data && x != conn ==> x in data && data[x] == c.data[x]
    ensures var left := RemoveFirst(c.incomplete, conn);
            && |left| == |c.incomplete| - 1
            && forall i, j :: 0 <= i < j < |left| ==>
                 left[i] in data && left[j] in data && data[left[i]].connectedAt <= data[left[j]].connectedAt
  {
    IncompleteOldestFirst(c, clock);
    RemoveFirstOrdered(c.incomplete, conn, c.data);
    RemoveFirstLength(c.incomplete, conn);
    RemoveFirstNoRepeats(c.incomplete, conn);
    var left := RemoveFirst(c.incomplete, conn);
    forall i, j | 0 <= i < j < |left|
      ensures left[i] in data && left[j] in data && data[left[i]].connectedAt <= data[left[j]].connectedAt
    {
      assert left[i] in left && left[j] in left;
    }
  }

  /** Only a failure for lack of log info is counted without a connection to show for it. */
  function LostBy(c: Connections, e: Event, limits: Limits): multiset<UserId> {
    match e
    case SayHello(conn, name, NoLogInfo, _) =>
      if conn in c.data && c.data[conn].name.None? && WithinLimits(c, conn, limits) then UserOf(c, conn) else multiset{}
    case _ => multiset{}
  }

  lemma CompletedKeeps(c: Connections, conn: ConnId, name: string, lost: multiset<UserId>, now: Time, limits: Limits)
    requires Inv(c, lost + UserOf(c, conn), now, limits)
    requires conn in c.data && c.data[conn].name.None? && c.nCompleted < limits.maxCompleted
    ensures var moved := Move(c, conn, name);
            Inv(Expire(moved.(ok := moved.ok && moved.nIncomplete >= 0 && moved.nCompleted > 0), now, limits.timeout),
                lost, now, limits)
  {
    MovedKeeps(c, conn, name, lost, now, limits);
    ExpireKeeps(Move(c, conn, name), lost, now, now, limits);
  }

  lemma CompleteKeeps(c: Connections, conn: ConnId, name: string, fault: Fault, lost: multiset<UserId>, now: Time,
                      limits: Limits)
    requires Inv(c, lost, now, limits) && conn in c.data && c.data[conn].name.None? && WithinLimits(c, conn, limits)
    ensures Inv(Complete(c, conn, name, fault, now, limits).0,
                lost + if fault == NoLogInfo then UserOf(c, conn) else multiset{}, now, limits)
  {
    assert lost + multiset{} == lost;
    var user := c.data[conn].user;
    if fault !in {NoName, NoPolicy} {
      if user.Some? { CountedKeeps(c, user.value, lost, now, fault != NoCount, limits); }
      var (counted, ok) := if user.Some? then Adjust(c, user.value, 1, fault != NoCount) else (c, true);
      if ok && fault != NoLogInfo {
        assert UserOf(counted, conn) == UserOf(c, conn);
        CompletedKeeps(counted, conn, name, lost, now, limits);
      }
    }
  }

  lemma HelloKeeps(c: Connections, conn: ConnId, name: string, fault: Fault, now: Time, lost: multiset<UserId>,
                   clock: Time, limits: Limits)
    requires Inv(c, lost, clock, limits) && conn in c.data && clock <= now
    ensures Inv(Hello(c, conn, name, fault, now, limits).0,
                lost + LostBy(c, SayHello(conn, name, fault, now), limits), now, limits)
  {
    Later(c, lost, clock, now, limits);
    assert lost + multiset{} == lost;
    if c.data[conn].name.None? && WithinLimits(c, conn, limits) {
      CompleteKeeps(c, conn, name, fault, lost, now, limits);
    }
  }

  // ---------------------------------------------------------------------------------------------
  // Going

  lemma {:induction false} CountUserRemove(data: map<ConnId, ConnData>, list: seq<ConnId>, conn: ConnId, user: UserId)
    requires conn in list
    ensures CountUser(data, RemoveFirst(list, conn), user)
         == CountUser(data, list, user) - if conn in data && data[conn].user == Some(user) then 1 else 0
  {
    if list[0] != conn {
      CountUserRemove(data, list[1..], conn, user);
      assert RemoveFirst(list, conn)[1..] == RemoveFirst(list[1..], conn);
    }
  }

  /** Taking a completed connection out, but for the count. */
  lemma CompletedGone(c: Connections, conn: ConnId, lost: multiset<UserId>, clock: Time, limits: Limits)
    requires Inv(c, lost, clock, limits) && conn in c.completed
    ensures var removed := c.(data := c.data - {conn}, completed := RemoveFirst(c.completed, conn),
                              nCompleted := c.nCompleted - 1);
            Inv(removed, lost + UserOf(c, conn), clock, limits) && removed.nCompleted >= 0
  {
    var removed := c.(data := c.data - {conn}, completed := RemoveFirst(c.completed, conn),
                      nCompleted := c.nCompleted - 1);
    RemoveFirstNoRepeats(c.completed, conn);
    RemoveFirstLength(c.completed, conn);
    assert conn !in c.incomplete;
    forall u: UserId ensures CountRight(removed, lost + UserOf(c, conn), u) {
      assert CountRight(c, lost, u);
      CountUserRemove(c.data, c.completed, conn, u);
      CountUserSame(c.data, removed.data, removed.completed, u);
    }
  }

  lemma UncountedKeeps(c: Connections, user: UserId, lost: multiset<UserId>, clock: Time, limits: Limits)
    requires Inv(c, lost + multiset{user}, clock, limits)
    ensures var (adjusted, ok) := Adjust(c, user, -1, true);
            ok && Inv(adjusted, lost, clock, limits) && adjusted == c.(byUser := adjusted.byUser)
  {
    assert CountRight(c, lost + multiset{user}, user);
    var (adjusted, ok) := Adjust(c, user, -1, true);
    forall u: UserId ensures CountRight(adjusted, lost, u) && CountOf(adjusted.byUser, u) <= limits.maxPerUser {
      assert CountRight(c, lost + multiset{user}, u);
    }
  }

  lemma DisconnectKeeps(c: Connections, conn: ConnId, lost: multiset<UserId>, clock: Time, limits: Limits)
    requires Inv(c, lost, clock, limits) && conn in c.data
    ensures Inv(Disconnect(c, conn), lost, clock, limits) && conn !in Disconnect(c, conn).data
  {
    var d := c.data[conn];
    if d.name.Some? {
      CompletedGone(c, conn, lost, clock, limits);
      var removed := c.(data := c.data - {conn}, completed := RemoveFirst(c.completed, conn),
                        nCompleted := c.nCompleted - 1);
      if d.user.Some? {
        UncountedKeeps(removed, d.user.value, lost, clock, limits);
      } else {
        assert lost + UserOf(c, conn) == lost;
      }
    } else {
      IncompleteGone(c, conn, lost, clock, limits);
    }
  }

  lemma IncompleteGone(c: Connections, conn: ConnId, lost: multiset<UserId>, clock: Time, limits: Limits)
    requires Inv(c, lost, clock, limits) && conn in c.incomplete
    ensures var left := c.(data := c.data - {conn}, incomplete := RemoveFirst(c.incomplete, conn),
                           nIncomplete := c.nIncomplete - 1);
            Inv(left, lost, clock, limits) && left.nIncomplete >= 0
  {
    var left := c.(data := c.data - {conn}, incomplete := RemoveFirst(c.incomplete, conn),
                   nIncomplete := c.nIncomplete - 1);
    RemoveFirstNoRepeats(c.incomplete, conn);
    RemovedAged(c, left.data, conn, clock);
    assert conn !in c.completed;
    forall u: UserId ensures CountRight(left, lost, u) {
      assert CountRight(c, lost, u);
      CountUserSame(c.data, left.data, c.completed, u);
    }
  }

  // ---------------------------------------------------------------------------------------------
  // Every run

  /** A clock that does not go back, and connections that are there or not as their events say. */
  ghost predicate Happens(c: Connections, e: Event, clock: Time) {
    match e
    case Connect(conn, _, now, later, _) => conn !in c.data && clock <= now <= later
    case SayHello(conn, _, _, now) => conn in c.data && clock <= now
    case Gone(conn) => conn in c.data
    case Tick(now) => clock <= now
  }

  function ClockAfter(e: Event, clock: Time): Time {
    match e
    case Connect(_, _, _, later, _) => later
    case SayHello(_, _, _, now) => now
    case Gone(_) => clock
    case Tick(now) => now
  }

  lemma StepKeeps(c: Connections, e: Event, lost: multiset<UserId>, clock: Time, limits: Limits)
    requires Inv(c, lost, clock, limits) && Happens(c, e, clock)
    ensures Inv(Step(c, e, limits), lost + LostBy(c, e, limits), ClockAfter(e, clock), limits)
  {
    assert lost + multiset{} == lost;
    match e
    case Connect(conn, user, now, later, fails) => SetUpKeeps(c, conn, user, now, later, fails, lost, clock, limits);
    case SayHello(conn, name, fault, now) => HelloKeeps(c, conn, name, fault, now, lost, clock, limits);
    case Gone(conn) => DisconnectKeeps(c, conn, lost, clock, limits);
    case Tick(now) =>
      Later(c, lost, clock, now, limits);
      ExpireKeeps(c, lost, now, now, limits);
  }

  ghost predicate AllHappen(c: Connections, events: seq<Event>, clock: Time, limits: Limits)
    decreases |events|
  {
    events != [] ==>
      Happens(c, events[0], clock)
      && AllHappen(Step(c, events[0], limits), events[1..], ClockAfter(events[0], clock), limits)
  }

  function Run(c: Connections, events: seq<Event>, limits: Limits): Connections
    decreases |events|
  {
    if events == [] then c else Run(Step(c, events[0], limits), events[1..], limits)
  }

  /** The hellos of a run that failed for lack of log info, by user. */
  function LostIn(c: Connections, events: seq<Event>, limits: Limits): multiset<UserId>
    decreases |events|
  {
    if events == [] then multiset{}
    else LostBy(c, events[0], limits) + LostIn(Step(c, events[0], limits), events[1..], limits)
  }

  lemma {:induction false} RunKeeps(c: Connections, events: seq<Event>, lost: multiset<UserId>, clock: Time,
                                    limits: Limits)
    returns (end: Time)
    requires Inv(c, lost, clock, limits) && AllHappen(c, events, clock, limits)
    ensures Inv(Run(c, events, limits), lost + LostIn(c, events, limits), end, limits)
    decreases |events|
  {
    if events == [] {
      end := clock;
      assert lost + multiset{} == lost;
    } else {
      var next := Step(c, events[0], limits);
      StepKeeps(c, events[0], lost, clock, limits);
      end := RunKeeps(next, events[1..], lost + LostBy(c, events[0], limits), ClockAfter(events[0], clock), limits);
      assert lost + LostBy(c, events[0], limits) + LostIn(next, events[1..], limits)
          == lost + LostIn(c, events, limits);
    }
  }

  /**
   Whatever connects, says hello, fails and disconnects when: no assertion fails; the counters are the lengths of two
   disjoint lists, the completed one holding exactly the connections with a name; the count of each user is the number
   of its completed connections plus that of its hellos that failed for lack of log info; no limit is exceeded; and when
   the list of incomplete connections is next expired, stopping early makes no difference.
   */
  lemma EveryRun(events: seq<Event>, limits: Limits, now: Time)
    requires limits.maxCompleted >= 0 && limits.maxPerUser >= 0 && AllHappen(NONE_CONNECTED, events, 0, limits)
    ensures var c := Run(NONE_CONNECTED, events, limits);
            && c.ok && c.nCompleted == |c.completed| <= limits.maxCompleted && c.nIncomplete == |c.incomplete|
            && NoRepeats(c.completed) && NoRepeats(c.incomplete)
            && (forall conn :: conn in c.completed <==> conn in c.data && c.data[conn].name.Some?)
            && (forall conn :: conn in c.incomplete <==> conn in c.data && c.data[conn].name.None?)
            && (forall user: UserId ::
                  CountOf(c.byUser, user) <= limits.maxPerUser
                  && CountOf(c.byUser, user)
                     == CountUser(c.data, c.completed, user) + LostIn(NONE_CONNECTED, events, limits)[user])
            && var c' := Expire(c, now, limits.timeout);
            && c' == c.(data := FullScan(c, c.incomplete, now, limits.timeout), timer := c'.timer)
            && TimerRight(c, c.incomplete, c'.timer, now, limits.timeout)
  {
    var end := RunKeeps(NONE_CONNECTED, events, multiset{}, 0, limits);
    var c := Run(NONE_CONNECTED, events, limits);
    var lost := multiset{} + LostIn(NONE_CONNECTED, events, limits);
    forall user: UserId
      ensures CountOf(c.byUser, user)
           == CountUser(c.data, c.completed, user) + LostIn(NONE_CONNECTED, events, limits)[user]
    {
      assert CountRight(c, lost, user);
    }
    ExpireKeeps(c, lost, end, now, limits);
  }
}
