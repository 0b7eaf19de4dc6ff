/** What one call does to the connections: which are closed when one comes, when a hello succeeds, what leaves. */
module ConnectionOutcomes {
  import opened BusTypes
  import opened Lists
  import opened ConnectionLists
  import opened ConnectionListsProofs

  // ---------------------------------------------------------------------------------------------
  // A connection comes

  /** Why a connection is closed when another has come: it was, it took too long, or it is the oldest of too many. */
  predicate ClosedBy(c: Connections, incomplete: seq<ConnId>, x: ConnId, connectedAt: Time, later: Time,
                     limits: Limits)
  {
    || (x in c.data && c.data[x].closed)
    || (x in incomplete && later - connectedAt >= 1000 * limits.timeout)
    || (|incomplete| > limits.maxIncomplete && incomplete != [] && x == incomplete[0])
  }

  /** The new one is the last that has not said hello, and otherwise only data and timer may differ. */
  predicate CameLast(c: Connections, c': Connections, conn: ConnId) {
    && c'.incomplete == c.incomplete + [conn] && c'.nIncomplete == c.nIncomplete + 1
    && c' == c.(data := c'.data, incomplete := c'.incomplete, nIncomplete := c'.nIncomplete, timer := c'.timer)
  }

  /** A connection is as it was, or new, and closed for one of these reasons or not at all. */
  predicate CameTo(c: Connections, c': Connections, conn: ConnId, came: ConnData, x: ConnId, later: Time,
                   limits: Limits)
  {
    x in c'.data ==>
      && (x == conn || x in c.data)
      && c'.data[x] == (if x == conn then came else c.data[x]).(closed := c'.data[x].closed)
      && (c'.data[x].closed <==> ClosedBy(c, c'.incomplete, x, c'.data[x].connectedAt, later, limits))
  }

  ghost predicate Came(c: Connections, c': Connections, conn: ConnId, user: Option<UserId>, now: Time, later: Time,
                       limits: Limits)
  {
    && CameLast(c, c', conn) && c'.data.Keys == c.data.Keys + {conn}
    && forall x :: CameTo(c, c', conn, ConnData(None, user, now, false), x, later, limits)
  }

  /** The list with the new connection, before any is closed. */
  function ListedLast(c: Connections, conn: ConnId, user: Option<UserId>, now: Time): Connections {
    c.(data := c.data[conn := ConnData(None, user, now, false)], incomplete := c.incomplete + [conn],
       nIncomplete := c.nIncomplete + 1)
  }

  function WithoutOldest(c: Connections, limits: Limits): Connections {
    if c.nIncomplete > limits.maxIncomplete then CloseOldest(c) else c
  }

  lemma OldestCloses(c: Connections, limits: Limits, x: ConnId)
    requires c.nIncomplete == |c.incomplete| > 0 && c.incomplete[0] in c.data && x in c.data
    ensures var c' := WithoutOldest(c, limits);
            && c' == c.(data := c'.data) && c'.data.Keys == c.data.Keys
            && c'.data[x] == c.data[x].(closed := c'.data[x].closed)
            && (c'.data[x].closed
                <==> c.data[x].closed || (|c.incomplete| > limits.maxIncomplete && x == c.incomplete[0]))
  {
  }

  lemma ScanCloses(c: Connections, later: Time, limits: Limits, x: ConnId)
    requires x in c.data
    ensures var data := FullScan(c, c.incomplete, later, limits.timeout);
            && x in data && data[x] == c.data[x].(closed := data[x].closed)
            && (data[x].closed
                <==> c.data[x].closed || (x in c.incomplete && later - c.data[x].connectedAt >= 1000 * limits.timeout))
  {
  }

  lemma CameCloses(c: Connections, conn: ConnId, user: Option<UserId>, now: Time, later: Time, limits: Limits,
                   expired: Connections, x: ConnId)
    requires var listed := ListedLast(c, conn, user, now);
             expired == listed.(data := FullScan(listed, listed.incomplete, later, limits.timeout),
                                timer := expired.timer)
    requires conn !in c.data && c.nIncomplete == |c.incomplete| && forall y :: y in c.incomplete ==> y in c.data
    ensures CameTo(c, WithoutOldest(expired, limits), conn, ConnData(None, user, now, false), x, later, limits)
  {
    var listed := ListedLast(c, conn, user, now);
    assert listed.incomplete[0] in listed.incomplete;
    if x in listed.data {
      ScanCloses(listed, later, limits, x);
      OldestCloses(expired, limits, x);
    }
  }

  /**
   Unless memory fails, which changes nothing, the connection is listed last; and afterwards exactly those are closed
   that were, that have been incomplete for the timeout, and the oldest incomplete one if there are more of them than
   the maximum.
   */
  lemma SetUpCloses(c: Connections, conn: ConnId, user: Option<UserId>, now: Time, later: Time, fails: bool,
                    lost: multiset<UserId>, clock: Time, limits: Limits)
    requires Inv(c, lost, clock, limits) && conn !in c.data && clock <= now <= later
    ensures var (c', ok) := SetUp(c, conn, user, now, later, fails, limits);
            && (ok <==> !fails)
            && if ok then Came(c, c', conn, user, now, later, limits) else c' == c
  {
    if !fails {
      var listed := ListedLast(c, conn, user, now);
      ListedKeeps(c, conn, user, lost, clock, now, limits);
      Later(listed, lost, now, later, limits);
      ExpireKeeps(listed, lost, later, later, limits);
      AllCame(c, conn, user, now, later, limits, Expire(listed, later, limits.timeout));
    }
  }

  lemma AllCame(c: Connections, conn: ConnId, user: Option<UserId>, now: Time, later: Time, limits: Limits,
                expired: Connections)
    requires var listed := ListedLast(c, conn, user, now);
             expired == listed.(data := FullScan(listed, listed.incomplete, later, limits.timeout),
                                timer := expired.timer)
    requires conn !in c.data && c.nIncomplete == |c.incomplete| && forall y :: y in c.incomplete ==> y in c.data
    ensures Came(c, WithoutOldest(expired, limits), conn, user, now, later, limits)
  {
    assert expired.incomplete[0] in expired.incomplete;
    OldestCloses(expired, limits, conn);
    forall x ensures CameTo(c, WithoutOldest(expired, limits), conn, ConnData(None, user, now, false), x, later, limits)
    {
      CameCloses(c, conn, user, now, later, limits, expired, x);
    }
  }

  // ---------------------------------------------------------------------------------------------
  // How many are open

  predicate IsOpen(data: map<ConnId, ConnData>, conn: ConnId) {
    conn in data && !data[conn].closed
  }

  function CountOpen(data: map<ConnId, ConnData>, list: seq<ConnId>): (n: nat)
    ensures n <= |list|
  {
    if list == [] then 0 else (if IsOpen(data, list[0]) then 1 else 0) + CountOpen(data, list[1..])
  }

  /** The connections that have not said hello, and that the bus has not closed. */
  function OpenIncomplete(c: Connections): nat {
    CountOpen(c.data, c.incomplete)
  }

  lemma {:induction false} CountOpenFewer(data: map<ConnId, ConnData>, data': map<ConnId, ConnData>, list: seq<ConnId>)
    requires forall x :: x in list && IsOpen(data', x) ==> IsOpen(data, x)
    ensures CountOpen(data', list) <= CountOpen(data, list)
  {
    if list != [] {
      assert list[0] in list;
      CountOpenFewer(data, data', list[1..]);
    }
  }

  lemma {:induction false} CountOpenAll(data: map<ConnId, ConnData>, list: seq<ConnId>)
    ensures CountOpen(data, list) == |list| <==> forall x :: x in list ==> IsOpen(data, x)
  {
    if list != [] {
      assert list == [list[0]] + list[1..];
      CountOpenAll(data, list[1..]);
    }
  }

  lemma {:induction false} CountOpenUnlinked(data: map<ConnId, ConnData>, list: seq<ConnId>, x: ConnId)
    ensures CountOpen(data, RemoveFirst(list, x)) <= CountOpen(data, list)
  {
    if list != [] && list[0] != x {
      CountOpenUnlinked(data, list[1..], x);
      assert RemoveFirst(list, x)[1..] == RemoveFirst(list[1..], x);
    }
  }

  /** The closed ones come first. */
  ghost predicate ClosedFirst(c: Connections) {
    forall i, j :: 0 <= i < j < |c.incomplete| && IsOpen(c.data, c.incomplete[i]) ==> IsOpen(c.data, c.incomplete[j])
  }

  lemma CameClosedFirst(c: Connections, c': Connections, conn: ConnId, user: Option<UserId>, now: Time, later: Time,
                        lost: multiset<UserId>, limits: Limits)
    requires ListsRight(c) && ClosedFirst(c) && conn !in c.data
    requires Came(c, c', conn, user, now, later, limits) && Inv(c', lost, later, limits)
    ensures ClosedFirst(c')
  {
    var list := c'.incomplete;
    forall i, j | 0 <= i < j < |list| && IsOpen(c'.data, list[i]) ensures IsOpen(c'.data, list[j]) {
      var came := ConnData(None, user, now, false);
      assert list[i] in list && list[j] in list && list[0] != list[j] && list[i] in c'.data && list[j] in c'.data;
      assert CameTo(c, c', conn, came, list[i], later, limits) && CameTo(c, c', conn, came, list[j], later, limits);
      assert c'.data[list[i]].connectedAt <= c'.data[list[j]].connectedAt;
      assert list[i] == c.incomplete[i] && list[i] in c.incomplete;
      if j < |c.incomplete| { assert list[j] == c.incomplete[j] && list[j] in c.incomplete; }
    }
  }

  /** One that is not closed, nor to be closed at that time for having taken too long. */
  predicate IsStaying(data: map<ConnId, ConnData>, conn: ConnId, later: Time, timeout: nat) {
    IsOpen(data, conn) && later - data[conn].connectedAt < 1000 * timeout
  }

  function CountStaying(data: map<ConnId, ConnData>, list: seq<ConnId>, later: Time, timeout: nat): (n: nat)
    ensures n <= CountOpen(data, list)
  {
    if list == [] then 0
    else (if IsStaying(data, list[0], later, timeout) then 1 else 0) + CountStaying(data, list[1..], later, timeout)
  }

  /** If the first one is not of the kind that stays, it is as if it were not listed. */
  lemma CountSplits(data: map<ConnId, ConnData>, list: seq<ConnId>, later: Time, timeout: nat)
    requires list != []
    ensures CountStaying(data, list, later, timeout)
         == (if IsStaying(data, list[0], later, timeout) then 1 else 0)
            + CountStaying(data, list[1..], later, timeout)
  {
  }

  lemma {:induction false} CountSame(data: map<ConnId, ConnData>, data': map<ConnId, ConnData>, list: seq<ConnId>,
                                     later: Time, timeout: nat)
    requires forall x :: x in list ==> (IsOpen(data', x) <==> IsStaying(data, x, later, timeout))
    ensures CountOpen(data', list) == CountStaying(data, list, later, timeout)
  {
    if list != [] {
      assert list[0] in list;
      CountSame(data, data', list[1..], later, timeout);
    }
  }

  /** Whether the oldest is closed by the time another has come, for its own sake. */
  predicate OldestIsGone(listed: Connections, later: Time, timeout: nat) {
    listed.incomplete != [] && !IsStaying(listed.data, listed.incomplete[0], later, timeout)
  }

  /** Who is open afterwards, among those that are listed. */
  lemma CameOpen(c: Connections, c': Connections, conn: ConnId, user: Option<UserId>, now: Time, later: Time,
                 limits: Limits, x: ConnId)
    requires Came(c, c', conn, user, now, later, limits) && ListsRight(c) && conn !in c.data && x in c'.incomplete
    ensures var listed := ListedLast(c, conn, user, now);
            IsOpen(c'.data, x)
            <==> IsStaying(listed.data, x, later, limits.timeout)
                 && !(|c'.incomplete| > limits.maxIncomplete && x == c'.incomplete[0])
  {
    assert CameTo(c, c', conn, ConnData(None, user, now, false), x, later, limits);
    if x != conn { assert x in c.incomplete; }
  }

  /** How many are open afterwards: those that stay, but for the oldest if there are too many. */
  lemma CameCount(c: Connections, c': Connections, conn: ConnId, user: Option<UserId>, now: Time, later: Time,
                  limits: Limits)
    requires Came(c, c', conn, user, now, later, limits) && ListsRight(c) && conn !in c.data
    ensures var listed := ListedLast(c, conn, user, now);
            OpenIncomplete(c')
            == CountStaying(listed.data, listed.incomplete, later, limits.timeout)
               - if |listed.incomplete| > limits.maxIncomplete && !OldestIsGone(listed, later, limits.timeout) then 1
                 else 0
  {
    var listed := ListedLast(c, conn, user, now);
    var (list, rest) := (c'.incomplete, c'.incomplete[1..]);
    forall x | x in list
      ensures IsOpen(c'.data, x)
              <==> IsStaying(listed.data, x, later, limits.timeout)
                   && !(|list| > limits.maxIncomplete && x == list[0])
    {
      CameOpen(c, c', conn, user, now, later, limits, x);
    }
    ListedDistinct(c, conn);
    assert list[0] in list && forall x :: x in rest ==> x in list && x != list[0];
    CountSame(listed.data, c'.data, rest, later, limits.timeout);
    CountSplits(listed.data, list, later, limits.timeout);
  }

  lemma ListedDistinct(c: Connections, conn: ConnId)
    requires NoRepeats(c.incomplete) && conn !in c.incomplete
    ensures var list := c.incomplete + [conn]; forall x :: x in list[1..] ==> x in list && x != list[0]
  {
    var list := c.incomplete + [conn];
    forall x | x in list[1..] ensures x in list && x != list[0] {
      var i :| 0 <= i < |list[1..]| && list[1..][i] == x;
      assert list[i + 1] == x;
      if i + 1 < |c.incomplete| { assert c.incomplete[0] != c.incomplete[i + 1]; }
      else if c.incomplete != [] { assert c.incomplete[0] in c.incomplete; }
    }
  }

  /**
   When a connection has come, more than the maximum are open if and only if more than that stay and the oldest is gone:
   then that one is closed again, and not the oldest of those that are open.
   */
  lemma TooManyIff(c: Connections, conn: ConnId, user: Option<UserId>, now: Time, later: Time, lost: multiset<UserId>,
                   clock: Time, limits: Limits)
    requires Inv(c, lost, clock, limits) && conn !in c.data && clock <= now <= later
    requires ClosedFirst(c) && OpenIncomplete(c) <= limits.maxIncomplete
    ensures var c' := SetUp(c, conn, user, now, later, false, limits).0;
            var listed := ListedLast(c, conn, user, now);
            && ClosedFirst(c')
            && (OpenIncomplete(c') > limits.maxIncomplete
                <==> CountStaying(listed.data, listed.incomplete, later, limits.timeout) > limits.maxIncomplete
                     && OldestIsGone(listed, later, limits.timeout))
  {
    var c' := SetUp(c, conn, user, now, later, false, limits).0;
    var listed := ListedLast(c, conn, user, now);
    SetUpCloses(c, conn, user, now, later, false, lost, clock, limits);
    SetUpKeeps(c, conn, user, now, later, false, lost, clock, limits);
    CameClosedFirst(c, c', conn, user, now, later, lost, limits);
    CameCount(c, c', conn, user, now, later, limits);
    if !OldestIsGone(listed, later, limits.timeout) { FirstStaysAllOpen(c, conn, user, now, later, limits.timeout); }
  }

  /** If the oldest stays, nobody was closed. */
  lemma FirstStaysAllOpen(c: Connections, conn: ConnId, user: Option<UserId>, now: Time, later: Time, timeout: nat)
    requires ListsRight(c) && ClosedFirst(c) && conn !in c.data
    requires !OldestIsGone(ListedLast(c, conn, user, now), later, timeout)
    ensures OpenIncomplete(c) == |c.incomplete|
  {
    CountOpenAll(c.data, c.incomplete);
    forall x | x in c.incomplete ensures IsOpen(c.data, x) {
      var j :| 0 <= j < |c.incomplete| && c.incomplete[j] == x;
      assert c.incomplete[0] in c.incomplete && IsOpen(c.data, c.incomplete[0]);
    }
  }

  // ---------------------------------------------------------------------------------------------
  // Hello

  /** A hello succeeds for a connection without a name, below both limits, if nothing fails that it needs. */
  predicate HelloAllowed(c: Connections, conn: ConnId, fault: Fault, limits: Limits) {
    && conn in c.data && c.data[conn].name.None? && c.nCompleted < limits.maxCompleted
    && fault !in {NoName, NoPolicy, NoLogInfo}
    && match c.data[conn].user
       case None => true
       case Some(user) =>
         if user in c.byUser then c.byUser[user] < limits.maxPerUser else 0 < limits.maxPerUser && fault != NoCount
  }

  /** What a hello makes of one connection: its own gets the name; others may have taken too long. */
  predicate HelloTo(c: Connections, c': Connections, conn: ConnId, name: string, now: Time, timeout: nat, x: ConnId) {
    x in c.data ==>
      && x in c'.data
      && c'.data[x] == (if x == conn then c.data[x].(name := Some(name)) else c.data[x]).(closed := c'.data[x].closed)
      && (c'.data[x].closed
          <==> c.data[x].closed || (x in c'.incomplete && now - c.data[x].connectedAt >= 1000 * timeout))
  }

  ghost predicate HelloDone(c: Connections, c': Connections, conn: ConnId, name: string, now: Time, timeout: nat) {
    && c'.completed == c.completed + [conn] && c'.incomplete == RemoveFirst(c.incomplete, conn)
    && c'.data.Keys == c.data.Keys && forall x :: HelloTo(c, c', conn, name, now, timeout, x)
  }

  lemma MoveThenExpire(c: Connections, moved: Connections, c': Connections, conn: ConnId, name: string, now: Time,
                       timeout: nat)
    requires conn in c.data && moved.data == c.data[conn := c.data[conn].(name := Some(name))]
    requires moved.incomplete == RemoveFirst(c.incomplete, conn) && moved.completed == c.completed + [conn]
    requires c' == moved.(data := FullScan(moved, moved.incomplete, now, timeout), timer := c'.timer)
    ensures HelloDone(c, c', conn, name, now, timeout)
  {
    forall x ensures HelloTo(c, c', conn, name, now, timeout, x) {}
  }

  lemma CountsOne(c: Connections, user: UserId, memory: bool, lost: multiset<UserId>, clock: Time, limits: Limits)
    requires Inv(c, lost, clock, limits)
    ensures var (counted, ok) := Adjust(c, user, 1, memory);
            && (ok <==> user in c.byUser || memory)
            && counted == c.(byUser := counted.byUser)
            && forall u: UserId :: CountOf(counted.byUser, u) == CountOf(c.byUser, u) + if ok && u == user then 1 else 0
  {
    assert CountRight(c, lost, user);
  }

  /** The count comes first. */
  function Counted(c: Connections, conn: ConnId, fault: Fault): (Connections, bool)
    requires conn in c.data
  {
    var user := c.data[conn].user; if user.Some? then Adjust(c, user.value, 1, fault != NoCount) else (c, true)
  }

  lemma CountedDecides(c: Connections, conn: ConnId, fault: Fault, lost: multiset<UserId>, now: Time, limits: Limits)
    requires Inv(c, lost, now, limits) && conn in c.data && WithinLimits(c, conn, limits)
    ensures var (counted, ok) := Counted(c, conn, fault);
            && counted == c.(byUser := counted.byUser) && (!ok ==> counted == c)
            && (ok <==> c.data[conn].user.None? || c.data[conn].user.value in c.byUser || fault != NoCount)
            && (ok ==> Inv(counted, lost + UserOf(c, conn), now, limits))
  {
    var user := c.data[conn].user;
    assert lost + multiset{} == lost;
    if user.Some? {
      CountsOne(c, user.value, fault != NoCount, lost, now, limits);
      CountedKeeps(c, user.value, lost, now, fault != NoCount, limits);
    }
  }

  lemma CompletedDone(c: Connections, counted: Connections, conn: ConnId, name: string, now: Time,
                      lost: multiset<UserId>, limits: Limits)
    requires conn in c.data && c.data[conn].name.None? && c.nCompleted < limits.maxCompleted
    requires counted == c.(byUser := counted.byUser) && Inv(counted, lost + UserOf(c, conn), now, limits)
    ensures var moved := Move(counted, conn, name);
            var c' := Expire(moved.(ok := moved.ok && moved.nIncomplete >= 0 && moved.nCompleted > 0), now,
                             limits.timeout);
            HelloDone(c, c', conn, name, now, limits.timeout)
  {
    var moved := Move(counted, conn, name);
    assert UserOf(counted, conn) == UserOf(c, conn);
    MovedKeeps(counted, conn, name, lost, now, limits);
    ExpireKeeps(moved, lost, now, now, limits);
    MoveThenExpire(c, moved, Expire(moved, now, limits.timeout), conn, name, now, limits.timeout);
  }

  lemma AllowedIfCounted(c: Connections, conn: ConnId, fault: Fault, limits: Limits)
    requires conn in c.data && c.data[conn].name.None? && WithinLimits(c, conn, limits)
    ensures HelloAllowed(c, conn, fault, limits)
            <==> fault !in {NoName, NoPolicy, NoLogInfo}
                 && (c.data[conn].user.None? || c.data[conn].user.value in c.byUser || fault != NoCount)
  {
  }

  lemma CompleteIs(c: Connections, conn: ConnId, name: string, fault: Fault, now: Time, limits: Limits)
    requires conn in c.data && c.data[conn].name.None?
    ensures var (counted, ok) := Counted(c, conn, fault);
            Complete(c, conn, name, fault, now, limits)
            == if fault == NoName || fault == NoPolicy then (c, false)
               else if !ok || fault == NoLogInfo || conn !in counted.data then (counted, false)
               else
                 var moved := Move(counted, conn, name);
                 (Expire(moved.(ok := moved.ok && moved.nIncomplete >= 0 && moved.nCompleted > 0), now, limits.timeout),
                  true)
  {
  }

  lemma CompleteDecides(c: Connections, conn: ConnId, name: string, fault: Fault, now: Time, lost: multiset<UserId>,
                        limits: Limits)
    requires Inv(c, lost, now, limits) && conn in c.data && c.data[conn].name.None? && WithinLimits(c, conn, limits)
    ensures var (c', ok) := Complete(c, conn, name, fault, now, limits);
            && (ok <==> HelloAllowed(c, conn, fault, limits))
            && (ok ==> HelloDone(c, c', conn, name, now, limits.timeout))
            && (!ok ==> c' == c.(byUser := c'.byUser) && (fault != NoLogInfo ==> c' == c))
  {
    CountedDecides(c, conn, fault, lost, now, limits);
    AllowedIfCounted(c, conn, fault, limits);
    var (counted, ok) := Counted(c, conn, fault);
    CompleteIs(c, conn, name, fault, now, limits);
    if ok { CompletedDone(c, counted, conn, name, now, lost, limits); }
  }

  /**
   A hello succeeds if and only if that is so; then the connection is the last completed one, under its name.  If it
   fails nothing has changed, but for the count of the user when log info fails.
   */
  lemma HelloDecides(c: Connections, conn: ConnId, name: string, fault: Fault, now: Time, lost: multiset<UserId>,
                     clock: Time, limits: Limits)
    requires Inv(c, lost, clock, limits) && conn in c.data && clock <= now
    ensures var (c', ok) := Hello(c, conn, name, fault, now, limits);
            && (ok <==> HelloAllowed(c, conn, fault, limits))
            && (ok ==> HelloDone(c, c', conn, name, now, limits.timeout))
            && (!ok ==> c' == c.(byUser := c'.byUser) && (fault != NoLogInfo ==> c' == c))
  {
    Later(c, lost, clock, now, limits);
    if c.data[conn].name.None? && WithinLimits(c, conn, limits) {
      CompleteDecides(c, conn, name, fault, now, lost, limits);
    }
  }

  // ---------------------------------------------------------------------------------------------
  // Going

  /** A connection that goes leaves its list and the data, and the count of its user if it was completed. */
  lemma GoneLeaves(c: Connections, conn: ConnId, lost: multiset<UserId>, clock: Time, limits: Limits)
    requires Inv(c, lost, clock, limits) && conn in c.data
    ensures var c' := Disconnect(c, conn);
            var d := c.data[conn];
            && c'.data == c.data - {conn}
            && (if d.name.Some? then c'.completed == RemoveFirst(c.completed, conn) && c'.incomplete == c.incomplete
                else c'.completed == c.completed && c'.incomplete == RemoveFirst(c.incomplete, conn))
            && forall u: UserId :: CountOf(c'.byUser, u)
                           == CountOf(c.byUser, u) - if d.name.Some? && d.user == Some(u) then 1 else 0
  {
    var d := c.data[conn];
    if d.name.Some? && d.user.Some? {
      assert CountRight(c, lost, d.user.value);
      assert conn in c.completed;
      CountUserRemove(c.data, c.completed, conn, d.user.value);
    }
  }

  // ---------------------------------------------------------------------------------------------
  // Every run

  /** Those are closed that have been incomplete for the timeout, and nothing else changes but the timer. */
  ghost predicate Ticked(c: Connections, c': Connections, now: Time, timeout: nat) {
    && c' == c.(data := c'.data, timer := c'.timer) && c'.data.Keys == c.data.Keys
    && forall x :: x in c.data ==>
         c'.data[x] == c.data[x].(closed := c'.data[x].closed)
         && (c'.data[x].closed <==> c.data[x].closed
                                    || (x in c.incomplete && now - c.data[x].connectedAt >= 1000 * timeout))
  }

  /** What each event of a run does. */
  lemma StepDoes(c: Connections, e: Event, lost: multiset<UserId>, clock: Time, limits: Limits)
    requires Inv(c, lost, clock, limits) && Happens(c, e, clock)
    ensures var c' := Step(c, e, limits);
            match e
            case Connect(conn, user, now, later, fails) =>
              if fails then c' == c else Came(c, c', conn, user, now, later, limits)
            case SayHello(conn, name, fault, now) =>
              if HelloAllowed(c, conn, fault, limits) then HelloDone(c, c', conn, name, now, limits.timeout)
              else c' == c.(byUser := c'.byUser)
            case Gone(conn) => c'.data == c.data - {conn} && conn !in c'.completed + c'.incomplete
            case Tick(now) => Ticked(c, c', now, limits.timeout)
  {
    match e
    case Connect(conn, user, now, later, fails) =>
      SetUpCloses(c, conn, user, now, later, fails, lost, clock, limits);
    case SayHello(conn, name, fault, now) => HelloDecides(c, conn, name, fault, now, lost, clock, limits);
    case Gone(conn) =>
      GoneLeaves(c, conn, lost, clock, limits);
      StepKeeps(c, e, lost, clock, limits);
    case Tick(now) => ExpireKeeps(c, lost, clock, now, limits);
  }

  lemma RemovedClosedFirst(c: Connections, c': Connections, conn: ConnId)
    requires ClosedFirst(c) && conn in c.incomplete && c'.incomplete == RemoveFirst(c.incomplete, conn)
    requires forall x :: x in c'.incomplete ==> (IsOpen(c'.data, x) <==> IsOpen(c.data, x))
    ensures ClosedFirst(c') && OpenIncomplete(c') <= OpenIncomplete(c)
  {
    var k := RemoveFirstUnlinks(c.incomplete, conn);
    var list := c'.incomplete;
    forall i | 0 <= i < |list| ensures list[i] == (if i < k then c.incomplete[i] else c.incomplete[i + 1]) {}
    forall i, j | 0 <= i < j < |list| && IsOpen(c'.data, list[i]) ensures IsOpen(c'.data, list[j]) {
      assert list[i] in list && list[j] in list;
    }
    CountOpenFewer(c.data, c'.data, list);
    CountOpenUnlinked(c.data, c.incomplete, conn);
  }

  /** A scan closes the oldest. */
  lemma ScanClosedFirst(c: Connections, now: Time, timeout: nat, clock: Time)
    requires ListsRight(c) && Aged(c, clock) && ClosedFirst(c)
    ensures var c' := c.(data := FullScan(c, c.incomplete, now, timeout));
            ClosedFirst(c') && OpenIncomplete(c') <= OpenIncomplete(c)
  {
    var c' := c.(data := FullScan(c, c.incomplete, now, timeout));
    forall i, j | 0 <= i < j < |c.incomplete| && IsOpen(c'.data, c.incomplete[i])
      ensures IsOpen(c'.data, c.incomplete[j])
    {
      assert c.incomplete[i] in c.incomplete && c.incomplete[j] in c.incomplete;
      assert IsOpen(c.data, c.incomplete[i]);
    }
    CountOpenFewer(c.data, c'.data, c.incomplete);
  }

  lemma HelloOpen(c: Connections, c': Connections, conn: ConnId, name: string, now: Time, lost: multiset<UserId>,
                  limits: Limits)
    requires ListsRight(c) && Aged(c, now) && ClosedFirst(c) && conn in c.data && c.data[conn].name.None?
    requires HelloDone(c, c', conn, name, now, limits.timeout)
    ensures ClosedFirst(c') && OpenIncomplete(c') <= OpenIncomplete(c)
  {
    assert conn in c.incomplete;
    var left := c.(incomplete := RemoveFirst(c.incomplete, conn));
    RemovedClosedFirst(c, left, conn);
    IncompleteOldestFirst(c, now);
    RemoveFirstOrdered(c.incomplete, conn, c.data);
    RemoveFirstNoRepeats(c.incomplete, conn);
    var list := c'.incomplete;
    forall x | x in list
      ensures x in c.data && (IsOpen(c'.data, x) <==> IsOpen(c.data, x)
                                                      && now - c.data[x].connectedAt < 1000 * limits.timeout)
    {
      assert HelloTo(c, c', conn, name, now, limits.timeout, x);
    }
    forall i, j | 0 <= i < j < |list| && IsOpen(c'.data, list[i]) ensures IsOpen(c'.data, list[j]) {
      assert list[i] in list && list[j] in list && IsOpen(left.data, left.incomplete[i]);
      assert c.data[list[i]].connectedAt <= c.data[list[j]].connectedAt;
    }
    CountOpenFewer(c.data, c'.data, list);
  }

  /** Only a connection that comes can make them more. */
  lemma StepOpen(c: Connections, e: Event, lost: multiset<UserId>, clock: Time, limits: Limits)
    requires Inv(c, lost, clock, limits) && Happens(c, e, clock) && ClosedFirst(c)
    requires !(e.Connect? && !e.fails)
    ensures ClosedFirst(Step(c, e, limits)) && OpenIncomplete(Step(c, e, limits)) <= OpenIncomplete(c)
  {
    match e
    case Connect(_, _, _, _, _) =>
    case SayHello(conn, name, fault, now) =>
      Later(c, lost, clock, now, limits);
      HelloDecides(c, conn, name, fault, now, lost, clock, limits);
      if Hello(c, conn, name, fault, now, limits).1 {
        HelloOpen(c, Hello(c, conn, name, fault, now, limits).0, conn, name, now, lost, limits);
      }
    case Gone(conn) =>
      GoneLeaves(c, conn, lost, clock, limits);
      var c' := Disconnect(c, conn);
      if c.data[conn].name.Some? {
        GoneElsewhere(c, c', conn);
      } else {
        RemoveFirstNoRepeats(c.incomplete, conn);
        LeftIsOther(c.incomplete, conn);
        RemovedClosedFirst(c, c', conn);
      }
    case Tick(now) =>
      Later(c, lost, clock, now, limits);
      ExpireKeeps(c, lost, now, now, limits);
      ScanClosedFirst(c, now, limits.timeout, now);
  }

  lemma GoneElsewhere(c: Connections, c': Connections, conn: ConnId)
    requires ListsRight(c) && ClosedFirst(c) && conn !in c.incomplete
    requires c'.incomplete == c.incomplete && c'.data == c.data - {conn}
    ensures ClosedFirst(c') && OpenIncomplete(c') <= OpenIncomplete(c)
  {
    CountOpenFewer(c.data, c'.data, c.incomplete);
    forall i, j | 0 <= i < j < |c.incomplete| && IsOpen(c'.data, c.incomplete[i])
      ensures IsOpen(c'.data, c.incomplete[j])
    {
      assert IsOpen(c.data, c.incomplete[i]) && c.incomplete[j] in c.incomplete;
    }
  }

  lemma LeftIsOther(list: seq<ConnId>, conn: ConnId)
    requires NoRepeats(list) && conn in list
    ensures forall x :: x in RemoveFirst(list, conn) ==> x in list && x != conn
  {
    var k := RemoveFirstUnlinks(list, conn);
    forall x | x in RemoveFirst(list, conn) ensures x in list && x != conn {
      var i :| 0 <= i < |Unlink(list, k)| && Unlink(list, k)[i] == x;
      assert x == list[if i < k then i else i + 1];
    }
  }

  /** When a connection comes, those that were closed are gone. */
  ghost predicate Prompt(c: Connections, events: seq<Event>, limits: Limits)
    decreases |events|
  {
    events != [] ==>
      && (events[0].Connect? ==> forall x :: x in c.incomplete ==> IsOpen(c.data, x))
      && Prompt(Step(c, events[0], limits), events[1..], limits)
  }

  lemma {:induction false} CountStayingBut(data: map<ConnId, ConnData>, list: seq<ConnId>, later: Time, timeout: nat)
    requires list != [] && !IsStaying(data, list[0], later, timeout)
    ensures CountStaying(data, list, later, timeout) <= |list| - 1
  {
  }

  lemma PromptStep(c: Connections, e: Event, lost: multiset<UserId>, clock: Time, limits: Limits)
    requires Inv(c, lost, clock, limits) && Happens(c, e, clock) && e.Connect? && !e.fails
    requires ClosedFirst(c) && OpenIncomplete(c) <= limits.maxIncomplete
    requires forall x :: x in c.incomplete ==> IsOpen(c.data, x)
    ensures ClosedFirst(Step(c, e, limits)) && OpenIncomplete(Step(c, e, limits)) <= limits.maxIncomplete
  {
    var listed := ListedLast(c, e.conn, e.user, e.now);
    CountOpenAll(c.data, c.incomplete);
    TooManyIff(c, e.conn, e.user, e.now, e.later, lost, clock, limits);
    if OldestIsGone(listed, e.later, limits.timeout) {
      CountStayingBut(listed.data, listed.incomplete, e.later, limits.timeout);
    }
  }

  /**
   In every run in which the connections that were closed are gone before another comes, at most the maximum are
   incomplete and open.
   */
  lemma {:induction false} NeverTooMany(c: Connections, events: seq<Event>, lost: multiset<UserId>, clock: Time,
                                        limits: Limits)
    requires Inv(c, lost, clock, limits) && AllHappen(c, events, clock, limits) && Prompt(c, events, limits)
    requires ClosedFirst(c) && OpenIncomplete(c) <= limits.maxIncomplete
    ensures OpenIncomplete(Run(c, events, limits)) <= limits.maxIncomplete
    decreases |events|
  {
    if events != [] {
      var e := events[0];
      StepKeeps(c, e, lost, clock, limits);
      if e.Connect? && !e.fails {
        PromptStep(c, e, lost, clock, limits);
      } else {
        StepOpen(c, e, lost, clock, limits);
      }
      NeverTooMany(Step(c, e, limits), events[1..], lost + LostBy(c, e, limits), ClockAfter(e, clock), limits);
    }
  }

  const ONE_INCOMPLETE := Limits(10, 1, 10, 30000)

  function Comes(conn: ConnId): Event {
    Connect(conn, None, 1, 1, false)
  }

  /** Two have come, and the first of them was closed for the second. */
  const TWO_CAME :=
    Connections(map[0 := ConnData(None, None, 1, true), 1 := ConnData(None, None, 1, false)], [], [0, 1], 0, 2, map[],
                Some(30000), true)

  lemma FirstIsClosed()
    ensures Step(Step(NONE_CONNECTED, Comes(0), ONE_INCOMPLETE), Comes(1), ONE_INCOMPLETE) == TWO_CAME
  {
    var one := Step(NONE_CONNECTED, Comes(0), ONE_INCOMPLETE);
    assert one == Connections(map[0 := ConnData(None, None, 1, false)], [], [0], 0, 1, map[], Some(30000), true);
  }

  /** If they come faster than closed ones go, the same one is closed again, and one more than the maximum is open. */
  lemma ClosedTwice()
    ensures OpenIncomplete(TWO_CAME) == 1
    ensures OpenIncomplete(Step(TWO_CAME, Comes(2), ONE_INCOMPLETE)) == 2
  {
    var three := Step(TWO_CAME, Comes(2), ONE_INCOMPLETE);
    assert TWO_CAME.incomplete[1..] == [1] && [1][1..] == [];
    assert three.incomplete == [0, 1, 2] && three.incomplete[1..] == [1, 2] && [1, 2][1..] == [2] && [2][1..] == [];
  }
}
