/**
 The connections of the bus, as functions on values: those that have said hello and those that have not, the number of
 the former for each user, and the timer that ends the latter.  Times are in microseconds.
 */
module ConnectionLists {
  import opened BusTypes
  import opened Lists

  type UserId = nat

  /** `BusConnectionData`; closed once the bus has closed it, which takes effect when it is next dispatched. */
  datatype ConnData = ConnData(name: Option<string>, user: Option<UserId>, connectedAt: Time, closed: bool)

  /** timer is the interval in milliseconds for which it is set; ok turns false at the first assertion that fails. */
  datatype Connections = Connections(data: map<ConnId, ConnData>, completed: seq<ConnId>, incomplete: seq<ConnId>,
                                     nCompleted: int, nIncomplete: int, byUser: map<UserId, int>, timer: Option<int>,
                                     ok: bool)

  const NONE_CONNECTED := Connections(map[], [], [], 0, 0, map[], None, true)

  /** `timeout` is in milliseconds. */
  datatype Limits = Limits(maxCompleted: int, maxIncomplete: int, maxPerUser: int, timeout: nat)

  /** `get_connections_for_uid` */
  function CountOf(byUser: map<UserId, int>, user: UserId): int {
    if user in byUser then byUser[user] else 0
  }

  /** `adjust_connections_for_uid`; only a new entry needs memory. */
  function Adjust(c: Connections, user: UserId, adjustment: int, memory: bool): (Connections, bool) {
    var count := CountOf(c.byUser, user) + adjustment;
    if CountOf(c.byUser, user) < 0 || count < 0 then (c.(ok := false), false)
    else if count == 0 then (c.(byUser := c.byUser - {user}), true)
    else if user !in c.byUser && !memory then (c, false)
    else (c.(byUser := c.byUser[user := count]), true)
  }

  // ---------------------------------------------------------------------------------------------
  // Expiry

  predicate PastTimeout(d: ConnData, now: Time, timeout: nat) {
    now - d.connectedAt >= 1000 * timeout
  }

  function Close(c: Connections, conn: ConnId): Connections {
    if conn in c.data then c.(data := c.data[conn := c.data[conn].(closed := true)]) else c.(ok := false)
  }

  function CloseOldest(c: Connections): Connections {
    if c.incomplete == [] then c.(ok := false) else Close(c, c.incomplete[0])
  }

  /** The loop of `bus_connections_expire_incomplete`: it ends at the first connection that may stay. */
  function ExpireFrom(c: Connections, todo: seq<ConnId>, now: Time, timeout: nat): Connections
    decreases |todo|
  {
    if todo == [] then c.(timer := None)
    else if todo[0] !in c.data then c.(ok := false)
    else if PastTimeout(c.data[todo[0]], now, timeout) then ExpireFrom(Close(c, todo[0]), todo[1..], now, timeout)
    else c.(timer := Some((1000 * timeout - (now - c.data[todo[0]].connectedAt)) / 1000))
  }

  function Expire(c: Connections, now: Time, timeout: nat): Connections {
    ExpireFrom(c, c.incomplete, now, timeout)
  }

  // ---------------------------------------------------------------------------------------------
  // Coming, saying hello, going

  /** `bus_connections_setup_connection`: later is the time of the expiry that ends it. */
  function SetUp(c: Connections, conn: ConnId, user: Option<UserId>, now: Time, later: Time, fails: bool,
                 limits: Limits)
    : (Connections, bool)
  {
    if conn in c.data then (c.(ok := false), false)
    else if fails then (c, false)
    else
      var listed := c.(data := c.data[conn := ConnData(None, user, now, false)], incomplete := c.incomplete + [conn],
                       nIncomplete := c.nIncomplete + 1);
      var expired := Expire(listed, later, limits.timeout);
      (if expired.nIncomplete > limits.maxIncomplete then CloseOldest(expired) else expired, true)
  }

  /** `bus_connections_check_limits` */
  predicate WithinLimits(c: Connections, conn: ConnId, limits: Limits)
    requires conn in c.data
  {
    && c.nCompleted < limits.maxCompleted
    && (c.data[conn].user.Some? ==> CountOf(c.byUser, c.data[conn].user.value) < limits.maxPerUser)
  }

  /** A connection with a name goes from one list to the end of the other. */
  function Move(c: Connections, conn: ConnId, name: string): Connections
    requires conn in c.data
  {
    c.(data := c.data[conn := c.data[conn].(name := Some(name))],
       incomplete := RemoveFirst(c.incomplete, conn), nIncomplete := c.nIncomplete - 1,
       completed := c.completed + [conn], nCompleted := c.nCompleted + 1)
  }

  datatype Fault = NoFault | NoName | NoPolicy | NoCount | NoLogInfo

  /** `bus_connection_complete`; without log info the count of the user stays as adjusted. */
  function Complete(c: Connections, conn: ConnId, name: string, fault: Fault, now: Time,
                    limits: Limits)
    : (Connections, bool)
  {
    if conn !in c.data || c.data[conn].name.Some? then (c.(ok := false), false)
    else if fault == NoName || fault == NoPolicy then (c, false)
    else
      var user := c.data[conn].user;
      var (counted, ok) := if user.Some? then Adjust(c, user.value, 1, fault != NoCount) else (c, true);
      if !ok || fault == NoLogInfo then (counted, false)
      else
        var moved := Move(counted, conn, name);
        (Expire(moved.(ok := moved.ok && moved.nIncomplete >= 0 && moved.nCompleted > 0), now, limits.timeout), true)
  }

  /** `bus_driver_handle_hello`, as far as the connections go. */
  function Hello(c: Connections, conn: ConnId, name: string, fault: Fault, now: Time,
                 limits: Limits)
    : (Connections, bool)
  {
    if conn !in c.data then (c.(ok := false), false)
    else if c.data[conn].name.Some? || !WithinLimits(c, conn, limits) then (c, false)
    else Complete(c, conn, name, fault, now, limits)
  }

  /** `bus_connection_disconnected` */
  function Disconnect(c: Connections, conn: ConnId): Connections {
    if conn !in c.data then c.(ok := false)
    else
      var d := c.data[conn];
      var gone := c.(data := c.data - {conn});
      var left :=
        if d.name.Some? then
          var removed := gone.(completed := RemoveFirst(c.completed, conn), nCompleted := c.nCompleted - 1);
          if d.user.None? then removed
          else
            var (adjusted, ok) := Adjust(removed, d.user.value, -1, true); adjusted.(ok := adjusted.ok && ok)
        else gone.(incomplete := RemoveFirst(c.incomplete, conn), nIncomplete := c.nIncomplete - 1);
      left.(ok := left.ok && left.nIncomplete >= 0 && left.nCompleted >= 0)
  }

  // ---------------------------------------------------------------------------------------------
  // Runs

  datatype Event =
    | Connect(conn: ConnId, user: Option<UserId>, now: Time, later: Time, fails: bool)
    | SayHello(conn: ConnId, name: string, fault: Fault, now: Time)
    | Gone(conn: ConnId)
    | Tick(now: Time)

  function Step(c: Connections, e: Event, limits: Limits): Connections {
    match e
    case Connect(conn, user, now, later, fails) => SetUp(c, conn, user, now, later, fails, limits).0
    case SayHello(conn, name, fault, now) => Hello(c, conn, name, fault, now, limits).0
    case Gone(conn) => Disconnect(c, conn)
    case Tick(now) => Expire(c, now, limits.timeout)
  }
}
