/** `BusConnections`, its two lists and its counters, changed in place. */
module ConnectionTable {
  import opened BusTypes
  import opened Lists
  import opened Spec = ConnectionLists

  class BusConnections {
    var data: map<ConnId, ConnData>
    var completed: seq<ConnId>
    var incomplete: seq<ConnId>
    var nCompleted: int
    var nIncomplete: int
    var completedByUser: map<UserId, int>
    var timer: Option<int>
    // No assertion of the source has failed.
    ghost var ok: bool
    const limits: Limits

    ghost function State(): Connections
      reads this
    {
      Spec.Connections(data, completed, incomplete, nCompleted, nIncomplete, completedByUser, timer, ok)
    }

    constructor (limits: Limits)
      ensures State() == NONE_CONNECTED && this.limits == limits
    {
      data, completed, incomplete, nCompleted, nIncomplete := map[], [], [], 0, 0;
      completedByUser, timer, ok := map[], None, true;
      this.limits := limits;
    }

    /** `adjust_connections_for_uid` */
    method AdjustForUser(user: UserId, adjustment: int, memory: bool) returns (done: bool)
      modifies this`completedByUser, this`ok
      ensures (State(), done) == Adjust(old(State()), user, adjustment, memory)
    {
      var count := CountOf(completedByUser, user);
      if count < 0 || count + adjustment < 0 {
        ok := false;
        return false;
      }
      count := count + adjustment;
      if count == 0 {
        completedByUser := completedByUser - {user};
        return true;
      }
      if user !in completedByUser && !memory {
        return false;
      }
      completedByUser := completedByUser[user := count];
      done := true;
    }

    /** `dbus_connection_close` */
    method CloseConnection(conn: ConnId)
      modifies this`data, this`ok
      ensures State() == Close(old(State()), conn)
    {
      if conn in data {
        data := data[conn := data[conn].(closed := true)];
      } else {
        ok := false;
      }
    }

    method CloseOldestConnection()
      modifies this`data, this`ok
      ensures State() == CloseOldest(old(State()))
    {
      if incomplete == [] {
        ok := false;
      } else {
        CloseConnection(incomplete[0]);
      }
    }

    /** `bus_connections_expire_incomplete` */
    method ExpireIncomplete(now: Time)
      modifies this`data, this`timer, this`ok
      ensures State() == Expire(old(State()), now, limits.timeout)
    {
      var i := 0;
      while i < |incomplete|
        invariant i <= |incomplete|
        invariant ExpireFrom(State(), incomplete[i..], now, limits.timeout) == Expire(old(State()), now, limits.timeout)
      {
        var conn := incomplete[i];
        assert incomplete[i..][1..] == incomplete[i + 1..];
        if conn !in data {
          ok := false;
          return;
        }
        var elapsed := now - data[conn].connectedAt;
        if elapsed >= 1000 * limits.timeout {
          CloseConnection(conn);
        } else {
          timer := Some((1000 * limits.timeout - elapsed) / 1000);
          return;
        }
        i := i + 1;
      }
      timer := None;
    }

    /** `bus_connections_setup_connection` */
    method SetUpConnection(conn: ConnId, user: Option<UserId>, now: Time, later: Time, fails: bool) returns (done: bool)
      modifies this
      ensures (State(), done) == SetUp(old(State()), conn, user, now, later, fails, limits)
    {
      if conn in data {
        ok := false;
        return false;
      }
      if fails {
        return false;
      }
      data := data[conn := ConnData(None, user, now, false)];
      incomplete := incomplete + [conn];
      nIncomplete := nIncomplete + 1;
      ExpireIncomplete(later);
      if nIncomplete > limits.maxIncomplete {
        CloseOldestConnection();
      }
      done := true;
    }

    /** `bus_connections_check_limits` */
    method CheckLimits(conn: ConnId) returns (within: bool)
      requires conn in data
      ensures within == WithinLimits(State(), conn, limits)
    {
      if nCompleted >= limits.maxCompleted {
        return false;
      }
      if data[conn].user.Some? {
        if CountOf(completedByUser, data[conn].user.value) >= limits.maxPerUser {
          return false;
        }
      }
      within := true;
    }

    /** Move a connection between the lists. */
    method MoveToCompleted(conn: ConnId, name: string)
      requires conn in data
      modifies this`data, this`completed, this`incomplete, this`nCompleted, this`nIncomplete
      ensures State() == Move(old(State()), conn, name)
    {
      data := data[conn := data[conn].(name := Some(name))];
      incomplete := RemoveFirst(incomplete, conn);
      nIncomplete := nIncomplete - 1;
      completed := completed + [conn];
      nCompleted := nCompleted + 1;
    }

    /** `bus_connection_complete` */
    method CompleteConnection(conn: ConnId, name: string, fault: Fault, now: Time) returns (done: bool)
      modifies this
      ensures (State(), done) == Complete(old(State()), conn, name, fault, now, limits)
    {
      if conn !in data || data[conn].name.Some? {
        ok := false;
        return false;
      }
      if fault == NoName || fault == NoPolicy {
        return false;
      }
      if data[conn].user.Some? {
        var counted := AdjustForUser(data[conn].user.value, 1, fault != NoCount);
        if !counted {
          return false;
        }
      }
      if fault == NoLogInfo {
        return false;
      }
      MoveToCompleted(conn, name);
      ok := ok && nIncomplete >= 0 && nCompleted > 0;
      ExpireIncomplete(now);
      done := true;
    }

    /** `bus_driver_handle_hello`, as far as the connections go. */
    method HandleHello(conn: ConnId, name: string, fault: Fault, now: Time) returns (done: bool)
      modifies this
      ensures (State(), done) == Hello(old(State()), conn, name, fault, now, limits)
    {
      if conn !in data {
        ok := false;
        return false;
      }
      if data[conn].name.Some? {
        return false;
      }
      var within := CheckLimits(conn);
      if !within {
        return false;
      }
      done := CompleteConnection(conn, name, fault, now);
    }

    /** `bus_connection_disconnected` */
    method Disconnected(conn: ConnId)
      modifies this
      ensures State() == Disconnect(old(State()), conn)
    {
      if conn !in data {
        ok := false;
        return;
      }
      var d := data[conn];
      data := data - {conn};
      if d.name.Some? {
        completed := RemoveFirst(completed, conn);
        nCompleted := nCompleted - 1;
        if d.user.Some? {
          var adjusted := AdjustForUser(d.user.value, -1, true);
          ok := ok && adjusted;
        }
      } else {
        incomplete := RemoveFirst(incomplete, conn);
        nIncomplete := nIncomplete - 1;
      }
      ok := ok && nIncomplete >= 0 && nCompleted >= 0;
    }
  }
}
