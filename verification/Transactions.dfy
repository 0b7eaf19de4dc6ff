/**
 The message half of a `BusTransaction`: messages are queued on their connections, newest first, and are sent or dropped
 as a block.
 */
module Transactions {
  import opened BusTypes
  import opened Lists

  /** `MessageToSend` */
  datatype ToSend = ToSend(tx: TxId, message: Message)

  /**
   queues holds `transaction_messages` of every connection that has bus data, connections the `connections` list of
   every open transaction, and outbox what was handed to `dbus_connection_send_preallocated`, per connection and oldest
   first.
   */
  datatype Net = Net(queues: map<ConnId, seq<ToSend>>, connections: map<TxId, seq<ConnId>>,
                     outbox: map<ConnId, seq<Message>>)

  const IDLE := Net(map[], map[], map[])

  /** The messages of one transaction in a queue, in the order they were sent. */
  function MessagesOf(queue: seq<ToSend>, tx: TxId): seq<Message> {
    if queue == [] then []
    else MessagesOf(queue[1..], tx) + if queue[0].tx == tx then [queue[0].message] else []
  }

  function OtherThan(queue: seq<ToSend>, tx: TxId): seq<ToSend> {
    Filter(queue, (m: ToSend) => m.tx != tx)
  }

  lemma SplitLast(queue: seq<ToSend>, m: ToSend, tx: TxId)
    ensures MessagesOf(queue + [m], tx) == (if m.tx == tx then [m.message] else []) + MessagesOf(queue, tx)
    ensures OtherThan(queue + [m], tx) == OtherThan(queue, tx) + if m.tx == tx then [] else [m]
  {
    if queue != [] {
      assert (queue + [m])[1..] == queue[1..] + [m];
      SplitLast(queue[1..], m, tx);
    }
  }

  predicate Holds(queue: seq<ToSend>, tx: TxId) {
    exists i :: 0 <= i < |queue| && queue[i].tx == tx
  }

  function Outbox(n: Net, conn: ConnId): seq<Message> {
    if conn in n.outbox then n.outbox[conn] else []
  }

  datatype SendFault = NoFault | NoToSend | NoPreallocated | NoMessageLink | NoConnectionLink

  /** `bus_transaction_send` */
  function Send(n: Net, tx: TxId, conn: ConnId, message: Message, connected: bool, fault: SendFault)
    : (r: (Net, bool))
    requires tx in n.connections && (connected ==> conn in n.queues)
    ensures r.0.queues.Keys == n.queues.Keys && r.0.connections.Keys == n.connections.Keys
  {
    if !connected then (n, true)
    else if fault in {NoToSend, NoPreallocated, NoMessageLink} then (n, false)
    else
      var listed := Holds(n.queues[conn], tx);
      if !listed && fault == NoConnectionLink then (n, false)
      else
        (Net(n.queues[conn := [ToSend(tx, message)] + n.queues[conn]],
             if listed then n.connections else n.connections[tx := [conn] + n.connections[tx]],
             n.outbox), true)
  }

  /** `connection_cancel_transaction` on each listed connection. */
  function CancelOn(n: Net, conns: seq<ConnId>, tx: TxId): Net
    requires forall c :: c in conns ==> c in n.queues
    decreases |conns|
  {
    if conns == [] then n
    else CancelOn(n.(queues := n.queues[conns[0] := OtherThan(n.queues[conns[0]], tx)]), conns[1..], tx)
  }

  function CancelTx(n: Net, tx: TxId): Net
    requires tx in n.connections && forall c :: c in n.connections[tx] ==> c in n.queues
  {
    CancelOn(n, n.connections[tx], tx).(connections := n.connections - {tx})
  }

  /** `connection_execute_transaction` on each listed connection. */
  function ExecuteOn(n: Net, conns: seq<ConnId>, tx: TxId): Net
    requires forall c :: c in conns ==> c in n.queues
    decreases |conns|
  {
    if conns == [] then n
    else
      var c := conns[0];
      ExecuteOn(n.(queues := n.queues[c := OtherThan(n.queues[c], tx)],
                   outbox := n.outbox[c := Outbox(n, c) + MessagesOf(n.queues[c], tx)]),
                conns[1..], tx)
  }

  function ExecuteTx(n: Net, tx: TxId): Net
    requires tx in n.connections && forall c :: c in n.connections[tx] ==> c in n.queues
  {
    ExecuteOn(n, n.connections[tx], tx).(connections := n.connections - {tx})
  }

  /** `bus_connection_remove_transactions`, first message first. */
  function DropMessages(n: Net, conn: ConnId): Net
    requires conn in n.queues && forall m :: m in n.queues[conn] ==> m.tx in n.connections
    decreases if conn in n.queues then |n.queues[conn]| else 0
  {
    var queue := n.queues[conn];
    if queue == [] then n
    else
      var tx := queue[0].tx;
      DropMessages(n.(connections := n.connections[tx := RemoveFirst(n.connections[tx], conn)],
                      queues := n.queues[conn := queue[1..]]), conn)
  }

  // ---------------------------------------------------------------------------------------------
  // The invariant

  /**
   A connection is listed by a transaction exactly once if it holds a message of it, and not otherwise; every
   queued message belongs to an open transaction.
   */
  ghost predicate Inv(n: Net) {
    && (forall tx :: tx in n.connections ==>
          NoRepeats(n.connections[tx])
          && forall c :: c in n.connections[tx] <==> c in n.queues && Holds(n.queues[c], tx))
    && (forall c, tx :: c in n.queues && Holds(n.queues[c], tx) ==> tx in n.connections)
  }

  lemma {:induction false} Splits(queue: seq<ToSend>, tx: TxId)
    ensures Holds(queue, tx) <==> MessagesOf(queue, tx) != []
    ensures !Holds(OtherThan(queue, tx), tx)
    ensures !Holds(queue, tx) ==> OtherThan(queue, tx) == queue
    ensures forall other :: other != tx ==>
              (Holds(OtherThan(queue, tx), other) <==> Holds(queue, other))
              && MessagesOf(OtherThan(queue, tx), other) == MessagesOf(queue, other)
  {
    if queue != [] {
      var rest := queue[1..];
      Splits(rest, tx);
      forall t ensures Holds(queue, t) <==> queue[0].tx == t || Holds(rest, t) {
        if Holds(rest, t) {
          var i :| 0 <= i < |rest| && rest[i].tx == t;
          assert queue[i + 1].tx == t;
        }
        if Holds(queue, t) && queue[0].tx != t {
          var i :| 0 <= i < |queue| && queue[i].tx == t;
          assert rest[i - 1].tx == t;
        }
      }
      if queue[0].tx != tx {
        var kept := OtherThan(queue, tx);
        assert kept == [queue[0]] + OtherThan(rest, tx);
        assert kept[1..] == OtherThan(rest, tx);
        forall t ensures Holds(kept, t) <==> queue[0].tx == t || Holds(OtherThan(rest, tx), t) {
          if Holds(OtherThan(rest, tx), t) {
            var i :| 0 <= i < |kept[1..]| && kept[1..][i].tx == t;
            assert kept[i + 1].tx == t;
          }
        }
      }
    }
  }

  /** Executing sends every message of the transaction, per connection in send order, and nothing else. */
  lemma {:induction false} ExecuteOnEffect(n: Net, conns: seq<ConnId>, tx: TxId)
    requires NoRepeats(conns) && forall c :: c in conns ==> c in n.queues
    ensures var n' := ExecuteOn(n, conns, tx);
            && n'.connections == n.connections && n'.queues.Keys == n.queues.Keys
            && forall c :: if c in conns
                 then n'.queues[c] == OtherThan(n.queues[c], tx)
                      && Outbox(n', c) == Outbox(n, c) + MessagesOf(n.queues[c], tx)
                 else Outbox(n', c) == Outbox(n, c) && (c in n.queues ==> n'.queues[c] == n.queues[c])
    decreases |conns|
  {
    if conns != [] {
      var c := conns[0];
      var next := n.(queues := n.queues[c := OtherThan(n.queues[c], tx)],
                     outbox := n.outbox[c := Outbox(n, c) + MessagesOf(n.queues[c], tx)]);
      assert forall i :: 0 <= i < |conns| - 1 ==> conns[1..][i] == conns[i + 1];
      assert c !in conns[1..];
      ExecuteOnEffect(next, conns[1..], tx);
      assert forall x :: x in conns <==> x == c || x in conns[1..];
    }
  }

  lemma {:induction false} CancelOnEffect(n: Net, conns: seq<ConnId>, tx: TxId)
    requires NoRepeats(conns) && forall c :: c in conns ==> c in n.queues
    ensures var n' := CancelOn(n, conns, tx);
            && n'.connections == n.connections && n'.queues.Keys == n.queues.Keys && n'.outbox == n.outbox
            && forall c :: c in n.queues ==>
                 n'.queues[c] == if c in conns then OtherThan(n.queues[c], tx) else n.queues[c]
    decreases |conns|
  {
    if conns != [] {
      var c := conns[0];
      var next := n.(queues := n.queues[c := OtherThan(n.queues[c], tx)]);
      assert forall i :: 0 <= i < |conns| - 1 ==> conns[1..][i] == conns[i + 1];
      assert c !in conns[1..];
      CancelOnEffect(next, conns[1..], tx);
      assert forall x :: x in conns <==> x == c || x in conns[1..];
    }
  }

  /** What ending a transaction leaves of the queues, either way. */
  ghost predicate Without(n: Net, n': Net, tx: TxId) {
    && n'.queues.Keys == n.queues.Keys
    && (forall c :: c in n.queues ==> n'.queues[c] == OtherThan(n.queues[c], tx))
    && n'.connections == n.connections - {tx}
  }

  lemma WithoutKeeps(n: Net, n': Net, tx: TxId)
    requires Inv(n) && Without(n, n', tx)
    ensures Inv(n')
  {
    forall c, t | c in n.queues
      ensures Holds(n'.queues[c], t) <==> t != tx && Holds(n.queues[c], t)
    {
      Splits(n.queues[c], tx);
    }
  }

  lemma Unlisted(n: Net, tx: TxId, conn: ConnId)
    requires Inv(n) && tx in n.connections && conn in n.queues && conn !in n.connections[tx]
    ensures OtherThan(n.queues[conn], tx) == n.queues[conn] && MessagesOf(n.queues[conn], tx) == []
  {
    Splits(n.queues[conn], tx);
  }

  /**
   All: executing sends exactly the messages of the transaction, in send order on each connection, and leaves every
   other transaction as it was.
   */
  lemma ExecuteSendsAll(n: Net, tx: TxId)
    requires Inv(n) && tx in n.connections
    ensures var done := ExecuteTx(n, tx);
            && Without(n, done, tx) && Inv(done)
            && forall c :: Outbox(done, c) == Outbox(n, c) + if c in n.queues then MessagesOf(n.queues[c], tx) else []
  {
    ExecuteOnEffect(n, n.connections[tx], tx);
    forall c | c in n.queues && c !in n.connections[tx] { Unlisted(n, tx, c); }
    WithoutKeeps(n, ExecuteTx(n, tx), tx);
  }

  /** Or nothing: cancelling sends none of them, and leaves the queues just as executing would. */
  lemma CancelSendsNothing(n: Net, tx: TxId)
    requires Inv(n) && tx in n.connections
    ensures var undone := CancelTx(n, tx); Without(n, undone, tx) && Inv(undone) && undone.outbox == n.outbox
  {
    CancelOnEffect(n, n.connections[tx], tx);
    forall c | c in n.queues && c !in n.connections[tx] { Unlisted(n, tx, c); }
    WithoutKeeps(n, CancelTx(n, tx), tx);
  }

  // ---------------------------------------------------------------------------------------------
  // Runs

  datatype Event =
    | SetUp(conn: ConnId)
    | Begin(tx: TxId)
    | SendTo(tx: TxId, conn: ConnId, message: Message, connected: bool, fault: SendFault)
    | Execute(tx: TxId)
    | CancelAll(tx: TxId)
    | Gone(conn: ConnId)

  /** What the source asserts of its callers. */
  ghost predicate Allowed(n: Net, e: Event) {
    match e
    case SetUp(conn) => conn !in n.queues
    case Begin(tx) => tx !in n.connections
    case SendTo(tx, conn, _, connected, _) => tx in n.connections && (connected ==> conn in n.queues)
    case Execute(tx) => tx in n.connections
    case CancelAll(tx) => tx in n.connections
    case Gone(conn) => conn in n.queues
  }

  ghost function Step(n: Net, e: Event): Net
    requires Inv(n) && Allowed(n, e)
  {
    match e
    case SetUp(conn) => n.(queues := n.queues[conn := []])
    case Begin(tx) => n.(connections := n.connections[tx := []])
    case SendTo(tx, conn, message, connected, fault) => Send(n, tx, conn, message, connected, fault).0
    case Execute(tx) => ExecuteTx(n, tx)
    case CancelAll(tx) => CancelTx(n, tx)
    case Gone(conn) =>
      HeldAreOpen(n, conn);
      var dropped := DropMessages(n, conn);
      dropped.(queues := dropped.queues - {conn})
  }

  lemma HeldAreOpen(n: Net, conn: ConnId)
    requires Inv(n) && conn in n.queues
    ensures forall m :: m in n.queues[conn] ==> m.tx in n.connections
  {
    forall m | m in n.queues[conn] ensures m.tx in n.connections {
      var i :| 0 <= i < |n.queues[conn]| && n.queues[conn][i] == m;
      assert Holds(n.queues[conn], m.tx);
    }
  }

  lemma HoldsFirst(m: ToSend, queue: seq<ToSend>, tx: TxId)
    ensures Holds([m] + queue, tx) <==> m.tx == tx || Holds(queue, tx)
  {
    var q := [m] + queue;
    if Holds(queue, tx) {
      var i :| 0 <= i < |queue| && queue[i].tx == tx;
      assert q[i + 1].tx == tx;
    }
    if m.tx == tx { assert q[0].tx == tx; }
  }

  lemma SendKeeps(n: Net, tx: TxId, conn: ConnId, message: Message, connected: bool, fault: SendFault)
    requires Inv(n) && tx in n.connections && (connected ==> conn in n.queues)
    ensures Inv(Send(n, tx, conn, message, connected, fault).0)
  {
    if connected {
      forall t { HoldsFirst(ToSend(tx, message), n.queues[conn], t); }
    }
  }

  /** Dropping a connection keeps the invariant half way too: the transaction of a dropped message is updated first. */
  lemma {:induction false} DropEffect(n: Net, conn: ConnId)
    requires conn in n.queues && (forall m :: m in n.queues[conn] ==> m.tx in n.connections)
    requires forall tx :: tx in n.connections ==> NoRepeats(n.connections[tx])
    ensures var n' := DropMessages(n, conn);
            && n'.queues == n.queues[conn := []] && n'.outbox == n.outbox && n'.connections.Keys == n.connections.Keys
            && forall tx :: tx in n.connections ==>
                 NoRepeats(n'.connections[tx])
                 && forall c :: c in n'.connections[tx] <==>
                      c in n.connections[tx] && !(c == conn && Holds(n.queues[conn], tx))
    decreases |n.queues[conn]|
  {
    var queue := n.queues[conn];
    if queue == [] {
      assert n.queues[conn := []] == n.queues;
    } else {
      var tx := queue[0].tx;
      assert queue[0] in queue;
      RemoveFirstNoRepeats(n.connections[tx], conn);
      var next := n.(connections := n.connections[tx := RemoveFirst(n.connections[tx], conn)],
                     queues := n.queues[conn := queue[1..]]);
      DropEffect(next, conn);
      assert queue == [queue[0]] + queue[1..];
      forall t { HoldsFirst(queue[0], queue[1..], t); }
    }
  }

  lemma StepKeeps(n: Net, e: Event)
    requires Inv(n) && Allowed(n, e)
    ensures Inv(Step(n, e))
  {
    match e
    case SetUp(conn) =>
    case Begin(tx) =>
    case SendTo(tx, conn, message, connected, fault) => SendKeeps(n, tx, conn, message, connected, fault);
    case Execute(tx) => ExecuteSendsAll(n, tx);
    case CancelAll(tx) => CancelSendsNothing(n, tx);
    case Gone(conn) =>
      HeldAreOpen(n, conn);
      DropEffect(n, conn);
  }

  ghost predicate AllowedAll(n: Net, events: seq<Event>)
    requires Inv(n)
    decreases |events|
  {
    events != [] ==>
      Allowed(n, events[0]) && (StepKeeps(n, events[0]); AllowedAll(Step(n, events[0]), events[1..]))
  }

  ghost function Run(n: Net, events: seq<Event>): (n': Net)
    requires Inv(n) && AllowedAll(n, events)
    ensures Inv(n')
    decreases |events|
  {
    if events == [] then n
    else
      StepKeeps(n, events[0]);
      Run(Step(n, events[0]), events[1..])
  }

  /** What one event accepts for a connection in a transaction. */
  function AcceptedBy(n: Net, e: Event, tx: TxId, conn: ConnId): seq<Message> {
    if e.SendTo? && e.tx == tx && e.conn == conn && e.connected && tx in n.connections && conn in n.queues
       && Send(n, tx, conn, e.message, true, e.fault).1 then [e.message] else []
  }

  /** The messages that a run accepts for one connection in one transaction, in order. */
  ghost function Accepted(n: Net, events: seq<Event>, tx: TxId, conn: ConnId): seq<Message>
    requires Inv(n) && AllowedAll(n, events)
    decreases |events|
  {
    if events == [] then []
    else
      StepKeeps(n, events[0]);
      AcceptedBy(n, events[0], tx, conn) + Accepted(Step(n, events[0]), events[1..], tx, conn)
  }

  ghost predicate Ends(e: Event, tx: TxId, conn: ConnId) {
    e in {Execute(tx), CancelAll(tx), Gone(conn)}
  }

  function QueuedFor(n: Net, tx: TxId, conn: ConnId): seq<Message> {
    if conn in n.queues then MessagesOf(n.queues[conn], tx) else []
  }

  lemma StepQueues(n: Net, e: Event, tx: TxId, conn: ConnId)
    requires Inv(n) && Allowed(n, e) && !Ends(e, tx, conn)
    ensures QueuedFor(Step(n, e), tx, conn) == QueuedFor(n, tx, conn) + AcceptedBy(n, e, tx, conn)
  {
    match e
    case SetUp(_) =>
    case Begin(_) =>
    case SendTo(t, c, message, connected, fault) =>
      if connected && c == conn {
        assert ([ToSend(t, message)] + n.queues[c])[1..] == n.queues[c];
      }
    case Execute(t) =>
      ExecuteSendsAll(n, t);
      if conn in n.queues { Splits(n.queues[conn], t); }
    case CancelAll(t) =>
      CancelSendsNothing(n, t);
      if conn in n.queues { Splits(n.queues[conn], t); }
    case Gone(c) =>
      HeldAreOpen(n, c);
      DropEffect(n, c);
  }

  lemma {:induction false} RunQueues(n: Net, events: seq<Event>, tx: TxId, conn: ConnId)
    requires Inv(n) && AllowedAll(n, events)
    requires forall e :: e in events ==> !Ends(e, tx, conn)
    ensures QueuedFor(Run(n, events), tx, conn) == QueuedFor(n, tx, conn) + Accepted(n, events, tx, conn)
    decreases |events|
  {
    if events != [] {
      assert events[0] in events;
      StepKeeps(n, events[0]);
      StepQueues(n, events[0], tx, conn);
      var next := Step(n, events[0]);
      RunQueues(next, events[1..], tx, conn);
      Regroup(QueuedFor(n, tx, conn), AcceptedBy(n, events[0], tx, conn), Accepted(next, events[1..], tx, conn));
    }
  }

  lemma EndDelivers(n: Net, tx: TxId, conn: ConnId, sent: seq<Message>)
    requires Inv(n) && tx in n.connections && QueuedFor(n, tx, conn) == sent
    ensures Outbox(Step(n, Execute(tx)), conn) == Outbox(n, conn) + sent
    ensures Outbox(Step(n, CancelAll(tx)), conn) == Outbox(n, conn)
  {
    ExecuteSendsAll(n, tx);
    CancelSendsNothing(n, tx);
  }

  lemma DeliversFrom(begun: Net, tx: TxId, conn: ConnId, events: seq<Event>)
    requires Inv(begun) && AllowedAll(begun, events) && QueuedFor(begun, tx, conn) == []
    requires forall e :: e in events ==> !Ends(e, tx, conn)
    requires tx in Run(begun, events).connections
    ensures var before := Run(begun, events);
            && Outbox(Step(before, Execute(tx)), conn) == Outbox(before, conn) + Accepted(begun, events, tx, conn)
            && Outbox(Step(before, CancelAll(tx)), conn) == Outbox(before, conn)
  {
    var accepted := Accepted(begun, events, tx, conn);
    RunQueues(begun, events, tx, conn);
    assert [] + accepted == accepted;
    EndDelivers(Run(begun, events), tx, conn, accepted);
  }

  /**
   FIFO: whatever else the bus does meanwhile, with this or other transactions and connections, a transaction that is
   begun and later executed delivers to each connection that stayed exactly what was sent to it in that transaction,
   in the order it was sent; cancelled, it delivers nothing.
   */
  lemma DeliversInOrder(n: Net, tx: TxId, conn: ConnId, events: seq<Event>)
    requires Inv(n) && tx !in n.connections
    requires var begun := Step(n, Begin(tx)); Inv(begun) && AllowedAll(begun, events)
    requires forall e :: e in events ==> !Ends(e, tx, conn)
    requires tx in Run(Step(n, Begin(tx)), events).connections
    ensures var begun := Step(n, Begin(tx));
            var before := Run(begun, events);
            && Outbox(Step(before, Execute(tx)), conn) == Outbox(before, conn) + Accepted(begun, events, tx, conn)
            && Outbox(Step(before, CancelAll(tx)), conn) == Outbox(before, conn)
  {
    if conn in n.queues { Splits(n.queues[conn], tx); }
    DeliversFrom(Step(n, Begin(tx)), tx, conn, events);
  }
}
