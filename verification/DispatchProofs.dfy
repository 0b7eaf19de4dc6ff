/** What one message, and every run of messages, does to the pending replies and the queues. */
module DispatchProofs {
  import opened BusTypes
  import opened Lists
  import opened Dispatch
  import PR = PendingReplies
  import Proofs = PendingRepliesProofs
  import T = Transactions

  /** The gate touches the pending replies only by at most one check and then at most one expectation. */
  lemma GateIsOps(r: PR.Replies, hooks: seq<PR.Hook>, sender: Option<ConnId>, addressed: Option<ConnId>,
                  proposed: Option<ConnId>, m: Message, v: Verdicts, max: int) returns (ops: seq<PR.ReplyOp>)
    ensures var g := Gate(r, hooks, sender, addressed, proposed, m, v, max);
            PR.ApplyAll(r, hooks, ops, max) == (g.replies, g.hooks)
    ensures addressed != proposed ==> ops == []
  {
    var check, record := [], [];
    var r', hooks', requested := r, hooks, false;
    if sender.Some? && v.selinuxAllows && v.senderActive && m.kind != Unknown
       && m.replySerial != 0 && proposed.Some? && addressed == proposed {
      var key := ReplyKey(sender.value, proposed.value, m);
      check := [PR.CheckOp(key, v.checkMemory)];
      assert check[1..] == [];
      r', hooks' := PR.Apply(r, hooks, check[0], max).0, PR.Apply(r, hooks, check[0], max).1;
      requested := PR.Check(r, hooks, key, v.checkMemory).2 == PR.Requested;
      assert PR.ApplyAll(r', hooks', check[1..], max) == (r', hooks');
    } else if sender.None? {
      requested := addressed == proposed && m.replySerial != 0;
    }
    assert PR.ApplyAll(r, hooks, check, max) == (r', hooks');
    var g := Gate(r, hooks, sender, addressed, proposed, m, v, max);
    if g.replies == r' && g.hooks == hooks' {
      return check;
    }
    record := [PR.ExpectOp(CallKeyOf(sender.value, addressed.value, m), m.noReply, v.now, v.expectFault)];
    assert record[1..] == [];
    assert PR.ApplyAll(g.replies, g.hooks, record[1..], max) == (g.replies, g.hooks);
    assert g == Policies(r', hooks', sender, addressed, proposed, m, v, max, requested);
    assert PR.Apply(r', hooks', record[0], max) == (g.replies, g.hooks);
    Proofs.ApplyAllConcat(r, hooks, check, record, max);
    ops := check + record;
  }

  // ---------------------------------------------------------------------------------------------
  // The open transaction

  /** Only this transaction has grown: nothing is sent yet, and every other one is as it was. */
  ghost predicate Grown(n: T.Net, n': T.Net, tx: TxId) {
    && T.Inv(n') && tx in n'.connections
    && n'.outbox == n.outbox && n'.queues.Keys == n.queues.Keys
    && n'.connections - {tx} == n.connections
    && forall c :: c in n.queues ==> T.OtherThan(n'.queues[c], tx) == n.queues[c]
  }

  lemma BeginGrows(n: T.Net, tx: TxId)
    requires T.Inv(n) && tx !in n.connections
    ensures Grown(n, n.(connections := n.connections[tx := []]), tx)
  {
    forall c | c in n.queues ensures !T.Holds(n.queues[c], tx) && T.OtherThan(n.queues[c], tx) == n.queues[c] {
      T.Splits(n.queues[c], tx);
    }
  }

  lemma GrownByOne(n: T.Net, n': T.Net, sent: T.Net, tx: TxId, conn: ConnId, m: Message)
    requires Grown(n, n', tx) && conn in n'.queues && T.Inv(sent)
    requires sent.queues == n'.queues[conn := [T.ToSend(tx, m)] + n'.queues[conn]] && sent.outbox == n'.outbox
    requires tx in sent.connections && sent.connections - {tx} == n'.connections - {tx}
    ensures Grown(n, sent, tx)
  {
    assert ([T.ToSend(tx, m)] + n'.queues[conn])[1..] == n'.queues[conn];
  }

  lemma SendGrows(n: T.Net, n': T.Net, tx: TxId, conn: ConnId, m: Message, link: Link)
    requires Grown(n, n', tx) && Reaches(n.queues.Keys, conn, link)
    ensures Grown(n, T.Send(n', tx, conn, m, link.connected, link.fault).0, tx)
  {
    var sent := T.Send(n', tx, conn, m, link.connected, link.fault).0;
    T.SendKeeps(n', tx, conn, m, link.connected, link.fault);
    if sent != n' { GrownByOne(n, n', sent, tx, conn, m); }
  }

  lemma {:induction false} ListenersGrow(n: T.Net, a: Attempt, tx: TxId, sender: Option<ConnId>,
                                         addressed: Option<ConnId>, m: Message, listeners: seq<Listener>, max: int)
    requires Grown(n, a.net, tx) && AllReach(n.queues.Keys, listeners)
    ensures Grown(n, SendToListeners(a, tx, sender, addressed, m, listeners, max).net, tx)
    decreases |listeners|
  {
    if listeners != [] {
      assert listeners[0] in listeners;
      var one := SendOne(a, tx, sender, addressed, m, listeners[0], max);
      SendGrows(n, a.net, tx, listeners[0].conn, m, listeners[0].link);
      if one.failure.None? { ListenersGrow(n, one, tx, sender, addressed, m, listeners[1..], max); }
    }
  }

  /** Eavesdropped deliveries never touch the pending replies. */
  lemma {:induction false} ListenersOnlyListen(a: Attempt, tx: TxId, sender: Option<ConnId>, addressed: Option<ConnId>,
                                               m: Message, listeners: seq<Listener>, max: int)
    requires tx in a.net.connections && AllReach(a.net.queues.Keys, listeners)
    requires forall l :: l in listeners ==> addressed != Some(l.conn)
    ensures var a' := SendToListeners(a, tx, sender, addressed, m, listeners, max);
            a'.replies == a.replies && a'.hooks == a.hooks
    decreases |listeners|
  {
    if listeners != [] {
      var l := listeners[0];
      assert l in listeners;
      var ops := GateIsOps(a.replies, a.hooks, sender, addressed, Some(l.conn), m, l.verdicts, max);
      var one := SendOne(a, tx, sender, addressed, m, l, max);
      if one.failure.None? { ListenersOnlyListen(one, tx, sender, addressed, m, listeners[1..], max); }
    }
  }

  lemma MatchesGrow(n: T.Net, a: Attempt, tx: TxId, sender: Option<ConnId>, addressed: Option<ConnId>, m: Message,
                    v: Verdicts, link: Link, listeners: Option<seq<Listener>>, max: int)
    requires Grown(n, a.net, tx) && (addressed.Some? ==> Reaches(n.queues.Keys, addressed.value, link))
    requires listeners.Some? ==> AllReach(n.queues.Keys, listeners.value)
    ensures Grown(n, DispatchMatches(a, tx, sender, addressed, m, v, link, listeners, max).net, tx)
  {
    if addressed.None? {
      if listeners.Some? { ListenersGrow(n, a, tx, sender, addressed, m, listeners.value, max); }
    } else {
      var gate := Gate(a.replies, a.hooks, sender, addressed, addressed, m, v, max);
      var passed := a.(replies := gate.replies, hooks := gate.hooks, failure := gate.failure);
      if gate.failure.None? && !(m.hasFds && !link.takesFds) {
        var (net, ok) := T.Send(a.net, tx, addressed.value, m, link.connected, link.fault);
        SendGrows(n, a.net, tx, addressed.value, m, link);
        if ok && listeners.Some? {
          ListenersGrow(n, passed.(net := net), tx, sender, addressed, m, listeners.value, max);
        }
      }
    }
  }

  lemma AttemptGrows(b: Bus, e: Incoming, max: int)
    requires T.Inv(b.net) && Possible(b, Received(e))
    ensures Grown(b.net, Attempted(b, e, max).net, e.tx)
  {
    BeginGrows(b.net, e.tx);
    var begun := b.net.(connections := b.net.connections[e.tx := []]);
    MatchesGrow(b.net, Attempt(b.replies, [], begun, None), e.tx, Some(e.sender), e.addressed, e.m, e.v, e.link,
                e.listeners, max);
  }

  /** In the pending replies a message is a few operations of its transaction. */
  lemma MatchesAreOps(a: Attempt, tx: TxId, sender: Option<ConnId>, addressed: Option<ConnId>, m: Message, v: Verdicts,
                      link: Link, listeners: Option<seq<Listener>>, max: int) returns (ops: seq<PR.ReplyOp>)
    requires tx in a.net.connections && (addressed.Some? ==> Reaches(a.net.queues.Keys, addressed.value, link))
    requires listeners.Some? ==> AllReach(a.net.queues.Keys, listeners.value)
                                 && forall l :: l in listeners.value ==> addressed != Some(l.conn)
    ensures var a' := DispatchMatches(a, tx, sender, addressed, m, v, link, listeners, max);
            PR.ApplyAll(a.replies, a.hooks, ops, max) == (a'.replies, a'.hooks)
    ensures addressed.None? ==> ops == []
  {
    ops := [];
    if addressed.None? {
      if listeners.Some? { ListenersOnlyListen(a, tx, sender, addressed, m, listeners.value, max); }
    } else {
      ops := GateIsOps(a.replies, a.hooks, sender, addressed, addressed, m, v, max);
      var gate := Gate(a.replies, a.hooks, sender, addressed, addressed, m, v, max);
      var passed := a.(replies := gate.replies, hooks := gate.hooks, failure := gate.failure);
      if gate.failure.None? && !(m.hasFds && !link.takesFds) {
        var (net, ok) := T.Send(a.net, tx, addressed.value, m, link.connected, link.fault);
        if ok && listeners.Some? {
          ListenersOnlyListen(passed.(net := net), tx, sender, addressed, m, listeners.value, max);
        }
      }
    }
  }

  /** In the pending replies an attempt is one transaction's worth of operations. */
  lemma AttemptIsOps(b: Bus, e: Incoming, max: int) returns (ops: seq<PR.ReplyOp>)
    requires Possible(b, Received(e))
    ensures var a := Attempted(b, e, max); PR.ApplyAll(b.replies, [], ops, max) == (a.replies, a.hooks)
    ensures e.addressed.None? ==> ops == []
  {
    var begun := b.net.(connections := b.net.connections[e.tx := []]);
    ops := MatchesAreOps(Attempt(b.replies, [], begun, None), e.tx, Some(e.sender), e.addressed, e.m, e.v, e.link,
                         e.listeners, max);
  }

  // ---------------------------------------------------------------------------------------------
  // One message

  ghost predicate BusInv(b: Bus, max: int) {
    Proofs.Inv(b.replies, multiset{}, max) && T.Inv(b.net)
  }

  /** What a connection is sent when a transaction ends. */
  function SentTo(open: T.Net, tx: TxId, commit: bool, conn: ConnId): seq<Message> {
    if commit && conn in open.queues then T.MessagesOf(open.queues[conn], tx) else []
  }

  /** The queues after a transaction ended: nothing of it is left, and it was sent or not as a whole. */
  ghost predicate Ended(n: T.Net, open: T.Net, n': T.Net, tx: TxId, commit: bool) {
    && T.Inv(n')
    && n'.queues == n.queues && n'.connections == n.connections
    && (forall c :: T.Outbox(n', c) == T.Outbox(n, c) + SentTo(open, tx, commit, c))
    && (!commit ==> n' == n)
  }

  lemma WithoutRestores(n: T.Net, open: T.Net, n': T.Net, tx: TxId)
    requires tx !in n.connections && Grown(n, open, tx) && T.Without(open, n', tx)
    ensures n'.queues == n.queues && n'.connections == n.connections
  {
    assert n'.queues.Keys == n.queues.Keys;
    assert forall c :: c in n.queues ==> n'.queues[c] == n.queues[c];
  }

  lemma EndNet(n: T.Net, open: T.Net, tx: TxId, commit: bool)
    requires T.Inv(n) && tx !in n.connections && Grown(n, open, tx)
    ensures forall c :: c in open.connections[tx] ==> c in open.queues
    ensures Ended(n, open, if commit then T.ExecuteTx(open, tx) else T.CancelTx(open, tx), tx, commit)
  {
    var n' := if commit then T.ExecuteTx(open, tx) else T.CancelTx(open, tx);
    if commit {
      T.ExecuteSendsAll(open, tx);
    } else {
      T.CancelSendsNothing(open, tx);
    }
    WithoutRestores(n, open, n', tx);
    forall c
      ensures T.Outbox(n', c) == T.Outbox(n, c) + SentTo(open, tx, commit, c)
    {
      assert T.Outbox(open, c) == T.Outbox(n, c);
    }
  }

  lemma ConcludeKeeps(b: Bus, a: Attempt, tx: TxId, ops: seq<PR.ReplyOp>, commit: bool, limits: PR.Limits)
    requires BusInv(b, limits.maxReplies) && tx !in b.net.connections && Grown(b.net, a.net, tx)
    requires PR.ApplyAll(b.replies, [], ops, limits.maxReplies) == (a.replies, a.hooks)
    ensures Conclude(a, tx, commit).Some?
    ensures var b' := Conclude(a, tx, commit).value;
            && BusInv(b', limits.maxReplies)
            && Some(b'.replies) == PR.Step(b.replies, PR.Transact(ops, commit), limits)
            && Ended(b.net, a.net, b'.net, tx, commit)
  {
    Proofs.StepKeeps(b.replies, PR.Transact(ops, commit), limits);
    EndNet(b.net, a.net, tx, commit);
  }

  /** How the transaction of a message ends, and with which messages queued. */
  function Ending(b: Bus, e: Incoming, max: int): (Attempt, bool)
    requires Possible(b, Received(e))
  {
    Report(Attempted(b, e, max), e)
  }

  /**
   One message is one transaction of the pending replies, committed or cancelled; no assertion fails, the transaction
   leaves nothing queued, and nothing is sent unless it is committed.
   */
  lemma DispatchKeeps(b: Bus, e: Incoming, limits: PR.Limits) returns (ops: seq<PR.ReplyOp>)
    requires BusInv(b, limits.maxReplies) && Possible(b, Received(e))
    ensures DispatchMessage(b, e, limits.maxReplies).Some?
    ensures var b' := DispatchMessage(b, e, limits.maxReplies).value;
            var (a, commit) := Ending(b, e, limits.maxReplies);
            && BusInv(b', limits.maxReplies)
            && PR.ApplyAll(b.replies, [], ops, limits.maxReplies) == (a.replies, a.hooks)
            && Some(b'.replies) == PR.Step(b.replies, PR.Transact(ops, commit), limits)
            && Ended(b.net, a.net, b'.net, e.tx, commit)
  {
    var (a, commit) := Ending(b, e, limits.maxReplies);
    ops := AttemptIsOps(b, e, limits.maxReplies);
    AttemptGrows(b, e, limits.maxReplies);
    if a.net != Attempted(b, e, limits.maxReplies).net {
      SendGrows(b.net, Attempted(b, e, limits.maxReplies).net, e.tx, e.sender,
                ErrorFor(e.m, e.m.body), e.answer.link);
    }
    ConcludeKeeps(b, a, e.tx, ops, commit, limits);
  }

  /** A message that runs out of memory leaves no trace: nothing pending changed, nothing queued, nothing sent. */
  lemma OutOfMemoryUndoes(b: Bus, e: Incoming, limits: PR.Limits)
    requires BusInv(b, limits.maxReplies) && Possible(b, Received(e)) && e.answer.link.connected
    requires Attempted(b, e, limits.maxReplies).failure == Some(OutOfMemory)
    ensures var b' := DispatchMessage(b, e, limits.maxReplies);
            b'.Some? && b'.value.net == b.net && Proofs.SameReplies(b.replies, b'.value.replies)
  {
    var ops := DispatchKeeps(b, e, limits);
    Proofs.CancelRestores(b.replies, ops, limits.maxReplies);
  }

  // ---------------------------------------------------------------------------------------------
  // Every run of the main loop

  lemma TurnKeeps(b: Bus, ev: MainLoopEvent, limits: PR.Limits)
    requires BusInv(b, limits.maxReplies) && Possible(b, ev)
    ensures var b' := Turn(b, ev, limits);
            && b'.Some? && BusInv(b'.value, limits.maxReplies)
            && b'.value.net.connections.Keys == b.net.connections.Keys
            && (b.net.connections == map[] ==> b'.value.net.connections == map[])
  {
    match ev
    case Connected(conn) =>
    case Received(e) =>
      var ops := DispatchKeeps(b, e, limits);
    case Disconnected(conn) =>
      T.HeldAreOpen(b.net, conn);
      T.StepKeeps(b.net, T.Gone(conn));
      T.DropEffect(b.net, conn);
      Proofs.StepKeeps(b.replies, PR.Disconnect(conn), limits);
    case Expired(now, budget) =>
      Proofs.StepKeeps(b.replies, PR.Expire(now, budget), limits);
  }

  ghost predicate AllPossible(b: Bus, events: seq<MainLoopEvent>, limits: PR.Limits)
    decreases |events|
  {
    events != [] ==>
      && Possible(b, events[0])
      && (Turn(b, events[0], limits).Some? ==> AllPossible(Turn(b, events[0], limits).value, events[1..], limits))
  }

  ghost function Loop(b: Bus, events: seq<MainLoopEvent>, limits: PR.Limits): Option<Bus>
    requires AllPossible(b, events, limits)
    decreases |events|
  {
    if events == [] then Some(b)
    else if Turn(b, events[0], limits).None? then None
    else Loop(Turn(b, events[0], limits).value, events[1..], limits)
  }

  /** Between messages no transaction is open and no message waits in a queue. */
  ghost predicate Quiet(b: Bus, max: int) {
    && BusInv(b, max) && b.net.connections == map[]
    && forall c :: c in b.net.queues ==> b.net.queues[c] == []
  }

  lemma NothingQueued(b: Bus, max: int)
    requires BusInv(b, max) && b.net.connections == map[]
    ensures Quiet(b, max)
  {
    forall c | c in b.net.queues ensures b.net.queues[c] == [] {
      assert forall tx :: T.Holds(b.net.queues[c], tx) ==> tx in b.net.connections;
      HoldsNothing(b.net.queues[c]);
    }
  }

  lemma HoldsNothing(queue: seq<T.ToSend>)
    requires forall tx :: !T.Holds(queue, tx)
    ensures queue == []
  {
    assert queue != [] ==> T.Holds(queue, queue[0].tx);
  }

  lemma {:induction false} LoopKeeps(b: Bus, events: seq<MainLoopEvent>, limits: PR.Limits)
    requires BusInv(b, limits.maxReplies) && b.net.connections == map[] && AllPossible(b, events, limits)
    ensures Loop(b, events, limits).Some? && Quiet(Loop(b, events, limits).value, limits.maxReplies)
    decreases |events|
  {
    if events == [] {
      NothingQueued(b, limits.maxReplies);
    } else {
      TurnKeeps(b, events[0], limits);
      LoopKeeps(Turn(b, events[0], limits).value, events[1..], limits);
    }
  }

  /** The bus before its first event. */
  const STARTED := Bus(PR.EMPTY, T.IDLE)

  lemma BusStarts(limits: PR.Limits)
    requires limits.maxReplies >= 0
    ensures BusInv(STARTED, limits.maxReplies)
  {
  }

  /**
   From its start, whatever clients send, whatever the policies say, wherever memory runs out and whoever disconnects
   when: the bus fails no assertion on hooks and transactions, and between messages no transaction is open and no
   message waits in a queue; every pending reply is owned once, no two await the same reply, and no caller has more than
   the limit.
   */
  lemma EveryLoop(events: seq<MainLoopEvent>, limits: PR.Limits)
    requires limits.maxReplies >= 0 && AllPossible(STARTED, events, limits)
    ensures Loop(STARTED, events, limits).Some? && Quiet(Loop(STARTED, events, limits).value, limits.maxReplies)
  {
    BusStarts(limits);
    LoopKeeps(STARTED, events, limits);
  }

  // ---------------------------------------------------------------------------------------------
  // Calls and their replies, end to end

  /** The gate tells the policies that a reply is requested exactly when its call is outstanding. */
  lemma GateSaysRequested(r: PR.Replies, hooks: seq<PR.Hook>, sender: ConnId, receiver: ConnId, m: Message, v: Verdicts,
                          max: int)
    requires Proofs.Inv(r, Proofs.HeldBy(hooks), max)
    requires m.kind != Unknown && m.replySerial != 0 && v.selinuxAllows && v.senderActive && v.checkMemory
    ensures var g := Gate(r, hooks, Some(sender), Some(receiver), Some(receiver), m, v, max);
            g.requested <==> Proofs.Outstanding(r, ReplyKey(sender, receiver, m))
  {
    Proofs.CheckDecides(r, hooks, ReplyKey(sender, receiver, m), max);
  }

  lemma {:induction false} ListenersElsewhere(a: Attempt, tx: TxId, sender: Option<ConnId>, addressed: ConnId,
                                              m: Message, listeners: seq<Listener>, max: int)
    requires tx in a.net.connections && AllReach(a.net.queues.Keys, listeners) && addressed in a.net.queues
    requires forall l :: l in listeners ==> l.conn != addressed
    ensures SendToListeners(a, tx, sender, Some(addressed), m, listeners, max).net.queues[addressed]
         == a.net.queues[addressed]
    decreases |listeners|
  {
    if listeners != [] {
      assert listeners[0] in listeners;
      var one := SendOne(a, tx, sender, Some(addressed), m, listeners[0], max);
      if one.failure.None? { ListenersElsewhere(one, tx, sender, addressed, m, listeners[1..], max); }
    }
  }

  /** Whether the message gets as far as the addressed recipient's queue; a closed connection has none. */
  predicate Queued(b: Bus, e: Incoming, max: int) {
    && Gate(b.replies, [], Some(e.sender), e.addressed, e.addressed, e.m, e.v, max).failure.None?
    && !(e.m.hasFds && !e.link.takesFds) && e.link.connected && e.link.fault == T.NoFault
  }

  /** The messages an attempt queues for the addressed recipient: the message itself if it gets that far. */
  lemma AddressedGets(b: Bus, e: Incoming, max: int)
    requires T.Inv(b.net) && Possible(b, Received(e)) && e.addressed.Some?
    ensures var a := Attempted(b, e, max);
            && (e.addressed.value in b.net.queues ==>
                  T.MessagesOf(a.net.queues[e.addressed.value], e.tx) == (if Queued(b, e, max) then [e.m] else []))
            && (a.failure.None? && e.link.connected ==> Queued(b, e, max))
            && (Queued(b, e, max) ==> a.failure in {None, Some(OutOfMemory)})
  {
    var conn := e.addressed.value;
    if Queued(b, e, max) {
      QueuedFirst(b, e, max);
    } else {
      NotQueued(b, e, max);
    }
  }

  lemma NotQueued(b: Bus, e: Incoming, max: int)
    requires T.Inv(b.net) && Possible(b, Received(e)) && e.addressed.Some? && !Queued(b, e, max)
    ensures var a := Attempted(b, e, max);
            && (e.addressed.value in b.net.queues ==> T.MessagesOf(a.net.queues[e.addressed.value], e.tx) == [])
            && (a.failure.None? ==> !e.link.connected)
  {
    var conn := e.addressed.value;
    var begun := b.net.(connections := b.net.connections[e.tx := []]);
    var gate := Gate(b.replies, [], Some(e.sender), e.addressed, e.addressed, e.m, e.v, max);
    if conn in b.net.queues {
      T.Splits(b.net.queues[conn], e.tx);
      if !e.link.connected && gate.failure.None? && e.listeners.Some? {
        ListenersElsewhere(Attempt(gate.replies, gate.hooks, begun, None), e.tx, Some(e.sender), conn, e.m,
                           e.listeners.value, max);
      }
    }
  }

  lemma QueuedFirst(b: Bus, e: Incoming, max: int)
    requires T.Inv(b.net) && Possible(b, Received(e)) && e.addressed.Some? && Queued(b, e, max)
    ensures var a := Attempted(b, e, max);
            && T.MessagesOf(a.net.queues[e.addressed.value], e.tx) == [e.m]
            && a.failure in {None, Some(OutOfMemory)}
  {
    var conn := e.addressed.value;
    var begun := b.net.(connections := b.net.connections[e.tx := []]);
    T.Splits(b.net.queues[conn], e.tx);
    var gate := Gate(b.replies, [], Some(e.sender), e.addressed, e.addressed, e.m, e.v, max);
    var net := T.Send(begun, e.tx, conn, e.m, true, e.link.fault).0;
    assert ([T.ToSend(e.tx, e.m)] + b.net.queues[conn])[1..] == b.net.queues[conn];
    if e.listeners.Some? {
      var passed := Attempt(gate.replies, gate.hooks, net, None);
      ListenersElsewhere(passed, e.tx, Some(e.sender), conn, e.m, e.listeners.value, max);
      ListenersFail(passed, e.tx, Some(e.sender), e.addressed, e.m, e.listeners.value, max);
    }
  }

  /** Listeners can only make an attempt fail for lack of memory. */
  lemma {:induction false} ListenersFail(a: Attempt, tx: TxId, sender: Option<ConnId>, addressed: Option<ConnId>,
                                         m: Message, listeners: seq<Listener>, max: int)
    requires tx in a.net.connections && AllReach(a.net.queues.Keys, listeners) && a.failure.None?
    ensures SendToListeners(a, tx, sender, addressed, m, listeners, max).failure in {None, Some(OutOfMemory)}
    decreases |listeners|
  {
    if listeners != [] {
      var one := SendOne(a, tx, sender, addressed, m, listeners[0], max);
      if one.failure.None? { ListenersFail(one, tx, sender, addressed, m, listeners[1..], max); }
    }
  }

  /** The error that the sender is sent for a refusal, in the transaction of the message. */
  function ReportSent(b: Bus, e: Incoming, max: int): seq<Message>
    requires Possible(b, Received(e))
  {
    if Attempted(b, e, max).failure == Some(Refused) && e.answer.link.connected && e.answer.made && !e.answer.eaten
       && Ending(b, e, max).1
    then [ErrorFor(e.m, e.m.body)]
    else []
  }

  predicate Delivered(b: Bus, e: Incoming, max: int)
    requires Possible(b, Received(e))
  {
    Queued(b, e, max) && Ending(b, e, max).1
  }

  /** What a connection has queued once a failure is reported. */
  lemma ReportQueues(b: Bus, e: Incoming, max: int, conn: ConnId)
    requires T.Inv(b.net) && Possible(b, Received(e)) && conn in b.net.queues && Ending(b, e, max).1
    ensures T.MessagesOf(Ending(b, e, max).0.net.queues[conn], e.tx)
         == T.MessagesOf(Attempted(b, e, max).net.queues[conn], e.tx)
            + (if conn == e.sender then ReportSent(b, e, max) else [])
  {
    var (a, report) := (Attempted(b, e, max), ErrorFor(e.m, e.m.body));
    var queue := a.net.queues[conn];
    assert ([T.ToSend(e.tx, report)] + queue)[1..] == queue;
    match a.failure
    case None =>
    case Some(OutOfMemory) =>
    case Some(RefusedSilently) =>
    case Some(Refused) =>
  }

  /** Whoever has no queue is sent nothing. */
  lemma UnknownGetNothing(b: Bus, e: Incoming, max: int)
    requires Possible(b, Received(e)) && e.addressed.Some? && e.addressed.value !in b.net.queues
    ensures !Queued(b, e, max) && (e.addressed == Some(e.sender) ==> ReportSent(b, e, max) == [])
  {
  }

  /**
   A message reaches its recipient once if it was queued and its transaction is executed, and otherwise never; if both
   are still there, that is when it met no error.  Who sends to itself gets the error for a refusal as well.
   */
  lemma DeliveredOnce(b: Bus, e: Incoming, limits: PR.Limits)
    requires BusInv(b, limits.maxReplies) && Possible(b, Received(e)) && e.addressed.Some?
    ensures var b' := DispatchMessage(b, e, limits.maxReplies);
            && b'.Some?
            && T.Outbox(b'.value.net, e.addressed.value)
               == T.Outbox(b.net, e.addressed.value)
                  + (if Delivered(b, e, limits.maxReplies) then [e.m] else [])
                  + (if e.addressed == Some(e.sender) then ReportSent(b, e, limits.maxReplies) else [])
            && (e.answer.link.connected && e.link.connected ==>
                  (Delivered(b, e, limits.maxReplies) <==> Attempted(b, e, limits.maxReplies).failure.None?))
  {
    var (max, conn) := (limits.maxReplies, e.addressed.value);
    var ops := DispatchKeeps(b, e, limits);
    AddressedGets(b, e, max);
    var n' := DispatchMessage(b, e, max).value.net;
    var (open, commit) := (Ending(b, e, max).0.net, Ending(b, e, max).1);
    assert T.Outbox(n', conn) == T.Outbox(b.net, conn) + SentTo(open, e.tx, commit, conn);
    if conn !in b.net.queues {
      UnknownGetNothing(b, e, max);
    } else if commit {
      ReportQueues(b, e, max, conn);
      Regroup(T.Outbox(b.net, conn), T.MessagesOf(Attempted(b, e, max).net.queues[conn], e.tx),
              if conn == e.sender then ReportSent(b, e, max) else []);
    }
  }

  /** After a transaction, the calls outstanding are those it left if it was executed, and those before it if not. */
  lemma OutstandingAfter(r: PR.Replies, ops: seq<PR.ReplyOp>, commit: bool, limits: PR.Limits, key: PR.CallKey)
    requires Proofs.Inv(r, multiset{}, limits.maxReplies)
    ensures var s := PR.Step(r, PR.Transact(ops, commit), limits);
            && s.Some?
            && (Proofs.Outstanding(s.value, key)
                <==> Proofs.Outstanding(if commit then PR.ApplyAll(r, [], ops, limits.maxReplies).0 else r, key))
  {
    var (r', hooks) := PR.ApplyAll(r, [], ops, limits.maxReplies);
    if commit {
      Proofs.ApplyAllKeeps(r, [], ops, limits.maxReplies);
      Proofs.CommitKeeps(r', hooks, limits.maxReplies);
      var s := PR.Commit(r', hooks).value;
      Proofs.ListedAreLive(r', Proofs.HeldBy(hooks));
      forall id | id in r'.list ensures PR.Lookup(s.arena, id) == PR.Lookup(r'.arena, id) {
        assert id in multiset(r'.list);
        assert id !in Proofs.HeldBy(hooks);
      }
    } else {
      Proofs.CancelRestores(r, ops, limits.maxReplies);
      Proofs.SameOutstanding(r, PR.Step(r, PR.Transact(ops, false), limits).value, key);
    }
  }

  /** The pending replies when an addressed message is done with: what its gate left. */
  lemma MatchesReplies(a: Attempt, tx: TxId, sender: Option<ConnId>, conn: ConnId, m: Message, v: Verdicts, link: Link,
                       listeners: Option<seq<Listener>>, max: int)
    requires tx in a.net.connections && Reaches(a.net.queues.Keys, conn, link)
    requires listeners.Some? ==> AllReach(a.net.queues.Keys, listeners.value)
                                 && forall l :: l in listeners.value ==> l.conn != conn
    ensures var gate := Gate(a.replies, a.hooks, sender, Some(conn), Some(conn), m, v, max);
            var a' := DispatchMatches(a, tx, sender, Some(conn), m, v, link, listeners, max);
            a'.replies == gate.replies && a'.hooks == gate.hooks
  {
    var gate := Gate(a.replies, a.hooks, sender, Some(conn), Some(conn), m, v, max);
    if gate.failure.None? && !(m.hasFds && !link.takesFds) {
      var (net, ok) := T.Send(a.net, tx, conn, m, link.connected, link.fault);
      if ok && listeners.Some? {
        ListenersOnlyListen(Attempt(gate.replies, gate.hooks, net, None), tx, sender, Some(conn), m, listeners.value,
                            max);
      }
    }
  }

  lemma AttemptReplies(b: Bus, e: Incoming, max: int)
    requires Possible(b, Received(e)) && e.addressed.Some?
    ensures var gate := Gate(b.replies, [], Some(e.sender), e.addressed, e.addressed, e.m, e.v, max);
            var a := Attempted(b, e, max);
            a.replies == gate.replies && a.hooks == gate.hooks
  {
    var begun := b.net.(connections := b.net.connections[e.tx := []]);
    MatchesReplies(Attempt(b.replies, [], begun, None), e.tx, Some(e.sender), e.addressed.value, e.m, e.v, e.link,
                   e.listeners, max);
  }

  lemma PoliciesRecord(r: PR.Replies, hooks: seq<PR.Hook>, sender: ConnId, receiver: ConnId, m: Message, v: Verdicts,
                       max: int, requested: bool)
    requires Proofs.Inv(r, Proofs.HeldBy(hooks), max) && m.kind == MethodCall && !m.noReply
    ensures var g := Policies(r, hooks, Some(sender), Some(receiver), Some(receiver), m, v, max, requested);
            g.failure.None? ==> Proofs.Outstanding(g.replies, CallKeyOf(sender, receiver, m))
  {
    Proofs.ExpectDecides(r, hooks, CallKeyOf(sender, receiver, m), m.noReply, max, v.now, v.expectFault);
  }

  lemma GateRecords(r: PR.Replies, sender: ConnId, receiver: ConnId, m: Message, v: Verdicts, max: int)
    requires Proofs.Inv(r, multiset{}, max) && m.kind == MethodCall && !m.noReply && v.senderActive
    ensures var g := Gate(r, [], Some(sender), Some(receiver), Some(receiver), m, v, max);
            g.failure.None? ==> Proofs.Outstanding(g.replies, CallKeyOf(sender, receiver, m))
  {
    if m.replySerial != 0 {
      var key := ReplyKey(sender, receiver, m);
      var (r', hooks', result) := PR.Check(r, [], key, v.checkMemory);
      Proofs.ApplyKeeps(r, [], PR.CheckOp(key, v.checkMemory), max);
      PoliciesRecord(r', hooks', sender, receiver, m, v, max, result == PR.Requested);
    } else {
      PoliciesRecord(r, [], sender, receiver, m, v, max, false);
    }
  }

  /** A call that wants a reply, gets past the gate and is not cancelled is outstanding, delivered or not. */
  lemma CallIsRecorded(b: Bus, e: Incoming, limits: PR.Limits)
    requires BusInv(b, limits.maxReplies) && Possible(b, Received(e)) && e.addressed.Some?
    requires e.m.kind == MethodCall && !e.m.noReply && e.v.senderActive
    requires Gate(b.replies, [], Some(e.sender), e.addressed, e.addressed, e.m, e.v, limits.maxReplies).failure.None?
    requires Ending(b, e, limits.maxReplies).1
    ensures var b' := DispatchMessage(b, e, limits.maxReplies);
            b'.Some? && Proofs.Outstanding(b'.value.replies, CallKeyOf(e.sender, e.addressed.value, e.m))
  {
    var ops := DispatchKeeps(b, e, limits);
    AttemptReplies(b, e, limits.maxReplies);
    GateRecords(b.replies, e.sender, e.addressed.value, e.m, e.v, limits.maxReplies);
    OutstandingAfter(b.replies, ops, true, limits, CallKeyOf(e.sender, e.addressed.value, e.m));
  }

  lemma GateConsumes(r: PR.Replies, sender: ConnId, receiver: ConnId, m: Message, v: Verdicts, max: int)
    requires Proofs.Inv(r, multiset{}, max)
    requires m.kind in {MethodReturn, Error} && m.replySerial != 0 && v.selinuxAllows && v.senderActive && v.checkMemory
    ensures var g := Gate(r, [], Some(sender), Some(receiver), Some(receiver), m, v, max);
            !Proofs.Outstanding(g.replies, ReplyKey(sender, receiver, m)) && g.failure != Some(OutOfMemory)
  {
    Proofs.CheckDecides(r, [], ReplyKey(sender, receiver, m), max);
  }

  /** From a call to its reply: what a call leaves behind makes the gate take the callee's reply for a requested one. */
  lemma CallThenReply(b: Bus, call: Incoming, reply: Message, v: Verdicts, limits: PR.Limits)
    requires BusInv(b, limits.maxReplies) && Possible(b, Received(call)) && call.addressed.Some?
    requires call.m.kind == MethodCall && !call.m.noReply && call.v.senderActive
    requires Gate(b.replies, [], Some(call.sender), call.addressed, call.addressed, call.m, call.v,
                  limits.maxReplies).failure.None?
    requires Ending(b, call, limits.maxReplies).1
    requires reply.kind != Unknown && reply.replySerial == call.m.serial != 0
    requires v.selinuxAllows && v.senderActive && v.checkMemory
    ensures var b' := DispatchMessage(b, call, limits.maxReplies);
            var callee := call.addressed;
            b'.Some? && Gate(b'.value.replies, [], callee, Some(call.sender), Some(call.sender), reply, v,
                             limits.maxReplies).requested
  {
    CallIsRecorded(b, call, limits);
    var ops := DispatchKeeps(b, call, limits);
    var b' := DispatchMessage(b, call, limits.maxReplies).value;
    GateSaysRequested(b'.replies, [], call.addressed.value, call.sender, reply, v, limits.maxReplies);
  }
}
