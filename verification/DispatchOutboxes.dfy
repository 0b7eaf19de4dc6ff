/** What every connection is sent when a message is dispatched: the message, its copies for listeners, and a report. */
module DispatchOutboxes {
  import opened BusTypes
  import L = Lists
  import opened Dispatch
  import opened DispatchProofs
  import opened DispatchOutcomes
  import PR = PendingReplies
  import T = Transactions

  // ---------------------------------------------------------------------------------------------
  // On the inputs

  /** A listener is sent the message if it hears it and its connection is there. */
  predicate Gets(m: Message, l: Listener) {
    Hears(m, l) && l.link.connected
  }

  /** One copy for each time that a connection is listed and gets the message. */
  function Copies(m: Message, listeners: seq<Listener>, conn: ConnId): seq<Message> {
    if listeners == [] then []
    else (if listeners[0].conn == conn && Gets(m, listeners[0]) then [m] else []) + Copies(m, listeners[1..], conn)
  }

  /** How many listeners are served before memory fails; listed are the connections that hold the message already. */
  function Served(m: Message, listeners: seq<Listener>, listed: set<ConnId>): (k: nat)
    ensures k <= |listeners| && (k == |listeners| <==> MemoryLasts(m, listeners, listed))
    decreases |listeners|
  {
    if listeners == [] then 0
    else if !Gets(m, listeners[0]) then 1 + Served(m, listeners[1..], listed)
    else if QueueFails(listeners[0].link, listeners[0].conn in listed) then 0
    else 1 + Served(m, listeners[1..], listed + {listeners[0].conn})
  }

  /** The addressed recipient is sent the message. */
  ghost predicate ReachesRecipient(b: Bus, e: Incoming, max: int) {
    && e.addressed.Some? && Passes(b.replies, e.sender, e.addressed.value, e.m, e.v, max)
    && !UnwantedFds(e.m, e.link) && e.link.connected && e.link.fault == T.NoFault
  }

  /** The message comes as far as the listeners. */
  ghost predicate ReachesListeners(b: Bus, e: Incoming, max: int) {
    && e.listeners.Some?
    && (e.addressed.Some? ==>
          && Passes(b.replies, e.sender, e.addressed.value, e.m, e.v, max) && !UnwantedFds(e.m, e.link)
          && (e.link.connected ==> e.link.fault == T.NoFault))
  }

  ghost function Holding(b: Bus, e: Incoming, max: int): set<ConnId> {
    if ReachesRecipient(b, e, max) then {e.addressed.value} else {}
  }

  /** The listeners that are served. */
  ghost function ServedListeners(b: Bus, e: Incoming, max: int): seq<Listener> {
    if ReachesListeners(b, e, max)
    then e.listeners.value[..Served(e.m, e.listeners.value, Holding(b, e, max))]
    else []
  }

  /** Why the dispatch of the message fails. */
  ghost function FailureOf(b: Bus, e: Incoming, max: int): Option<Failure> {
    if e.addressed.Some? && Silent(b.replies, e.sender, e.addressed.value, e.m, e.v) then Some(RefusedSilently)
    else if e.addressed.Some? && AloudOrFds(b.replies, e.sender, e.addressed.value, e.m, e.v, e.link, max) then
      Some(Refused)
    else if ReachesListeners(b, e, max) && MemoryLasts(e.m, e.listeners.value, Holding(b, e, max)) then None
    else Some(OutOfMemory)
  }

  /** The transaction is executed: no failure, a silent one, one whose report gets out, or any if the sender is gone. */
  ghost predicate IsExecuted(b: Bus, e: Incoming, max: int) {
    var failure := FailureOf(b, e, max);
    || failure in {None, Some(RefusedSilently)} || !e.answer.link.connected
    || (failure == Some(Refused) && ReportGetsOut(e.answer))
  }

  /** A refusal is reported by an error that replies to the message. */
  ghost function ReportTo(b: Bus, e: Incoming, max: int, conn: ConnId): seq<Message> {
    if conn == e.sender && FailureOf(b, e, max) == Some(Refused) && e.answer.link.connected && !e.answer.eaten
    then [Message(Error, 0, e.m.serial, true, false, e.m.body)]
    else []
  }

  ghost function SentAbout(b: Bus, e: Incoming, max: int, conn: ConnId): seq<Message> {
    (if e.addressed == Some(conn) && ReachesRecipient(b, e, max) then [e.m] else [])
    + Copies(e.m, ServedListeners(b, e, max), conn) + ReportTo(b, e, max, conn)
  }

  // ---------------------------------------------------------------------------------------------
  // Listeners

  /** The transaction holds these messages more for a connection. */
  ghost predicate GainsInTx(n: T.Net, n': T.Net, tx: TxId, conn: ConnId, more: seq<Message>) {
    conn in n.queues && conn in n'.queues
    && T.MessagesOf(n'.queues[conn], tx) == T.MessagesOf(n.queues[conn], tx) + more
  }

  lemma GainsTwice(n: T.Net, n1: T.Net, n2: T.Net, tx: TxId, conn: ConnId, first: seq<Message>, more: seq<Message>)
    requires GainsInTx(n, n1, tx, conn, first) && GainsInTx(n1, n2, tx, conn, more)
    ensures GainsInTx(n, n2, tx, conn, first + more)
  {
    L.Regroup(T.MessagesOf(n.queues[conn], tx), first, more);
  }

  lemma SendGains(n: T.Net, tx: TxId, to: ConnId, m: Message, link: Link, conn: ConnId)
    requires tx in n.connections && Reaches(n.queues.Keys, to, link) && conn in n.queues
    ensures var (n', ok) := T.Send(n, tx, to, m, link.connected, link.fault);
            GainsInTx(n, n', tx, conn, if ok && link.connected && conn == to then [m] else [])
  {
    if link.connected { assert ([T.ToSend(tx, m)] + n.queues[to])[1..] == n.queues[to]; }
  }

  lemma ListenerGains(a: Attempt, tx: TxId, sender: ConnId, addressed: Option<ConnId>, m: Message, l: Listener,
                      max: int, conn: ConnId)
    requires tx in a.net.connections && Reaches(a.net.queues.Keys, l.conn, l.link) && addressed != Some(l.conn)
    requires conn in a.net.queues
    ensures var one := SendOne(a, tx, Some(sender), addressed, m, l, max);
            GainsInTx(a.net, one.net, tx, conn,
                      if one.failure.None? && l.conn == conn && Gets(m, l) then [m] else [])
  {
    SendGains(a.net, tx, l.conn, m, l.link, conn);
  }

  lemma CopiesFirst(m: Message, listeners: seq<Listener>, k: nat, conn: ConnId)
    requires 0 < k <= |listeners|
    ensures Copies(m, listeners[..k], conn)
         == (if listeners[0].conn == conn && Gets(m, listeners[0]) then [m] else [])
            + Copies(m, listeners[1..][..k - 1], conn)
  {
    assert listeners[..k][1..] == listeners[1..][..k - 1];
  }

  /** One listener that is served, and then the rest. */
  lemma FirstServed(m: Message, listeners: seq<Listener>, listed: set<ConnId>, conn: ConnId)
    requires listeners != [] && !(Gets(m, listeners[0]) && QueueFails(listeners[0].link, listeners[0].conn in listed))
    ensures var l := listeners[0];
            var rest := Served(m, listeners[1..], if Gets(m, l) then listed + {l.conn} else listed);
            && Served(m, listeners, listed) == 1 + rest
            && Copies(m, listeners[..1 + rest], conn)
               == (if l.conn == conn && Gets(m, l) then [m] else []) + Copies(m, listeners[1..][..rest], conn)
  {
    CopiesFirst(m, listeners, Served(m, listeners, listed), conn);
  }

  /** Each connection gains one copy for each time that it is listed, is served and gets the message. */
  lemma {:induction false} ListenersGain(a: Attempt, tx: TxId, sender: ConnId, addressed: Option<ConnId>, m: Message,
                                         listeners: seq<Listener>, max: int, listed: set<ConnId>, conn: ConnId)
    requires tx in a.net.connections && AllReach(a.net.queues.Keys, listeners)
    requires DispatchOutcomes.Lists(a.net, tx, listed)
    requires a.failure.None? && conn in a.net.queues && forall l :: l in listeners ==> addressed != Some(l.conn)
    ensures GainsInTx(a.net, SendToListeners(a, tx, Some(sender), addressed, m, listeners, max).net, tx, conn,
                      Copies(m, listeners[..Served(m, listeners, listed)], conn))
    decreases |listeners|
  {
    if listeners != [] {
      var (l, rest) := (listeners[0], listeners[1..]);
      assert l in listeners;
      ListenerDecides(a, tx, sender, addressed, m, l, max, listed);
      ListenerGains(a, tx, sender, addressed, m, l, max, conn);
      var one := SendOne(a, tx, Some(sender), addressed, m, l, max);
      if one.failure.None? {
        var listed' := if Gets(m, l) then listed + {l.conn} else listed;
        FirstServed(m, listeners, listed, conn);
        ListenersGain(one, tx, sender, addressed, m, rest, max, listed', conn);
        GainsTwice(a.net, one.net, SendToListeners(one, tx, Some(sender), addressed, m, rest, max).net, tx, conn,
                   if l.conn == conn && Gets(m, l) then [m] else [], Copies(m, rest[..Served(m, rest, listed')], conn));
      }
    }
  }

  // ---------------------------------------------------------------------------------------------
  // The whole dispatch

  function Begun(b: Bus, e: Incoming): Attempt {
    Attempt(b.replies, [], b.net.(connections := b.net.connections[e.tx := []]), None)
  }

  /** What the attempt holds for a connection. */
  ghost predicate AttemptHolds(b: Bus, e: Incoming, max: int, conn: ConnId)
    requires Possible(b, Received(e))
  {
    GainsInTx(Begun(b, e).net, Attempted(b, e, max).net, e.tx, conn,
              (if e.addressed == Some(conn) && ReachesRecipient(b, e, max) then [e.m] else [])
              + Copies(e.m, ServedListeners(b, e, max), conn))
  }

  /** A signal, for nobody in particular. */
  lemma BroadcastHolds(b: Bus, e: Incoming, max: int, conn: ConnId)
    requires T.Inv(b.net) && Possible(b, Received(e)) && e.addressed.None? && conn in b.net.queues
    ensures AttemptHolds(b, e, max, conn)
  {
    var begun := Begun(b, e);
    assert DispatchOutcomes.Lists(begun.net, e.tx, {});
    if e.listeners.Some? {
      ListenersGain(begun, e.tx, e.sender, None, e.m, e.listeners.value, max, {}, conn);
    }
    var copies := Copies(e.m, ServedListeners(b, e, max), conn);
    assert [] + copies == copies;
  }

  lemma BroadcastFails(b: Bus, e: Incoming, max: int)
    requires T.Inv(b.net) && Possible(b, Received(e)) && e.addressed.None?
    ensures Attempted(b, e, max).failure == FailureOf(b, e, max)
  {
    var begun := Begun(b, e);
    assert DispatchOutcomes.Lists(begun.net, e.tx, {});
    if e.listeners.Some? {
      ListenersDecide(begun, e.tx, e.sender, None, e.m, e.listeners.value, max, {});
      ListenersFail(begun, e.tx, Some(e.sender), None, e.m, e.listeners.value, max);
    }
  }

  /** The addressed recipient first. */
  lemma RecipientListed(b: Bus, e: Incoming, max: int)
    requires T.Inv(b.net) && Possible(b, Received(e)) && e.addressed.Some?
    requires Passes(b.replies, e.sender, e.addressed.value, e.m, e.v, max) && !UnwantedFds(e.m, e.link)
    ensures var (net, ok) := T.Send(Begun(b, e).net, e.tx, e.addressed.value, e.m, e.link.connected, e.link.fault);
            && (ok <==> (e.link.connected ==> e.link.fault == T.NoFault))
            && (ok ==> DispatchOutcomes.Lists(net, e.tx, Holding(b, e, max)))
  {
    var (begun, to) := (Begun(b, e).net, e.addressed.value);
    assert DispatchOutcomes.Lists(begun, e.tx, {});
    if e.link.connected {
      var queue := [T.ToSend(e.tx, e.m)] + begun.queues[to];
      assert queue[1..] == begun.queues[to] && queue[0].tx == e.tx;
    }
  }

  /** A message that passes the gate goes to its recipient and then to the listeners. */
  lemma PassedHolds(b: Bus, e: Incoming, max: int, conn: ConnId)
    requires BusInv(b, max) && Possible(b, Received(e)) && e.addressed.Some? && conn in b.net.queues
    requires Passes(b.replies, e.sender, e.addressed.value, e.m, e.v, max) && !UnwantedFds(e.m, e.link)
    ensures AttemptHolds(b, e, max, conn)
  {
    var (begun, to) := (Begun(b, e), e.addressed.value);
    GateDecides(b.replies, [], e.sender, to, e.m, e.v, max);
    RecipientListed(b, e, max);
    SendGains(begun.net, e.tx, to, e.m, e.link, conn);
    var gate := Gate(b.replies, [], Some(e.sender), e.addressed, e.addressed, e.m, e.v, max);
    var (net, ok) := T.Send(begun.net, e.tx, to, e.m, e.link.connected, e.link.fault);
    var first := if e.addressed == Some(conn) && ReachesRecipient(b, e, max) then [e.m] else [];
    if ok && e.listeners.Some? {
      ListenersGain(Attempt(gate.replies, gate.hooks, net, None), e.tx, e.sender, e.addressed, e.m, e.listeners.value,
                    max, Holding(b, e, max), conn);
      GainsTwice(begun.net, net, Attempted(b, e, max).net, e.tx, conn, first,
                 Copies(e.m, ServedListeners(b, e, max), conn));
    } else {
      assert first + [] == first;
    }
  }

  lemma PassedFails(b: Bus, e: Incoming, max: int)
    requires BusInv(b, max) && Possible(b, Received(e)) && e.addressed.Some?
    requires Passes(b.replies, e.sender, e.addressed.value, e.m, e.v, max) && !UnwantedFds(e.m, e.link)
    ensures Attempted(b, e, max).failure == FailureOf(b, e, max)
  {
    var (begun, to) := (Begun(b, e), e.addressed.value);
    GateDecides(b.replies, [], e.sender, to, e.m, e.v, max);
    RecipientListed(b, e, max);
    var gate := Gate(b.replies, [], Some(e.sender), e.addressed, e.addressed, e.m, e.v, max);
    var (net, ok) := T.Send(begun.net, e.tx, to, e.m, e.link.connected, e.link.fault);
    if ok && e.listeners.Some? {
      var passed := Attempt(gate.replies, gate.hooks, net, None);
      ListenersDecide(passed, e.tx, e.sender, e.addressed, e.m, e.listeners.value, max, Holding(b, e, max));
      ListenersFail(passed, e.tx, Some(e.sender), e.addressed, e.m, e.listeners.value, max);
    }
  }

  /** A message that does not is queued nowhere. */
  lemma StoppedRight(b: Bus, e: Incoming, max: int)
    requires BusInv(b, max) && Possible(b, Received(e)) && e.addressed.Some?
    requires !Passes(b.replies, e.sender, e.addressed.value, e.m, e.v, max) || UnwantedFds(e.m, e.link)
    ensures Attempted(b, e, max).failure == FailureOf(b, e, max)
    ensures Attempted(b, e, max).net == Begun(b, e).net && ServedListeners(b, e, max) == []
  {
    GateDecides(b.replies, [], e.sender, e.addressed.value, e.m, e.v, max);
  }

  lemma AttemptsHold(b: Bus, e: Incoming, max: int, conn: ConnId)
    requires BusInv(b, max) && Possible(b, Received(e)) && conn in b.net.queues
    ensures AttemptHolds(b, e, max, conn)
  {
    if e.addressed.None? {
      BroadcastHolds(b, e, max, conn);
    } else if Passes(b.replies, e.sender, e.addressed.value, e.m, e.v, max) && !UnwantedFds(e.m, e.link) {
      PassedHolds(b, e, max, conn);
    } else {
      StoppedRight(b, e, max);
    }
  }

  lemma AttemptsFail(b: Bus, e: Incoming, max: int)
    requires BusInv(b, max) && Possible(b, Received(e))
    ensures Attempted(b, e, max).failure == FailureOf(b, e, max)
  {
    if e.addressed.None? {
      BroadcastFails(b, e, max);
    } else if Passes(b.replies, e.sender, e.addressed.value, e.m, e.v, max) && !UnwantedFds(e.m, e.link) {
      PassedFails(b, e, max);
    } else {
      StoppedRight(b, e, max);
    }
  }

  // ---------------------------------------------------------------------------------------------
  // In the outboxes

  lemma EndsAs(b: Bus, e: Incoming, max: int)
    requires BusInv(b, max) && Possible(b, Received(e))
    ensures Ending(b, e, max).1 <==> IsExecuted(b, e, max)
  {
    AttemptsFail(b, e, max);
    if Attempted(b, e, max).failure == Some(Refused) {
      StoppedRight(b, e, max);
      if e.answer.link.connected { assert !T.Holds(b.net.queues[e.sender], e.tx); }
    }
  }

  /** A refused message has left nothing queued, so that its report is queued if there is memory for that. */
  lemma ReportGains(b: Bus, e: Incoming, max: int, conn: ConnId)
    requires BusInv(b, max) && Possible(b, Received(e)) && conn in b.net.queues && Ending(b, e, max).1
    ensures GainsInTx(Attempted(b, e, max).net, Ending(b, e, max).0.net, e.tx, conn, ReportTo(b, e, max, conn))
  {
    var a := Attempted(b, e, max);
    AttemptsFail(b, e, max);
    if a.failure == Some(Refused) {
      StoppedRight(b, e, max);
      if e.answer.link.connected {
        SendGains(a.net, e.tx, e.sender, Message(Error, 0, e.m.serial, true, false, e.m.body), e.answer.link, conn);
      }
    }
  }

  /** Whoever has no queue is sent nothing. */
  lemma {:induction false} NoCopies(known: set<ConnId>, m: Message, listeners: seq<Listener>, conn: ConnId)
    requires conn !in known && AllReach(known, listeners)
    ensures Copies(m, listeners, conn) == []
  {
    if listeners != [] {
      assert listeners[0] in listeners;
      NoCopies(known, m, listeners[1..], conn);
    }
  }

  lemma NothingUnknown(b: Bus, e: Incoming, max: int, conn: ConnId)
    requires Possible(b, Received(e)) && conn !in b.net.queues
    ensures SentAbout(b, e, max, conn) == []
  {
    if ReachesListeners(b, e, max) {
      var served := ServedListeners(b, e, max);
      assert forall l :: l in served ==> l in e.listeners.value;
      NoCopies(b.net.queues.Keys, e.m, served, conn);
    }
  }

  /**
   What a message adds to every outbox, if its transaction is executed: for the recipient that it addresses, the message
   if it reaches it; for any other connection, the message once for each time that it is listed, hears it and is
   connected, as far as memory lasts; for the sender, an error that replies to the message, if it was refused aloud; and
   nothing else.  If the transaction is cancelled, nothing is added.
   */
  lemma DispatchSends(b: Bus, e: Incoming, limits: PR.Limits, conn: ConnId)
    requires BusInv(b, limits.maxReplies) && Possible(b, Received(e))
    ensures var b' := DispatchMessage(b, e, limits.maxReplies);
            && b'.Some?
            && T.Outbox(b'.value.net, conn)
               == T.Outbox(b.net, conn)
                  + if IsExecuted(b, e, limits.maxReplies) then SentAbout(b, e, limits.maxReplies, conn) else []
  {
    var max := limits.maxReplies;
    var ops := DispatchKeeps(b, e, limits);
    var (open, commit) := (Ending(b, e, max).0.net, Ending(b, e, max).1);
    EndsAs(b, e, max);
    var n' := DispatchMessage(b, e, max).value.net;
    assert T.Outbox(n', conn) == T.Outbox(b.net, conn) + SentTo(open, e.tx, commit, conn);
    if conn !in b.net.queues {
      NothingUnknown(b, e, max, conn);
    } else if commit {
      HoldsAbout(b, e, max, conn);
    }
  }

  /** What the transaction holds for a connection when it is executed. */
  lemma HoldsAbout(b: Bus, e: Incoming, max: int, conn: ConnId)
    requires BusInv(b, max) && Possible(b, Received(e)) && conn in b.net.queues && Ending(b, e, max).1
    ensures var open := Ending(b, e, max).0.net;
            conn in open.queues && T.MessagesOf(open.queues[conn], e.tx) == SentAbout(b, e, max, conn)
  {
    var begun := Begun(b, e).net;
    AttemptsHold(b, e, max, conn);
    ReportGains(b, e, max, conn);
    GainsTwice(begun, Attempted(b, e, max).net, Ending(b, e, max).0.net, e.tx, conn,
               (if e.addressed == Some(conn) && ReachesRecipient(b, e, max) then [e.m] else [])
               + Copies(e.m, ServedListeners(b, e, max), conn),
               ReportTo(b, e, max, conn));
    T.Splits(b.net.queues[conn], e.tx);
    assert T.MessagesOf(begun.queues[conn], e.tx) == [];
  }

  // ---------------------------------------------------------------------------------------------
  // A signal

  const SIGNAL := Message(Signal, 9, 0, true, false, "Changed")

  const ALLOWED := Verdicts(true, true, false, Policy(true, true), Policy(true, true), false, true, PR.AllSucceed, 2)

  const BROADCAST :=
    Incoming(4, 1, None, SIGNAL, ALLOWED, GOOD_LINK, Some([Listener(0, ALLOWED, GOOD_LINK)]),
             Answer(true, false, GOOD_LINK))

  /** Client 1 sends a signal, and client 0, who listens, is sent that signal. */
  lemma SignalArrives()
    ensures var b := Bus(PR.EMPTY, TWO_CLIENTS);
            && BusInv(b, 1) && Possible(b, Received(BROADCAST))
            && var b' := DispatchMessage(b, BROADCAST, 1);
            b'.Some? && T.Outbox(b'.value.net, 0) == [SIGNAL] && T.Outbox(b'.value.net, 1) == []
  {
    var b := Bus(PR.EMPTY, TWO_CLIENTS);
    TwoClientsRight(PR.EMPTY);
    SignalSent(b, 0);
    SignalSent(b, 1);
    DispatchSends(b, BROADCAST, ONE_CALL, 0);
    DispatchSends(b, BROADCAST, ONE_CALL, 1);
  }

  lemma SignalSent(b: Bus, conn: ConnId)
    ensures IsExecuted(b, BROADCAST, 1) && SentAbout(b, BROADCAST, 1, conn) == if conn == 0 then [SIGNAL] else []
  {
    var listeners := BROADCAST.listeners.value;
    assert listeners[1..] == [] && listeners[..1] == listeners && Gets(SIGNAL, listeners[0]);
    assert MemoryLasts(SIGNAL, listeners[1..], {} + {0});
    assert MemoryLasts(SIGNAL, listeners, {});
    assert Copies(SIGNAL, [], conn) == [];
  }
}
