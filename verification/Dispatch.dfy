/**
 One message through the bus: the security gate of bus.c, which consumes and records pending replies, and the
 transaction that dispatch.c wraps around it.
 */
module Dispatch {
  import opened BusTypes
  import PR = PendingReplies
  import T = Transactions

  /** What a client policy says of a message, as a requested reply and otherwise. */
  datatype Policy = Policy(asRequested: bool, otherwise: bool) {
    predicate Allows(requested: bool) {
      if requested then asRequested else otherwise
    }
  }

  /** What the policies, SELinux and the recipient's queue say of one delivery, and where memory fails. */
  datatype Verdicts = Verdicts(selinuxAllows: bool, senderActive: bool, isHello: bool,
                               canSend: Policy, canReceive: Policy, queueFull: bool,
                               checkMemory: bool, expectFault: PR.ExpectFault, now: Time)

  /** The pending replies, the cancel hooks of the transaction, and the error if there is one. */
  datatype GateResult = GateResult(replies: PR.Replies, hooks: seq<PR.Hook>, requested: bool, failure: Option<Failure>)

  /** The reply that `bus_connections_check_reply` is asked about. */
  function ReplyKey(sender: ConnId, receiver: ConnId, m: Message): PR.CallKey {
    PR.CallKey(receiver, sender, m.replySerial)
  }

  function CallKeyOf(sender: ConnId, receiver: ConnId, m: Message): PR.CallKey {
    PR.CallKey(sender, receiver, m.serial)
  }

  /**
   `bus_context_check_security_policy`.  No sender and no proposed recipient mean the bus driver; the proposed
   recipient of an eavesdropped delivery is not the addressed one.
   */
  function Gate(r: PR.Replies, hooks: seq<PR.Hook>, sender: Option<ConnId>, addressed: Option<ConnId>,
                proposed: Option<ConnId>, m: Message, v: Verdicts, max: int): GateResult
  {
    if m.kind == Unknown then GateResult(r, hooks, false, Some(Refused))
    else if sender.None? then Policies(r, hooks, sender, addressed, proposed, m, v, max,
                                       addressed == proposed && m.replySerial != 0)
    else if !v.selinuxAllows then GateResult(r, hooks, false, Some(Refused))
    else if !v.senderActive then
      GateResult(r, hooks, false, if proposed.None? && v.isHello then None else Some(Refused))
    else if m.replySerial != 0 && proposed.Some? && addressed == proposed then
      var (r', hooks', result) := PR.Check(r, hooks, ReplyKey(sender.value, proposed.value, m), v.checkMemory);
      if result == PR.CheckOutOfMemory then GateResult(r', hooks', false, Some(OutOfMemory))
      else Policies(r', hooks', sender, addressed, proposed, m, v, max, result == PR.Requested)
    else Policies(r, hooks, sender, addressed, proposed, m, v, max, false)
  }

  /**
   The rest of the gate, once it is known whether the message is a requested reply.  The receive policy complains to
   nobody: it refuses without setting the error.
   */
  function Policies(r: PR.Replies, hooks: seq<PR.Hook>, sender: Option<ConnId>, addressed: Option<ConnId>,
                    proposed: Option<ConnId>, m: Message, v: Verdicts, max: int, requested: bool): GateResult
  {
    if sender.Some? && !v.canSend.Allows(requested) then GateResult(r, hooks, requested, Some(Refused))
    else if proposed.Some? && !v.canReceive.Allows(requested) then
      GateResult(r, hooks, requested, Some(RefusedSilently))
    else if proposed.Some? && v.queueFull then GateResult(r, hooks, requested, Some(Refused))
    else if m.kind == MethodCall && sender.Some? && addressed.Some? && addressed == proposed then
      var (r', hooks', result) :=
        PR.Expect(r, hooks, CallKeyOf(sender.value, addressed.value, m), m.noReply, max, v.now, v.expectFault);
      GateResult(r', hooks', requested,
                 if result in {PR.NotWanted, PR.Recorded} then None
                 else if result == PR.ExpectOutOfMemory then Some(OutOfMemory) else Some(Refused))
    else GateResult(r, hooks, requested, None)
  }

  // ---------------------------------------------------------------------------------------------
  // A transaction

  /** A connection with a matching rule, other than the addressed recipient. */
  datatype Listener = Listener(conn: ConnId, verdicts: Verdicts, link: Link)

  /** The state of a recipient's connection and where queueing on it fails. */
  datatype Link = Link(connected: bool, takesFds: bool, fault: T.SendFault)

  datatype Attempt = Attempt(replies: PR.Replies, hooks: seq<PR.Hook>, net: T.Net, failure: Option<Failure>)

  /** A connected connection has bus data, so that messages can be queued on it. */
  predicate Reaches(known: set<ConnId>, conn: ConnId, link: Link) {
    link.connected ==> conn in known
  }

  predicate AllReach(known: set<ConnId>, listeners: seq<Listener>) {
    forall l :: l in listeners ==> Reaches(known, l.conn, l.link)
  }

  /** `send_one_message`; a refusal only skips the listener. */
  function SendOne(a: Attempt, tx: TxId, sender: Option<ConnId>, addressed: Option<ConnId>, m: Message, l: Listener,
                   max: int): (r: Attempt)
    requires tx in a.net.connections && Reaches(a.net.queues.Keys, l.conn, l.link)
    ensures r.net.queues.Keys == a.net.queues.Keys && r.net.connections.Keys == a.net.connections.Keys
  {
    var gate := Gate(a.replies, a.hooks, sender, addressed, Some(l.conn), m, l.verdicts, max);
    if gate.failure.Some? || (m.hasFds && !l.link.takesFds) then Attempt(gate.replies, gate.hooks, a.net, None)
    else
      var (net, ok) := T.Send(a.net, tx, l.conn, m, l.link.connected, l.link.fault);
      Attempt(gate.replies, gate.hooks, net, if ok then None else Some(OutOfMemory))
  }

  /** The listeners in turn, up to the first failure. */
  function SendToListeners(a: Attempt, tx: TxId, sender: Option<ConnId>, addressed: Option<ConnId>, m: Message,
                           listeners: seq<Listener>, max: int): (r: Attempt)
    requires tx in a.net.connections && AllReach(a.net.queues.Keys, listeners)
    ensures r.net.queues.Keys == a.net.queues.Keys && r.net.connections.Keys == a.net.connections.Keys
    decreases |listeners|
  {
    if listeners == [] then a
    else
      var one := SendOne(a, tx, sender, addressed, m, listeners[0], max);
      if one.failure.Some? then one else SendToListeners(one, tx, sender, addressed, m, listeners[1..], max)
  }

  /** `bus_dispatch_matches`: None for listeners is a failure to list them. */
  function DispatchMatches(a: Attempt, tx: TxId, sender: Option<ConnId>, addressed: Option<ConnId>, m: Message,
                           v: Verdicts, link: Link, listeners: Option<seq<Listener>>, max: int): (r: Attempt)
    ensures r.net.queues.Keys == a.net.queues.Keys && r.net.connections.Keys == a.net.connections.Keys
    requires tx in a.net.connections && (addressed.Some? ==> Reaches(a.net.queues.Keys, addressed.value, link))
    requires listeners.Some? ==> AllReach(a.net.queues.Keys, listeners.value)
  {
    if addressed.None? then
      if listeners.None? then a.(failure := Some(OutOfMemory))
      else SendToListeners(a, tx, sender, addressed, m, listeners.value, max)
    else
      var gate := Gate(a.replies, a.hooks, sender, addressed, addressed, m, v, max);
      var passed := a.(replies := gate.replies, hooks := gate.hooks, failure := gate.failure);
      if gate.failure.Some? then passed
      else if m.hasFds && !link.takesFds then passed.(failure := Some(Refused))
      else
        var (net, ok) := T.Send(a.net, tx, addressed.value, m, link.connected, link.fault);
        if !ok || listeners.None? then passed.(net := net, failure := Some(OutOfMemory))
        else SendToListeners(passed.(net := net), tx, sender, addressed, m, listeners.value, max)
  }

  /** Whether a message of the driver's is made, whether the receiver's policy eats it, and its way there. */
  datatype Answer = Answer(made: bool, eaten: bool, link: Link)

  /** A message of the driver's own: made, then `bus_transaction_send_from_driver`. */
  function FromDriver(n: T.Net, tx: TxId, conn: ConnId, m: Message, answer: Answer): (T.Net, bool)
    requires tx in n.connections && Reaches(n.queues.Keys, conn, answer.link)
  {
    if !answer.made then (n, false)
    else if answer.eaten then (n, true)
    else T.Send(n, tx, conn, m, answer.link.connected, answer.link.fault)
  }

  /** The error that `bus_transaction_send_error_reply` makes of a message. */
  function ErrorFor(m: Message, how: string): Message {
    Message(Error, 0, m.serial, true, false, how)
  }

  datatype Bus = Bus(replies: PR.Replies, net: T.Net)

  /** A message from `sender` for `addressed` (a named service), or for nobody in particular (a signal). */
  datatype Incoming = Incoming(tx: TxId, sender: ConnId, addressed: Option<ConnId>, m: Message, v: Verdicts, link: Link,
                               listeners: Option<seq<Listener>>, answer: Answer)

  function Attempted(b: Bus, e: Incoming, max: int): (r: Attempt)
    ensures r.net.queues.Keys == b.net.queues.Keys && r.net.connections.Keys == b.net.connections.Keys + {e.tx}
    requires e.tx !in b.net.connections
    requires e.addressed.Some? ==> Reaches(b.net.queues.Keys, e.addressed.value, e.link)
    requires e.listeners.Some? ==> AllReach(b.net.queues.Keys, e.listeners.value)
  {
    var begun := b.net.(connections := b.net.connections[e.tx := []]);
    DispatchMatches(Attempt(b.replies, [], begun, None), e.tx, Some(e.sender), e.addressed, e.m, e.v, e.link,
                    e.listeners, max)
  }

  /** End the transaction; None is a failed assertion of the source. */
  function Conclude(a: Attempt, tx: TxId, commit: bool): Option<Bus> {
    var replies := if commit then PR.Commit(a.replies, a.hooks) else PR.Cancel(a.replies, a.hooks);
    if replies.None? || tx !in a.net.connections
       || exists c :: c in a.net.connections[tx] && c !in a.net.queues
    then None
    else Some(Bus(replies.value, if commit then T.ExecuteTx(a.net, tx) else T.CancelTx(a.net, tx)))
  }

  /**
   What `bus_dispatch` makes of a failure, and whether it then executes the transaction.  Only an error for lack of
   memory cancels it, and only if the sender is still connected; any other error is reported in it.  A failure without
   an error is taken for success.
   */
  function Report(a: Attempt, e: Incoming): (Attempt, bool)
    requires e.tx in a.net.connections && Reaches(a.net.queues.Keys, e.sender, e.answer.link)
  {
    if a.failure in {None, Some(RefusedSilently)} || !e.answer.link.connected then (a, true)
    else if a.failure == Some(OutOfMemory) then (a, false)
    else
      var (net, ok) := FromDriver(a.net, e.tx, e.sender, ErrorFor(e.m, e.m.body), e.answer); (a.(net := net), ok)
  }

  /** `bus_dispatch` from the point where the recipient is known. */
  function DispatchMessage(b: Bus, e: Incoming, max: int): Option<Bus>
    requires e.tx !in b.net.connections && Reaches(b.net.queues.Keys, e.sender, e.answer.link)
    requires e.addressed.Some? ==> Reaches(b.net.queues.Keys, e.addressed.value, e.link)
    requires e.listeners.Some? ==> AllReach(b.net.queues.Keys, e.listeners.value)
  {
    var (a, commit) := Report(Attempted(b, e, max), e); Conclude(a, e.tx, commit)
  }

  // ---------------------------------------------------------------------------------------------
  // The main loop

  datatype MainLoopEvent =
    | Connected(conn: ConnId)
    | Received(e: Incoming)
    | Disconnected(conn: ConnId)
    | Expired(now: Time, budget: nat)

  /** The event's own assumptions: connections and transactions are what the caller says they are. */
  predicate Possible(b: Bus, ev: MainLoopEvent) {
    match ev
    case Connected(conn) => conn !in b.net.queues
    case Received(e) =>
      && e.tx !in b.net.connections && Reaches(b.net.queues.Keys, e.sender, e.answer.link)
      && (e.addressed.Some? ==> Reaches(b.net.queues.Keys, e.addressed.value, e.link))
      && (e.listeners.Some? ==> AllReach(b.net.queues.Keys, e.listeners.value)
                                && forall l :: l in e.listeners.value ==> e.addressed != Some(l.conn))
    case Disconnected(conn) => conn in b.net.queues
    case Expired(_, _) => true
  }

  /** One turn of the main loop; None is a failed assertion of the source. */
  function Turn(b: Bus, ev: MainLoopEvent, limits: PR.Limits): Option<Bus>
    requires Possible(b, ev)
  {
    match ev
    case Connected(conn) => Some(b.(net := b.net.(queues := b.net.queues[conn := []])))
    case Received(e) => DispatchMessage(b, e, limits.maxReplies)
    case Disconnected(conn) =>
      if exists m :: m in b.net.queues[conn] && m.tx !in b.net.connections then None
      else
        var net := T.DropMessages(b.net, conn);
        Some(Bus(PR.DropFrom(b.replies, 0, conn), net.(queues := net.queues - {conn})))
    case Expired(now, budget) =>
      Some(b.(replies := PR.ExpireFrom(b.replies, 0, now, limits.timeout, budget)))
  }
}
