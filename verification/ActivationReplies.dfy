/**
 What the requests that wait for a service are told: that it came, in the transaction that brings it, or that it failed,
 in a transaction of its own that is tried until memory suffices.
 */
module ActivationReplies {
  import opened BusTypes
  import opened Activations
  import D = Dispatch
  import T = Transactions

  /** A waiting connection: whether it is still there, and whether its policy eats what the driver tells it. */
  datatype Recipient = Recipient(connected: bool, eaten: bool)

  datatype Memory = Memory(made: bool, fault: T.SendFault)

  function AnswerTo(r: Recipient, m: Memory): D.Answer {
    D.Answer(m.made, r.eaten, D.Link(r.connected, true, m.fault))
  }

  datatype Word = Success | Failure(how: string)

  /** Success is told only to those who asked for the service by name; failure to everybody. */
  predicate Concerns(w: Waiter, word: Word) {
    word.Success? ==> !w.auto
  }

  function Said(m: Message, word: Word): Message {
    match word
    case Success => Message(MethodReturn, 0, m.serial, true, false, "DBUS_START_REPLY_SUCCESS")
    case Failure(how) => D.ErrorFor(m, how)
  }

  predicate Present(known: set<ConnId>, waiters: seq<Waiter>, recipients: seq<Recipient>) {
    |recipients| == |waiters| && forall i :: 0 <= i < |waiters| && recipients[i].connected ==> waiters[i].conn in known
  }

  /** Tell one of those who wait, unless it is gone or this is not its concern. */
  function TellOne(n: T.Net, tx: TxId, w: Waiter, r: Recipient, memory: Memory, word: Word): (T.Net, bool)
    requires tx in n.connections && (r.connected ==> w.conn in n.queues)
  {
    if r.connected && Concerns(w, word) then D.FromDriver(n, tx, w.conn, Said(w.message, word), AnswerTo(r, memory))
    else (n, true)
  }

  /** The loops of `bus_activation_service_created` and `try_send_activation_failure`. */
  function Tell(n: T.Net, tx: TxId, waiters: seq<Waiter>, recipients: seq<Recipient>, memory: seq<Memory>, word: Word)
    : (r: (T.Net, bool))
    requires tx in n.connections && Present(n.queues.Keys, waiters, recipients) && |memory| == |waiters|
    ensures r.0.queues.Keys == n.queues.Keys && r.0.connections.Keys == n.connections.Keys
    decreases |waiters|
  {
    if waiters == [] then (n, true)
    else
      var (n', ok) := TellOne(n, tx, waiters[0], recipients[0], memory[0], word);
      if ok then Tell(n', tx, waiters[1..], recipients[1..], memory[1..], word) else (n', false)
  }

  /** How many of those who wait the loop gets through before memory runs out. */
  function Heard(n: T.Net, tx: TxId, waiters: seq<Waiter>, recipients: seq<Recipient>, memory: seq<Memory>, word: Word)
    : (k: nat)
    requires tx in n.connections && Present(n.queues.Keys, waiters, recipients) && |memory| == |waiters|
    ensures k <= |waiters| && (k == |waiters| <==> Tell(n, tx, waiters, recipients, memory, word).1)
    decreases |waiters|
  {
    if waiters == [] then 0
    else
      var (n', ok) := TellOne(n, tx, waiters[0], recipients[0], memory[0], word);
      if ok then 1 + Heard(n', tx, waiters[1..], recipients[1..], memory[1..], word) else 0
  }

  function AnswerDue(w: Waiter, r: Recipient, word: Word, conn: ConnId): seq<Message> {
    if w.conn == conn && r.connected && !r.eaten && Concerns(w, word) then [Said(w.message, word)] else []
  }

  /** What one connection should be told, in the order it asked. */
  function Answers(waiters: seq<Waiter>, recipients: seq<Recipient>, word: Word, conn: ConnId): seq<Message>
    requires |recipients| == |waiters|
  {
    if waiters == [] then []
    else AnswerDue(waiters[0], recipients[0], word, conn) + Answers(waiters[1..], recipients[1..], word, conn)
  }

  // ---------------------------------------------------------------------------------------------
  // Failure

  datatype Try = Try(tx: TxId, transactionMade: bool, memory: seq<Memory>)

  predicate Fits(t: Try, waiters: seq<Waiter>) {
    |t.memory| == |waiters|
  }

  ghost predicate CanTry(n: T.Net, waiters: seq<Waiter>, recipients: seq<Recipient>, t: Try) {
    T.Inv(n) && t.tx !in n.connections && Present(n.queues.Keys, waiters, recipients) && Fits(t, waiters)
  }

  function Begun(n: T.Net, tx: TxId): T.Net {
    n.(connections := n.connections[tx := []])
  }

  /** `try_send_activation_failure`; None is a failed assertion of the source. */
  function TryFailure(n: T.Net, waiters: seq<Waiter>, recipients: seq<Recipient>, how: string,
                      t: Try)
    : Option<(T.Net, bool)>
    requires Present(n.queues.Keys, waiters, recipients) && Fits(t, waiters)
  {
    if !t.transactionMade then Some((n, false))
    else
      var (n', ok) := Tell(Begun(n, t.tx), t.tx, waiters, recipients, t.memory, Failure(how));
      if exists c :: c in n'.connections[t.tx] && c !in n'.queues then None
      else Some((if ok then T.ExecuteTx(n', t.tx) else T.CancelTx(n', t.tx), ok))
  }

  /** The loop of `pending_activation_failed`, for as long as memory lasts out. */
  function KeepTrying(n: T.Net, waiters: seq<Waiter>, recipients: seq<Recipient>, how: string, tries: seq<Try>)
    : Option<(T.Net, bool)>
    requires Present(n.queues.Keys, waiters, recipients) && forall t :: t in tries ==> Fits(t, waiters)
    decreases |tries|
  {
    if tries == [] then Some((n, false))
    else
      assert Fits(tries[0], waiters) by { assert tries[0] in tries; }
      match TryFailure(n, waiters, recipients, how, tries[0])
      case None => None
      case Some((n', ok)) =>
        if ok then Some((n', true))
        else if !Present(n'.queues.Keys, waiters, recipients) then None
        else KeepTrying(n', waiters, recipients, how, tries[1..])
  }

  // ---------------------------------------------------------------------------------------------
  // Success

  /** What becomes of one message that was held back for the service. */
  datatype Auto = Auto(v: D.Verdicts, link: D.Link, listeners: Option<seq<D.Listener>>)

  predicate Deliverable(known: set<ConnId>, owner: ConnId, auto: Auto) {
    && D.Reaches(known, owner, auto.link)
    && (auto.listeners.Some? ==> D.AllReach(known, auto.listeners.value)
                                 && forall l :: l in auto.listeners.value ==> l.conn != owner)
  }

  /** The loop of `bus_activation_send_pending_auto_activation_messages`: only what was held back is dispatched. */
  function DispatchAutos(a: D.Attempt, tx: TxId, waiters: seq<Waiter>, recipients: seq<Recipient>, owner: ConnId,
                         autos: seq<Auto>, max: int): (r: D.Attempt)
    requires tx in a.net.connections && |recipients| == |waiters| == |autos|
    requires forall auto :: auto in autos ==> Deliverable(a.net.queues.Keys, owner, auto)
    ensures r.net.queues.Keys == a.net.queues.Keys && r.net.connections.Keys == a.net.connections.Keys
    decreases |waiters|
  {
    if waiters == [] then a
    else if waiters[0].auto && recipients[0].connected then
      assert Deliverable(a.net.queues.Keys, owner, autos[0]);
      var one := D.DispatchMatches(a, tx, Some(waiters[0].conn), Some(owner), waiters[0].message, autos[0].v,
                                   autos[0].link, autos[0].listeners, max);
      if one.failure.Some? then one
      else DispatchAutos(one, tx, waiters[1..], recipients[1..], owner, autos[1..], max)
    else DispatchAutos(a, tx, waiters[1..], recipients[1..], owner, autos[1..], max)
  }

  /** The message gets as far as the queue of the owner, whatever fails after that. */
  predicate GetsQueued(a: D.Attempt, tx: TxId, w: Waiter, owner: ConnId, auto: Auto, max: int)
    requires tx in a.net.connections && D.Reaches(a.net.queues.Keys, owner, auto.link)
  {
    var gate := D.Gate(a.replies, a.hooks, Some(w.conn), Some(owner), Some(owner), w.message, auto.v, max);
    && gate.failure.None? && !(w.message.hasFds && !auto.link.takesFds)
    && T.Send(a.net, tx, owner, w.message, auto.link.connected, auto.link.fault).1
  }

  /** How many of those who wait the loop is done with, in that nothing more is to be dispatched for them. */
  function SentOn(a: D.Attempt, tx: TxId, waiters: seq<Waiter>, recipients: seq<Recipient>, owner: ConnId,
                  autos: seq<Auto>, max: int): (k: nat)
    requires tx in a.net.connections && |recipients| == |waiters| == |autos|
    requires forall auto :: auto in autos ==> Deliverable(a.net.queues.Keys, owner, auto)
    ensures k <= |waiters|
    ensures DispatchAutos(a, tx, waiters, recipients, owner, autos, max).failure.None? ==> k == |waiters|
    decreases |waiters|
  {
    if waiters == [] then 0
    else if waiters[0].auto && recipients[0].connected then
      assert Deliverable(a.net.queues.Keys, owner, autos[0]);
      var one := D.DispatchMatches(a, tx, Some(waiters[0].conn), Some(owner), waiters[0].message, autos[0].v,
                                   autos[0].link, autos[0].listeners, max);
      if one.failure.None? then 1 + SentOn(one, tx, waiters[1..], recipients[1..], owner, autos[1..], max)
      else if GetsQueued(a, tx, waiters[0], owner, autos[0], max) then 1
      else 0
    else 1 + SentOn(a, tx, waiters[1..], recipients[1..], owner, autos[1..], max)
  }

  /**
   A connection asks for a name; request is that call to the driver.  Announced and registered say that memory lasts to
   tell of a new owner and to make it one; owner is the primary owner then, and reply the way of the call's own answer.
   */
  datatype Appearance = Appearance(service: string, request: D.Incoming, announced: bool, recipients: seq<Recipient>,
                                   memory: seq<Memory>, registered: bool, owner: ConnId, autos: seq<Auto>,
                                   hookMemory: bool, reply: D.Answer)

  function WaitersFor(a: Activations, service: string): seq<Waiter> {
    if service in a.table && IsLive(a.arena, a.table[service]) then a.arena[a.table[service]].pending.entries else []
  }

  predicate CanAppear(a: Activations, b: D.Bus, e: Appearance) {
    var waiters := WaitersFor(a, e.service);
    && e.request.tx !in b.net.connections && D.Reaches(b.net.queues.Keys, e.request.sender, e.request.answer.link)
    && D.Reaches(b.net.queues.Keys, e.request.sender, e.reply.link)
    && Present(b.net.queues.Keys, waiters, e.recipients) && |e.memory| == |e.autos| == |waiters|
    && forall auto :: auto in e.autos ==> Deliverable(b.net.queues.Keys, e.owner, auto)
  }

  /** `bus_registry_ensure`: only of a name that had no owner are those told who asked for it. */
  function Ensure(a: Activations, b: D.Bus, e: Appearance, isNew: bool): (r: (T.Net, bool))
    requires CanAppear(a, b, e)
    ensures r.0.queues.Keys == b.net.queues.Keys && r.0.connections.Keys == b.net.connections.Keys + {e.request.tx}
  {
    var begun := Begun(b.net, e.request.tx);
    if !isNew then (begun, true)
    else if !e.announced then (begun, false)
    else Tell(begun, e.request.tx, WaitersFor(a, e.service), e.recipients, e.memory, Success)
  }

  /** To how many of those who wait it gets. */
  function ToldIn(a: Activations, b: D.Bus, e: Appearance, isNew: bool): (k: nat)
    requires CanAppear(a, b, e)
    ensures k <= |e.recipients|
  {
    if !isNew || !e.announced then 0
    else Heard(Begun(b.net, e.request.tx), e.request.tx, WaitersFor(a, e.service), e.recipients, e.memory, Success)
  }

  /** The connection becomes an owner, and what was held back for the name is dispatched to the primary one. */
  function HeldBack(a: Activations, b: D.Bus, e: Appearance, isNew: bool, max: int): (r: D.Attempt)
    requires CanAppear(a, b, e)
    ensures r.net.queues.Keys == b.net.queues.Keys && r.net.connections.Keys == b.net.connections.Keys + {e.request.tx}
  {
    var (net, told) := Ensure(a, b, e, isNew);
    if !told || !e.registered then D.Attempt(b.replies, [], net, Some(OutOfMemory))
    else
      DispatchAutos(D.Attempt(b.replies, [], net, None), e.request.tx, WaitersFor(a, e.service), e.recipients, e.owner,
                    e.autos, max)
  }

  /** For how many of those who wait nothing more is to be dispatched. */
  function SentOnIn(a: Activations, b: D.Bus, e: Appearance, isNew: bool, max: int): (k: nat)
    requires CanAppear(a, b, e)
    ensures k <= |e.recipients|
  {
    var (net, told) := Ensure(a, b, e, isNew);
    if !told || !e.registered then 0
    else
      SentOn(D.Attempt(b.replies, [], net, None), e.request.tx, WaitersFor(a, e.service), e.recipients, e.owner,
             e.autos, max)
  }

  /** The answer to the request for the name. */
  function NameReply(m: Message): Message {
    Message(MethodReturn, 0, m.serial, true, false, "RequestName")
  }

  /** `bus_driver_handle_acquire_service`, before its transaction ends. */
  function Appearing(a: Activations, b: D.Bus, e: Appearance, isNew: bool, max: int): (r: (Result, D.Attempt))
    requires CanAppear(a, b, e)
    ensures r.1.net.queues.Keys == b.net.queues.Keys
            && r.1.net.connections.Keys == b.net.connections.Keys + {e.request.tx}
  {
    var sent := HeldBack(a, b, e, isNew, max);
    if sent.failure.Some? then (Result(a, [], sent.failure), sent)
    else
      var r := Deliver(a, [], e.service, None, e.hookMemory);
      if r.failure.Some? then (r, sent.(failure := r.failure))
      else
        var (net, replied) := D.FromDriver(sent.net, e.request.tx, e.request.sender, NameReply(e.request.m), e.reply);
        (r, sent.(net := net, failure := if replied then None else Some(OutOfMemory)))
  }

  /** And after it ended; `bus_driver_handle_message` asserts that a failure has its error set. */
  function Appear(a: Activations, b: D.Bus, e: Appearance, isNew: bool, max: int): (Activations, Option<D.Bus>)
    requires CanAppear(a, b, e)
  {
    var (r, attempt) := Appearing(a, b, e, isNew, max);
    var (reported, commit) := D.Report(attempt, e.request);
    var ended := if commit then Execute(r.activations, r.hooks) else Cancel(r.activations, r.hooks);
    (AssertErrorSet(ended, attempt.failure), D.Conclude(reported, e.request.tx, commit))
  }

  // ---------------------------------------------------------------------------------------------
  // Requests

  /**
   A message that asks for a service: to the driver by name, or to the service itself, and then it is held back.
   Running is the way of the answer that it runs already.
   */
  datatype Asking = Asking(service: string, auto: bool, request: D.Incoming, o: Outcome, running: D.Answer)

  function RequestOf(e: Asking): Request {
    Request(e.service, e.request.sender, e.request.m, e.auto)
  }

  predicate CanAsk(b: D.Bus, e: Asking) {
    && e.request.tx !in b.net.connections && D.Reaches(b.net.queues.Keys, e.request.sender, e.request.answer.link)
    && D.Reaches(b.net.queues.Keys, e.request.sender, e.running.link)
  }

  predicate FindsRunning(a: Activations, e: Asking, maxPending: int) {
    a.nPending < maxPending && e.o.file.Some? && !e.auto && e.o.alreadyActive
  }

  function RunningReply(m: Message): Message {
    Message(MethodReturn, 0, m.serial, true, false, "DBUS_START_REPLY_ALREADY_RUNNING")
  }

  function AlreadyRunning(a: Activations, b: D.Bus, e: Asking, maxPending: int): (r: (T.Net, bool))
    requires CanAsk(b, e)
    ensures r.0.queues.Keys == b.net.queues.Keys && r.0.connections.Keys == b.net.connections.Keys + {e.request.tx}
  {
    var begun := Begun(b.net, e.request.tx);
    if !FindsRunning(a, e, maxPending) then (begun, true)
    else D.FromDriver(begun, e.request.tx, e.request.sender, RunningReply(e.request.m), e.running)
  }

  /** The transaction of such a message, before it ends. */
  function Requesting(a: Activations, b: D.Bus, e: Asking, maxPending: int, systemd: bool): (r: (Result, D.Attempt))
    requires CanAsk(b, e)
    ensures r.1.net.queues.Keys == b.net.queues.Keys
            && r.1.net.connections.Keys == b.net.connections.Keys + {e.request.tx}
  {
    var (net, sent) := AlreadyRunning(a, b, e, maxPending);
    var r := Activate(a, [], RequestOf(e), e.o.(replySent := sent), maxPending, systemd);
    (r, D.Attempt(b.replies, [], net, r.failure))
  }

  /** And after it ended: an error of the activation is reported like any other. */
  function Ask(a: Activations, b: D.Bus, e: Asking, maxPending: int, systemd: bool): (Activations, Option<D.Bus>)
    requires CanAsk(b, e)
  {
    var (r, attempt) := Requesting(a, b, e, maxPending, systemd);
    var (reported, commit) := D.Report(attempt, e.request);
    (if commit then Execute(r.activations, r.hooks) else Cancel(r.activations, r.hooks),
     D.Conclude(reported, e.request.tx, commit))
  }
}
