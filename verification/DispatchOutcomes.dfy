/**
 What becomes of a message, on its inputs: when the gate refuses it aloud, when silently, and when it passes; and the
 two ways in which a call and its reply part from what the caller is told.
 */
module DispatchOutcomes {
  import opened BusTypes
  import opened Dispatch
  import opened DispatchProofs
  import PR = PendingReplies
  import Proofs = PendingRepliesProofs
  import T = Transactions

  // ---------------------------------------------------------------------------------------------
  // The gate

  /** A reply to a call that is outstanding. */
  ghost predicate IsRequested(r: PR.Replies, sender: ConnId, receiver: ConnId, m: Message) {
    m.replySerial != 0 && Proofs.Outstanding(r, ReplyKey(sender, receiver, m))
  }

  /** The message gets as far as the policies, which are asked about a requested reply or about any message. */
  ghost predicate Considered(r: PR.Replies, sender: ConnId, receiver: ConnId, m: Message, v: Verdicts) {
    m.kind != Unknown && v.selinuxAllows && v.senderActive && (IsRequested(r, sender, receiver, m) ==> v.checkMemory)
  }

  /** The sender may send it, but the recipient may not receive it. */
  ghost predicate Silent(r: PR.Replies, sender: ConnId, receiver: ConnId, m: Message, v: Verdicts) {
    var requested := IsRequested(r, sender, receiver, m);
    Considered(r, sender, receiver, m, v) && v.canSend.Allows(requested) && !v.canReceive.Allows(requested)
  }

  /** A call in which the recipient answers its own call with the same serial takes that call off first. */
  ghost predicate Unrecordable(r: PR.Replies, sender: ConnId, receiver: ConnId, m: Message, max: int) {
    var key := CallKeyOf(sender, receiver, m);
    var answered := IsRequested(r, sender, receiver, m);
    && m.kind == MethodCall && !m.noReply
    && ((Proofs.Outstanding(r, key) && !(answered && ReplyKey(sender, receiver, m) == key))
        || PR.CountCalls(r.arena, r.list, sender) - (if answered && receiver == sender then 1 else 0) >= max)
  }

  /**
   Everything else that is refused, and reported: never considered, by the sender's policy, the queue or the calls.
   */
  ghost predicate Aloud(r: PR.Replies, sender: ConnId, receiver: ConnId, m: Message, v: Verdicts, max: int) {
    var requested := IsRequested(r, sender, receiver, m);
    || m.kind == Unknown || !v.selinuxAllows || !v.senderActive
    || (Considered(r, sender, receiver, m, v)
        && (!v.canSend.Allows(requested)
            || (v.canReceive.Allows(requested) && (v.queueFull || Unrecordable(r, sender, receiver, m, max)))))
  }

  /** Memory fails where it is needed: to take the call off, or to put one on record. */
  ghost predicate RunsOut(r: PR.Replies, sender: ConnId, receiver: ConnId, m: Message, v: Verdicts, max: int) {
    && !Silent(r, sender, receiver, m, v) && !Aloud(r, sender, receiver, m, v, max)
    && ((IsRequested(r, sender, receiver, m) && !v.checkMemory)
        || (m.kind == MethodCall && !m.noReply && v.expectFault != PR.AllSucceed))
  }

  function Decision(silent: bool, aloud: bool, runsOut: bool): Option<Failure> {
    if silent then Some(RefusedSilently) else if aloud then Some(Refused) else if runsOut then Some(OutOfMemory)
    else None
  }

  lemma CountAfterCheck(r: PR.Replies, hooks: seq<PR.Hook>, key: PR.CallKey, caller: ConnId, max: int)
    requires Proofs.Inv(r, Proofs.HeldBy(hooks), max)
    ensures var r' := PR.Check(r, hooks, key, true).0;
            PR.CountCalls(r'.arena, r'.list, caller) == PR.CountCalls(r.arena, r.list, caller)
              - if Proofs.Outstanding(r, key) && key.caller == caller then 1 else 0
  {
    Proofs.FindFinds(r.arena, r.list, key);
    var i := PR.Find(r.arena, r.list, key);
    if i < |r.list| { Proofs.UnlinkCounts(r.arena, r.list, i, caller); }
  }

  /** The calls that stand in a message's way when the check is done. */
  ghost predicate InTheWay(r: PR.Replies, sender: ConnId, receiver: ConnId, m: Message, max: int) {
    || Proofs.Outstanding(r, CallKeyOf(sender, receiver, m))
    || PR.CountCalls(r.arena, r.list, sender) >= max
  }

  /** The policies' decision on the pending replies that the check left. */
  lemma PoliciesDecide(r: PR.Replies, hooks: seq<PR.Hook>, sender: ConnId, receiver: ConnId, m: Message, v: Verdicts,
                       max: int, requested: bool)
    requires Proofs.Inv(r, Proofs.HeldBy(hooks), max)
    ensures var refused := m.kind == MethodCall && !m.noReply && InTheWay(r, sender, receiver, m, max);
            var (send, receive) := (v.canSend.Allows(requested), v.canReceive.Allows(requested));
            Policies(r, hooks, Some(sender), Some(receiver), Some(receiver), m, v, max, requested).failure
            == Decision(send && !receive, !send || (receive && (v.queueFull || refused)),
                        m.kind == MethodCall && !m.noReply && v.expectFault != PR.AllSucceed)
  {
    Proofs.ExpectDecides(r, hooks, CallKeyOf(sender, receiver, m), m.noReply, max, v.now, v.expectFault);
  }

  lemma CheckedInTheWay(r: PR.Replies, hooks: seq<PR.Hook>, sender: ConnId, receiver: ConnId, m: Message, max: int)
    requires Proofs.Inv(r, Proofs.HeldBy(hooks), max) && m.replySerial != 0 && m.kind == MethodCall && !m.noReply
    ensures Unrecordable(r, sender, receiver, m, max)
            <==> InTheWay(PR.Check(r, hooks, ReplyKey(sender, receiver, m), true).0, sender, receiver, m, max)
  {
    Proofs.CheckDecides(r, hooks, ReplyKey(sender, receiver, m), max);
    CountAfterCheck(r, hooks, ReplyKey(sender, receiver, m), sender, max);
  }

  /** After the check the calls that stand in a message's way are those of `Unrecordable`. */
  lemma CheckedCalls(r: PR.Replies, hooks: seq<PR.Hook>, sender: ConnId, receiver: ConnId, m: Message, max: int)
    requires Proofs.Inv(r, Proofs.HeldBy(hooks), max) && m.replySerial != 0
    ensures var (r', hooks', result) := PR.Check(r, hooks, ReplyKey(sender, receiver, m), true);
            && Proofs.Inv(r', Proofs.HeldBy(hooks'), max)
            && (result == PR.Requested <==> IsRequested(r, sender, receiver, m)) && result != PR.CheckOutOfMemory
            && (Unrecordable(r, sender, receiver, m, max)
                <==> m.kind == MethodCall && !m.noReply && InTheWay(r', sender, receiver, m, max))
  {
    var key := ReplyKey(sender, receiver, m);
    Proofs.CheckDecides(r, hooks, key, max);
    Proofs.CheckKeeps(r, hooks, key, max);
    if m.kind == MethodCall && !m.noReply { CheckedInTheWay(r, hooks, sender, receiver, m, max); }
  }

  lemma CheckedDecides(r: PR.Replies, hooks: seq<PR.Hook>, sender: ConnId, receiver: ConnId, m: Message, v: Verdicts,
                       max: int)
    requires Proofs.Inv(r, Proofs.HeldBy(hooks), max) && m.replySerial != 0 && Considered(r, sender, receiver, m, v)
    ensures var (r', hooks', result) := PR.Check(r, hooks, ReplyKey(sender, receiver, m), v.checkMemory);
            var requested := result == PR.Requested;
            Policies(r', hooks', Some(sender), Some(receiver), Some(receiver), m, v, max, requested).failure
            == Decision(Silent(r, sender, receiver, m, v), Aloud(r, sender, receiver, m, v, max),
                        RunsOut(r, sender, receiver, m, v, max))
  {
    CheckedCalls(r, hooks, sender, receiver, m, max);
    var (r', hooks', result) := PR.Check(r, hooks, ReplyKey(sender, receiver, m), true);
    assert !v.checkMemory ==> PR.Check(r, hooks, ReplyKey(sender, receiver, m), false) == (r', hooks', result);
    PoliciesDecide(r', hooks', sender, receiver, m, v, max, result == PR.Requested);
  }

  /**
   The gate's decision on a message for one recipient, on its inputs.  In particular it fails without an error exactly
   when the sender's policy lets a message through that the recipient's policy does not.
   */
  lemma GateDecides(r: PR.Replies, hooks: seq<PR.Hook>, sender: ConnId, receiver: ConnId, m: Message, v: Verdicts,
                    max: int)
    requires Proofs.Inv(r, Proofs.HeldBy(hooks), max)
    ensures Gate(r, hooks, Some(sender), Some(receiver), Some(receiver), m, v, max).failure
         == Decision(Silent(r, sender, receiver, m, v), Aloud(r, sender, receiver, m, v, max),
                     RunsOut(r, sender, receiver, m, v, max))
  {
    if m.kind != Unknown && v.selinuxAllows && v.senderActive {
      if m.replySerial == 0 {
        PoliciesDecide(r, hooks, sender, receiver, m, v, max, false);
      } else {
        CheckedCalls(r, hooks, sender, receiver, m, max);
        if Considered(r, sender, receiver, m, v) { CheckedDecides(r, hooks, sender, receiver, m, v, max); }
      }
    }
  }

  // ---------------------------------------------------------------------------------------------
  // A delivery

  predicate UnwantedFds(m: Message, link: Link) {
    m.hasFds && !link.takesFds
  }

  ghost predicate Passes(r: PR.Replies, sender: ConnId, receiver: ConnId, m: Message, v: Verdicts, max: int) {
    !Silent(r, sender, receiver, m, v) && !Aloud(r, sender, receiver, m, v, max)
    && !RunsOut(r, sender, receiver, m, v, max)
  }

  /** A delivery is also refused, and reported, for file descriptors that the recipient does not take. */
  ghost predicate AloudOrFds(r: PR.Replies, sender: ConnId, receiver: ConnId, m: Message, v: Verdicts, link: Link,
                             max: int) {
    Aloud(r, sender, receiver, m, v, max) || (Passes(r, sender, receiver, m, v, max) && UnwantedFds(m, link))
  }

  /** The refusals of a delivery, on its inputs. */
  lemma DeliveryDecides(a: Attempt, tx: TxId, sender: ConnId, receiver: ConnId, m: Message, v: Verdicts, link: Link,
                        listeners: Option<seq<Listener>>, max: int)
    requires Proofs.Inv(a.replies, Proofs.HeldBy(a.hooks), max)
    requires tx in a.net.connections && Reaches(a.net.queues.Keys, receiver, link)
    requires listeners.Some? ==> AllReach(a.net.queues.Keys, listeners.value)
    ensures var a' := DispatchMatches(a, tx, Some(sender), Some(receiver), m, v, link, listeners, max);
            && (a'.failure == Some(RefusedSilently) <==> Silent(a.replies, sender, receiver, m, v))
            && (a'.failure == Some(Refused) <==> AloudOrFds(a.replies, sender, receiver, m, v, link, max))
  {
    GateDecides(a.replies, a.hooks, sender, receiver, m, v, max);
    var gate := Gate(a.replies, a.hooks, Some(sender), Some(receiver), Some(receiver), m, v, max);
    var (net, ok) := T.Send(a.net, tx, receiver, m, link.connected, link.fault);
    if listeners.Some? {
      ListenersFail(Attempt(gate.replies, gate.hooks, net, None), tx, Some(sender), Some(receiver), m, listeners.value,
                    max);
    }
  }

  /** What the driver sends is refused silently exactly when the recipient's policy does not let it through. */
  lemma DriverRefusedSilently(a: Attempt, tx: TxId, receiver: ConnId, m: Message, v: Verdicts, link: Link,
                              listeners: Option<seq<Listener>>, max: int)
    requires tx in a.net.connections && Reaches(a.net.queues.Keys, receiver, link)
    requires listeners.Some? ==> AllReach(a.net.queues.Keys, listeners.value)
    ensures DispatchMatches(a, tx, None, Some(receiver), m, v, link, listeners, max).failure == Some(RefusedSilently)
            <==> m.kind != Unknown && !v.canReceive.Allows(m.replySerial != 0)
  {
    var gate := Gate(a.replies, a.hooks, None, Some(receiver), Some(receiver), m, v, max);
    var (net, ok) := T.Send(a.net, tx, receiver, m, link.connected, link.fault);
    if listeners.Some? {
      ListenersFail(Attempt(gate.replies, gate.hooks, net, None), tx, None, Some(receiver), m, listeners.value, max);
    }
  }

  /**
   A message of the driver's is a requested reply if it is for the one that it addresses and replies to something; what
   it meets is the recipient's policy and queue, and no call is looked up or recorded.
   */
  lemma DriverGateDecides(r: PR.Replies, hooks: seq<PR.Hook>, addressed: Option<ConnId>, receiver: ConnId, m: Message,
                          v: Verdicts, max: int)
    ensures var g := Gate(r, hooks, None, addressed, Some(receiver), m, v, max);
            var replies := m.kind != Unknown && addressed == Some(receiver) && m.replySerial != 0;
            && g.replies == r && g.hooks == hooks && g.requested == replies
            && (g.failure == Some(RefusedSilently)
                <==> m.kind != Unknown && !(if replies then v.canReceive.asRequested else v.canReceive.otherwise))
            && (g.failure.None? <==> m.kind != Unknown && !v.queueFull
                                     && if replies then v.canReceive.asRequested else v.canReceive.otherwise)
            && g.failure != Some(OutOfMemory)
  {
  }

  /** The driver hears what the sender's policy lets through, and from those that have not said hello only that. */
  lemma DriverHears(r: PR.Replies, hooks: seq<PR.Hook>, sender: ConnId, m: Message, v: Verdicts, max: int)
    ensures Gate(r, hooks, Some(sender), None, None, m, v, max)
         == GateResult(r, hooks, false,
                       if m.kind != Unknown && v.selinuxAllows
                          && (if v.senderActive then v.canSend.otherwise else v.isHello)
                       then None else Some(Refused))
  {
  }

  // ---------------------------------------------------------------------------------------------
  // Listeners

  /** What a listener is sent: what any message may be, with file descriptors if it takes them. */
  predicate Hears(m: Message, l: Listener) {
    && m.kind != Unknown && l.verdicts.selinuxAllows && l.verdicts.senderActive
    && l.verdicts.canSend.otherwise && l.verdicts.canReceive.otherwise && !l.verdicts.queueFull
    && !UnwantedFds(m, l.link)
  }

  predicate QueueFails(link: Link, listed: bool) {
    link.fault in {T.NoToSend, T.NoPreallocated, T.NoMessageLink} || (link.fault == T.NoConnectionLink && !listed)
  }

  /** There is memory to queue the message for all who hear it; listed are the connections that hold some of it. */
  predicate MemoryLasts(m: Message, listeners: seq<Listener>, listed: set<ConnId>)
    decreases |listeners|
  {
    listeners == [] ||
    var l := listeners[0];
    if !Hears(m, l) || !l.link.connected then MemoryLasts(m, listeners[1..], listed)
    else !QueueFails(l.link, l.conn in listed) && MemoryLasts(m, listeners[1..], listed + {l.conn})
  }

  ghost predicate Lists(n: T.Net, tx: TxId, listed: set<ConnId>) {
    forall c :: c in n.queues ==> (c in listed <==> T.Holds(n.queues[c], tx))
  }

  lemma ListenerDecides(a: Attempt, tx: TxId, sender: ConnId, addressed: Option<ConnId>, m: Message, l: Listener,
                        max: int, listed: set<ConnId>)
    requires tx in a.net.connections && Reaches(a.net.queues.Keys, l.conn, l.link) && Lists(a.net, tx, listed)
    requires addressed != Some(l.conn)
    ensures var one := SendOne(a, tx, Some(sender), addressed, m, l, max);
            var sends := Hears(m, l) && l.link.connected;
            && (one.failure.None? <==> !(sends && QueueFails(l.link, l.conn in listed)))
            && (one.failure.None? ==> Lists(one.net, tx, if sends then listed + {l.conn} else listed))
  {
    if Hears(m, l) && l.link.connected {
      var queue := [T.ToSend(tx, m)] + a.net.queues[l.conn];
      assert queue[1..] == a.net.queues[l.conn] && queue[0].tx == tx;
    }
  }

  lemma {:induction false} ListenersDecide(a: Attempt, tx: TxId, sender: ConnId, addressed: Option<ConnId>, m: Message,
                                           listeners: seq<Listener>, max: int, listed: set<ConnId>)
    requires tx in a.net.connections && AllReach(a.net.queues.Keys, listeners) && Lists(a.net, tx, listed)
    requires a.failure.None? && forall l :: l in listeners ==> addressed != Some(l.conn)
    ensures SendToListeners(a, tx, Some(sender), addressed, m, listeners, max).failure.None?
            <==> MemoryLasts(m, listeners, listed)
    decreases |listeners|
  {
    if listeners != [] {
      var l := listeners[0];
      assert l in listeners;
      ListenerDecides(a, tx, sender, addressed, m, l, max, listed);
      var one := SendOne(a, tx, Some(sender), addressed, m, l, max);
      if one.failure.None? {
        ListenersDecide(one, tx, sender, addressed, m, listeners[1..], max,
                        if Hears(m, l) && l.link.connected then listed + {l.conn} else listed);
      }
    }
  }

  // ---------------------------------------------------------------------------------------------
  // A transaction that is executed although its message was not queued

  predicate ReportGetsOut(answer: Answer) {
    answer.made && (answer.eaten || answer.link.fault == T.NoFault)
  }

  /** A message whose recipient's connection is closed is ignored, and only listeners can still make it fail. */
  predicate IgnoredWell(e: Incoming) {
    !e.link.connected
    && (e.answer.link.connected ==> e.listeners.Some? && MemoryLasts(e.m, e.listeners.value, {}))
  }

  /**
   The message is dropped and its transaction executed: it is refused silently, or aloud and that is reported; it passes
   and its recipient's connection is closed; and nothing is reported, nor lack of memory heeded, for a sender that is
   gone.
   */
  ghost predicate DroppedForGood(b: Bus, e: Incoming, max: int)
    requires e.addressed.Some?
  {
    var receiver := e.addressed.value;
    || Silent(b.replies, e.sender, receiver, e.m, e.v)
    || (AloudOrFds(b.replies, e.sender, receiver, e.m, e.v, e.link, max)
        && (e.answer.link.connected ==> ReportGetsOut(e.answer)))
    || (!e.answer.link.connected
        && (RunsOut(b.replies, e.sender, receiver, e.m, e.v, max) || e.link.fault != T.NoFault))
    || (Passes(b.replies, e.sender, receiver, e.m, e.v, max) && !UnwantedFds(e.m, e.link) && IgnoredWell(e))
  }

  /** A refused message leaves nothing queued but the report of it. */
  lemma ReportOfRefusal(b: Bus, e: Incoming, max: int)
    requires T.Inv(b.net) && Possible(b, Received(e)) && e.addressed.Some? && e.answer.link.connected
    requires Attempted(b, e, max).failure == Some(Refused)
    ensures Ending(b, e, max).1 <==> ReportGetsOut(e.answer)
  {
    var a := Attempted(b, e, max);
    var gate := Gate(b.replies, [], Some(e.sender), e.addressed, e.addressed, e.m, e.v, max);
    var begun := b.net.(connections := b.net.connections[e.tx := []]);
    if gate.failure.None? && !UnwantedFds(e.m, e.link) {
      var (net, ok) := T.Send(begun, e.tx, e.addressed.value, e.m, e.link.connected, e.link.fault);
      if e.listeners.Some? {
        ListenersFail(Attempt(gate.replies, gate.hooks, net, None), e.tx, Some(e.sender), e.addressed, e.m,
                      e.listeners.value, max);
      }
    }
    assert a.net == begun;
    assert !T.Holds(b.net.queues[e.sender], e.tx);
  }

  /** For a closed connection nothing is queued, so the attempt succeeds if memory lasts for the listeners. */
  lemma IgnoredSucceeds(b: Bus, e: Incoming, max: int)
    requires T.Inv(b.net) && Possible(b, Received(e)) && e.addressed.Some? && !e.link.connected
    requires Gate(b.replies, [], Some(e.sender), e.addressed, e.addressed, e.m, e.v, max).failure.None?
    requires !UnwantedFds(e.m, e.link)
    ensures Attempted(b, e, max).failure
         == if e.listeners.Some? && MemoryLasts(e.m, e.listeners.value, {}) then None else Some(OutOfMemory)
  {
    var gate := Gate(b.replies, [], Some(e.sender), e.addressed, e.addressed, e.m, e.v, max);
    var begun := b.net.(connections := b.net.connections[e.tx := []]);
    var passed := Attempt(gate.replies, gate.hooks, begun, None);
    assert Lists(begun, e.tx, {});
    if e.listeners.Some? {
      ListenersDecide(passed, e.tx, e.sender, e.addressed, e.m, e.listeners.value, max, {});
      ListenersFail(passed, e.tx, Some(e.sender), e.addressed, e.m, e.listeners.value, max);
    }
  }

  lemma EndsUnqueued(b: Bus, e: Incoming, limits: PR.Limits)
    requires BusInv(b, limits.maxReplies) && Possible(b, Received(e)) && e.addressed.Some?
    ensures !Queued(b, e, limits.maxReplies) && Ending(b, e, limits.maxReplies).1
            <==> DroppedForGood(b, e, limits.maxReplies)
  {
    var max := limits.maxReplies;
    var begun := b.net.(connections := b.net.connections[e.tx := []]);
    GateDecides(b.replies, [], e.sender, e.addressed.value, e.m, e.v, max);
    DeliveryDecides(Attempt(b.replies, [], begun, None), e.tx, e.sender, e.addressed.value, e.m, e.v, e.link,
                    e.listeners, max);
    AddressedGets(b, e, max);
    if Attempted(b, e, max).failure == Some(Refused) && e.answer.link.connected { ReportOfRefusal(b, e, max); }
    if !e.link.connected && Passes(b.replies, e.sender, e.addressed.value, e.m, e.v, max) && !UnwantedFds(e.m, e.link) {
      IgnoredSucceeds(b, e, max);
    }
  }

  // ---------------------------------------------------------------------------------------------
  // A call that is over although its caller got no reply

  /**
   A requested reply is lost if the caller's policy refuses to receive it; if the replier's policy, the caller's queue
   or its file descriptors refuse it and the error for the replier gets out; if the caller's connection is closed; or if
   the replier is gone and there was any of this, or no memory to queue it.
   */
  predicate LosesReply(e: Incoming) {
    var (send, receive) := (e.v.canSend.asRequested, e.v.canReceive.asRequested);
    var refused := !send || e.v.queueFull || UnwantedFds(e.m, e.link);
    || (send && !receive)
    || (refused && (e.answer.link.connected ==> ReportGetsOut(e.answer)))
    || (!e.answer.link.connected && e.link.fault != T.NoFault)
    || (!refused && receive && IgnoredWell(e))
  }

  lemma GateConsumes(r: PR.Replies, sender: ConnId, receiver: ConnId, m: Message, v: Verdicts, max: int)
    requires Proofs.Inv(r, multiset{}, max) && m.kind in {MethodReturn, Error} && m.replySerial != 0
    requires Proofs.Outstanding(r, ReplyKey(sender, receiver, m))
    ensures Proofs.Outstanding(Gate(r, [], Some(sender), Some(receiver), Some(receiver), m, v, max).replies,
                               ReplyKey(sender, receiver, m))
            <==> !(v.selinuxAllows && v.senderActive && v.checkMemory)
  {
    Proofs.CheckDecides(r, [], ReplyKey(sender, receiver, m), max);
  }

  /**
   A requested reply does one of three things: it reaches the caller and ends the call; the call stays outstanding and
   the reply is not sent; or it ends the call and is not sent, no later reply being accepted and no error being due.
   The last happens exactly if it is looked up among the calls and `LosesReply`.
   */
  lemma ReplyEndsCall(b: Bus, e: Incoming, limits: PR.Limits)
    requires BusInv(b, limits.maxReplies) && Possible(b, Received(e)) && e.addressed.Some?
    requires e.m.kind in {MethodReturn, Error} && e.m.replySerial != 0
    requires Proofs.Outstanding(b.replies, ReplyKey(e.sender, e.addressed.value, e.m))
    ensures var b' := DispatchMessage(b, e, limits.maxReplies);
            var got := Delivered(b, e, limits.maxReplies);
            && b'.Some?
            && T.Outbox(b'.value.net, e.addressed.value)
               == T.Outbox(b.net, e.addressed.value) + (if got then [e.m] else [])
                  + (if e.addressed == Some(e.sender) then ReportSent(b, e, limits.maxReplies) else [])
            && var open := Proofs.Outstanding(b'.value.replies, ReplyKey(e.sender, e.addressed.value, e.m));
            && (got ==> !open)
            && (!got && !open <==> e.v.selinuxAllows && e.v.senderActive && e.v.checkMemory && LosesReply(e))
  {
    var ops := DispatchKeeps(b, e, limits);
    DeliveredOnce(b, e, limits);
    AttemptReplies(b, e, limits.maxReplies);
    GateConsumes(b.replies, e.sender, e.addressed.value, e.m, e.v, limits.maxReplies);
    OutstandingAfter(b.replies, ops, Ending(b, e, limits.maxReplies).1, limits,
                     ReplyKey(e.sender, e.addressed.value, e.m));
    EndsUnqueued(b, e, limits);
    GateDecides(b.replies, [], e.sender, e.addressed.value, e.m, e.v, limits.maxReplies);
    LostOnInputs(b, e, limits.maxReplies);
  }

  lemma LostOnInputs(b: Bus, e: Incoming, max: int)
    requires e.addressed.Some? && e.m.kind in {MethodReturn, Error} && e.m.replySerial != 0
    requires Proofs.Outstanding(b.replies, ReplyKey(e.sender, e.addressed.value, e.m))
    ensures e.v.selinuxAllows && e.v.senderActive && e.v.checkMemory ==> (DroppedForGood(b, e, max) <==> LosesReply(e))
  {
  }

  // ---------------------------------------------------------------------------------------------
  // A call that is outstanding although it was never delivered

  lemma PoliciesRecordNothing(r: PR.Replies, hooks: seq<PR.Hook>, sender: ConnId, receiver: ConnId, m: Message,
                              v: Verdicts, max: int, requested: bool, key: PR.CallKey)
    requires Proofs.Inv(r, Proofs.HeldBy(hooks), max) && !Proofs.Outstanding(r, key)
    ensures var g := Policies(r, hooks, Some(sender), Some(receiver), Some(receiver), m, v, max, requested);
            g.failure.Some? ==> !Proofs.Outstanding(g.replies, key)
  {
    Proofs.ExpectDecides(r, hooks, CallKeyOf(sender, receiver, m), m.noReply, max, v.now, v.expectFault);
  }

  lemma CheckOpensNothing(r: PR.Replies, hooks: seq<PR.Hook>, check: PR.CallKey, memory: bool, max: int,
                          key: PR.CallKey)
    requires Proofs.Inv(r, Proofs.HeldBy(hooks), max) && !Proofs.Outstanding(r, key)
    ensures var (r', hooks', _) := PR.Check(r, hooks, check, memory);
            Proofs.Inv(r', Proofs.HeldBy(hooks'), max) && !Proofs.Outstanding(r', key)
  {
    Proofs.CheckDecides(r, hooks, check, max);
    Proofs.ApplyKeeps(r, hooks, PR.CheckOp(check, memory), max);
  }

  /** What the gate refuses it does not record. */
  lemma RefusedNotRecorded(r: PR.Replies, sender: ConnId, receiver: ConnId, m: Message, v: Verdicts, max: int,
                           key: PR.CallKey)
    requires Proofs.Inv(r, multiset{}, max) && !Proofs.Outstanding(r, key)
    ensures var g := Gate(r, [], Some(sender), Some(receiver), Some(receiver), m, v, max);
            g.failure.Some? ==> !Proofs.Outstanding(g.replies, key)
  {
    var (r', hooks', result) := PR.Check(r, [], ReplyKey(sender, receiver, m), v.checkMemory);
    CheckOpensNothing(r, [], ReplyKey(sender, receiver, m), v.checkMemory, max, key);
    PoliciesRecordNothing(r, [], sender, receiver, m, v, max, false, key);
    PoliciesRecordNothing(r', hooks', sender, receiver, m, v, max, result == PR.Requested, key);
  }

  /**
   A call passes the gate, which records it, and is not queued: for its file descriptors, and the error for the caller
   gets out; because the callee's connection is closed; or the caller is gone and it is not queued for any reason.
   */
  ghost predicate StaysUndelivered(b: Bus, e: Incoming, max: int)
    requires e.addressed.Some?
  {
    && Passes(b.replies, e.sender, e.addressed.value, e.m, e.v, max)
    && ((UnwantedFds(e.m, e.link) && (e.answer.link.connected ==> ReportGetsOut(e.answer)))
        || (!UnwantedFds(e.m, e.link)
            && (IgnoredWell(e) || (!e.answer.link.connected && e.link.fault != T.NoFault))))
  }

  /** A new call ends up outstanding though it was not delivered exactly if `StaysUndelivered`. */
  lemma UndeliveredCallOutstanding(b: Bus, e: Incoming, limits: PR.Limits)
    requires BusInv(b, limits.maxReplies) && Possible(b, Received(e)) && e.addressed.Some?
    requires e.m.kind == MethodCall && !e.m.noReply
    requires !Proofs.Outstanding(b.replies, CallKeyOf(e.sender, e.addressed.value, e.m))
    ensures var b' := DispatchMessage(b, e, limits.maxReplies);
            var got := Delivered(b, e, limits.maxReplies);
            && b'.Some?
            && T.Outbox(b'.value.net, e.addressed.value)
               == T.Outbox(b.net, e.addressed.value) + (if got then [e.m] else [])
                  + (if e.addressed == Some(e.sender) then ReportSent(b, e, limits.maxReplies) else [])
            && (Proofs.Outstanding(b'.value.replies, CallKeyOf(e.sender, e.addressed.value, e.m)) && !got
                <==> StaysUndelivered(b, e, limits.maxReplies))
  {
    var max := limits.maxReplies;
    var receiver := e.addressed.value;
    var key := CallKeyOf(e.sender, receiver, e.m);
    var ops := DispatchKeeps(b, e, limits);
    DeliveredOnce(b, e, limits);
    AttemptReplies(b, e, max);
    OutstandingAfter(b.replies, ops, Ending(b, e, max).1, limits, key);
    EndsUnqueued(b, e, limits);
    GateDecides(b.replies, [], e.sender, receiver, e.m, e.v, max);
    if Passes(b.replies, e.sender, receiver, e.m, e.v, max) {
      GateRecords(b.replies, e.sender, receiver, e.m, e.v, max);
    } else {
      RefusedNotRecorded(b.replies, e.sender, receiver, e.m, e.v, max, key);
    }
  }

  // ---------------------------------------------------------------------------------------------
  // Both happen

  const GOOD_LINK := Link(true, true, T.NoFault)
  const ONE_CALL := PR.Limits(1, 0)
  const TWO_CLIENTS := T.Net(map[0 := [], 1 := []], map[], map[])

  /** Client 1 replies to the call 7 of client 0, whose policy does not let it receive the reply. */
  const UNRECEIVED_REPLY :=
    Incoming(0, 1, Some(0), Message(MethodReturn, 3, 7, true, false, ""),
             Verdicts(true, true, false, Policy(true, true), Policy(false, false), false, true, PR.AllSucceed, 2),
             GOOD_LINK, Some([]), Answer(false, false, GOOD_LINK))

  /** The same reply when client 1's own policy does not let it send it. */
  const UNSENT_REPLY :=
    UNRECEIVED_REPLY.(v := UNRECEIVED_REPLY.v.(canSend := Policy(false, false)),
                      answer := Answer(true, false, GOOD_LINK))

  lemma TwoClientsRight(replies: PR.Replies)
    requires Proofs.Inv(replies, multiset{}, 1)
    ensures BusInv(Bus(replies, TWO_CLIENTS), 1)
  {
    assert forall c :: c in TWO_CLIENTS.queues ==> TWO_CLIENTS.queues[c] == [];
  }

  /** Silently or aloud: the call is over, and its caller, who is still there, gets nothing. */
  lemma ReplyIsLost()
    ensures var b := Bus(PR.Replies([PR.Live(PR.PendingReply(0, Some(1), 7, 1))], [0]), TWO_CLIENTS);
            && BusInv(b, 1) && Proofs.Outstanding(b.replies, PR.CallKey(0, 1, 7))
            && forall e :: e in {UNRECEIVED_REPLY, UNSENT_REPLY} ==>
                 && Possible(b, Received(e))
                 && var b' := DispatchMessage(b, e, 1);
                 && b'.Some? && !Proofs.Outstanding(b'.value.replies, PR.CallKey(0, 1, 7))
                 && T.Outbox(b'.value.net, 0) == []
  {
    var p := PR.PendingReply(0, Some(1), 7, 1);
    var b := Bus(PR.Replies([PR.Live(p)], [0]), TWO_CLIENTS);
    Proofs.OneCallInv(p);
    TwoClientsRight(b.replies);
    assert PR.AwaitsKey(b.replies.arena, 0, PR.CallKey(0, 1, 7));
    ReplyEndsCall(b, UNRECEIVED_REPLY, ONE_CALL);
    ReplyEndsCall(b, UNSENT_REPLY, ONE_CALL);
  }

  /** Client 0 calls client 1 with file descriptors, which client 1 does not take. */
  const CALL_WITH_FDS :=
    Incoming(0, 0, Some(1), Message(MethodCall, 7, 0, false, true, ""),
             Verdicts(true, true, false, Policy(true, true), Policy(true, true), false, true, PR.AllSucceed, 2),
             Link(true, false, T.NoFault), Some([]), Answer(true, false, GOOD_LINK))

  /** The call is refused and yet outstanding, from the bus as it starts with two clients. */
  lemma UndeliveredIsOutstanding()
    ensures var b := Bus(PR.EMPTY, TWO_CLIENTS);
            var b' := DispatchMessage(b, CALL_WITH_FDS, 1);
            && BusInv(b, 1) && Possible(b, Received(CALL_WITH_FDS))
            && b'.Some? && Proofs.Outstanding(b'.value.replies, PR.CallKey(0, 1, 7))
            && T.Outbox(b'.value.net, 1) == []
  {
    TwoClientsRight(PR.EMPTY);
    UndeliveredCallOutstanding(Bus(PR.EMPTY, TWO_CLIENTS), CALL_WITH_FDS, ONE_CALL);
  }

  /** Client 0 calls client 1, whose connection was closed a moment ago. */
  const CALL_TO_CLOSED :=
    CALL_WITH_FDS.(m := Message(MethodCall, 7, 0, false, false, ""), link := Link(false, true, T.NoFault))

  /** No error is due to the caller, and the call is outstanding. */
  lemma IgnoredIsOutstanding()
    ensures var b := Bus(PR.EMPTY, TWO_CLIENTS);
            var b' := DispatchMessage(b, CALL_TO_CLOSED, 1);
            && BusInv(b, 1) && Possible(b, Received(CALL_TO_CLOSED))
            && b'.Some? && Proofs.Outstanding(b'.value.replies, PR.CallKey(0, 1, 7))
            && T.Outbox(b'.value.net, 1) == []
  {
    TwoClientsRight(PR.EMPTY);
    UndeliveredCallOutstanding(Bus(PR.EMPTY, TWO_CLIENTS), CALL_TO_CLOSED, ONE_CALL);
  }
}
