/**
 A service appears that others wait for: whether its transaction is executed, what those who wait are told, and whether
 they go on waiting.
 */
module Appearances {
  import opened BusTypes
  import opened Activations
  import opened ActivationReplies
  import opened ActivationRepliesProofs
  import AP = ActivationProofs
  import AR = ActivationRuns
  import AU = ActivationUndo
  import D = Dispatch
  import DO = DispatchOutcomes
  import DP = DispatchProofs
  import PR = PendingReplies
  import PRP = PendingRepliesProofs
  import T = Transactions

  // ---------------------------------------------------------------------------------------------
  // Messages that were held back

  /**
   How many of those who wait come before the first message that is refused, and its refusal; those held back for
   connections that are still there are refused by the policies, the queue, the recorded calls or the file descriptors
   of the owner.  Each is judged on the pending replies that the ones before it left.
   */
  ghost function FirstRefusal(r: PR.Replies, hooks: seq<PR.Hook>, waiters: seq<Waiter>, recipients: seq<Recipient>,
                              owner: ConnId, autos: seq<Auto>, max: int): (first: (nat, Option<Failure>))
    requires |recipients| == |waiters| == |autos|
    ensures first.0 <= |waiters| && (first.1.None? ==> first.0 == |waiters|)
    decreases |waiters|
  {
    if waiters == [] then (0, None)
    else if !waiters[0].auto || !recipients[0].connected then
      Later(FirstRefusal(r, hooks, waiters[1..], recipients[1..], owner, autos[1..], max))
    else
      var (sender, m, v) := (waiters[0].conn, waiters[0].message, autos[0].v);
      if DO.Silent(r, sender, owner, m, v) then (0, Some(RefusedSilently))
      else if DO.AloudOrFds(r, sender, owner, m, v, autos[0].link, max) then (0, Some(Refused))
      else
        var gate := D.Gate(r, hooks, Some(sender), Some(owner), Some(owner), m, v, max);
        Later(FirstRefusal(gate.replies, gate.hooks, waiters[1..], recipients[1..], owner, autos[1..], max))
  }

  function Later(first: (nat, Option<Failure>)): (nat, Option<Failure>) {
    (first.0 + 1, first.1)
  }

  /**
   One message that was held back: unless memory runs out it is refused first, or what follows is on what it leaves.
   */
  ghost predicate StepsBy(r: PR.Replies, hooks: seq<PR.Hook>, one: D.Attempt, waiters: seq<Waiter>,
                          recipients: seq<Recipient>, owner: ConnId, autos: seq<Auto>, max: int)
    requires waiters != [] && |recipients| == |waiters| == |autos|
  {
    && PRP.Inv(one.replies, PRP.HeldBy(one.hooks), max)
    && (one.failure == Some(OutOfMemory)
        || FirstRefusal(r, hooks, waiters, recipients, owner, autos, max)
           == if one.failure.Some? then (0, one.failure)
              else Later(FirstRefusal(one.replies, one.hooks, waiters[1..], recipients[1..], owner, autos[1..], max)))
  }

  /** A message that was held back is refused on its inputs, or it passes and leaves what its gate left. */
  ghost predicate Judged(r: PR.Replies, hooks: seq<PR.Hook>, one: D.Attempt, sender: ConnId, owner: ConnId, m: Message,
                         auto: Auto, max: int)
  {
    var gate := D.Gate(r, hooks, Some(sender), Some(owner), Some(owner), m, auto.v, max);
    && (one.failure == Some(RefusedSilently) <==> DO.Silent(r, sender, owner, m, auto.v))
    && (one.failure == Some(Refused) <==> DO.AloudOrFds(r, sender, owner, m, auto.v, auto.link, max))
    && one.replies == gate.replies && one.hooks == gate.hooks
    && PRP.Inv(one.replies, PRP.HeldBy(one.hooks), max)
  }

  lemma DispatchJudges(a: D.Attempt, tx: TxId, conn: ConnId, owner: ConnId, m: Message, auto: Auto, max: int)
    requires PRP.Inv(a.replies, PRP.HeldBy(a.hooks), max) && tx in a.net.connections
    requires Deliverable(a.net.queues.Keys, owner, auto)
    ensures Judged(a.replies, a.hooks,
                   D.DispatchMatches(a, tx, Some(conn), Some(owner), m, auto.v, auto.link, auto.listeners, max),
                   conn, owner, m, auto, max)
  {
    DO.DeliveryDecides(a, tx, conn, owner, m, auto.v, auto.link, auto.listeners, max);
    DP.MatchesReplies(a, tx, Some(conn), owner, m, auto.v, auto.link, auto.listeners, max);
    var ops := DP.MatchesAreOps(a, tx, Some(conn), Some(owner), m, auto.v, auto.link, auto.listeners, max);
    PRP.ApplyAllKeeps(a.replies, a.hooks, ops, max);
  }

  lemma JudgedSteps(r: PR.Replies, hooks: seq<PR.Hook>, one: D.Attempt, waiters: seq<Waiter>,
                    recipients: seq<Recipient>, owner: ConnId, autos: seq<Auto>, max: int)
    requires waiters != [] && |recipients| == |waiters| == |autos| && waiters[0].auto && recipients[0].connected
    requires Judged(r, hooks, one, waiters[0].conn, owner, waiters[0].message, autos[0], max)
    ensures StepsBy(r, hooks, one, waiters, recipients, owner, autos, max)
  {
    match one.failure
    case None =>
    case Some(RefusedSilently) =>
    case Some(Refused) =>
    case Some(OutOfMemory) =>
  }

  predicate ListenersAmple(listeners: seq<D.Listener>) {
    forall l :: l in listeners ==> l.link.fault == T.NoFault
  }

  predicate AutoAmple(auto: Auto) {
    && auto.v.checkMemory && auto.v.expectFault == PR.AllSucceed && auto.link.fault == T.NoFault
    && auto.listeners.Some? && ListenersAmple(auto.listeners.value)
  }

  lemma {:induction false} ListenersSucceed(a: D.Attempt, tx: TxId, sender: Option<ConnId>, addressed: Option<ConnId>,
                                            m: Message, listeners: seq<D.Listener>, max: int)
    requires tx in a.net.connections && D.AllReach(a.net.queues.Keys, listeners) && a.failure.None?
    requires ListenersAmple(listeners)
    ensures D.SendToListeners(a, tx, sender, addressed, m, listeners, max).failure.None?
    decreases |listeners|
  {
    if listeners != [] {
      assert listeners[0] in listeners;
      var one := D.SendOne(a, tx, sender, addressed, m, listeners[0], max);
      ListenersSucceed(one, tx, sender, addressed, m, listeners[1..], max);
    }
  }

  lemma DispatchSucceeds(a: D.Attempt, tx: TxId, conn: ConnId, owner: ConnId, m: Message, auto: Auto, max: int)
    requires PRP.Inv(a.replies, PRP.HeldBy(a.hooks), max) && tx in a.net.connections
    requires Deliverable(a.net.queues.Keys, owner, auto) && AutoAmple(auto)
    ensures D.DispatchMatches(a, tx, Some(conn), Some(owner), m, auto.v, auto.link, auto.listeners, max).failure
            != Some(OutOfMemory)
  {
    DO.GateDecides(a.replies, a.hooks, conn, owner, m, auto.v, max);
    var gate := D.Gate(a.replies, a.hooks, Some(conn), Some(owner), Some(owner), m, auto.v, max);
    var (net, ok) := T.Send(a.net, tx, owner, m, auto.link.connected, auto.link.fault);
    ListenersSucceed(D.Attempt(gate.replies, gate.hooks, net, None), tx, Some(conn), Some(owner), m,
                     auto.listeners.value, max);
  }

  /** Once a message is queued only memory can fail. */
  lemma QueuedThenMemory(a: D.Attempt, tx: TxId, w: Waiter, owner: ConnId, auto: Auto, max: int)
    requires tx in a.net.connections && Deliverable(a.net.queues.Keys, owner, auto)
    requires GetsQueued(a, tx, w, owner, auto, max)
    ensures var one := D.DispatchMatches(a, tx, Some(w.conn), Some(owner), w.message, auto.v, auto.link, auto.listeners,
                                         max);
            one.failure in {None, Some(OutOfMemory)}
  {
    var gate := D.Gate(a.replies, a.hooks, Some(w.conn), Some(owner), Some(owner), w.message, auto.v, max);
    var net := T.Send(a.net, tx, owner, w.message, auto.link.connected, auto.link.fault).0;
    if auto.listeners.Some? {
      DP.ListenersFail(D.Attempt(gate.replies, gate.hooks, net, None), tx, Some(w.conn), Some(owner), w.message,
                       auto.listeners.value, max);
    }
  }

  lemma AutosStep(a: D.Attempt, tx: TxId, waiters: seq<Waiter>, recipients: seq<Recipient>, owner: ConnId,
                  autos: seq<Auto>, max: int) returns (one: D.Attempt)
    requires PRP.Inv(a.replies, PRP.HeldBy(a.hooks), max) && a.failure.None? && waiters != []
    requires tx in a.net.connections && |recipients| == |waiters| == |autos|
    requires forall auto :: auto in autos ==> Deliverable(a.net.queues.Keys, owner, auto)
    ensures one.net.queues.Keys == a.net.queues.Keys && tx in one.net.connections
    ensures StepsBy(a.replies, a.hooks, one, waiters, recipients, owner, autos, max)
    ensures AutoAmple(autos[0]) ==> one.failure != Some(OutOfMemory)
    ensures DispatchAutos(a, tx, waiters, recipients, owner, autos, max)
         == if one.failure.Some? then one
            else DispatchAutos(one, tx, waiters[1..], recipients[1..], owner, autos[1..], max)
    ensures one.failure != Some(OutOfMemory) ==>
              SentOn(a, tx, waiters, recipients, owner, autos, max)
              == if one.failure.Some? then 0
                 else 1 + SentOn(one, tx, waiters[1..], recipients[1..], owner, autos[1..], max)
  {
    if waiters[0].auto && recipients[0].connected {
      assert Deliverable(a.net.queues.Keys, owner, autos[0]);
      DispatchJudges(a, tx, waiters[0].conn, owner, waiters[0].message, autos[0], max);
      one := D.DispatchMatches(a, tx, Some(waiters[0].conn), Some(owner), waiters[0].message, autos[0].v, autos[0].link,
                               autos[0].listeners, max);
      JudgedSteps(a.replies, a.hooks, one, waiters, recipients, owner, autos, max);
      if GetsQueued(a, tx, waiters[0], owner, autos[0], max) {
        QueuedThenMemory(a, tx, waiters[0], owner, autos[0], max);
      }
      if AutoAmple(autos[0]) { DispatchSucceeds(a, tx, waiters[0].conn, owner, waiters[0].message, autos[0], max); }
    } else {
      one := a;
    }
  }

  /**
   Unless memory runs out, dispatching what was held back fails exactly with the first refusal, after all that come
   before it.
   */
  lemma {:induction false} HeldBackDecides(a: D.Attempt, tx: TxId, waiters: seq<Waiter>, recipients: seq<Recipient>,
                                           owner: ConnId, autos: seq<Auto>, max: int)
    requires PRP.Inv(a.replies, PRP.HeldBy(a.hooks), max) && a.failure.None?
    requires tx in a.net.connections && |recipients| == |waiters| == |autos|
    requires forall auto :: auto in autos ==> Deliverable(a.net.queues.Keys, owner, auto)
    ensures var failure := DispatchAutos(a, tx, waiters, recipients, owner, autos, max).failure;
            failure != Some(OutOfMemory) ==>
              (SentOn(a, tx, waiters, recipients, owner, autos, max), failure)
              == FirstRefusal(a.replies, a.hooks, waiters, recipients, owner, autos, max)
    decreases |waiters|
  {
    if waiters != [] {
      var one := AutosStep(a, tx, waiters, recipients, owner, autos, max);
      if one.failure.None? { HeldBackDecides(one, tx, waiters[1..], recipients[1..], owner, autos[1..], max); }
    }
  }

  /** The first refusal among what was held back for the service, and how many come before it. */
  ghost function Passing(a: Activations, b: D.Bus, e: Appearance, max: int): (first: (nat, Option<Failure>))
    requires CanAppear(a, b, e)
    ensures first.0 <= |e.recipients|
  {
    FirstRefusal(b.replies, [], WaitersFor(a, e.service), e.recipients, e.owner, e.autos, max)
  }

  ghost function Refusal(a: Activations, b: D.Bus, e: Appearance, max: int): Option<Failure>
    requires CanAppear(a, b, e)
  {
    Passing(a, b, e, max).1
  }

  /** Why the activation is not over: memory runs out before it leaves the table, or something is refused. */
  function Stopped(a: Activations, b: D.Bus, e: Appearance, isNew: bool, max: int): Option<Failure>
    requires CanAppear(a, b, e)
  {
    Appearing(a, b, e, isNew, max).0.failure
  }

  predicate RanOut(a: Activations, b: D.Bus, e: Appearance, isNew: bool, max: int)
    requires CanAppear(a, b, e)
  {
    Stopped(a, b, e, isNew, max) == Some(OutOfMemory)
  }

  lemma StoppedDecides(a: Activations, b: D.Bus, e: Appearance, isNew: bool, max: int)
    requires DP.BusInv(b, max) && CanAppear(a, b, e)
    ensures RanOut(a, b, e, isNew, max)
            || (SentOnIn(a, b, e, isNew, max), Stopped(a, b, e, isNew, max)) == Passing(a, b, e, max)
  {
    var tx := e.request.tx;
    var (net, told) := Ensure(a, b, e, isNew);
    if told && e.registered {
      HeldBackDecides(D.Attempt(b.replies, [], net, None), tx, WaitersFor(a, e.service), e.recipients, e.owner, e.autos,
                      max);
    }
  }

  // ---------------------------------------------------------------------------------------------
  // The activations

  /** The activations after an appearance, whose transaction was executed or not. */
  lemma AppearActivations(a: Activations, b: D.Bus, e: Appearance, isNew: bool, maxPending: int, max: int)
    requires AR.Settled(a, maxPending) && CanAppear(a, b, e)
    ensures var r := Appearing(a, b, e, isNew, max).0;
            && Execute(r.activations, r.hooks)
               == (if r.failure.None? && e.service in a.table then Fail(a, a.table[e.service]) else a)
            && Cancel(r.activations, r.hooks) == a
  {
    if e.service in a.table {
      var id := a.table[e.service];
      AR.SettledMeansListed(a, maxPending, id);
      AU.DeliveryUndone(a, maxPending, e.service, None, true);
      AU.RefThenUnref(a, id);
      AU.OutAndIn(a, id, e.service);
      var r := Deliver(a, [], e.service, None, true);
      assert r.hooks[1..] == [];
      assert FreeHooks(r.activations, r.hooks) == Unref(r.activations, id);
    }
  }

  /** What becomes of the activation when its service came: it is over unless something stopped that. */
  function Afterwards(a: Activations, service: string, stopped: Option<Failure>): Activations {
    if stopped.Some? then AssertErrorSet(a, stopped)
    else if service in a.table then Fail(a, a.table[service])
    else a
  }

  /** The transaction of the request for the name is executed in the end. */
  predicate Executed(a: Activations, b: D.Bus, e: Appearance, isNew: bool, max: int)
    requires CanAppear(a, b, e)
  {
    D.Report(Appearing(a, b, e, isNew, max).1, e.request).1
  }

  lemma SettledAfterwards(a: Activations, maxPending: int, service: string, stopped: Option<Failure>)
    requires AR.Settled(a, maxPending)
    ensures AR.Settled(Afterwards(a, service, stopped), maxPending)
    ensures service in a.table ==> (IsLive(Afterwards(a, service, stopped).arena, a.table[service]) <==> stopped.Some?)
  {
    if service in a.table {
      AR.SettledMeansListed(a, maxPending, a.table[service]);
      AR.FailExact(a, maxPending, a.table[service]);
    }
    var a' := a.(errorsSet := false);
    forall x: ActivationId ensures AP.InTable(a', x) == AP.InTable(a, x) && AP.Right(a', multiset{}, x) {
      assert AP.Right(a, multiset{}, x);
    }
  }

  /** Those who wait, and those of them that were told before memory ran out. */
  ghost predicate FirstAnswered(a: Activations, b: D.Bus, e: Appearance, isNew: bool, n': T.Net)
    requires CanAppear(a, b, e)
  {
    var k := ToldIn(a, b, e, isNew);
    AnswersSent(b.net, n', WaitersFor(a, e.service)[..k], e.recipients[..k])
  }

  /** The failure of the whole is what stopped it, or memory for the answer to the request for the name. */
  lemma AppearingFails(a: Activations, b: D.Bus, e: Appearance, isNew: bool, max: int)
    requires CanAppear(a, b, e)
    ensures var (stopped, failure) := (Stopped(a, b, e, isNew, max), Appearing(a, b, e, isNew, max).1.failure);
            if stopped.Some? then failure == stopped else failure in {None, Some(OutOfMemory)}
  {
  }

  /** Unless memory runs out, everybody is told if the name had no owner, and nobody if it had. */
  lemma AllAreTold(a: Activations, b: D.Bus, e: Appearance, isNew: bool, max: int)
    requires DP.BusInv(b, max) && CanAppear(a, b, e) && !RanOut(a, b, e, isNew, max)
    ensures ToldIn(a, b, e, isNew) == if isNew then |e.recipients| else 0
  {
    var ops := AppearingAdds(a, b, e, isNew, max);
  }

  /** The activations in the end; if the transaction is cancelled, memory ran out and they are as before. */
  lemma AppearTurns(a: Activations, b: D.Bus, e: Appearance, isNew: bool, maxPending: int, max: int)
    requires AR.Settled(a, maxPending) && CanAppear(a, b, e)
    ensures Appear(a, b, e, isNew, max).0
         == if Executed(a, b, e, isNew, max) then Afterwards(a, e.service, Stopped(a, b, e, isNew, max)) else a
    ensures Executed(a, b, e, isNew, max) && RanOut(a, b, e, isNew, max) ==> !e.request.answer.link.connected
  {
    AppearActivations(a, b, e, isNew, maxPending, max);
    AppearingFails(a, b, e, isNew, max);
  }

  /**
   When a connection asks for a name, the transaction of that is executed or cancelled as a whole.  If it is cancelled,
   which is when memory runs out anywhere, or for the report of a refusal, nothing at all has happened.  If it is
   executed, those who asked for the service are answered if the name had no owner before, and nobody if it had; and the
   activation is over if and only if no message that was held back is refused.  Otherwise it goes on, and a silent
   refusal also fails the assertion that an error is set.  For a requester that is gone the transaction is executed even
   if memory runs out: then the activation goes on as well if it had not left the table, and those are answered that
   were told before.
   */
  lemma AppearEnds(a: Activations, b: D.Bus, e: Appearance, isNew: bool, maxPending: int, limits: PR.Limits)
    requires AR.Settled(a, maxPending) && DP.BusInv(b, limits.maxReplies) && CanAppear(a, b, e)
    ensures var (a', b') := Appear(a, b, e, isNew, limits.maxReplies);
            var stopped := Stopped(a, b, e, isNew, limits.maxReplies);
            && b'.Some? && DP.BusInv(b'.value, limits.maxReplies) && AR.Settled(a', maxPending)
            && (stopped == Some(OutOfMemory) || stopped == Refusal(a, b, e, limits.maxReplies))
            && (stopped != Some(OutOfMemory) ==> ToldIn(a, b, e, isNew) == if isNew then |e.recipients| else 0)
            && if Executed(a, b, e, isNew, limits.maxReplies)
               then a' == Afterwards(a, e.service, stopped)
                    && FirstAnswered(a, b, e, isNew, b'.value.net)
                    && (stopped == Some(OutOfMemory) ==> !e.request.answer.link.connected)
               else a' == a && b'.value.net == b.net && PRP.SameReplies(b.replies, b'.value.replies)
  {
    var max := limits.maxReplies;
    AppearTurns(a, b, e, isNew, maxPending, max);
    AppearBus(a, b, e, isNew, limits);
    StoppedDecides(a, b, e, isNew, max);
    if !RanOut(a, b, e, isNew, max) { AllAreTold(a, b, e, isNew, max); }
    SettledAfterwards(a, maxPending, e.service, Stopped(a, b, e, isNew, max));
  }

  /** An appearance fails the assertion that an error is set exactly if it is executed and first refused silently. */
  lemma AppearErrors(a: Activations, b: D.Bus, e: Appearance, isNew: bool, maxPending: int, limits: PR.Limits)
    requires AR.Settled(a, maxPending) && DP.BusInv(b, limits.maxReplies) && CanAppear(a, b, e)
    ensures Appear(a, b, e, isNew, limits.maxReplies).0.errorsSet
         == (a.errorsSet && !(Executed(a, b, e, isNew, limits.maxReplies)
                              && Stopped(a, b, e, isNew, limits.maxReplies) == Some(RefusedSilently)))
  {
    AppearEnds(a, b, e, isNew, maxPending, limits);
    if e.service in a.table {
      AR.SettledMeansListed(a, maxPending, a.table[e.service]);
      AR.FailExact(a, maxPending, a.table[e.service]);
    }
  }

  // ---------------------------------------------------------------------------------------------
  // When memory does not run out

  predicate Ample(e: Appearance) {
    && (forall memory :: memory in e.memory ==> memory.made && memory.fault == T.NoFault)
    && (forall auto :: auto in e.autos ==> AutoAmple(auto))
    && e.announced && e.registered && e.hookMemory
    && e.reply.made && e.reply.link.fault == T.NoFault
    && e.request.answer.made && e.request.answer.link.fault == T.NoFault
  }

  lemma {:induction false} TellSucceeds(n: T.Net, tx: TxId, waiters: seq<Waiter>, recipients: seq<Recipient>,
                                        memory: seq<Memory>, word: Word)
    requires tx in n.connections && Present(n.queues.Keys, waiters, recipients) && |memory| == |waiters|
    requires forall one :: one in memory ==> one.made && one.fault == T.NoFault
    ensures Tell(n, tx, waiters, recipients, memory, word).1
    decreases |waiters|
  {
    if waiters != [] {
      assert memory[0] in memory;
      var (n', ok) := TellOne(n, tx, waiters[0], recipients[0], memory[0], word);
      TellSucceeds(n', tx, waiters[1..], recipients[1..], memory[1..], word);
    }
  }

  lemma {:induction false} AutosSucceed(a: D.Attempt, tx: TxId, waiters: seq<Waiter>, recipients: seq<Recipient>,
                                        owner: ConnId, autos: seq<Auto>, max: int)
    requires PRP.Inv(a.replies, PRP.HeldBy(a.hooks), max) && a.failure.None?
    requires tx in a.net.connections && |recipients| == |waiters| == |autos|
    requires forall auto :: auto in autos ==> Deliverable(a.net.queues.Keys, owner, auto)
    requires forall auto :: auto in autos ==> AutoAmple(auto)
    ensures DispatchAutos(a, tx, waiters, recipients, owner, autos, max).failure != Some(OutOfMemory)
    decreases |waiters|
  {
    if waiters != [] {
      assert AutoAmple(autos[0]);
      var one := AutosStep(a, tx, waiters, recipients, owner, autos, max);
      if one.failure.None? { AutosSucceed(one, tx, waiters[1..], recipients[1..], owner, autos[1..], max); }
    }
  }

  lemma AmpleEnsures(a: Activations, b: D.Bus, e: Appearance, isNew: bool)
    requires CanAppear(a, b, e) && Ample(e)
    ensures Ensure(a, b, e, isNew).1
  {
    TellSucceeds(Begun(b.net, e.request.tx), e.request.tx, WaitersFor(a, e.service), e.recipients, e.memory, Success);
  }

  lemma AmpleDispatches(a: Activations, b: D.Bus, e: Appearance, isNew: bool, max: int)
    requires DP.BusInv(b, max) && CanAppear(a, b, e) && Ample(e)
    ensures HeldBack(a, b, e, isNew, max).failure != Some(OutOfMemory)
  {
    AmpleEnsures(a, b, e, isNew);
    AutosSucceed(D.Attempt(b.replies, [], Ensure(a, b, e, isNew).0, None), e.request.tx, WaitersFor(a, e.service),
                 e.recipients, e.owner, e.autos, max);
  }

  lemma AmpleFinishes(a: Activations, b: D.Bus, e: Appearance, isNew: bool, max: int)
    requires DP.BusInv(b, max) && CanAppear(a, b, e) && Ample(e)
    ensures var (r, attempt) := Appearing(a, b, e, isNew, max);
            r.failure != Some(OutOfMemory) && attempt.failure != Some(OutOfMemory)
  {
    AmpleDispatches(a, b, e, isNew, max);
    AppearingFails(a, b, e, isNew, max);
  }

  lemma AmpleReport(attempt: D.Attempt, e: D.Incoming)
    requires e.tx in attempt.net.connections && D.Reaches(attempt.net.queues.Keys, e.sender, e.answer.link)
    requires attempt.failure != Some(OutOfMemory) && e.answer.made && e.answer.link.fault == T.NoFault
    ensures D.Report(attempt, e).1
  {
    match attempt.failure
    case None =>
    case Some(Refused) =>
    case Some(RefusedSilently) =>
    case Some(OutOfMemory) =>
  }

  /** With memory for everything the transaction of the request for the name is executed, refusals or not. */
  lemma AmpleIsExecuted(a: Activations, b: D.Bus, e: Appearance, isNew: bool, max: int)
    requires DP.BusInv(b, max) && CanAppear(a, b, e) && Ample(e)
    ensures Executed(a, b, e, isNew, max) && !RanOut(a, b, e, isNew, max)
  {
    AmpleFinishes(a, b, e, isNew, max);
    AmpleReport(Appearing(a, b, e, isNew, max).1, e.request);
  }

  // ---------------------------------------------------------------------------------------------
  // Told twice

  /**
   After an executed appearance that was stopped those who wait are told twice: that the service came, and when the
   activation times out that it did not.
   */
  lemma ToldTwice(a: Activations, b: D.Bus, e: Appearance, maxPending: int, limits: PR.Limits, how: string,
                  tries: seq<Try>)
    requires AR.Settled(a, maxPending) && DP.BusInv(b, limits.maxReplies) && CanAppear(a, b, e)
    requires Executed(a, b, e, true, limits.maxReplies) && Stopped(a, b, e, true, limits.maxReplies).Some?
    requires forall t :: t in tries ==> Fits(t, WaitersFor(a, e.service)) && t.tx !in b.net.connections
    ensures var (a', b') := Appear(a, b, e, true, limits.maxReplies);
            var waiters := WaitersFor(a, e.service);
            && b'.Some? && FirstAnswered(a, b, e, true, b'.value.net)
            && WaitersFor(a', e.service) == waiters && b'.value.net.queues == b.net.queues
            && Present(b'.value.net.queues.Keys, waiters, e.recipients)
            && var done := KeepTrying(b'.value.net, waiters, e.recipients, how, tries);
            done.Some? && (done.value.1 ==> Told(b'.value.net, done.value.0, waiters, e.recipients, Failure(how)))
  {
    AppearEnds(a, b, e, true, maxPending, limits);
    AppearLeavesQueues(a, b, e, true, limits);
    var n := Appear(a, b, e, true, limits.maxReplies).1.value.net;
    FailureAnswersOnce(n, WaitersFor(a, e.service), e.recipients, how, tries);
  }
}
