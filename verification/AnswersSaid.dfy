/** What those who wait for a service are told, on the fields of the messages that reach their outboxes. */
module AnswersSaid {
  import opened BusTypes
  import opened Activations
  import opened ActivationReplies
  import opened ActivationRequests
  import opened Appearances
  import opened HeldBackMessages
  import AR = ActivationRuns
  import ARP = ActivationRepliesProofs
  import D = Dispatch
  import DP = DispatchProofs
  import PR = PendingReplies
  import T = Transactions

  /** It replies to the request: the service was started. */
  predicate IsSuccess(m: Message, request: Message) {
    m.kind == MethodReturn && m.replySerial == request.serial && m.body == "DBUS_START_REPLY_SUCCESS"
  }

  /** It replies to the request: it failed like this. */
  predicate IsError(m: Message, request: Message, how: string) {
    m.kind == Error && m.replySerial == request.serial && m.body == how
  }

  /** Of those who wait, the requests that a connection is told about; those that were held back only of a failure. */
  function RequestsOf(waiters: seq<Waiter>, recipients: seq<Recipient>, conn: ConnId, heldBack: bool): seq<Message>
    requires |recipients| == |waiters|
  {
    if waiters == [] then []
    else
      var (w, r) := (waiters[0], recipients[0]);
      (if w.conn == conn && r.connected && !r.eaten && (w.auto ==> heldBack) then [w.message] else [])
      + RequestsOf(waiters[1..], recipients[1..], conn, heldBack)
  }

  /** One answer for each of these requests, in order. */
  ghost predicate Succeeds(answers: seq<Message>, requests: seq<Message>) {
    |answers| == |requests| && forall i :: 0 <= i < |answers| ==> IsSuccess(answers[i], requests[i])
  }

  ghost predicate Fails(answers: seq<Message>, requests: seq<Message>, how: string) {
    |answers| == |requests| && forall i :: 0 <= i < |answers| ==> IsError(answers[i], requests[i], how)
  }

  lemma SucceedsOn(a: seq<Message>, b: seq<Message>, requests: seq<Message>, more: seq<Message>)
    requires Succeeds(a, requests) && Succeeds(b, more)
    ensures Succeeds(a + b, requests + more)
  {
  }

  lemma FailsOn(a: seq<Message>, b: seq<Message>, requests: seq<Message>, more: seq<Message>, how: string)
    requires Fails(a, requests, how) && Fails(b, more, how)
    ensures Fails(a + b, requests + more, how)
  {
  }

  lemma {:induction false} SuccessSaid(waiters: seq<Waiter>, recipients: seq<Recipient>, conn: ConnId)
    requires |recipients| == |waiters|
    ensures Succeeds(Answers(waiters, recipients, Success, conn), RequestsOf(waiters, recipients, conn, false))
  {
    if waiters != [] {
      SuccessSaid(waiters[1..], recipients[1..], conn);
      var (w, r) := (waiters[0], recipients[0]);
      SucceedsOn(AnswerDue(w, r, Success, conn), Answers(waiters[1..], recipients[1..], Success, conn),
                 if w.conn == conn && r.connected && !r.eaten && !w.auto then [w.message] else [],
                 RequestsOf(waiters[1..], recipients[1..], conn, false));
    }
  }

  lemma {:induction false} FailureSaid(waiters: seq<Waiter>, recipients: seq<Recipient>, how: string, conn: ConnId)
    requires |recipients| == |waiters|
    ensures Fails(Answers(waiters, recipients, Failure(how), conn), RequestsOf(waiters, recipients, conn, true), how)
  {
    if waiters != [] {
      FailureSaid(waiters[1..], recipients[1..], how, conn);
      var (w, r) := (waiters[0], recipients[0]);
      FailsOn(AnswerDue(w, r, Failure(how), conn), Answers(waiters[1..], recipients[1..], Failure(how), conn),
              if w.conn == conn && r.connected && !r.eaten then [w.message] else [],
              RequestsOf(waiters[1..], recipients[1..], conn, true), how);
    }
  }

  /**
   When a service comes, whose name had no owner, and that is executed with memory for everybody, then the first thing
   each connection is sent is one method return with the success code for each of its requests by name, in order.
   */
  lemma ComingSays(a: Activations, b: D.Bus, e: Appearance, limits: PR.Limits, conn: ConnId)
    requires DP.BusInv(b, limits.maxReplies) && CanAppear(a, b, e)
    requires Executed(a, b, e, true, limits.maxReplies) && !RanOut(a, b, e, true, limits.maxReplies)
    ensures var b' := Appear(a, b, e, true, limits.maxReplies).1;
            var requests := RequestsOf(WaitersFor(a, e.service), e.recipients, conn, false);
            && b'.Some?
            && var (before, after) := (T.Outbox(b.net, conn), T.Outbox(b'.value.net, conn));
            && |before| + |requests| <= |after| && before <= after
            && Succeeds(after[|before|..|before| + |requests|], requests)
  {
    var waiters := WaitersFor(a, e.service);
    ComingAnswers(a, b, e, limits);
    SentSays(b.net, Appear(a, b, e, true, limits.maxReplies).1.value.net, waiters, e.recipients, conn);
  }

  lemma ComingAnswers(a: Activations, b: D.Bus, e: Appearance, limits: PR.Limits)
    requires DP.BusInv(b, limits.maxReplies) && CanAppear(a, b, e)
    requires Executed(a, b, e, true, limits.maxReplies) && !RanOut(a, b, e, true, limits.maxReplies)
    ensures var b' := Appear(a, b, e, true, limits.maxReplies).1;
            b'.Some? && ARP.AnswersSent(b.net, b'.value.net, WaitersFor(a, e.service), e.recipients)
  {
    ARP.AppearBus(a, b, e, true, limits);
    AllAreTold(a, b, e, true, limits.maxReplies);
    var waiters := WaitersFor(a, e.service);
    assert waiters[..|waiters|] == waiters && e.recipients[..|waiters|] == e.recipients;
  }

  lemma SentSays(n: T.Net, n': T.Net, waiters: seq<Waiter>, recipients: seq<Recipient>, conn: ConnId)
    requires |recipients| == |waiters| && ARP.AnswersSent(n, n', waiters, recipients)
    ensures var requests := RequestsOf(waiters, recipients, conn, false);
            var (before, after) := (T.Outbox(n, conn), T.Outbox(n', conn));
            && |before| + |requests| <= |after| && before <= after
            && Succeeds(after[|before|..|before| + |requests|], requests)
  {
    SuccessSaid(waiters, recipients, conn);
    Next(T.Outbox(n, conn), Answers(waiters, recipients, Success, conn), T.Outbox(n', conn));
  }

  lemma Next(before: seq<Message>, added: seq<Message>, after: seq<Message>)
    requires before + added <= after
    ensures before <= after && after[|before|..|before| + |added|] == added
  {
  }

  /** When an activation fails, each connection is sent exactly one error for each of its requests, with that text. */
  lemma FailingSays(n: T.Net, waiters: seq<Waiter>, recipients: seq<Recipient>, how: string, tries: seq<Try>,
                    conn: ConnId)
    requires T.Inv(n) && Present(n.queues.Keys, waiters, recipients)
    requires forall t :: t in tries ==> Fits(t, waiters) && t.tx !in n.connections
    ensures var done := KeepTrying(n, waiters, recipients, how, tries);
            && done.Some?
            && var (before, after) := (T.Outbox(n, conn), T.Outbox(done.value.0, conn));
            && before <= after
            && if done.value.1 then Fails(after[|before|..], RequestsOf(waiters, recipients, conn, true), how)
               else after == before
  {
    ARP.FailureAnswersOnce(n, waiters, recipients, how, tries);
    FailureSaid(waiters, recipients, how, conn);
    var done := KeepTrying(n, waiters, recipients, how, tries);
    if done.value.1 {
      assert T.Outbox(done.value.0, conn) == T.Outbox(n, conn) + Answers(waiters, recipients, Failure(how), conn);
    }
  }

  /** When a launch is refused with an error that gets out, who asked is sent that error, unless its policy eats it. */
  lemma RefusalSays(a: Activations, b: D.Bus, e: Asking, maxPending: int, systemd: bool, limits: PR.Limits)
    requires AR.Settled(a, maxPending) && DP.BusInv(b, limits.maxReplies) && CanAsk(b, e)
    requires LaunchRefused(a, e, maxPending, systemd)
    ensures var b' := Ask(a, b, e, maxPending, systemd).1;
            && b'.Some?
            && var (before, after) := (T.Outbox(b.net, e.request.sender), T.Outbox(b'.value.net, e.request.sender));
            && before <= after
            && Fails(after[|before|..], if e.request.answer.eaten then [] else [e.request.m], e.request.m.body)
  {
    RefusedLaunchTells(a, b, e, maxPending, systemd, limits);
    var sender := e.request.sender;
    var n' := Ask(a, b, e, maxPending, systemd).1.value.net;
    assert T.Outbox(n', sender) == T.Outbox(b.net, sender) + ErrorTo(e, sender);
  }

  // ---------------------------------------------------------------------------------------------
  // Answers of the driver itself

  /** Who asks by name for a service that runs already is told so, and nothing else happens. */
  lemma RunningSays(a: Activations, b: D.Bus, e: Asking, maxPending: int, systemd: bool, limits: PR.Limits,
                    conn: ConnId)
    requires DP.BusInv(b, limits.maxReplies) && CanAsk(b, e) && FindsRunning(a, e, maxPending)
    requires e.running.made && e.running.link.connected && (e.running.eaten || e.running.link.fault == T.NoFault)
    ensures var (a', b') := Ask(a, b, e, maxPending, systemd);
            && a' == a && b'.Some?
            && T.Outbox(b'.value.net, conn)
               == T.Outbox(b.net, conn)
                  + if conn == e.request.sender && !e.running.eaten
                    then [Message(MethodReturn, 0, e.request.m.serial, true, false, "DBUS_START_REPLY_ALREADY_RUNNING")]
                    else []
  {
    var attempt := Requesting(a, b, e, maxPending, systemd).1;
    AskBus(a, b, e, maxPending, systemd, limits);
    assert !T.Holds(b.net.queues[e.request.sender], e.request.tx);
    var n' := Ask(a, b, e, maxPending, systemd).1.value.net;
    assert T.Outbox(n', conn) == T.Outbox(b.net, conn) + DP.SentTo(attempt.net, e.request.tx, true, conn);
    if conn in b.net.queues {
      T.Splits(b.net.queues[conn], e.request.tx);
      var reply := T.ToSend(e.request.tx, RunningReply(e.request.m));
      assert ([reply] + b.net.queues[conn])[1..] == b.net.queues[conn];
    }
  }

  /** A request for a name that meets no failure is answered, in its own transaction. */
  lemma NameSays(a: Activations, b: D.Bus, e: Appearance, isNew: bool, limits: PR.Limits)
    requires DP.BusInv(b, limits.maxReplies) && CanAppear(a, b, e)
    requires Appearing(a, b, e, isNew, limits.maxReplies).1.failure.None?
    requires e.reply.link.connected && !e.reply.eaten
    ensures var b' := Appear(a, b, e, isNew, limits.maxReplies).1;
            && b'.Some?
            && Gains(b.net, b'.value.net, e.request.sender,
                     [Message(MethodReturn, 0, e.request.m.serial, true, false, "RequestName")])
  {
    var (max, tx, sender) := (limits.maxReplies, e.request.tx, e.request.sender);
    var ops := ARP.AppearingAdds(a, b, e, isNew, max);
    var (sent, attempt) := (HeldBack(a, b, e, isNew, max), Appearing(a, b, e, isNew, max).1);
    DP.ConcludeKeeps(b, attempt, tx, ops, true, limits);
    var reply := T.ToSend(tx, NameReply(e.request.m));
    assert attempt.net.queues[sender][0] == reply && attempt.net.queues[sender][1..] == sent.net.queues[sender];
    EndedGains(b.net, attempt.net, D.Conclude(attempt, tx, true).value.net, tx, sender, [NameReply(e.request.m)]);
  }
}
