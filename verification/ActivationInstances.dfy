/** Short runs in which a request is answered twice, or not again, and a message that was held back is sent on twice. */
module ActivationInstances {
  import opened BusTypes
  import opened Activations
  import opened ActivationAnswers
  import opened ActivationReplies
  import opened ActivationRequests
  import opened Appearances
  import opened HeldBackMessages
  import AP = ActivationProofs
  import ARP = ActivationRepliesProofs
  import D = Dispatch
  import DO = DispatchOutcomes
  import PR = PendingReplies
  import T = Transactions

  const LINK := D.Link(true, true, T.NoFault)
  const ANSWER := D.Answer(true, false, LINK)
  const MEMORY := Memory(true, T.NoFault)
  const THERE := Recipient(true, false)
  const SMALL := Setting(3, PR.Limits(1, 0), false)

  // Three clients that have nothing queued.
  const THREE: map<ConnId, seq<T.ToSend>> := map[0 := [], 1 := [], 2 := []]

  function Judgement(send: bool, receive: bool): D.Verdicts {
    D.Verdicts(true, true, false, D.Policy(send, send), D.Policy(receive, receive), false, true, PR.AllSucceed, 1)
  }

  function ToDriver(tx: TxId, sender: ConnId, serial: Serial, body: string): D.Incoming {
    D.Incoming(tx, sender, None, Message(MethodCall, serial, 0, false, false, body), Judgement(true, true), LINK,
               Some([]), ANSWER)
  }

  // ---------------------------------------------------------------------------------------------
  // Runs of two events

  /** What a run sends about a request, all of which is in the outbox. */
  ghost predicate SendsAbout(s: State, run: seq<Happening>, id: ActivationId, k: nat, forward: bool, conn: ConnId,
                             sent: seq<Message>)
  {
    && Inv(s, SMALL) && AllHappen(s, run, SMALL) && SentAbout(s, run, id, k, forward, conn, SMALL) == sent
    && Gains(s.bus.net, Final(s, run, SMALL).bus.net, conn, sent)
  }

  lemma OneEvent(s: State, h: Happening, id: ActivationId, k: nat, forward: bool, conn: ConnId)
    requires CanHappen(s, h)
    ensures AllHappen(s, [h], SMALL)
    ensures SentAbout(s, [h], id, k, forward, conn, SMALL) == SentBy(s, h, id, k, forward, conn, SMALL)
  {
    assert [h][1..] == [];
    assert SentBy(s, h, id, k, forward, conn, SMALL) + [] == SentBy(s, h, id, k, forward, conn, SMALL);
  }

  /** One event and what it sends about a request. */
  ghost predicate Sends(s: State, h: Happening, id: ActivationId, k: nat, forward: bool, conn: ConnId,
                        sent: seq<Message>)
  {
    CanHappen(s, h) && SentBy(s, h, id, k, forward, conn, SMALL) == sent
  }

  lemma TwoEvents(s: State, h: Happening, h': Happening, id: ActivationId, k: nat, forward: bool, conn: ConnId,
                  first: seq<Message>, second: seq<Message>)
    requires Inv(s, SMALL) && Sends(s, h, id, k, forward, conn, first)
    requires Sends(Next(s, h, SMALL), h', id, k, forward, conn, second)
    ensures SendsAbout(s, [h, h'], id, k, forward, conn, first + second)
  {
    assert [h, h'][1..] == [h'];
    OneEvent(Next(s, h, SMALL), h', id, k, forward, conn);
    DealsArrive(s, [h, h'], id, k, forward, conn, SMALL);
  }

  // ---------------------------------------------------------------------------------------------
  // A launch that is refused

  const CALM :=
    State(NONE_PENDING, D.Bus(PR.EMPTY, T.Net(THREE, map[], map[])), map[])

  // Client 0 asks for a service by name, and its command cannot be run.
  const ASKS :=
    Asking("svc", false, ToDriver(0, 0, 5, "StartServiceByName"),
           Outcome(Some(ServiceFile("/bin/svc", None)), OutOfMemory, false, true, NoFault,
                   NOT_STARTED.(systemdConnected := false, spawn := Some(Refused))),
           ANSWER)

  function TimesOut(waiting: nat): Happening {
    GaveUp(0, seq(waiting, i => THERE), "TimedOut", [Try(1, true, seq(waiting, i => MEMORY))])
  }

  lemma CalmRight()
    ensures Inv(CALM, SMALL)
  {
    forall id: ActivationId ensures AP.Right(CALM.activations, multiset{}, id) {}
    assert forall c :: c in CALM.bus.net.queues ==> CALM.bus.net.queues[c] == [];
  }

  /** Nothing is queued, and these wait for the first activation. */
  ghost predicate Idle(s: State, waiters: seq<Waiter>) {
    && T.Inv(s.bus.net) && s.bus.net.queues == THREE && s.bus.net.connections == map[]
    && IsLive(s.activations.arena, 0) && Entries(s, 0) == waiters
  }

  /** The error is sent at the first attempt. */
  lemma TimesOutAtOnce(s: State, waiters: seq<Waiter>)
    requires Idle(s, waiters) && forall w :: w in waiters ==> w.conn < 3
    ensures CanHappen(s, TimesOut(|waiters|))
  {
    var (recipients, memory) := (seq(|waiters|, i => THERE), seq(|waiters|, i => MEMORY));
    assert Present(THREE.Keys, waiters, recipients);
    TellSucceeds(Begun(s.bus.net, 1), 1, waiters, recipients, memory, Failure("TimedOut"));
  }

  lemma TimeoutTells(s: State, waiters: seq<Waiter>, k: nat)
    requires Idle(s, waiters) && k < |waiters| && forall w :: w in waiters ==> w.conn < 3
    ensures Sends(s, TimesOut(|waiters|), 0, k, false, waiters[k].conn,
                  [Said(waiters[k].message, Failure("TimedOut"))])
  {
    TimesOutAtOnce(s, waiters);
  }

  lemma LaunchFails()
    ensures CanAsk(CALM.bus, ASKS) && LaunchRefused(CALM.activations, ASKS, SMALL.maxPending, false)
    ensures Idle(Next(CALM, Asked(ASKS), SMALL), [WaiterOf(RequestOf(ASKS))])
  {
    CalmRight();
    RefusedLaunchTells(CALM.activations, CALM.bus, ASKS, SMALL.maxPending, false, SMALL.limits);
    AskBus(CALM.activations, CALM.bus, ASKS, SMALL.maxPending, false, SMALL.limits);
  }

  lemma LaunchTells(s: State, e: Asking)
    requires CanHappen(s, Asked(e)) && LaunchRefused(s.activations, e, SMALL.maxPending, SMALL.systemd)
    requires !e.request.answer.eaten
    ensures Sends(s, Asked(e), |s.activations.arena|, 0, false, e.request.sender,
                  [Said(e.request.m, Failure(e.request.m.body))])
  {
  }

  /** Client 0 is told that its request failed, which stays on record, and told once more when that times out. */
  lemma LaunchErrorTwice()
    ensures SendsAbout(CALM, [Asked(ASKS), TimesOut(1)], 0, 0, false, 0,
                       [Said(ASKS.request.m, Failure("StartServiceByName"))]
                       + [Said(ASKS.request.m, Failure("TimedOut"))])
  {
    CalmRight();
    LaunchFails();
    LaunchTells(CALM, ASKS);
    TimeoutTells(Next(CALM, Asked(ASKS), SMALL), [WaiterOf(RequestOf(ASKS))], 0);
    TwoEvents(CALM, Asked(ASKS), TimesOut(1), 0, 0, false, 0, [Said(ASKS.request.m, Failure("StartServiceByName"))],
              [Said(ASKS.request.m, Failure("TimedOut"))]);
  }

  // ---------------------------------------------------------------------------------------------
  // A service that comes twice

  // Client 0 asked for the service by name; two messages of client 1 are held back for it, which want no reply.
  const ASKED_FOR := Waiter(0, Message(MethodCall, 5, 0, false, false, "StartServiceByName"), false)
  const FIRST := Waiter(1, Message(MethodCall, 6, 0, true, false, "Frobate"), true)
  const SECOND := Waiter(1, Message(MethodCall, 7, 0, true, false, "Defrobate"), true)
  const WAITERS := [ASKED_FOR, FIRST, SECOND]

  const WAITING :=
    State(Activations([Slot.Live(Pending(1, "svc", "/bin/svc", None, WAITERS, 3))], map["svc" := 0], 3, true, true),
          D.Bus(PR.EMPTY, T.Net(THREE, map[], map[])), map[])

  function JudgedAs(send: bool, receive: bool): Auto {
    Auto(Judgement(send, receive), LINK, Some([]))
  }

  // Client 2 asks for the name, and the policies judge the second message like this.
  function Requests(send: bool, receive: bool): Appearance {
    Appearance("svc", ToDriver(0, 2, 1, "RequestName"), true, [THERE, THERE, THERE], [MEMORY, MEMORY, MEMORY], true, 2,
               [JudgedAs(true, true), JudgedAs(true, true), JudgedAs(send, receive)], true, ANSWER)
  }

  /** The three of them wait for the service, whether its name is owned or not. */
  ghost predicate Waiting(s: State) {
    && Inv(s, SMALL) && Idle(s, WAITERS)
    && s.activations.table == map["svc" := 0] && s.names.Keys <= {"svc"}
    && ("svc" in s.names ==> s.names["svc"] == 2)
  }

  lemma WaitingRight()
    ensures Waiting(WAITING)
  {
    var a := WAITING.activations;
    assert a.arena[1..] == [] && AP.InTable(a, 0);
    assert AP.CountWaiters(a.arena) == 3;
    forall id: ActivationId ensures AP.Right(a, multiset{}, id) {
      assert IsLive(a.arena, id) <==> id == 0;
    }
    assert forall c :: c in WAITING.bus.net.queues ==> WAITING.bus.net.queues[c] == [];
  }

  /** Such a message is judged by the policies alone, whatever is recorded. */
  lemma Judged(r: PR.Replies, w: Waiter, send: bool, receive: bool)
    requires w in {FIRST, SECOND}
    ensures DO.Silent(r, 1, 2, w.message, Judgement(send, receive)) <==> send && !receive
    ensures DO.AloudOrFds(r, 1, 2, w.message, Judgement(send, receive), LINK, 1) <==> !send
  {
  }

  function Verdict(send: bool, receive: bool): (nat, Option<Failure>) {
    if !send then (2, Some(Refused)) else if !receive then (2, Some(RefusedSilently)) else (3, None)
  }

  lemma SecondJudged(r: PR.Replies, hooks: seq<PR.Hook>, send: bool, receive: bool)
    ensures var (first, refusal) := Verdict(send, receive);
            FirstRefusal(r, hooks, [SECOND], [THERE], 2, Requests(send, receive).autos[2..], 1) == (first - 2, refusal)
  {
    Judged(r, SECOND, send, receive);
    var autos := Requests(send, receive).autos[2..];
    assert [SECOND][1..] == [] && [THERE][1..] == [] && autos[1..] == [];
  }

  lemma BothJudged(r: PR.Replies, hooks: seq<PR.Hook>, send: bool, receive: bool)
    ensures var (first, refusal) := Verdict(send, receive);
            FirstRefusal(r, hooks, [FIRST, SECOND], [THERE, THERE], 2, Requests(send, receive).autos[1..], 1)
            == (first - 1, refusal)
  {
    Judged(r, FIRST, true, true);
    var autos := Requests(send, receive).autos[1..];
    assert [FIRST, SECOND][1..] == [SECOND] && [THERE, THERE][1..] == [THERE];
    assert autos[1..] == Requests(send, receive).autos[2..];
    var gate := D.Gate(r, hooks, Some(1), Some(2), Some(2), FIRST.message, autos[0].v, 1);
    SecondJudged(gate.replies, gate.hooks, send, receive);
  }

  /** The second message is refused if the policies say so, and the first is not. */
  lemma ComesAs(s: State, send: bool, receive: bool)
    requires Waiting(s)
    ensures CanHappen(s, Appeared(Requests(send, receive)))
    ensures Passing(s.activations, s.bus, Requests(send, receive), 1) == Verdict(send, receive)
  {
    var e := Requests(send, receive);
    assert WAITERS[1..] == [FIRST, SECOND] && e.recipients[1..] == [THERE, THERE];
    BothJudged(s.bus.replies, [], send, receive);
  }

  lemma RequestsAmple(send: bool, receive: bool)
    ensures Ample(Requests(send, receive))
  {
    assert AutoAmple(JudgedAs(true, true)) && AutoAmple(JudgedAs(send, receive));
  }

  lemma ComesExecuted(s: State, send: bool, receive: bool)
    requires Waiting(s) && CanHappen(s, Appeared(Requests(send, receive)))
    ensures Comes(s, Requests(send, receive), 0, 1)
    ensures !RanOut(s.activations, s.bus, Requests(send, receive), IsNew(s, Requests(send, receive)), 1)
    ensures Ensure(s.activations, s.bus, Requests(send, receive), IsNew(s, Requests(send, receive))).1
  {
    var e := Requests(send, receive);
    RequestsAmple(send, receive);
    AmpleIsExecuted(s.activations, s.bus, e, IsNew(s, e), 1);
    AmpleEnsures(s.activations, s.bus, e, IsNew(s, e));
  }

  /** What an executed request for the name sends about the requests of the first activation. */
  lemma AppearanceSends(s: State, e: Appearance, k: nat)
    requires Inv(s, SMALL) && CanHappen(s, Appeared(e)) && Comes(s, e, 0, 1)
    requires !RanOut(s.activations, s.bus, e, IsNew(s, e), 1)
    requires k < |Entries(s, 0)| && e.recipients[k] == THERE && e.autos[k].link.connected
    ensures var w := Entries(s, 0)[k];
            Sends(s, Appeared(e), 0, k, w.auto, if w.auto then e.owner else w.conn,
                  if w.auto then (if k < Passing(s.activations, s.bus, e, 1).0 then [w.message] else [])
                  else if IsNew(s, e) then [Said(w.message, Success)]
                  else [])
  {
    AppearanceDecides(s, e, 0, k, SMALL);
  }

  /** Client 0 is told if the name is new; the first message is sent on whatever becomes of the second. */
  lemma ComesSends(s: State, send: bool, receive: bool)
    requires Waiting(s)
    ensures var h := Appeared(Requests(send, receive));
            && Sends(s, h, 0, 0, false, 0, if "svc" in s.names then [] else [Said(ASKED_FOR.message, Success)])
            && Sends(s, h, 0, 1, true, 2, [FIRST.message])
            && Sends(s, h, 0, 2, true, 2, if send && receive then [SECOND.message] else [])
  {
    var e := Requests(send, receive);
    ComesAs(s, send, receive);
    ComesExecuted(s, send, receive);
    AppearanceSends(s, e, 0);
    AppearanceSends(s, e, 1);
    AppearanceSends(s, e, 2);
  }

  /** What becomes of the activations, and of the name. */
  lemma ComesTurns(s: State, send: bool, receive: bool)
    requires Waiting(s) && CanHappen(s, Appeared(Requests(send, receive)))
    ensures var s' := Next(s, Appeared(Requests(send, receive)), SMALL);
            && s'.activations == Afterwards(s.activations, "svc", Verdict(send, receive).1)
            && s'.names == s.names["svc" := 2]
  {
    var (e, isNew) := (Requests(send, receive), IsNew(s, Requests(send, receive)));
    ComesAs(s, send, receive);
    ComesExecuted(s, send, receive);
    StoppedDecides(s.activations, s.bus, e, isNew, 1);
    AppearTurns(s.activations, s.bus, e, isNew, SMALL.maxPending, 1);
  }

  /** Unless both messages are sent on, the three wait on, for a name that is owned. */
  lemma ComesLeaves(s: State, send: bool, receive: bool)
    requires Waiting(s) && CanHappen(s, Appeared(Requests(send, receive)))
    ensures var s' := Next(s, Appeared(Requests(send, receive)), SMALL);
            if send && receive then !IsLive(s'.activations.arena, 0) else Waiting(s') && "svc" in s'.names
  {
    var e := Requests(send, receive);
    NextKeeps(s, Appeared(e), SMALL);
    ComesTurns(s, send, receive);
    SettledAfterwards(s.activations, SMALL.maxPending, "svc", Verdict(send, receive).1);
    ARP.AppearLeavesQueues(s.activations, s.bus, e, IsNew(s, e), SMALL.limits);
  }

  lemma FirstTimesOut(s: State)
    requires Waiting(s)
    ensures Sends(s, TimesOut(3), 0, 0, false, 0, [Said(ASKED_FOR.message, Failure("TimedOut"))])
  {
    TimeoutTells(s, WAITERS, 0);
  }

  /**
   A message that was held back is refused, silently or aloud: client 0 is told that the service came, and then that it
   did not.
   */
  lemma ReallyToldTwice(send: bool, receive: bool)
    requires !send || !receive
    ensures SendsAbout(WAITING, [Appeared(Requests(send, receive)), TimesOut(3)], 0, 0, false, 0,
                       [Said(ASKED_FOR.message, Success)] + [Said(ASKED_FOR.message, Failure("TimedOut"))])
  {
    var h := Appeared(Requests(send, receive));
    WaitingRight();
    ComesSends(WAITING, send, receive);
    ComesLeaves(WAITING, send, receive);
    FirstTimesOut(Next(WAITING, h, SMALL));
    TwoEvents(WAITING, h, TimesOut(3), 0, 0, false, 0, [Said(ASKED_FOR.message, Success)],
              [Said(ASKED_FOR.message, Failure("TimedOut"))]);
  }

  lemma EndsIn(s: State, h: Happening, h': Happening)
    requires CanHappen(s, h) && CanHappen(Next(s, h, SMALL), h')
    ensures AllHappen(s, [h, h'], SMALL) && Final(s, [h, h'], SMALL) == Next(Next(s, h, SMALL), h', SMALL)
  {
    var s' := Next(s, h, SMALL);
    assert [h, h'][1..] == [h'] && [h'][1..] == [];
    assert Final(s', [h'], SMALL) == Final(Next(s', h', SMALL), [], SMALL);
  }

  /**
   If instead client 2 asks for the name once more, and nothing is refused, the activation is over.  Client 0 is told
   once, but the message before the refused one is sent on twice.
   */
  lemma SentOnTwice(send: bool, receive: bool)
    requires !send || !receive
    ensures var run := [Appeared(Requests(send, receive)), Appeared(Requests(true, true))];
            && SendsAbout(WAITING, run, 0, 0, false, 0, [Said(ASKED_FOR.message, Success)] + [])
            && SendsAbout(WAITING, run, 0, 1, true, 2, [FIRST.message] + [FIRST.message])
            && SendsAbout(WAITING, run, 0, 2, true, 2, [] + [SECOND.message])
            && !IsLive(Final(WAITING, run, SMALL).activations.arena, 0)
  {
    var (h, h') := (Appeared(Requests(send, receive)), Appeared(Requests(true, true)));
    WaitingRight();
    ComesSends(WAITING, send, receive);
    ComesLeaves(WAITING, send, receive);
    ComesSends(Next(WAITING, h, SMALL), true, true);
    ComesLeaves(Next(WAITING, h, SMALL), true, true);
    TwoEvents(WAITING, h, h', 0, 0, false, 0, [Said(ASKED_FOR.message, Success)], []);
    TwoEvents(WAITING, h, h', 0, 1, true, 2, [FIRST.message], [FIRST.message]);
    TwoEvents(WAITING, h, h', 0, 2, true, 2, [], [SECOND.message]);
    EndsIn(WAITING, h, h');
  }

  /** Refused by the service's own policy, its request for the name also fails the assertion that an error is set. */
  lemma SilentlyRefusedFails()
    ensures CanHappen(WAITING, Appeared(Requests(true, false))) && WAITING.activations.errorsSet
    ensures !Next(WAITING, Appeared(Requests(true, false)), SMALL).activations.errorsSet
  {
    WaitingRight();
    ComesAs(WAITING, true, false);
    ComesExecuted(WAITING, true, false);
    StoppedDecides(WAITING.activations, WAITING.bus, Requests(true, false), true, 1);
    AppearErrors(WAITING.activations, WAITING.bus, Requests(true, false), true, SMALL.maxPending, SMALL.limits);
  }
}
