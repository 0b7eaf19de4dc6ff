/**
 Whole runs of the bus, the names it knows and its activations together: how often each request that waits for a service
 is answered, or sent on if it was held back, with which messages, in whose outbox.
 */
module ActivationAnswers {
  import opened BusTypes
  import opened Activations
  import opened ActivationReplies
  import opened ActivationRequests
  import opened Appearances
  import opened HeldBackMessages
  import AR = ActivationRuns
  import ARP = ActivationRepliesProofs
  import D = Dispatch
  import DP = DispatchProofs
  import PR = PendingReplies
  import T = Transactions

  /** The names that have owners, with the primary one of each, belong to the state. */
  datatype State = State(activations: Activations, bus: D.Bus, names: map<string, ConnId>)

  datatype Setting = Setting(maxPending: int, limits: PR.Limits, systemd: bool)

  /**
   What can happen: a message asks for a service; a connection asks for a name, which it may own already; the owner of a
   name releases it, or leaves; an activation fails, by a timeout or otherwise, and its errors are tried until memory
   suffices; and every other turn of the main loop.
   */
  datatype Happening =
    | Asked(asking: Asking)
    | Appeared(e: Appearance)
    | Released(service: string, next: Option<ConnId>)
    | GaveUp(id: ActivationId, recipients: seq<Recipient>, how: string, tries: seq<Try>)
    | Turned(turn: D.MainLoopEvent)

  function Entries(s: State, id: ActivationId): seq<Waiter> {
    if IsLive(s.activations.arena, id) then s.activations.arena[id].pending.entries else []
  }

  predicate IsNew(s: State, e: Appearance) {
    e.service !in s.names
  }

  /** What the registry knows is what the call finds. */
  predicate FindsNames(s: State, e: Asking) {
    && (e.auto ==> e.service !in s.names) && e.o.alreadyActive == (e.service in s.names)
    && e.o.launch.systemdConnected == (SYSTEMD in s.names)
  }

  predicate CanOwn(s: State, e: Appearance) {
    e.owner == e.request.sender || (e.service in s.names && e.owner == s.names[e.service])
  }

  predicate CanGiveUp(s: State, id: ActivationId, recipients: seq<Recipient>, how: string, tries: seq<Try>) {
    && IsLive(s.activations.arena, id) && Present(s.bus.net.queues.Keys, Entries(s, id), recipients)
    && (forall t :: t in tries ==> Fits(t, Entries(s, id)) && t.tx !in s.bus.net.connections)
    && var done := KeepTrying(s.bus.net, Entries(s, id), recipients, how, tries);
    done.Some? ==> done.value.1
  }

  /** A connection leaves when it has released its names. */
  predicate CanHappen(s: State, h: Happening) {
    match h
    case Asked(e) => CanAsk(s.bus, e) && FindsNames(s, e)
    case Appeared(e) => CanAppear(s.activations, s.bus, e) && CanOwn(s, e)
    case Released(service, _) => service in s.names
    case GaveUp(id, recipients, how, tries) => CanGiveUp(s, id, recipients, how, tries)
    case Turned(turn) => D.Possible(s.bus, turn) && (turn.Disconnected? ==> turn.conn !in s.names.Values)
  }

  /** The names after a connection asked for one, which it owns if that is executed and memory lasted so far. */
  function NamesAfter(s: State, e: Appearance, max: int): map<string, ConnId>
    requires CanAppear(s.activations, s.bus, e)
  {
    if Executed(s.activations, s.bus, e, IsNew(s, e), max) && e.registered
       && Ensure(s.activations, s.bus, e, IsNew(s, e)).1
    then s.names[e.service := e.owner]
    else s.names
  }

  function OrElse(b: Option<D.Bus>, otherwise: D.Bus): D.Bus {
    if b.Some? then b.value else otherwise
  }

  /** The state afterwards; the bus is as it was if an assertion failed, which none does. */
  function Next(s: State, h: Happening, setting: Setting): State
    requires CanHappen(s, h)
  {
    match h
    case Asked(e) =>
      var (a', b') := Ask(s.activations, s.bus, e, setting.maxPending, setting.systemd);
      State(a', OrElse(b', s.bus), s.names)
    case Appeared(e) =>
      var (a', b') := Appear(s.activations, s.bus, e, IsNew(s, e), setting.limits.maxReplies);
      State(a', OrElse(b', s.bus), NamesAfter(s, e, setting.limits.maxReplies))
    case Released(service, next) =>
      s.(names := if next.Some? then s.names[service := next.value] else s.names - {service})
    case GaveUp(id, recipients, how, tries) =>
      var done := KeepTrying(s.bus.net, Entries(s, id), recipients, how, tries);
      State(Fail(s.activations, id), if done.Some? then s.bus.(net := done.value.0) else s.bus, s.names)
    case Turned(turn) => s.(bus := OrElse(D.Turn(s.bus, turn, setting.limits), s.bus))
  }

  ghost predicate Inv(s: State, setting: Setting) {
    AR.Settled(s.activations, setting.maxPending) && DP.BusInv(s.bus, setting.limits.maxReplies)
  }

  // ---------------------------------------------------------------------------------------------
  // What an event does about a request

  /** An answer to a request, or the request itself that is sent on; it arrives if nothing swallows it on its way. */
  datatype Deal = Deal(forward: bool, to: ConnId, message: Message, arrives: bool)

  /** Whether the request still waits after that, and if so, whether its launch failed or something was refused. */
  datatype Cause = LaunchFailed | WaitsOn | Over

  function ToldTo(w: Waiter, r: Recipient, word: Word): Deal {
    Deal(false, w.conn, Said(w.message, word), !r.eaten)
  }

  /** The event is an executed request for the name that this activation waits for. */
  predicate Comes(s: State, e: Appearance, id: ActivationId, max: int)
    requires CanAppear(s.activations, s.bus, e)
  {
    && e.service in s.activations.table && s.activations.table[e.service] == id
    && Executed(s.activations, s.bus, e, IsNew(s, e), max)
  }

  function DealtInAppearance(s: State, e: Appearance, id: ActivationId, k: nat, max: int): Option<Deal>
    requires CanAppear(s.activations, s.bus, e) && Comes(s, e, id, max)
  {
    if k >= |Entries(s, id)| || !e.recipients[k].connected then None
    else
      var w := Entries(s, id)[k];
      if w.auto && k < SentOnIn(s.activations, s.bus, e, IsNew(s, e), max) then
        Some(Deal(true, e.owner, w.message, e.autos[k].link.connected))
      else if !w.auto && k < ToldIn(s.activations, s.bus, e, IsNew(s, e)) then
        Some(ToldTo(w, e.recipients[k], Success))
      else None
  }

  /** The answer or the message that is sent for request number k of the activation, if there is one. */
  function Dealt(s: State, h: Happening, id: ActivationId, k: nat, setting: Setting): Option<Deal>
    requires CanHappen(s, h)
  {
    match h
    case Asked(e) =>
      if id == |s.activations.arena| && k == 0
         && LaunchRefused(s.activations, e, setting.maxPending, setting.systemd)
      then Some(ToldTo(WaiterOf(RequestOf(e)), Recipient(true, e.request.answer.eaten), Failure(e.request.m.body)))
      else None
    case Appeared(e) =>
      if Comes(s, e, id, setting.limits.maxReplies) then DealtInAppearance(s, e, id, k, setting.limits.maxReplies)
      else None
    case GaveUp(failed, recipients, how, _) =>
      if failed == id && k < |Entries(s, id)| && recipients[k].connected then
        Some(ToldTo(Entries(s, id)[k], recipients[k], Failure(how)))
      else None
    case _ => None
  }

  /** The event answers the request, or sends it on. */
  predicate Deals(s: State, h: Happening, id: ActivationId, k: nat, forward: bool, setting: Setting)
    requires CanHappen(s, h)
  {
    var deal := Dealt(s, h, id, k, setting); deal.Some? && deal.value.forward == forward
  }

  /**
   Whether it waits on: after an error of its launch it does, unless the arguments were wrong; after a request for the
   name, if a message that was held back is refused, or memory runs out, which is for a requester that is gone.
   */
  ghost function CauseOf(s: State, h: Happening, setting: Setting): Cause
    requires CanHappen(s, h)
  {
    match h
    case Asked(e) => if WrongArguments(e.o, setting.systemd) then Over else LaunchFailed
    case Appeared(e) =>
      var max := setting.limits.maxReplies;
      if Refusal(s.activations, s.bus, e, max).Some? || RanOut(s.activations, s.bus, e, IsNew(s, e), max) then WaitsOn
      else Over
    case _ => Over
  }

  /** What an executed request for the name deals with, on its inputs, unless memory runs out. */
  lemma AppearanceDecides(s: State, e: Appearance, id: ActivationId, k: nat, setting: Setting)
    requires Inv(s, setting) && CanHappen(s, Appeared(e)) && Comes(s, e, id, setting.limits.maxReplies)
    requires k < |Entries(s, id)| && !RanOut(s.activations, s.bus, e, IsNew(s, e), setting.limits.maxReplies)
    ensures Dealt(s, Appeared(e), id, k, setting).Some?
            <==> e.recipients[k].connected
                 && if Entries(s, id)[k].auto then k < Passing(s.activations, s.bus, e, setting.limits.maxReplies).0
                    else IsNew(s, e)
  {
    AllAreTold(s.activations, s.bus, e, IsNew(s, e), setting.limits.maxReplies);
    StoppedDecides(s.activations, s.bus, e, IsNew(s, e), setting.limits.maxReplies);
  }

  // ---------------------------------------------------------------------------------------------
  // One event

  /** Nothing that was sent is taken back, and nothing that is over comes back. */
  ghost predicate Keeps(s: State, s': State, setting: Setting) {
    && Inv(s', setting) && AR.GoneStay(s.activations, s'.activations)
    && forall c :: T.Outbox(s.bus.net, c) <= T.Outbox(s'.bus.net, c)
  }

  function Arriving(deal: Deal): seq<Message> {
    if deal.arrives then [deal.message] else []
  }

  /** What is dealt with is there, or the launch of this event, and is over or not as its cause says; and it is sent. */
  ghost predicate DealsRight(s: State, s': State, h: Happening, id: ActivationId, k: nat, setting: Setting)
    requires CanHappen(s, h)
  {
    var deal := Dealt(s, h, id, k, setting);
    deal.Some? ==>
      && (if h.Asked? then id == |s.activations.arena| else k < |Entries(s, id)|)
      && id < |s'.activations.arena|
      && (IsLive(s'.activations.arena, id) <==> CauseOf(s, h, setting) != Over)
      && Gains(s.bus.net, s'.bus.net, deal.value.to, Arriving(deal.value))
  }

  lemma TurnOutboxes(b: D.Bus, turn: D.MainLoopEvent, limits: PR.Limits)
    requires DP.BusInv(b, limits.maxReplies) && D.Possible(b, turn)
    ensures var b' := D.Turn(b, turn, limits);
            b'.Some? && forall c :: T.Outbox(b.net, c) <= T.Outbox(b'.value.net, c)
  {
    DP.TurnKeeps(b, turn, limits);
    match turn
    case Connected(conn) =>
    case Received(e) => var ops := DP.DispatchKeeps(b, e, limits);
    case Disconnected(conn) => T.DropEffect(b.net, conn);
    case Expired(now, budget) =>
  }

  // A message that asks for a service

  lemma AskedKeeps(s: State, e: Asking, setting: Setting)
    requires Inv(s, setting) && CanHappen(s, Asked(e))
    ensures Keeps(s, Next(s, Asked(e), setting), setting)
  {
    var (a, b) := (s.activations, s.bus);
    AskBus(a, b, e, setting.maxPending, setting.systemd, setting.limits);
    AskKeeps(a, b, e, setting.maxPending, setting.systemd);
    var (reported, commit) := D.Report(Requesting(a, b, e, setting.maxPending, setting.systemd).1, e.request);
    EndedGrows(b.net, reported.net, Next(s, Asked(e), setting).bus.net, e.request.tx, commit);
  }

  lemma AskedDeals(s: State, e: Asking, id: ActivationId, k: nat, setting: Setting)
    requires Inv(s, setting) && CanHappen(s, Asked(e))
    ensures DealsRight(s, Next(s, Asked(e), setting), Asked(e), id, k, setting)
  {
    if Dealt(s, Asked(e), id, k, setting).Some? {
      RefusedLaunchTells(s.activations, s.bus, e, setting.maxPending, setting.systemd, setting.limits);
      var sender := e.request.sender;
      assert T.Outbox(Next(s, Asked(e), setting).bus.net, sender) == T.Outbox(s.bus.net, sender) + ErrorTo(e, sender);
    }
  }

  // A connection asks for a name

  lemma AfterwardsLeavesGone(a: Activations, maxPending: int, service: string, stopped: Option<Failure>)
    requires AR.Settled(a, maxPending)
    ensures AR.GoneStay(a, Afterwards(a, service, stopped))
  {
    if service in a.table {
      AR.SettledMeansListed(a, maxPending, a.table[service]);
      AR.FailExact(a, maxPending, a.table[service]);
    }
  }

  lemma AnswersGrow(n: T.Net, n': T.Net, waiters: seq<Waiter>, recipients: seq<Recipient>)
    requires |recipients| == |waiters| && ARP.AnswersSent(n, n', waiters, recipients)
    ensures forall c :: T.Outbox(n, c) <= T.Outbox(n', c)
  {
    forall c ensures T.Outbox(n, c) <= T.Outbox(n', c) {
      assert T.Outbox(n, c) + Answers(waiters, recipients, Success, c) <= T.Outbox(n', c);
    }
  }

  lemma AppearedKeeps(s: State, e: Appearance, setting: Setting)
    requires Inv(s, setting) && CanHappen(s, Appeared(e))
    ensures Keeps(s, Next(s, Appeared(e), setting), setting)
  {
    var (a, b, isNew) := (s.activations, s.bus, IsNew(s, e));
    AppearEnds(a, b, e, isNew, setting.maxPending, setting.limits);
    AfterwardsLeavesGone(a, setting.maxPending, e.service, Stopped(a, b, e, isNew, setting.limits.maxReplies));
    if Executed(a, b, e, isNew, setting.limits.maxReplies) {
      var k := ToldIn(a, b, e, isNew);
      AnswersGrow(b.net, Next(s, Appeared(e), setting).bus.net, WaitersFor(a, e.service)[..k], e.recipients[..k]);
    }
  }

  lemma PrefixCounts<A>(a: seq<A>, b: seq<A>)
    requires a <= b
    ensures multiset(a) <= multiset(b)
  {
    assert b == a + b[|a|..];
  }

  lemma {:induction false} DueIsAmong(waiters: seq<Waiter>, recipients: seq<Recipient>, word: Word, k: nat)
    requires |recipients| == |waiters| && k < |waiters|
    ensures multiset(AnswerDue(waiters[k], recipients[k], word, waiters[k].conn))
            <= multiset(Answers(waiters, recipients, word, waiters[k].conn))
  {
    if k > 0 { DueIsAmong(waiters[1..], recipients[1..], word, k - 1); }
  }

  lemma {:induction false} ForwardIsAmong(waiters: seq<Waiter>, recipients: seq<Recipient>, autos: seq<Auto>, k: nat)
    requires |recipients| == |waiters| == |autos| && k < |waiters|
    ensures multiset(ForwardOf(waiters[k], recipients[k], autos[k])) <= multiset(Forwards(waiters, recipients, autos))
  {
    var (first, rest) := (ForwardOf(waiters[0], recipients[0], autos[0]),
                          Forwards(waiters[1..], recipients[1..], autos[1..]));
    assert multiset(first + rest) == multiset(first) + multiset(rest);
    if k > 0 { ForwardIsAmong(waiters[1..], recipients[1..], autos[1..], k - 1); }
  }

  lemma AnswersGained(n: T.Net, n': T.Net, waiters: seq<Waiter>, recipients: seq<Recipient>, word: Word, k: nat)
    requires |recipients| == |waiters| && k < |waiters| && recipients[k].connected && Concerns(waiters[k], word)
    requires T.Outbox(n, waiters[k].conn) + Answers(waiters, recipients, word, waiters[k].conn)
             <= T.Outbox(n', waiters[k].conn)
    ensures Gains(n, n', waiters[k].conn, Arriving(ToldTo(waiters[k], recipients[k], word)))
  {
    DueIsAmong(waiters, recipients, word, k);
    PrefixCounts(T.Outbox(n, waiters[k].conn) + Answers(waiters, recipients, word, waiters[k].conn),
                 T.Outbox(n', waiters[k].conn));
  }

  /** What is sent on is gained by the owner's outbox. */
  lemma ForwardGained(n: T.Net, n': T.Net, waiters: seq<Waiter>, recipients: seq<Recipient>, autos: seq<Auto>,
                      owner: ConnId, sent: nat, k: nat)
    requires |recipients| == |waiters| == |autos| && k < sent <= |waiters|
    requires waiters[k].auto && recipients[k].connected
    requires Gains(n, n', owner, Forwards(waiters[..sent], recipients[..sent], autos[..sent]))
    ensures Gains(n, n', owner, Arriving(Deal(true, owner, waiters[k].message, autos[k].link.connected)))
  {
    ForwardIsAmong(waiters[..sent], recipients[..sent], autos[..sent], k);
  }

  /** Whoever was told gained the answer. */
  lemma SuccessGained(n: T.Net, n': T.Net, waiters: seq<Waiter>, recipients: seq<Recipient>, told: nat, k: nat)
    requires |recipients| == |waiters| && k < told <= |waiters| && !waiters[k].auto && recipients[k].connected
    requires ARP.AnswersSent(n, n', waiters[..told], recipients[..told])
    ensures Gains(n, n', waiters[k].conn, Arriving(ToldTo(waiters[k], recipients[k], Success)))
  {
    assert waiters[..told][k] == waiters[k];
    AnswersGained(n, n', waiters[..told], recipients[..told], Success, k);
  }

  /** What an executed request for the name sends. */
  ghost predicate AppearedSent(s: State, e: Appearance, n': T.Net, max: int)
    requires CanAppear(s.activations, s.bus, e)
  {
    && FirstAnswered(s.activations, s.bus, e, IsNew(s, e), n')
    && Gains(s.bus.net, n', e.owner, ForwardsOf(s.activations, s.bus, e, IsNew(s, e), max))
  }

  lemma AppearedSends(s: State, e: Appearance, setting: Setting)
    requires Inv(s, setting) && CanHappen(s, Appeared(e))
    requires Executed(s.activations, s.bus, e, IsNew(s, e), setting.limits.maxReplies)
    ensures AppearedSent(s, e, Next(s, Appeared(e), setting).bus.net, setting.limits.maxReplies)
  {
    ARP.AppearBus(s.activations, s.bus, e, IsNew(s, e), setting.limits);
    AppearForwards(s.activations, s.bus, e, IsNew(s, e), setting.limits);
  }

  lemma DealGained(s: State, e: Appearance, n': T.Net, id: ActivationId, k: nat, max: int)
    requires CanAppear(s.activations, s.bus, e) && Comes(s, e, id, max)
    requires AppearedSent(s, e, n', max) && DealtInAppearance(s, e, id, k, max).Some?
    ensures var deal := DealtInAppearance(s, e, id, k, max).value; Gains(s.bus.net, n', deal.to, Arriving(deal))
  {
    var (waiters, isNew) := (WaitersFor(s.activations, e.service), IsNew(s, e));
    if waiters[k].auto {
      ForwardGained(s.bus.net, n', waiters, e.recipients, e.autos, e.owner,
                    SentOnIn(s.activations, s.bus, e, isNew, max), k);
    } else {
      SuccessGained(s.bus.net, n', waiters, e.recipients, ToldIn(s.activations, s.bus, e, isNew), k);
    }
  }

  lemma AppearedDeals(s: State, e: Appearance, id: ActivationId, k: nat, setting: Setting)
    requires Inv(s, setting) && CanHappen(s, Appeared(e))
    ensures DealsRight(s, Next(s, Appeared(e), setting), Appeared(e), id, k, setting)
  {
    var (a, b, isNew, max) := (s.activations, s.bus, IsNew(s, e), setting.limits.maxReplies);
    if Dealt(s, Appeared(e), id, k, setting).Some? {
      AppearedSends(s, e, setting);
      DealGained(s, e, Next(s, Appeared(e), setting).bus.net, id, k, max);
      AppearTurns(a, b, e, isNew, setting.maxPending, max);
      StoppedDecides(a, b, e, isNew, max);
      SettledAfterwards(a, setting.maxPending, e.service, Stopped(a, b, e, isNew, max));
      AfterwardsLeavesGone(a, setting.maxPending, e.service, Stopped(a, b, e, isNew, max));
    }
  }

  // An activation fails

  lemma GaveUpKeeps(s: State, h: Happening, setting: Setting)
    requires Inv(s, setting) && CanHappen(s, h) && h.GaveUp?
    ensures Keeps(s, Next(s, h, setting), setting)
    ensures ARP.Told(s.bus.net, Next(s, h, setting).bus.net, Entries(s, h.id), h.recipients, Failure(h.how))
    ensures !IsLive(Next(s, h, setting).activations.arena, h.id)
  {
    ARP.FailureAnswersOnce(s.bus.net, Entries(s, h.id), h.recipients, h.how, h.tries);
    AR.FailExact(s.activations, setting.maxPending, h.id);
  }

  lemma GaveUpDeals(s: State, h: Happening, id: ActivationId, k: nat, setting: Setting)
    requires Inv(s, setting) && CanHappen(s, h) && h.GaveUp?
    ensures DealsRight(s, Next(s, h, setting), h, id, k, setting)
  {
    GaveUpKeeps(s, h, setting);
    if Dealt(s, h, id, k, setting).Some? {
      var (waiters, n') := (Entries(s, id), Next(s, h, setting).bus.net);
      assert T.Outbox(n', waiters[k].conn)
          == T.Outbox(s.bus.net, waiters[k].conn) + Answers(waiters, h.recipients, Failure(h.how), waiters[k].conn);
      AnswersGained(s.bus.net, n', waiters, h.recipients, Failure(h.how), k);
    }
  }

  // Any event

  lemma NextKeeps(s: State, h: Happening, setting: Setting)
    requires Inv(s, setting) && CanHappen(s, h)
    ensures Keeps(s, Next(s, h, setting), setting)
  {
    match h
    case Asked(e) => AskedKeeps(s, e, setting);
    case Appeared(e) => AppearedKeeps(s, e, setting);
    case Released(_, _) =>
    case GaveUp(_, _, _, _) => GaveUpKeeps(s, h, setting);
    case Turned(turn) =>
      DP.TurnKeeps(s.bus, turn, setting.limits);
      TurnOutboxes(s.bus, turn, setting.limits);
  }

  lemma NextDeals(s: State, h: Happening, id: ActivationId, k: nat, setting: Setting)
    requires Inv(s, setting) && CanHappen(s, h)
    ensures DealsRight(s, Next(s, h, setting), h, id, k, setting)
  {
    match h
    case Asked(e) => AskedDeals(s, e, id, k, setting);
    case Appeared(e) => AppearedDeals(s, e, id, k, setting);
    case Released(_, _) =>
    case GaveUp(_, _, _, _) => GaveUpDeals(s, h, id, k, setting);
    case Turned(_) =>
  }

  // ---------------------------------------------------------------------------------------------
  // Runs

  predicate AllHappen(s: State, run: seq<Happening>, setting: Setting)
    decreases |run|
  {
    run != [] ==> CanHappen(s, run[0]) && AllHappen(Next(s, run[0], setting), run[1..], setting)
  }

  function Final(s: State, run: seq<Happening>, setting: Setting): State
    requires AllHappen(s, run, setting)
    decreases |run|
  {
    if run == [] then s else Final(Next(s, run[0], setting), run[1..], setting)
  }

  /** How often that happens for one cause. */
  ghost function Times(s: State, run: seq<Happening>, id: ActivationId, k: nat, forward: bool, cause: Cause,
                       setting: Setting): nat
    requires AllHappen(s, run, setting)
    decreases |run|
  {
    if run == [] then 0
    else (if Deals(s, run[0], id, k, forward, setting) && CauseOf(s, run[0], setting) == cause then 1 else 0)
         + Times(Next(s, run[0], setting), run[1..], id, k, forward, cause, setting)
  }

  /** And for any. */
  ghost function TimesInAll(s: State, run: seq<Happening>, id: ActivationId, k: nat, forward: bool, setting: Setting)
    : nat
    requires AllHappen(s, run, setting)
  {
    Times(s, run, id, k, forward, LaunchFailed, setting) + Times(s, run, id, k, forward, WaitsOn, setting)
    + Times(s, run, id, k, forward, Over, setting)
  }

  /** What one event sends to a connection about the request. */
  function SentBy(s: State, h: Happening, id: ActivationId, k: nat, forward: bool, conn: ConnId, setting: Setting)
    : seq<Message>
    requires CanHappen(s, h)
  {
    if Deals(s, h, id, k, forward, setting) && Dealt(s, h, id, k, setting).value.to == conn
    then Arriving(Dealt(s, h, id, k, setting).value)
    else []
  }

  /** All that is sent to a connection about the request, in order. */
  function SentAbout(s: State, run: seq<Happening>, id: ActivationId, k: nat, forward: bool, conn: ConnId,
                     setting: Setting): seq<Message>
    requires AllHappen(s, run, setting)
    decreases |run|
  {
    if run == [] then []
    else SentBy(s, run[0], id, k, forward, conn, setting)
         + SentAbout(Next(s, run[0], setting), run[1..], id, k, forward, conn, setting)
  }

  /** What is over is not dealt with again. */
  lemma {:induction false} OverIsOver(s: State, run: seq<Happening>, id: ActivationId, k: nat, forward: bool,
                                      cause: Cause, setting: Setting)
    requires Inv(s, setting) && AllHappen(s, run, setting)
    requires id < |s.activations.arena| && s.activations.arena[id].Gone?
    ensures Times(s, run, id, k, forward, cause, setting) == 0
    ensures !IsLive(Final(s, run, setting).activations.arena, id)
    decreases |run|
  {
    if run != [] {
      NextKeeps(s, run[0], setting);
      NextDeals(s, run[0], id, k, setting);
      OverIsOver(Next(s, run[0], setting), run[1..], id, k, forward, cause, setting);
    }
  }

  /** A request is launched once. */
  lemma {:induction false} LaunchedOnce(s: State, run: seq<Happening>, id: ActivationId, k: nat, forward: bool,
                                        setting: Setting)
    requires Inv(s, setting) && AllHappen(s, run, setting)
    ensures Times(s, run, id, k, forward, LaunchFailed, setting)
            <= if forward || id < |s.activations.arena| then 0 else 1
    decreases |run|
  {
    if run != [] {
      NextKeeps(s, run[0], setting);
      NextDeals(s, run[0], id, k, setting);
      LaunchedOnce(Next(s, run[0], setting), run[1..], id, k, forward, setting);
    }
  }

  /** It is over once, and then it is. */
  lemma {:induction false} OverOnce(s: State, run: seq<Happening>, id: ActivationId, k: nat, forward: bool,
                                    setting: Setting)
    requires Inv(s, setting) && AllHappen(s, run, setting)
    ensures Times(s, run, id, k, forward, Over, setting) <= 1
    ensures Times(s, run, id, k, forward, Over, setting) == 1 ==> !IsLive(Final(s, run, setting).activations.arena, id)
    decreases |run|
  {
    if run != [] {
      var s' := Next(s, run[0], setting);
      NextKeeps(s, run[0], setting);
      NextDeals(s, run[0], id, k, setting);
      if Deals(s, run[0], id, k, forward, setting) && CauseOf(s, run[0], setting) == Over {
        OverIsOver(s', run[1..], id, k, forward, Over, setting);
      } else {
        OverOnce(s', run[1..], id, k, forward, setting);
      }
    }
  }

  lemma {:induction false} SentAtMostTimes(s: State, run: seq<Happening>, id: ActivationId, k: nat, forward: bool,
                                           conn: ConnId, setting: Setting)
    requires AllHappen(s, run, setting)
    ensures |SentAbout(s, run, id, k, forward, conn, setting)| <= TimesInAll(s, run, id, k, forward, setting)
    decreases |run|
  {
    if run != [] { SentAtMostTimes(Next(s, run[0], setting), run[1..], id, k, forward, conn, setting); }
  }

  /**
   In every run each request is answered at most once for its launch that failed, which is a single time; at most once
   for each time that its service came and something was refused; and at most once for good, which is the end of its
   activation.  So is a message that was held back sent on, but for launches.
   */
  lemma DealtAtMost(s: State, run: seq<Happening>, id: ActivationId, k: nat, forward: bool, conn: ConnId,
                    setting: Setting)
    requires Inv(s, setting) && AllHappen(s, run, setting)
    ensures var launched := Times(s, run, id, k, forward, LaunchFailed, setting);
            var over := Times(s, run, id, k, forward, Over, setting);
            && |SentAbout(s, run, id, k, forward, conn, setting)|
               <= launched + Times(s, run, id, k, forward, WaitsOn, setting) + over
            && launched <= (if forward then 0 else 1)
            && over <= 1 && (over == 1 ==> !IsLive(Final(s, run, setting).activations.arena, id))
  {
    SentAtMostTimes(s, run, id, k, forward, conn, setting);
    LaunchedOnce(s, run, id, k, forward, setting);
    OverOnce(s, run, id, k, forward, setting);
  }

  /** Whoever is sent something about the request is this connection, and it gets it. */
  predicate Listens(s: State, h: Happening, id: ActivationId, k: nat, forward: bool, conn: ConnId, setting: Setting)
    requires CanHappen(s, h)
  {
    Deals(s, h, id, k, forward, setting) ==>
      Dealt(s, h, id, k, setting).value.to == conn && Dealt(s, h, id, k, setting).value.arrives
  }

  predicate Listening(s: State, run: seq<Happening>, id: ActivationId, k: nat, forward: bool, conn: ConnId,
                      setting: Setting)
    requires AllHappen(s, run, setting)
    decreases |run|
  {
    run != [] ==>
      && Listens(s, run[0], id, k, forward, conn, setting)
      && Listening(Next(s, run[0], setting), run[1..], id, k, forward, conn, setting)
  }

  /** Then it is answered, or sent on, exactly that often. */
  lemma {:induction false} DealtExactly(s: State, run: seq<Happening>, id: ActivationId, k: nat, forward: bool,
                                        conn: ConnId, setting: Setting)
    requires AllHappen(s, run, setting) && Listening(s, run, id, k, forward, conn, setting)
    ensures |SentAbout(s, run, id, k, forward, conn, setting)| == TimesInAll(s, run, id, k, forward, setting)
    decreases |run|
  {
    if run != [] { DealtExactly(Next(s, run[0], setting), run[1..], id, k, forward, conn, setting); }
  }

  /**
   A request that is answered for good is answered once if and only if its launch had not failed and told it so, and it
   was not told of its service while something was refused; one that is not yet is answered at most once if and only if
   at most one of these happened, once.  And a message that was held back is sent on at most once if and only if at most
   one executed request for the name got as far as that.
   */
  lemma DealtOnceIff(s: State, run: seq<Happening>, id: ActivationId, k: nat, forward: bool, conn: ConnId,
                     setting: Setting)
    requires Inv(s, setting) && AllHappen(s, run, setting) && Listening(s, run, id, k, forward, conn, setting)
    ensures var launched := Times(s, run, id, k, forward, LaunchFailed, setting);
            var waitsOn := Times(s, run, id, k, forward, WaitsOn, setting);
            var once := |SentAbout(s, run, id, k, forward, conn, setting)| <= 1;
            if Times(s, run, id, k, forward, Over, setting) > 0 then once <==> launched == 0 && waitsOn == 0
            else if forward then once <==> waitsOn <= 1
            else once <==> launched + waitsOn <= 1
  {
    DealtExactly(s, run, id, k, forward, conn, setting);
    DealtAtMost(s, run, id, k, forward, conn, setting);
  }

  // ---------------------------------------------------------------------------------------------
  // What is sent arrives, and is about the request

  lemma EventArrives(s: State, h: Happening, id: ActivationId, k: nat, forward: bool, conn: ConnId, setting: Setting)
    requires Inv(s, setting) && CanHappen(s, h)
    ensures Gains(s.bus.net, Next(s, h, setting).bus.net, conn, SentBy(s, h, id, k, forward, conn, setting))
  {
    NextKeeps(s, h, setting);
    NextDeals(s, h, id, k, setting);
    PrefixCounts(T.Outbox(s.bus.net, conn), T.Outbox(Next(s, h, setting).bus.net, conn));
  }

  /** In every run all of that is among the messages that the connection is sent. */
  lemma {:induction false} DealsArrive(s: State, run: seq<Happening>, id: ActivationId, k: nat, forward: bool,
                                       conn: ConnId, setting: Setting)
    requires Inv(s, setting) && AllHappen(s, run, setting)
    ensures Gains(s.bus.net, Final(s, run, setting).bus.net, conn, SentAbout(s, run, id, k, forward, conn, setting))
    decreases |run|
  {
    if run != [] {
      NextKeeps(s, run[0], setting);
      EventArrives(s, run[0], id, k, forward, conn, setting);
      DealsArrive(Next(s, run[0], setting), run[1..], id, k, forward, conn, setting);
    }
  }

  /** A message about this waiter: the one that was held back for it, or an answer to what it asked. */
  predicate About(m: Message, w: Waiter, forward: bool, conn: ConnId) {
    if forward then w.auto && m == w.message else m.replySerial == w.message.serial && conn == w.conn
  }

  lemma SentByIsAboutIt(s: State, h: Happening, id: ActivationId, k: nat, forward: bool, conn: ConnId, setting: Setting)
    requires CanHappen(s, h) && k < |Entries(s, id)|
    ensures forall m :: m in SentBy(s, h, id, k, forward, conn, setting) ==> About(m, Entries(s, id)[k], forward, conn)
  {
  }

  /** Whatever is sent about a request on record is about that request, which keeps its number. */
  lemma {:induction false} DealsAreAboutIt(s: State, run: seq<Happening>, id: ActivationId, k: nat, forward: bool,
                                           conn: ConnId, setting: Setting)
    requires Inv(s, setting) && AllHappen(s, run, setting) && k < |Entries(s, id)|
    ensures forall m :: m in SentAbout(s, run, id, k, forward, conn, setting) ==>
                          About(m, Entries(s, id)[k], forward, conn)
    decreases |run|
  {
    if run != [] {
      var s' := Next(s, run[0], setting);
      NextKeeps(s, run[0], setting);
      SentByIsAboutIt(s, run[0], id, k, forward, conn, setting);
      if IsLive(s'.activations.arena, id) {
        assert Entries(s, id) <= Entries(s', id);
        DealsAreAboutIt(s', run[1..], id, k, forward, conn, setting);
      } else {
        NothingAboutOver(s', run[1..], id, k, forward, conn, setting);
      }
    }
  }

  lemma NothingAboutOver(s: State, run: seq<Happening>, id: ActivationId, k: nat, forward: bool, conn: ConnId,
                         setting: Setting)
    requires Inv(s, setting) && AllHappen(s, run, setting)
    requires id < |s.activations.arena| && s.activations.arena[id].Gone?
    ensures SentAbout(s, run, id, k, forward, conn, setting) == []
  {
    SentAtMostTimes(s, run, id, k, forward, conn, setting);
    OverIsOver(s, run, id, k, forward, LaunchFailed, setting);
    OverIsOver(s, run, id, k, forward, WaitsOn, setting);
    OverIsOver(s, run, id, k, forward, Over, setting);
  }
}
