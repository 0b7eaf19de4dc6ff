/** A message that asks for a service: how its launch fails, and that its error and its record can both remain. */
module ActivationRequests {
  import opened BusTypes
  import opened Activations
  import opened ActivationReplies
  import opened ActivationUndo
  import AR = ActivationRuns
  import ARP = ActivationRepliesProofs
  import D = Dispatch
  import DO = DispatchOutcomes
  import DP = DispatchProofs
  import PR = PendingReplies
  import T = Transactions

  // ---------------------------------------------------------------------------------------------
  // How a launch fails

  /** A new activation is put on record and its service is to be started. */
  predicate Launches(a: Activations, req: Request, o: Outcome, max: int, systemd: bool) {
    && a.nPending < max && o.file.Some? && (req.auto || !o.alreadyActive) && req.service !in a.table
    && (o.fault == NoFault || (o.fault == NoSystemdCopy && o.file.value.systemdService.None?))
    && !(systemd && req.service == SYSTEMD)
  }

  predicate ThroughSystemd(o: Outcome, systemd: bool) {
    systemd && o.file.Some? && o.file.value.systemdService.Some?
  }

  /** The nested request for systemd is at the limit, finds no file for systemd, or lacks memory. */
  function NestedFailure(a: Activations, n: Finding, max: int): Option<Failure> {
    if a.nPending >= max then Some(Refused)
    else if n.file.None? then Some(n.missing)
    else if Enters(a, n, max) && (SYSTEMD in a.table ==> n.fault != NoCancelHook) then None
    else Some(OutOfMemory)
  }

  /** What goes wrong with the launch, in the order of the source. */
  function LaunchFailure(a: Activations, o: Outcome, max: int, systemd: bool): Option<Failure> {
    if ThroughSystemd(o, systemd) then
      if !o.launch.messageMade || !o.launch.transactionMade then Some(OutOfMemory)
      else if o.launch.systemdConnected then o.launch.handOff
      else NestedFailure(a.(nPending := a.nPending + 1), o.launch.nested, max)
    else if o.launch.command.Some? then o.launch.command
    else if o.launch.arguments.Some? then o.launch.arguments
    else o.launch.spawn
  }

  /** The one failure of a launch that takes the activation off the table. */
  predicate WrongArguments(o: Outcome, systemd: bool) {
    !ThroughSystemd(o, systemd) && o.launch.command.None? && o.launch.arguments.Some?
  }

  lemma NestedFails(a: Activations, max: int, conn: ConnId, n: Finding)
    requires SystemdRight(a)
    ensures ActivateSystemd(a, conn, n, max, true).1 == NestedFailure(a, n, max)
  {
    if a.nPending < max && n.file.Some? && SYSTEMD !in a.table {
      NewRecorded(a, ForSystemd(conn), n.file.value, n.fault);
    }
  }

  /** The activation just recorded is as it was: its one request, the table's reference and the hook's. */
  ghost predicate KeepsNew(a: Activations, y: Activations, req: Request, file: ServiceFile) {
    var id := |a.arena|;
    && id < |y.arena| && y.arena[id] == Referenced(a, req, file).arena[id]
    && req.service in y.table && y.table[req.service] == id
  }

  lemma NestedKeepsNew(a: Activations, max: int, req: Request, file: ServiceFile, n: Finding)
    requires AR.Settled(a, max) && req.service !in a.table && req.service != SYSTEMD
    ensures KeepsNew(a, ActivateSystemd(Referenced(a, req, file), req.conn, n, max, true).0, req, file)
  {
    var x := Referenced(a, req, file);
    ReferencedRight(a, max, req, file);
    if SYSTEMD in a.table {
      NestedJoins(x, max, req.conn, n);
      AR.SettledMeansListed(a, max, a.table[SYSTEMD]);
    } else {
      NestedRecords(x, max, req.conn, n);
    }
  }

  lemma StartDecides(a: Activations, max: int, req: Request, o: Outcome, systemd: bool)
    requires AR.Settled(a, max) && Launches(a, req, o, max, systemd)
    ensures var file := o.file.value;
            var r := Result(Referenced(a, req, file), [CancelPending(|a.arena|)], None);
            var started := StartService(r, req, file, o.launch, max, systemd);
            && started.failure == LaunchFailure(a, o, max, systemd) && started.hooks == r.hooks
            && (!WrongArguments(o, systemd) ==> KeepsNew(a, started.activations, req, file))
            && (WrongArguments(o, systemd) ==> started.activations == RemoveName(r.activations, req.service))
  {
    var x := Referenced(a, req, o.file.value);
    assert x.nPending == a.nPending + 1;
    if systemd {
      ReferencedRight(a, max, req, o.file.value);
      NestedFails(x, max, req.conn, o.launch.nested);
      assert SYSTEMD in x.table <==> SYSTEMD in a.table;
      NestedKeepsNew(a, max, req, o.file.value, o.launch.nested);
    }
  }

  function WaiterOf(req: Request): Waiter {
    Waiter(req.conn, req.message, req.auto)
  }

  /** The activations when the transaction of a launch is executed: the request waits, however the launch failed. */
  ghost predicate WaitsAlone(a: Activations, a': Activations, req: Request) {
    IsLive(a'.arena, |a.arena|) && a'.arena[|a.arena|].pending.entries == [WaiterOf(req)]
  }

  /** A launch fails as `LaunchFailure` says, and only wrong arguments take the request off the record. */
  lemma LaunchDecides(a: Activations, max: int, req: Request, o: Outcome, systemd: bool)
    requires AR.Settled(a, max) && Launches(a, req, o, max, systemd)
    ensures var r := Activate(a, [], req, o, max, systemd);
            var a' := Execute(r.activations, r.hooks);
            && r.failure == LaunchFailure(a, o, max, systemd)
            && if WrongArguments(o, systemd) then |a.arena| < |a'.arena| && a'.arena[|a.arena|].Gone?
               else WaitsAlone(a, a', req)
  {
    var (file, id) := (o.file.value, |a.arena|);
    CountNotNegative(a, max);
    NewRecorded(a, req, file, o.fault);
    StartDecides(a, max, req, o, systemd);
    var r := Activate(a, [], req, o, max, systemd);
    assert r.hooks == [CancelPending(id)] && r.hooks[1..] == [];
    assert FreeHooks(r.activations, r.hooks) == Unref(r.activations, id);
    var x := Referenced(a, req, file);
    assert x.arena[id].pending.refcount == 2 && x.arena[id].pending.entries == [WaiterOf(req)];
    if WrongArguments(o, systemd) {
      assert x.table[req.service] == id;
      assert r.activations.arena[id].pending.refcount == 1;
    }
  }

  /** A request that joins an activation waits behind those that do already, and nothing else changes. */
  lemma JoinDecides(a: Activations, max: int, req: Request, o: Outcome, systemd: bool)
    requires AR.Settled(a, max) && a.nPending < max && o.file.Some? && (req.auto || !o.alreadyActive)
    requires req.service in a.table
    ensures var r := Activate(a, [], req, o, max, systemd);
            var (a', id) := (Execute(r.activations, r.hooks), a.table[req.service]);
            && IsLive(a.arena, id)
            && r.failure == (if o.fault in {NoWaiter, NoWaiterLink, NoCancelHook} then Some(OutOfMemory) else None)
            && (r.failure.None? ==>
                  var p := a.arena[id].pending;
                  a' == a.(arena := a.arena[id := Slot.Live(p.(entries := p.entries + [WaiterOf(req)],
                                                               nEntries := p.nEntries + 1))],
                           nPending := a.nPending + 1))
  {
    var id := a.table[req.service];
    AR.SettledMeansListed(a, max, id);
    var r := Activate(a, [], req, o, max, systemd);
    if r.failure.None? {
      assert r.hooks == [CancelPending(id)] && r.hooks[1..] == [];
      assert FreeHooks(r.activations, r.hooks) == Unref(r.activations, id);
    }
  }

  /** What waits for systemd: the signal that asks it, held back on behalf of the client. */
  lemma SystemdWaits(a: Activations, max: int, conn: ConnId, n: Finding)
    requires SystemdRight(a) && "org.freedesktop.systemd1" !in a.table && Enters(a, n, max)
    ensures var a' := ActivateSystemd(a, conn, n, max, true).0;
            && "org.freedesktop.systemd1" in a'.table
            && var id := a'.table["org.freedesktop.systemd1"];
            && IsLive(a'.arena, id) && a'.arena[id].pending.exec == n.file.value.exec
            && a'.arena[id].pending.entries
               == [Waiter(conn, Message(Signal, 0, 0, false, false, "ActivationRequest"), true)]
  {
    NestedRecords(a, max, conn, n);
  }

  /** At the limit, without a service file or for a service that runs, nothing is put on record. */
  lemma TurnedAway(a: Activations, max: int, req: Request, o: Outcome, systemd: bool)
    requires a.nPending >= max || o.file.None? || (!req.auto && o.alreadyActive)
    ensures var r := Activate(a, [], req, o, max, systemd);
            && r.activations == a && r.hooks == []
            && r.failure == if a.nPending >= max then Some(Refused)
                            else if o.file.None? then Some(o.missing)
                            else if o.replySent then None
                            else Some(OutOfMemory)
  {
  }

  // ---------------------------------------------------------------------------------------------
  // What the requester is told of it

  /** The launch is refused aloud, and the error for the requester gets out. */
  predicate LaunchRefused(a: Activations, e: Asking, maxPending: int, systemd: bool) {
    && Launches(a, RequestOf(e), e.o, maxPending, systemd)
    && LaunchFailure(a, e.o, maxPending, systemd) == Some(Refused)
    && e.request.answer.link.connected && DO.ReportGetsOut(e.request.answer)
  }

  /** The error is an answer to the request. */
  function ErrorTo(e: Asking, conn: ConnId): seq<Message> {
    AnswerDue(WaiterOf(RequestOf(e)), Recipient(true, e.request.answer.eaten), Failure(e.request.m.body), conn)
  }

  lemma RequestingAdds(a: Activations, b: D.Bus, e: Asking, maxPending: int, systemd: bool)
    requires T.Inv(b.net) && CanAsk(b, e)
    ensures DP.Grown(b.net, Requesting(a, b, e, maxPending, systemd).1.net, e.request.tx)
  {
    DP.BeginGrows(b.net, e.request.tx);
    ARP.DriverAdds(b.net, Begun(b.net, e.request.tx), e.request.tx, e.request.sender, RunningReply(e.request.m),
                   e.running);
  }

  /** The bus after a request: if its transaction is executed nobody lost a message, and otherwise nothing happened. */
  lemma AskBus(a: Activations, b: D.Bus, e: Asking, maxPending: int, systemd: bool, limits: PR.Limits)
    requires DP.BusInv(b, limits.maxReplies) && CanAsk(b, e)
    ensures var b' := Ask(a, b, e, maxPending, systemd).1;
            var (reported, commit) := D.Report(Requesting(a, b, e, maxPending, systemd).1, e.request);
            && b'.Some? && DP.BusInv(b'.value, limits.maxReplies)
            && DP.Ended(b.net, reported.net, b'.value.net, e.request.tx, commit)
  {
    var attempt := Requesting(a, b, e, maxPending, systemd).1;
    var (reported, commit) := D.Report(attempt, e.request);
    RequestingAdds(a, b, e, maxPending, systemd);
    ARP.ReportAdds(b.net, attempt, e.request);
    DP.ConcludeKeeps(b, reported, e.request.tx, [], commit, limits);
  }

  lemma EndedGrows(n: T.Net, open: T.Net, n': T.Net, tx: TxId, commit: bool)
    requires DP.Ended(n, open, n', tx, commit)
    ensures forall c :: T.Outbox(n, c) <= T.Outbox(n', c)
  {
    forall c ensures T.Outbox(n, c) <= T.Outbox(n', c) {
      assert T.Outbox(n', c) == T.Outbox(n, c) + DP.SentTo(open, tx, commit, c);
    }
  }

  /** What the report of a refusal queues when nothing else is. */
  lemma RefusalQueued(b: D.Bus, e: Asking, conn: ConnId)
    requires T.Inv(b.net) && CanAsk(b, e)
    requires e.request.answer.link.connected && DO.ReportGetsOut(e.request.answer)
    ensures var refused := D.Attempt(b.replies, [], Begun(b.net, e.request.tx), Some(Refused));
            var (reported, commit) := D.Report(refused, e.request);
            commit && DP.SentTo(reported.net, e.request.tx, commit, conn) == ErrorTo(e, conn)
  {
    assert !T.Holds(b.net.queues[e.request.sender], e.request.tx);
    if conn in b.net.queues {
      T.Splits(b.net.queues[conn], e.request.tx);
      var error := T.ToSend(e.request.tx, D.ErrorFor(e.request.m, e.request.m.body));
      assert ([error] + b.net.queues[conn])[1..] == b.net.queues[conn];
    }
  }

  /** A refused launch answers its request, whose record remains unless the arguments were wrong. */
  lemma RefusedLaunchTells(a: Activations, b: D.Bus, e: Asking, maxPending: int, systemd: bool, limits: PR.Limits)
    requires AR.Settled(a, maxPending) && DP.BusInv(b, limits.maxReplies) && CanAsk(b, e)
    requires LaunchRefused(a, e, maxPending, systemd)
    ensures var (a', b') := Ask(a, b, e, maxPending, systemd);
            && b'.Some?
            && (forall c :: T.Outbox(b'.value.net, c) == T.Outbox(b.net, c) + ErrorTo(e, c))
            && if WrongArguments(e.o, systemd) then |a.arena| < |a'.arena| && a'.arena[|a.arena|].Gone?
               else WaitsAlone(a, a', RequestOf(e))
  {
    AskBus(a, b, e, maxPending, systemd, limits);
    LaunchDecides(a, maxPending, RequestOf(e), e.o, systemd);
    RefusalQueued(b, e, 0);
    forall c ensures T.Outbox(Ask(a, b, e, maxPending, systemd).1.value.net, c) == T.Outbox(b.net, c) + ErrorTo(e, c) {
      RefusalQueued(b, e, c);
    }
  }

  /** Whatever becomes of a request, the activations stay settled, and none that was over is back. */
  lemma AskKeeps(a: Activations, b: D.Bus, e: Asking, maxPending: int, systemd: bool)
    requires AR.Settled(a, maxPending) && CanAsk(b, e)
    ensures var a' := Ask(a, b, e, maxPending, systemd).0; AR.Settled(a', maxPending) && AR.GoneStay(a, a')
  {
    var sent := AlreadyRunning(a, b, e, maxPending).1;
    var ops := [ActivateOp(RequestOf(e), e.o.(replySent := sent))];
    var commit := D.Report(Requesting(a, b, e, maxPending, systemd).1, e.request).1;
    assert ops[1..] == [];
    AR.TransactKeeps(a, ops, commit, maxPending, systemd);
    AR.StepLeavesGone(a, Transact(ops, commit), maxPending, systemd);
    var r := Requesting(a, b, e, maxPending, systemd).0;
    assert ApplyAll(a, [], ops, maxPending, systemd) == ApplyAll(r.activations, r.hooks, ops[1..], maxPending, systemd);
  }
}
