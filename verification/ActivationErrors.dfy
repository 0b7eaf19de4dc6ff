/** When the assertion fails that a failed activation has its error set, over every run. */
module ActivationErrors {
  import opened BusTypes
  import opened Activations
  import opened ActivationRuns
  import D = Dispatch
  import DO = DispatchOutcomes

  /**
   A new activation is on record and its request for systemd, which is connected, is dispatched; systemd's own policy
   does not let it receive that.
   */
  predicate SilentHandOff(a: Activations, req: Request, o: Outcome, max: int, systemd: bool) {
    && a.nPending < max && o.file.Some? && (req.auto || !o.alreadyActive)
    && systemd && req.service != SYSTEMD && req.service !in a.table
    && o.fault == NoFault && o.file.value.systemdService.Some?
    && o.launch.messageMade && o.launch.transactionMade && o.launch.systemdConnected
    && o.launch.handOff == Some(RefusedSilently)
  }

  lemma {:induction false} HooksKeepErrors(a: Activations, hooks: seq<Hook>)
    ensures RunHooks(a, hooks).errorsSet == FreeHooks(a, hooks).errorsSet == a.errorsSet
    decreases |hooks|
  {
    if hooks != [] {
      HooksKeepErrors(RunHook(a, hooks[0]), hooks[1..]);
      HooksKeepErrors(Unref(a, hooks[0].id), hooks[1..]);
    }
  }

  lemma EndKeepsErrors(a: Activations, hooks: seq<Hook>)
    ensures Execute(a, hooks).errorsSet == Cancel(a, hooks).errorsSet == a.errorsSet
  {
    HooksKeepErrors(a, hooks);
    HooksKeepErrors(RunHooks(a, hooks), hooks);
  }

  lemma EnterErrors(a: Activations, req: Request, file: ServiceFile, fault: Fault)
    ensures var (a', entered) := Enter(a, req, file, fault);
            && a'.errorsSet == a.errorsSet
            && (entered ==> req.service in a'.table)
            && (req.service !in a.table && file.systemdService.Some? ==>
                  (entered <==> fault in {NoFault, NoWaiter, NoCancelHook}))
  {
  }

  /**
   Putting a request on record fails no assertion on errors, and with a new activation of a unit it needs all memory.
   */
  lemma RecordErrors(a: Activations, hooks: seq<Hook>, req: Request, file: ServiceFile, fault: Fault)
    ensures var r := Record(a, hooks, req, file, fault);
            && r.activations.errorsSet == a.errorsSet
            && (req.service !in a.table && file.systemdService.Some? ==> (r.Ok() <==> fault == NoFault))
  {
    EnterErrors(a, req, file, fault);
  }

  lemma {:induction false} ActivateErrors(a: Activations, hooks: seq<Hook>, req: Request, o: Outcome, max: int,
                                          systemd: bool)
    ensures Activate(a, hooks, req, o, max, systemd).activations.errorsSet
         == (a.errorsSet && !SilentHandOff(a, req, o, max, systemd))
    decreases if req.service == SYSTEMD then 0 else 1, 1
  {
    if o.file.Some? {
      var r := Record(a, hooks, req, o.file.value, o.fault);
      RecordErrors(a, hooks, req, o.file.value, o.fault);
      if !(systemd && req.service == SYSTEMD) {
        StartErrors(r, req, o.file.value, o.launch, max, systemd);
      }
    }
  }

  /** Only handing over to systemd can fail without an error. */
  lemma {:induction false} StartErrors(r: Result, req: Request, file: ServiceFile, launch: Launch, max: int,
                                       systemd: bool)
    requires systemd ==> req.service != SYSTEMD
    ensures StartService(r, req, file, launch, max, systemd).activations.errorsSet
         == (r.activations.errorsSet
             && !(systemd && file.systemdService.Some? && launch.messageMade && launch.transactionMade
                  && launch.systemdConnected && launch.handOff == Some(RefusedSilently)))
    decreases if req.service == SYSTEMD then 0 else 1, 0
  {
    if systemd { NestedErrors(r.activations, req.conn, launch.nested, max, systemd); }
  }

  lemma {:induction false} NestedErrors(a: Activations, conn: ConnId, n: Finding, max: int, systemd: bool)
    requires systemd
    ensures ActivateSystemd(a, conn, n, max, systemd).0.errorsSet == a.errorsSet
    decreases 0, 2
  {
    ActivateErrors(a, [], ForSystemd(conn), OutcomeOf(n), max, systemd);
    var nested := Activate(a, [], ForSystemd(conn), OutcomeOf(n), max, systemd);
    EndKeepsErrors(nested.activations, nested.hooks);
  }

  // ---------------------------------------------------------------------------------------------
  // Runs

  /** One of the operations of a transaction is a silent hand-off. */
  predicate OpsSilent(a: Activations, hooks: seq<Hook>, ops: seq<Op>, max: int, systemd: bool)
    decreases |ops|
  {
    ops != [] &&
    var r := Apply(a, hooks, ops[0], max, systemd);
    || (ops[0].ActivateOp? && SilentHandOff(a, ops[0].req, ops[0].o, max, systemd))
    || OpsSilent(r.activations, r.hooks, ops[1..], max, systemd)
  }

  predicate RunSilent(a: Activations, events: seq<Event>, max: int, systemd: bool)
    decreases |events|
  {
    events != [] && ((events[0].Transact? && OpsSilent(a, [], events[0].ops, max, systemd))
                     || RunSilent(Step(a, events[0], max, systemd), events[1..], max, systemd))
  }

  lemma {:induction false} OpsErrors(a: Activations, hooks: seq<Hook>, ops: seq<Op>, max: int, systemd: bool)
    ensures ApplyAll(a, hooks, ops, max, systemd).0.errorsSet
         == (a.errorsSet && !OpsSilent(a, hooks, ops, max, systemd))
    decreases |ops|
  {
    if ops != [] {
      var r := Apply(a, hooks, ops[0], max, systemd);
      if ops[0].ActivateOp? { ActivateErrors(a, hooks, ops[0].req, ops[0].o, max, systemd); }
      OpsErrors(r.activations, r.hooks, ops[1..], max, systemd);
    }
  }

  lemma {:induction false} FailSharingErrors(a: Activations, walk: seq<ActivationId>, sharing: Sharing)
    ensures FailSharing(a, walk, sharing).errorsSet == a.errorsSet
    decreases |walk|
  {
    if walk != [] && IsLive(a.arena, walk[0]) {
      FailSharingErrors(if Shares(walk[0], a.arena[walk[0]].pending, sharing) then Fail(a, walk[0]) else a, walk[1..],
                        sharing);
    }
  }

  lemma StepErrors(a: Activations, e: Event, max: int, systemd: bool)
    ensures Step(a, e, max, systemd).errorsSet
         == (a.errorsSet && !(e.Transact? && OpsSilent(a, [], e.ops, max, systemd)))
  {
    match e
    case Transact(ops, commit) =>
      OpsErrors(a, [], ops, max, systemd);
      var (a', hooks) := ApplyAll(a, [], ops, max, systemd);
      EndKeepsErrors(a', hooks);
    case TimedOut(id) =>
    case ChildFailed(id, walk) =>
      if IsLive(a.arena, id) { FailSharingErrors(a, walk, SameExec(id, a.arena[id].pending.exec)); }
    case SystemdFailed(unit, walk) => FailSharingErrors(a, walk, SameUnit(unit));
  }

  /** A run fails the assertion if and only if a request in it is handed over to a systemd that may not receive it. */
  lemma {:induction false} RunErrors(a: Activations, events: seq<Event>, max: int, systemd: bool)
    ensures Run(a, events, max, systemd).errorsSet == (a.errorsSet && !RunSilent(a, events, max, systemd))
    decreases |events|
  {
    if events != [] {
      StepErrors(a, events[0], max, systemd);
      RunErrors(Step(a, events[0], max, systemd), events[1..], max, systemd);
    }
  }

  /**
   The request for systemd is dispatched by the driver; it is refused silently exactly by systemd's receive policy.
   */
  lemma HandOffRefusedSilently(a: D.Attempt, tx: TxId, conn: ConnId, v: D.Verdicts, link: D.Link,
                               listeners: Option<seq<D.Listener>>, max: int)
    requires tx in a.net.connections && D.Reaches(a.net.queues.Keys, conn, link)
    requires listeners.Some? ==> D.AllReach(a.net.queues.Keys, listeners.value)
    ensures var a' := D.DispatchMatches(a, tx, None, Some(conn), ACTIVATION_REQUEST, v, link, listeners, max);
            a'.failure == Some(RefusedSilently) <==> !v.canReceive.otherwise
  {
    DO.DriverRefusedSilently(a, tx, conn, ACTIVATION_REQUEST, v, link, listeners, max);
  }

  const HANDED_OVER := NOT_STARTED.(handOff := Some(RefusedSilently))

  const FOR_A_UNIT :=
    Outcome(Some(ServiceFile("/usr/bin/unit", Some("unit.service"))), OutOfMemory, false, true, NoFault, HANDED_OVER)

  /** The first request on a bus with systemd can fail it, whether its transaction is executed or cancelled. */
  lemma FirstRequestFails(req: Request, max: nat, commit: bool)
    requires max > 0 && req.service != SYSTEMD
    ensures AllDue(NONE_PENDING, [Transact([ActivateOp(req, FOR_A_UNIT)], commit)], max, true)
    ensures !Run(NONE_PENDING, [Transact([ActivateOp(req, FOR_A_UNIT)], commit)], max, true).errorsSet
  {
    var events := [Transact([ActivateOp(req, FOR_A_UNIT)], commit)];
    assert events[1..] == [];
    RunErrors(NONE_PENDING, events, max, true);
    assert SilentHandOff(NONE_PENDING, req, FOR_A_UNIT, max, true);
  }
}
