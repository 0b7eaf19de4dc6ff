/**
 Pending service activations, as functions on values: reference counts, the table by service name, the count of waiting
 requests, and the cancel hooks that undo an activation or a delivery.

 A `BusPendingActivation *` is an index into an arena; a slot is Live until its last reference goes.  Two kinds of
 assertion are told apart, and each flag turns false, and stays so, at the first that fails: `ok` for those on counts
 and references, and for the use of freed memory; `errorsSet` for those that a failure has its error set.
 */
module Activations {
  import opened BusTypes

  /** `BusPendingActivationEntry`: a request that waits for the service. */
  datatype Waiter = Waiter(conn: ConnId, message: Message, auto: bool)

  datatype Pending = Pending(refcount: int, name: string, exec: string, systemdService: Option<string>,
                             entries: seq<Waiter>, nEntries: int)

  datatype Slot = Live(pending: Pending) | Gone

  type ActivationId = nat

  /** The two hooks of activation.c; each holds a reference. */
  datatype Hook = CancelPending(id: ActivationId) | RestorePending(id: ActivationId)

  datatype Activations = Activations(arena: seq<Slot>, table: map<string, ActivationId>, nPending: int, ok: bool,
                                     errorsSet: bool)

  const NONE_PENDING := Activations([], map[], 0, true, true)

  const SYSTEMD := "org.freedesktop.systemd1"

  /** The signal that asks systemd to start a unit. */
  const ACTIVATION_REQUEST := Message(Signal, 0, 0, false, false, "ActivationRequest")

  predicate IsLive(arena: seq<Slot>, id: ActivationId) {
    id < |arena| && arena[id].Live?
  }

  /** `_DBUS_ASSERT_ERROR_IS_SET` after a failure, if there was one. */
  function AssertErrorSet(a: Activations, failure: Option<Failure>): Activations {
    if failure == Some(RefusedSilently) then a.(errorsSet := false) else a
  }

  // ---------------------------------------------------------------------------------------------
  // References and the table

  function AddRef(a: Activations, id: ActivationId): Activations {
    if !IsLive(a.arena, id) || a.arena[id].pending.refcount <= 0 then a.(ok := false)
    else
      var p := a.arena[id].pending;
      a.(arena := a.arena[id := Live(p.(refcount := p.refcount + 1))])
  }

  /** `bus_pending_activation_unref` */
  function Unref(a: Activations, id: ActivationId): Activations {
    if !IsLive(a.arena, id) || a.arena[id].pending.refcount <= 0 then a.(ok := false)
    else
      var p := a.arena[id].pending;
      if p.refcount > 1 then a.(arena := a.arena[id := Live(p.(refcount := p.refcount - 1))])
      else
        a.(arena := a.arena[id := Gone], nPending := a.nPending - p.nEntries,
           ok := a.ok && a.nPending - p.nEntries >= 0)
  }

  /** `_dbus_hash_table_remove_string`: the table's reference goes too. */
  function RemoveName(a: Activations, name: string): Activations {
    if name !in a.table then a else Unref(a.(table := a.table - {name}), a.table[name])
  }

  /** `_dbus_hash_table_insert_string_preallocated`: a different old value loses its reference. */
  function InsertName(a: Activations, name: string, id: ActivationId): Activations {
    var inserted := a.(table := a.table[name := id]);
    if name in a.table && a.table[name] != id then Unref(inserted, a.table[name]) else inserted
  }

  // ---------------------------------------------------------------------------------------------
  // Transactions

  /** `cancel_pending` and `restore_pending` */
  function RunHook(a: Activations, hook: Hook): Activations {
    if !IsLive(a.arena, hook.id) then a.(ok := false)
    else
      var name := a.arena[hook.id].pending.name;
      match hook
      case CancelPending(_) => RemoveName(a, name)
      case RestorePending(id) => AddRef(InsertName(a, name, id), id)
  }

  function RunHooks(a: Activations, hooks: seq<Hook>): Activations
    decreases |hooks|
  {
    if hooks == [] then a else RunHooks(RunHook(a, hooks[0]), hooks[1..])
  }

  /** The free functions of the hooks: each drops the reference it held. */
  function FreeHooks(a: Activations, hooks: seq<Hook>): Activations
    decreases |hooks|
  {
    if hooks == [] then a else FreeHooks(Unref(a, hooks[0].id), hooks[1..])
  }

  function Execute(a: Activations, hooks: seq<Hook>): Activations {
    FreeHooks(a, hooks)
  }

  /** Every hook runs before any is freed. */
  function Cancel(a: Activations, hooks: seq<Hook>): Activations {
    FreeHooks(RunHooks(a, hooks), hooks)
  }

  // ---------------------------------------------------------------------------------------------
  // Activating a service

  datatype Request = Request(service: string, conn: ConnId, message: Message, auto: bool)

  datatype ServiceFile = ServiceFile(exec: string, systemdService: Option<string>)

  /** Where memory fails while a request is put on record. */
  datatype Fault =
    | NoFault | NoWaiter | NoPending | NoNameCopy | NoExecCopy | NoSystemdCopy | NoTimeout | NoLoopTimeout
    | NoWaiterLink | NoTableEntry | NoCancelHook

  /** What a service file is found to say, or why it is not found, and where memory fails after that. */
  datatype Finding = Finding(file: Option<ServiceFile>, missing: Loud, fault: Fault)

  /**
   How an activation is started once it is on record.  handOff is what dispatching the request to systemd meets, nested
   what activating systemd itself does; command, arguments and spawn are what goes wrong with a child, where no user for
   the helper is a failure of the command.
   */
  datatype Launch = Launch(
    messageMade: bool, transactionMade: bool, systemdConnected: bool, handOff: Option<Failure>, nested: Finding,
    command: Option<Loud>, arguments: Option<Loud>, spawn: Option<Loud>)

  /** What the rest of the bus answers during one call. */
  datatype Outcome = Outcome(file: Option<ServiceFile>, missing: Loud, alreadyActive: bool, replySent: bool,
                             fault: Fault, launch: Launch)

  datatype Result = Result(activations: Activations, hooks: seq<Hook>, failure: Option<Failure>) {
    predicate Ok() {
      failure.None?
    }
  }

  /** A new activation with its first waiter, in the table: the steps that may run out of memory. */
  function NewPending(a: Activations, req: Request, file: ServiceFile, fault: Fault): (Activations, bool) {
    var id := |a.arena|;
    var empty := Pending(1, req.service, file.exec, file.systemdService, [], 0);
    var born := a.(arena := a.arena + [Live(empty)]);
    if fault == NoPending then (a, false)
    else if fault in {NoNameCopy, NoExecCopy, NoTimeout, NoLoopTimeout, NoWaiterLink}
            || (fault == NoSystemdCopy && file.systemdService.Some?) then (Unref(born, id), false)
    else
      var waiting := empty.(entries := [Waiter(req.conn, req.message, req.auto)], nEntries := 1);
      var recorded := a.(arena := a.arena + [Live(waiting)], nPending := a.nPending + 1);
      if fault == NoTableEntry then (Unref(recorded, id), false) else (InsertName(recorded, req.service, id), true)
  }

  /** One more waiter for an activation in progress. */
  function JoinPending(a: Activations, req: Request, id: ActivationId): Activations {
    if !IsLive(a.arena, id) then a.(ok := false)
    else
      var p := a.arena[id].pending;
      a.(arena := a.arena[id := Live(p.(entries := p.entries + [Waiter(req.conn, req.message, req.auto)],
                                         nEntries := p.nEntries + 1))],
         nPending := a.nPending + 1)
  }

  /** The request is counted, in an activation that is in the table. */
  function Enter(a: Activations, req: Request, file: ServiceFile, fault: Fault): (Activations, bool) {
    if req.service !in a.table then NewPending(a, req, file, fault)
    else if fault == NoWaiterLink then (a, false)
    else (JoinPending(a, req, a.table[req.service]), true)
  }

  /** `add_cancel_pending_to_transaction`; without memory for the hook the whole activation is dropped. */
  function AddCancelHook(a: Activations, hooks: seq<Hook>, service: string, memory: bool): Result {
    if service !in a.table then Result(a.(ok := false), hooks, Some(OutOfMemory))
    else if !memory then Result(RemoveName(a, service), hooks, Some(OutOfMemory))
    else Result(AddRef(a, a.table[service]), [CancelPending(a.table[service])] + hooks, None)
  }

  /** The request is on record, with a hook that undoes the whole activation. */
  function Record(a: Activations, hooks: seq<Hook>, req: Request, file: ServiceFile, fault: Fault): Result {
    if fault == NoWaiter then Result(a, hooks, Some(OutOfMemory))
    else
      var (a', entered) := Enter(a, req, file, fault);
      if entered then AddCancelHook(a', hooks, req.service, fault != NoCancelHook)
      else Result(a', hooks, Some(OutOfMemory))
  }

  /** `bus_activation_activate_service`; systemd says whether the bus activates services through systemd. */
  function Activate(a: Activations, hooks: seq<Hook>, req: Request, o: Outcome, max: int, systemd: bool): Result
    decreases if req.service == SYSTEMD then 0 else 1, 1
  {
    if a.nPending >= max then Result(a, hooks, Some(Refused))
    else if o.file.None? then Result(a, hooks, Some(o.missing))
    else if !req.auto && o.alreadyActive then Result(a, hooks, if o.replySent then None else Some(OutOfMemory))
    else
      var r := Record(a, hooks, req, o.file.value, o.fault);
      if !r.Ok() || req.service in a.table || (systemd && req.service == SYSTEMD) then r
      else StartService(r, req, o.file.value, o.launch, max, systemd)
  }

  /** The rest of the call: hand the service to systemd, or spawn it. */
  function StartService(r: Result, req: Request, file: ServiceFile, launch: Launch, max: int, systemd: bool): Result
    requires systemd ==> req.service != SYSTEMD
    decreases if req.service == SYSTEMD then 0 else 1, 0
  {
    if systemd && file.systemdService.Some? then
      if !launch.messageMade || !launch.transactionMade then r.(failure := Some(OutOfMemory))
      else if launch.systemdConnected then HandOff(r, launch.handOff)
      else
        var (a, failure) := ActivateSystemd(r.activations, req.conn, launch.nested, max, systemd);
        Result(a, r.hooks, failure)
    else if launch.command.Some? then r.(failure := launch.command)
    else if launch.arguments.Some? then Result(RemoveName(r.activations, req.service), r.hooks, launch.arguments)
    else r.(failure := launch.spawn)
  }

  /** A failure to hand over is asserted to have its error set. */
  function HandOff(r: Result, failure: Option<Failure>): Result {
    Result(AssertErrorSet(r.activations, failure), r.hooks, failure)
  }

  const NOT_STARTED :=
    Launch(true, true, true, None, Finding(None, OutOfMemory, NoFault), None, None, None)

  function ForSystemd(conn: ConnId): Request {
    Request(SYSTEMD, conn, ACTIVATION_REQUEST, true)
  }

  /** What the call that activates systemd meets; it starts nothing. */
  function OutcomeOf(n: Finding): Outcome {
    Outcome(n.file, n.missing, false, true, n.fault, NOT_STARTED)
  }

  /** Activate systemd itself, in a transaction of its own. */
  function ActivateSystemd(a: Activations, conn: ConnId, n: Finding, max: int, systemd: bool)
    : (Activations, Option<Failure>)
    decreases 0, 2
  {
    var nested := Activate(a, [], ForSystemd(conn), OutcomeOf(n), max, systemd);
    var ended := if nested.Ok() then Execute(nested.activations, nested.hooks)
                 else Cancel(nested.activations, nested.hooks);
    (ended, nested.failure)
  }

  /**
   `bus_activation_send_pending_auto_activation_messages`: the service is there, so its activation leaves the table,
   with a hook that puts it back.
   */
  function Deliver(a: Activations, hooks: seq<Hook>, service: string, failure: Option<Failure>, memory: bool): Result {
    if service !in a.table then Result(a, hooks, None)
    else if failure.Some? then Result(a, hooks, failure)
    else
      var id := a.table[service];
      if !memory then Result(Unref(AddRef(a, id), id), hooks, Some(OutOfMemory))
      else Result(RemoveName(AddRef(a, id), service), [RestorePending(id)] + hooks, None)
  }

  // ---------------------------------------------------------------------------------------------
  // Failures

  /** `pending_activation_failed`, once its errors are sent. */
  function Fail(a: Activations, id: ActivationId): Activations {
    if !IsLive(a.arena, id) then a.(ok := false) else RemoveName(a, a.arena[id].pending.name)
  }

  /** Which other activations a failed child, or a failed systemd unit, takes with it. */
  datatype Sharing = SameExec(id: ActivationId, exec: string) | SameUnit(unit: string)

  predicate Shares(id: ActivationId, p: Pending, sharing: Sharing) {
    match sharing
    case SameExec(first, exec) => id != first && p.exec == exec
    case SameUnit(unit) => p.systemdService == Some(unit)
  }

  /** Walk the table and fail what shares; walk is the order in which the entries come. */
  function FailSharing(a: Activations, walk: seq<ActivationId>, sharing: Sharing): Activations
    decreases |walk|
  {
    if walk == [] then a
    else if !IsLive(a.arena, walk[0]) then a.(ok := false)
    else
      var a' := if Shares(walk[0], a.arena[walk[0]].pending, sharing) then Fail(a, walk[0]) else a;
      FailSharing(a', walk[1..], sharing)
  }

  /** `babysitter_watch_callback`, for a child that failed. */
  function ChildFails(a: Activations, id: ActivationId, walk: seq<ActivationId>): Activations {
    if !IsLive(a.arena, id) then a.(ok := false)
    else Fail(FailSharing(a, walk, SameExec(id, a.arena[id].pending.exec)), id)
  }

  // ---------------------------------------------------------------------------------------------
  // Runs

  datatype Op =
    | ActivateOp(req: Request, o: Outcome)
    | DeliverOp(service: string, failure: Option<Failure>, memory: bool)

  function Apply(a: Activations, hooks: seq<Hook>, op: Op, max: int, systemd: bool): Result {
    match op
    case ActivateOp(req, o) => Activate(a, hooks, req, o, max, systemd)
    case DeliverOp(service, failure, memory) => Deliver(a, hooks, service, failure, memory)
  }

  function ApplyAll(a: Activations, hooks: seq<Hook>, ops: seq<Op>, max: int, systemd: bool): (Activations, seq<Hook>)
    decreases |ops|
  {
    if ops == [] then (a, hooks)
    else
      var r := Apply(a, hooks, ops[0], max, systemd);
      ApplyAll(r.activations, r.hooks, ops[1..], max, systemd)
  }

  datatype Event =
    | Transact(ops: seq<Op>, commit: bool)
    | TimedOut(id: ActivationId)
    | ChildFailed(id: ActivationId, walk: seq<ActivationId>)
    | SystemdFailed(unit: string, walk: seq<ActivationId>)

  function Step(a: Activations, e: Event, max: int, systemd: bool): Activations {
    match e
    case Transact(ops, commit) =>
      var (a', hooks) := ApplyAll(a, [], ops, max, systemd); if commit then Execute(a', hooks) else Cancel(a', hooks)
    case TimedOut(id) => Fail(a, id)
    case ChildFailed(id, walk) => ChildFails(a, id, walk)
    case SystemdFailed(unit, walk) => FailSharing(a, walk, SameUnit(unit))
  }
}
