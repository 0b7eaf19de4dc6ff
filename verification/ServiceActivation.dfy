/** `BusActivation`, the part that tracks pending activations, changed in place. */
module ServiceActivation {
  import opened BusTypes
  import opened Spec = Activations

  class BusActivation {
    var arena: seq<Slot>
    var table: map<string, ActivationId>
    var nPending: int
    // The cancel hooks of open transactions, newest first.
    var hooks: map<TxId, seq<Hook>>
    // No assertion on counts and references has failed, and none that a failure has its error set.
    ghost var ok: bool
    ghost var errorsSet: bool
    const max: int
    const systemd: bool

    ghost function State(): Activations
      reads this
    {
      Spec.Activations(arena, table, nPending, ok, errorsSet)
    }

    constructor (max: int, systemd: bool)
      ensures State() == NONE_PENDING && hooks == map[]
      ensures this.max == max && this.systemd == systemd
    {
      arena, table, nPending, hooks, ok, errorsSet := [], map[], 0, map[], true, true;
      this.max, this.systemd := max, systemd;
    }

    /** `bus_pending_activation_ref` */
    method Ref(id: ActivationId)
      modifies this`arena, this`ok
      ensures State() == AddRef(old(State()), id)
    {
      if id < |arena| && arena[id].Live? && arena[id].pending.refcount > 0 {
        var p := arena[id].pending;
        arena := arena[id := Live(p.(refcount := p.refcount + 1))];
      } else {
        ok := false;
      }
    }

    /** `bus_pending_activation_unref` */
    method Unref(id: ActivationId)
      modifies this`arena, this`nPending, this`ok
      ensures State() == Spec.Unref(old(State()), id)
    {
      if !(id < |arena| && arena[id].Live? && arena[id].pending.refcount > 0) {
        ok := false;
        return;
      }
      var p := arena[id].pending;
      p := p.(refcount := p.refcount - 1);
      if p.refcount > 0 {
        arena := arena[id := Live(p)];
        return;
      }
      nPending := nPending - p.nEntries;
      ok := ok && nPending >= 0;
      arena := arena[id := Gone];
    }

    /** `_dbus_hash_table_remove_string` on the pending activations. */
    method RemoveString(name: string)
      modifies this`arena, this`table, this`nPending, this`ok
      ensures State() == RemoveName(old(State()), name)
    {
      if name in table {
        var id := table[name];
        table := table - {name};
        Unref(id);
      }
    }

    /** `_dbus_hash_table_insert_string_preallocated` on the pending activations. */
    method InsertString(name: string, id: ActivationId)
      modifies this`arena, this`table, this`nPending, this`ok
      ensures State() == InsertName(old(State()), name, id)
    {
      if name in table && table[name] != id {
        var previous := table[name];
        table := table[name := id];
        Unref(previous);
      } else {
        table := table[name := id];
      }
    }

    /** `bus_transaction_new` */
    method NewTransaction(tx: TxId)
      requires tx !in hooks
      modifies this`hooks
      ensures hooks == old(hooks)[tx := []]
    {
      hooks := hooks[tx := []];
    }

    /** `cancel_pending` and `restore_pending` */
    method CallHook(hook: Hook)
      modifies this`arena, this`table, this`nPending, this`ok
      ensures State() == RunHook(old(State()), hook)
    {
      var id := hook.id;
      if !(id < |arena| && arena[id].Live?) {
        ok := false;
        return;
      }
      var name := arena[id].pending.name;
      if hook.CancelPending? {
        RemoveString(name);
      } else {
        InsertString(name, id);
        Ref(id);
      }
    }

    method FreeCancelHooks(tx: TxId)
      requires tx in hooks
      modifies this
      ensures State() == FreeHooks(old(State()), old(hooks)[tx]) && hooks == old(hooks) - {tx}
    {
      var todo := hooks[tx];
      while todo != []
        invariant hooks == old(hooks)
        invariant FreeHooks(State(), todo) == FreeHooks(old(State()), old(hooks)[tx])
      {
        Unref(todo[0].id);
        todo := todo[1..];
      }
      hooks := hooks - {tx};
    }

    /** `bus_transaction_execute_and_free`, the hooks. */
    method ExecuteTransaction(tx: TxId)
      requires tx in hooks
      modifies this
      ensures State() == Execute(old(State()), old(hooks)[tx]) && hooks == old(hooks) - {tx}
    {
      FreeCancelHooks(tx);
    }

    /** `bus_transaction_cancel_and_free`, the hooks. */
    method CancelTransaction(tx: TxId)
      requires tx in hooks
      modifies this
      ensures State() == Cancel(old(State()), old(hooks)[tx]) && hooks == old(hooks) - {tx}
    {
      var todo := hooks[tx];
      while todo != []
        invariant hooks == old(hooks)
        invariant RunHooks(State(), todo) == RunHooks(old(State()), old(hooks)[tx])
      {
        CallHook(todo[0]);
        todo := todo[1..];
      }
      FreeCancelHooks(tx);
    }

    /** A new activation on record; its exits follow the allocations in turn. */
    method CreatePending(req: Request, file: ServiceFile, fault: Fault) returns (recorded: bool)
      requires req.service !in table
      modifies this`arena, this`table, this`nPending, this`ok
      ensures (State(), recorded) == NewPending(old(State()), req, file, fault)
    {
      if fault == NoPending {
        return false;
      }
      var id := |arena|;
      var p := Pending(1, req.service, file.exec, file.systemdService, [], 0);
      arena := arena + [Live(p)];
      if fault == NoNameCopy || fault == NoExecCopy {
        Unref(id);
        return false;
      }
      if file.systemdService.Some? {
        if fault == NoSystemdCopy {
          Unref(id);
          return false;
        }
      }
      if fault == NoTimeout || fault == NoLoopTimeout || fault == NoWaiterLink {
        Unref(id);
        return false;
      }
      p := p.(entries := [Waiter(req.conn, req.message, req.auto)], nEntries := 1);
      arena := arena[id := Live(p)];
      nPending := nPending + 1;
      assert arena == old(arena) + [Live(p)];
      if fault == NoTableEntry {
        Unref(id);
        return false;
      }
      InsertString(req.service, id);
      recorded := true;
    }

    /** Count the request in the activation in progress, or in a new one. */
    method EnterRequest(req: Request, file: ServiceFile, fault: Fault) returns (entered: bool)
      modifies this`arena, this`table, this`nPending, this`ok
      ensures (State(), entered) == Enter(old(State()), req, file, fault)
    {
      if req.service !in table {
        entered := CreatePending(req, file, fault);
        return;
      }
      if fault == NoWaiterLink {
        return false;
      }
      var id := table[req.service];
      if id < |arena| && arena[id].Live? {
        var p := arena[id].pending;
        p := p.(entries := p.entries + [Waiter(req.conn, req.message, req.auto)]);
        p := p.(nEntries := p.nEntries + 1);
        arena := arena[id := Live(p)];
        nPending := nPending + 1;
      } else {
        ok := false;
      }
      entered := true;
    }

    /** `add_cancel_pending_to_transaction`, and what its caller does when it fails. */
    method AddHook(tx: TxId, service: string, memory: bool) returns (failure: Option<Failure>)
      requires tx in hooks
      modifies this
      ensures tx in hooks && hooks == old(hooks)[tx := hooks[tx]]
      ensures Result(State(), hooks[tx], failure) == AddCancelHook(old(State()), old(hooks)[tx], service, memory)
    {
      if service !in table {
        ok := false;
        return Some(OutOfMemory);
      }
      if !memory {
        RemoveString(service);
        return Some(OutOfMemory);
      }
      var id := table[service];
      hooks := hooks[tx := [CancelPending(id)] + hooks[tx]];
      Ref(id);
      failure := None;
    }

    /** The waiter, the activation and the cancel hook of one request. */
    method RecordRequest(tx: TxId, req: Request, file: ServiceFile, fault: Fault) returns (failure: Option<Failure>)
      requires tx in hooks
      modifies this
      ensures tx in hooks && hooks == old(hooks)[tx := hooks[tx]]
      ensures Result(State(), hooks[tx], failure) == Record(old(State()), old(hooks)[tx], req, file, fault)
    {
      if fault == NoWaiter {
        return Some(OutOfMemory);
      }
      var entered := EnterRequest(req, file, fault);
      if !entered {
        return Some(OutOfMemory);
      }
      failure := AddHook(tx, req.service, fault != NoCancelHook);
    }

    /** Activate systemd itself, in a transaction of its own. */
    method ActivateSystemdItself(nested: TxId, conn: ConnId, n: Finding) returns (failure: Option<Failure>)
      requires nested !in hooks
      modifies this
      ensures hooks == old(hooks) && (State(), failure) == ActivateSystemd(old(State()), conn, n, max, systemd)
      decreases 0, 2
    {
      NewTransaction(nested);
      failure := ActivateService(nested, ForSystemd(conn), OutcomeOf(n), nested);
      if failure.None? {
        ExecuteTransaction(nested);
      } else {
        CancelTransaction(nested);
      }
    }

    /** The second half of `bus_activation_activate_service`. */
    method Start(tx: TxId, req: Request, file: ServiceFile, launch: Launch, nested: TxId)
      returns (failure: Option<Failure>)
      requires tx in hooks && (req.service == SYSTEMD || nested !in hooks) && (systemd ==> req.service != SYSTEMD)
      modifies this
      ensures hooks == old(hooks)
      ensures Result(State(), hooks[tx], failure)
           == StartService(Result(old(State()), hooks[tx], None), req, file, launch, max, systemd)
      decreases if req.service == SYSTEMD then 0 else 1, 0
    {
      if systemd {
        if file.systemdService.Some? {
          if !launch.messageMade || !launch.transactionMade {
            return Some(OutOfMemory);
          }
          if launch.systemdConnected {
            errorsSet := errorsSet && launch.handOff != Some(RefusedSilently);
            return launch.handOff;
          }
          failure := ActivateSystemdItself(nested, req.conn, launch.nested);
          return;
        }
      }
      if launch.command.Some? {
        return launch.command;
      }
      if launch.arguments.Some? {
        RemoveString(req.service);
        return launch.arguments;
      }
      failure := launch.spawn;
    }

    /**
     `bus_activation_activate_service`; nested is the transaction it may open for systemd, which a request for systemd
     itself does not.
     */
    method ActivateService(tx: TxId, req: Request, o: Outcome, nested: TxId) returns (failure: Option<Failure>)
      requires tx in hooks && (req.service == SYSTEMD || nested !in hooks)
      modifies this
      ensures tx in hooks && hooks == old(hooks)[tx := hooks[tx]]
      ensures Result(State(), hooks[tx], failure) == Activate(old(State()), old(hooks)[tx], req, o, max, systemd)
      decreases if req.service == SYSTEMD then 0 else 1, 1
    {
      if nPending >= max {
        return Some(Refused);
      }
      if o.file.None? {
        return Some(o.missing);
      }
      if !req.auto {
        if o.alreadyActive {
          return if o.replySent then None else Some(OutOfMemory);
        }
      }
      var wasPending := req.service in table;
      failure := RecordRequest(tx, req, o.file.value, o.fault);
      if failure.Some? || wasPending {
        return;
      }
      if systemd && req.service == SYSTEMD {
        return;
      }
      failure := Start(tx, req, o.file.value, o.launch, nested);
    }

    /**
     `bus_activation_send_pending_auto_activation_messages`, once the messages are dispatched or one failed;
     memory is for the hook that restores the activation.
     */
    method DeliverPending(tx: TxId, service: string, dispatched: Option<Failure>, memory: bool)
      returns (failure: Option<Failure>)
      requires tx in hooks
      modifies this
      ensures tx in hooks && hooks == old(hooks)[tx := hooks[tx]]
      ensures Result(State(), hooks[tx], failure) == Deliver(old(State()), old(hooks)[tx], service, dispatched, memory)
    {
      if service !in table {
        return None;
      }
      if dispatched.Some? {
        return dispatched;
      }
      var id := table[service];
      Ref(id);
      if !memory {
        Unref(id);
        return Some(OutOfMemory);
      }
      hooks := hooks[tx := [RestorePending(id)] + hooks[tx]];
      RemoveString(service);
      failure := None;
    }

    /** `pending_activation_failed`, once its errors are sent; also `pending_activation_timed_out`. */
    method ActivationFailed(id: ActivationId)
      modifies this`arena, this`table, this`nPending, this`ok
      ensures State() == Fail(old(State()), id)
    {
      if id < |arena| && arena[id].Live? {
        RemoveString(arena[id].pending.name);
      } else {
        ok := false;
      }
    }

    /** The walks of `babysitter_watch_callback` and `dbus_activation_systemd_failure` over the table. */
    method FailThoseSharing(walk: seq<ActivationId>, sharing: Sharing)
      modifies this`arena, this`table, this`nPending, this`ok
      ensures State() == FailSharing(old(State()), walk, sharing)
    {
      var todo := walk;
      while todo != []
        invariant FailSharing(State(), todo, sharing) == FailSharing(old(State()), walk, sharing)
      {
        var id := todo[0];
        if !(id < |arena| && arena[id].Live?) {
          ok := false;
          return;
        }
        if Shares(id, arena[id].pending, sharing) {
          ActivationFailed(id);
        }
        todo := todo[1..];
      }
    }

    /** `babysitter_watch_callback`, for a child that failed. */
    method ChildFailed(id: ActivationId, walk: seq<ActivationId>)
      modifies this`arena, this`table, this`nPending, this`ok
      ensures State() == ChildFails(old(State()), id, walk)
    {
      if !(id < |arena| && arena[id].Live?) {
        ok := false;
        return;
      }
      FailThoseSharing(walk, SameExec(id, arena[id].pending.exec));
      ActivationFailed(id);
    }
  }
}
