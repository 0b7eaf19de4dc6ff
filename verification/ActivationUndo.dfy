/**
 What cancelling undoes: a delivery exactly; a request, unless it joined an activation or one for systemd was made.
 */
module ActivationUndo {
  import opened BusTypes
  import opened Activations
  import opened ActivationProofs
  import opened ActivationRuns

  lemma RefThenUnref(a: Activations, id: ActivationId)
    requires IsLive(a.arena, id) && a.arena[id].pending.refcount > 0
    ensures Unref(AddRef(a, id), id) == a
  {
    var p := a.arena[id].pending;
    var more := Live(p.(refcount := p.refcount + 1));
    assert p.(refcount := p.refcount + 1).(refcount := p.refcount) == p;
    assert a.arena[id := more][id := Live(p)] == a.arena;
  }

  lemma OutAndIn(a: Activations, id: ActivationId, name: string)
    requires IsLive(a.arena, id) && a.arena[id].pending.refcount > 0 && name in a.table && a.table[name] == id
    ensures RemoveName(AddRef(a, id), name) == a.(table := a.table - {name})
    ensures InsertName(a.(table := a.table - {name}), name, id) == a
  {
    RefThenUnref(a, id);
    assert RemoveName(AddRef(a, id), name) == Unref(AddRef(a, id).(table := a.table - {name}), id);
    assert (a.table - {name})[name := id] == a.table;
  }

  /** Cancelling a delivery puts the activation back exactly. */
  lemma DeliveryUndone(a: Activations, max: int, service: string, failure: Option<Failure>,
                       memory: bool)
    requires Settled(a, max)
    ensures var r := Deliver(a, [], service, failure, memory); Cancel(r.activations, r.hooks) == a
  {
    if service in a.table {
      var id := a.table[service];
      SettledMeansListed(a, max, id);
      RefThenUnref(a, id);
      if failure.None? && memory {
        OutAndIn(a, id, service);
        var r := Deliver(a, [], service, None, true);
        assert r.hooks[1..] == [];
        assert RunHooks(r.activations, r.hooks) == RunHook(r.activations, r.hooks[0]) == AddRef(a, id);
        assert FreeHooks(AddRef(a, id), r.hooks) == Unref(AddRef(a, id), id);
      }
    }
  }

  /** A request is put on record. */
  predicate Recorded(a: Activations, req: Request, o: Outcome, max: int) {
    && a.nPending < max && o.file.Some? && (req.auto || !o.alreadyActive)
    && o.fault !in {NoWaiter, NoWaiterLink}
  }

  /** Every activation that was there is there, with the requests it had. */
  ghost predicate AsBefore(a: Activations, a': Activations) {
    && a'.table == a.table && a'.nPending == a.nPending && |a.arena| <= |a'.arena|
    && forall id: ActivationId :: id < |a.arena| ==> a'.arena[id] == a.arena[id]
  }

  /** A hook's reference and the table's go together when the hook runs. */
  lemma CancelDrops(a: Activations, id: ActivationId, name: string)
    requires IsLive(a.arena, id) && a.arena[id].pending.refcount == 1 && a.arena[id].pending.name == name
    requires name in a.table && a.table[name] == id
    ensures Cancel(AddRef(a, id), [CancelPending(id)]) == RemoveName(a, name)
    ensures Cancel(RemoveName(AddRef(a, id), name), [CancelPending(id)]) == RemoveName(a, name)
  {
    OutAndIn(a, id, name);
    var hooks := [CancelPending(id)];
    var taken := a.(table := a.table - {name});
    assert hooks[1..] == [];
    assert RunHooks(AddRef(a, id), hooks) == RunHook(AddRef(a, id), hooks[0]) == taken;
    assert taken.table - {name} == taken.table;
    assert RunHooks(taken, hooks) == RunHook(taken, hooks[0]) == taken;
    assert FreeHooks(taken, hooks) == Unref(taken, id);
  }

  lemma JoinCancelled(a: Activations, max: int, req: Request, file: ServiceFile, fault: Fault)
    requires Settled(a, max) && req.service in a.table && fault !in {NoWaiter, NoWaiterLink}
    ensures var r := Record(a, [], req, file, fault); Cancel(r.activations, r.hooks) == Fail(a, a.table[req.service])
  {
    var id := a.table[req.service];
    SettledMeansListed(a, max, id);
    FailExact(a, max, id);
    var joined := JoinPending(a, req, id);
    CancelDrops(joined, id, req.service);
    assert joined.arena[id := Gone] == a.arena[id := Gone];
    assert RemoveName(joined, req.service) == Fail(a, id);
    if fault != NoCancelHook {
      assert Record(a, [], req, file, fault).hooks == [CancelPending(id)];
    }
  }

  /** The activations when a new one has just been put on record. */
  function WithNew(a: Activations, req: Request, file: ServiceFile): Activations {
    var waiting := Pending(1, req.service, file.exec, file.systemdService, [Waiter(req.conn, req.message, req.auto)],
                           1);
    Activations(a.arena + [Live(waiting)], a.table[req.service := |a.arena|], a.nPending + 1, a.ok, a.errorsSet)
  }

  lemma NewDropped(a: Activations, req: Request, file: ServiceFile)
    requires a.nPending >= 0 && req.service !in a.table
    ensures var entered := WithNew(a, req, file);
            var (id, hooks) := (|a.arena|, [CancelPending(|a.arena|)]);
            && AsBefore(a, RemoveName(entered, req.service)) && AsBefore(a, Cancel(AddRef(entered, id), hooks))
            && AsBefore(a, Cancel(RemoveName(AddRef(entered, id), req.service), hooks))
  {
    assert a.table[req.service := |a.arena|] - {req.service} == a.table;
    CancelDrops(WithNew(a, req, file), |a.arena|, req.service);
  }

  /** A request for a service that was not being activated either fails and leaves nothing, or has its hook. */
  lemma NewRecorded(a: Activations, req: Request, file: ServiceFile, fault: Fault)
    requires a.nPending >= 0 && req.service !in a.table
    ensures var r := Record(a, [], req, file, fault);
            && (r.Ok() <==> fault == NoFault || (fault == NoSystemdCopy && file.systemdService.None?))
            && if r.Ok()
               then r.activations == AddRef(WithNew(a, req, file), |a.arena|) && r.hooks == [CancelPending(|a.arena|)]
               else AsBefore(a, r.activations) && r.hooks == []
  {
    NewDropped(a, req, file);
    var (a', entered) := Enter(a, req, file, fault);
    if fault != NoWaiter && entered { assert a' == WithNew(a, req, file); }
  }

  lemma CountNotNegative(a: Activations, max: int)
    requires Settled(a, max)
    ensures a.nPending >= 0
  {
    forall i: ActivationId | i < |a.arena| && a.arena[i].Live? ensures a.arena[i].pending.nEntries >= 0 {
      SettledMeansListed(a, max, i);
    }
    CountAtLeast(a.arena, |a.arena|);
  }

  // ---------------------------------------------------------------------------------------------
  // The request for systemd that a request makes

  /** The hook of a new activation drops it, whatever was done to the others meanwhile. */
  lemma DropEntered(y: Activations, id: ActivationId, name: string)
    requires IsLive(y.arena, id) && name in y.table && y.table[name] == id
    requires var p := y.arena[id].pending; p.refcount == 2 && p.name == name && p.nEntries == 1
    requires y.nPending >= 1
    ensures Cancel(y, [CancelPending(id)])
         == y.(arena := y.arena[id := Gone], table := y.table - {name}, nPending := y.nPending - 1)
  {
    var hooks := [CancelPending(id)];
    var p := y.arena[id].pending;
    var once := y.(arena := y.arena[id := Live(p.(refcount := 1))], table := y.table - {name});
    assert hooks[1..] == [];
    assert RunHooks(y, hooks) == RunHook(y, hooks[0]) == once;
    assert FreeHooks(once, hooks) == Unref(once, id);
    assert once.arena[id := Gone] == y.arena[id := Gone];
  }

  /** The nested request is put on record or joins; without memory for its hook it takes down what it joined. */
  predicate Enters(a: Activations, o: Finding, max: int) {
    && a.nPending < max && o.file.Some?
    && if SYSTEMD in a.table then o.fault !in {NoWaiter, NoWaiterLink}
       else o.fault == NoFault || (o.fault == NoSystemdCopy && o.file.value.systemdService.None?)
  }

  function AfterNested(a: Activations, conn: ConnId, o: Finding): Activations
    requires o.file.Some?
  {
    if SYSTEMD !in a.table then WithNew(a, ForSystemd(conn), o.file.value)
    else if o.fault == NoCancelHook then Fail(a, a.table[SYSTEMD])
    else JoinPending(a, ForSystemd(conn), a.table[SYSTEMD])
  }

  /** What the table says of systemd is true, and no count is too large. */
  ghost predicate SystemdRight(a: Activations) {
    && a.nPending >= 0
    && (SYSTEMD in a.table ==>
          IsLive(a.arena, a.table[SYSTEMD])
          && var p := a.arena[a.table[SYSTEMD]].pending;
          p.refcount == 1 && p.name == SYSTEMD && p.nEntries <= a.nPending)
  }

  lemma NestedJoins(a: Activations, max: int, conn: ConnId, o: Finding)
    requires SystemdRight(a) && SYSTEMD in a.table
    ensures var after := ActivateSystemd(a, conn, o, max, true).0;
            if Enters(a, o, max) then after == AfterNested(a, conn, o) else after == a
  {
    var id := a.table[SYSTEMD];
    var joined := JoinPending(a, ForSystemd(conn), id);
    if Enters(a, o, max) {
      if o.fault == NoCancelHook {
        assert joined.arena[id := Gone] == a.arena[id := Gone];
      } else {
        RefThenUnref(joined, id);
        var hooks := [CancelPending(id)];
        assert hooks[1..] == [];
        assert FreeHooks(AddRef(joined, id), hooks) == Unref(AddRef(joined, id), id);
      }
    }
  }

  lemma NestedRecords(a: Activations, max: int, conn: ConnId, o: Finding)
    requires SystemdRight(a) && SYSTEMD !in a.table
    ensures var after := ActivateSystemd(a, conn, o, max, true).0;
            if Enters(a, o, max) then after == AfterNested(a, conn, o) else AsBefore(a, after)
  {
    if a.nPending < max && o.file.Some? {
      NewRecorded(a, ForSystemd(conn), o.file.value, o.fault);
      var (id, hooks) := (|a.arena|, [CancelPending(|a.arena|)]);
      var entered := WithNew(a, ForSystemd(conn), o.file.value);
      assert hooks[1..] == [];
      RefThenUnref(entered, id);
      assert FreeHooks(AddRef(entered, id), hooks) == entered;
    }
  }

  /** The outer request makes a nested one for systemd, which enters. */
  predicate NestedEnters(a: Activations, req: Request, o: Outcome, max: int, systemd: bool) {
    && systemd && req.service != SYSTEMD && req.service !in a.table
    && a.nPending < max && o.file.Some? && (req.auto || !o.alreadyActive)
    && o.fault == NoFault && o.file.value.systemdService.Some?
    && o.launch.messageMade && o.launch.transactionMade && !o.launch.systemdConnected
    && Enters(a.(nPending := a.nPending + 1), o.launch.nested, max)
  }

  /** What is left when the outer request is cancelled: the slot it had, and what the nested one did. */
  function Residue(a: Activations, req: Request, o: Outcome): Activations
    requires o.launch.nested.file.Some?
  {
    AfterNested(a.(arena := a.arena + [Gone]), req.conn, o.launch.nested)
  }

  /** The activations just before the nested request. */
  function Referenced(a: Activations, req: Request, file: ServiceFile): Activations {
    AddRef(WithNew(a, req, file), |a.arena|)
  }

  lemma ReferencedRight(a: Activations, max: int, req: Request, file: ServiceFile)
    requires Settled(a, max) && req.service !in a.table && req.service != SYSTEMD
    ensures var x := Referenced(a, req, file);
            && SystemdRight(x) && |x.arena| == |a.arena| + 1 && x.arena[..|a.arena|] == a.arena
            && x.arena[|a.arena|].Live? && x.arena[|a.arena|].pending.refcount == 2
  {
    CountNotNegative(a, max);
    if SYSTEMD in a.table {
      var id := a.table[SYSTEMD];
      SettledMeansListed(a, max, id);
      assert a.arena[id] == (a.arena + [Gone])[id];
      CountOne(a, max, id);
    }
  }

  lemma CountOne(a: Activations, max: int, id: ActivationId)
    requires Settled(a, max) && IsLive(a.arena, id)
    ensures a.arena[id].pending.nEntries <= a.nPending
  {
    forall i: ActivationId | i < |a.arena| && a.arena[i].Live? ensures a.arena[i].pending.nEntries >= 0 {
      SettledMeansListed(a, max, i);
    }
    CountAtLeast(a.arena, id);
  }
  /** Without a nested request that enters, the hook of the new activation leaves everything as it was. */
  lemma UntouchedDropped(a: Activations, max: int, req: Request, file: ServiceFile, y: Activations)
    requires Settled(a, max) && req.service !in a.table && AsBefore(Referenced(a, req, file), y)
    ensures AsBefore(a, Cancel(y, [CancelPending(|a.arena|)]))
  {
    CountNotNegative(a, max);
    var (id, x) := (|a.arena|, Referenced(a, req, file));
    assert y.arena[id] == x.arena[id];
    DropEntered(y, id, req.service);
    assert a.table[req.service := id] - {req.service} == a.table;
    forall i: ActivationId | i < |a.arena| ensures y.arena[id := Gone][i] == a.arena[i] {
      assert y.arena[i] == x.arena[i] == a.arena[i];
    }
  }

  lemma ResidueJoined(a: Activations, max: int, req: Request, file: ServiceFile, conn: ConnId, o: Finding)
    requires Settled(a, max) && req.service !in a.table && req.service != SYSTEMD && SYSTEMD in a.table && o.file.Some?
    ensures var c := Cancel(AfterNested(Referenced(a, req, file), conn, o), [CancelPending(|a.arena|)]);
            c == AfterNested(a.(arena := a.arena + [Gone]), conn, o) && !AsBefore(a, c)
  {
    var (id, other) := (|a.arena|, a.table[SYSTEMD]);
    var base := a.(arena := a.arena + [Gone]);
    CountNotNegative(a, max);
    SettledMeansListed(a, max, other);
    CountOne(a, max, other);
    var y := AfterNested(Referenced(a, req, file), conn, o);
    DropEntered(y, id, req.service);
    assert y.arena[id := Gone] == AfterNested(base, conn, o).arena;
    assert y.table - {req.service} == AfterNested(base, conn, o).table;
    assert base.arena[other] == a.arena[other];
    assert AfterNested(base, conn, o).arena[other] != a.arena[other];
  }

  lemma ResidueRecorded(a: Activations, max: int, req: Request, file: ServiceFile, conn: ConnId, o: Finding)
    requires Settled(a, max) && req.service !in a.table && req.service != SYSTEMD && SYSTEMD !in a.table && o.file.Some?
    ensures var c := Cancel(AfterNested(Referenced(a, req, file), conn, o), [CancelPending(|a.arena|)]);
            c == AfterNested(a.(arena := a.arena + [Gone]), conn, o) && !AsBefore(a, c)
  {
    var id := |a.arena|;
    var base := a.(arena := a.arena + [Gone]);
    CountNotNegative(a, max);
    var y := AfterNested(Referenced(a, req, file), conn, o);
    DropEntered(y, id, req.service);
    assert y.arena[id := Gone] == AfterNested(base, conn, o).arena;
    assert y.table - {req.service} == AfterNested(base, conn, o).table;
  }

  lemma NestedCancelled(a: Activations, max: int, req: Request, file: ServiceFile, o: Finding)
    requires Settled(a, max) && req.service !in a.table && req.service != SYSTEMD
    ensures var y := ActivateSystemd(Referenced(a, req, file), req.conn, o, max, true).0;
            var c := Cancel(y, [CancelPending(|a.arena|)]);
            if Enters(a.(nPending := a.nPending + 1), o, max)
            then c == AfterNested(a.(arena := a.arena + [Gone]), req.conn, o) && !AsBefore(a, c)
            else AsBefore(a, c)
  {
    var x := Referenced(a, req, file);
    ReferencedRight(a, max, req, file);
    if SYSTEMD in a.table { NestedJoins(x, max, req.conn, o); } else { NestedRecords(x, max, req.conn, o); }
    if Enters(x, o, max) {
      if SYSTEMD in a.table { ResidueJoined(a, max, req, file, req.conn, o); }
      else { ResidueRecorded(a, max, req, file, req.conn, o); }
    } else {
      UntouchedDropped(a, max, req, file, ActivateSystemd(x, req.conn, o, max, true).0);
    }
  }

  /** A new request is cancelled once its service was, or was not, started. */
  lemma StartCancelled(a: Activations, max: int, req: Request, file: ServiceFile, launch: Launch, systemd: bool)
    requires Settled(a, max) && req.service !in a.table && (systemd ==> req.service != SYSTEMD)
    ensures var r := Result(Referenced(a, req, file), [CancelPending(|a.arena|)], None);
            var started := StartService(r, req, file, launch, max, systemd);
            var c := Cancel(started.activations, started.hooks);
            if systemd && file.systemdService.Some? && launch.messageMade && launch.transactionMade
               && !launch.systemdConnected && Enters(a.(nPending := a.nPending + 1), launch.nested, max)
            then c == AfterNested(a.(arena := a.arena + [Gone]), req.conn, launch.nested)
                 && !AsBefore(a, c)
            else AsBefore(a, c)
  {
    CountNotNegative(a, max);
    NewDropped(a, req, file);
    var x := Referenced(a, req, file);
    UntouchedDropped(a, max, req, file, AssertErrorSet(x, launch.handOff));
    if systemd { NestedCancelled(a, max, req, file, launch.nested); }
  }

  /** A new request is cancelled, however far it got. */
  lemma NewCancelled(a: Activations, max: int, req: Request, o: Outcome, systemd: bool)
    requires Settled(a, max) && req.service !in a.table
    requires a.nPending < max && o.file.Some? && (req.auto || !o.alreadyActive)
    ensures var r := Activate(a, [], req, o, max, systemd);
            var c := Cancel(r.activations, r.hooks);
            if NestedEnters(a, req, o, max, systemd) then c == Residue(a, req, o) && !AsBefore(a, c) else AsBefore(a, c)
  {
    var file := o.file.value;
    CountNotNegative(a, max);
    NewRecorded(a, req, file, o.fault);
    NewDropped(a, req, file);
    if Record(a, [], req, file, o.fault).Ok() && !(systemd && req.service == SYSTEMD) {
      StartCancelled(a, max, req, file, o.launch, systemd);
    }
  }

  /**
   Cancelling a request leaves the activations as they were if and only if it neither joined one nor made a request for
   systemd that is on record.  A request that joined takes the whole activation away, from the requests that were
   already waiting too; one that asked for systemd leaves that request behind, since its transaction was executed
   before this one was cancelled.
   */
  lemma RequestCancelled(a: Activations, max: int, req: Request, o: Outcome, systemd: bool)
    requires Settled(a, max)
    ensures var r := Activate(a, [], req, o, max, systemd);
            var c := Cancel(r.activations, r.hooks);
            var joined := req.service in a.table && Recorded(a, req, o, max);
            && (AsBefore(a, c) <==> !joined && !NestedEnters(a, req, o, max, systemd))
            && (joined ==> c == Fail(a, a.table[req.service]))
            && (NestedEnters(a, req, o, max, systemd) ==> c == Residue(a, req, o))
  {
    if a.nPending < max && o.file.Some? && (req.auto || !o.alreadyActive) {
      if req.service !in a.table {
        NewCancelled(a, max, req, o, systemd);
      } else if Recorded(a, req, o, max) {
        JoinCancelled(a, max, req, o.file.value, o.fault);
        SettledMeansListed(a, max, a.table[req.service]);
        FailExact(a, max, a.table[req.service]);
      }
    }
  }

  const ASKS_SYSTEMD :=
    Outcome(Some(ServiceFile("/usr/bin/unit", Some("unit.service"))), OutOfMemory, false, true, NoFault,
            NOT_STARTED.(systemdConnected := false,
                         nested := Finding(Some(ServiceFile("/bin/systemd", None)), OutOfMemory, NoFault)))

  /** From the empty table: the request is undone, and one for systemd waits that was not there. */
  lemma SystemdIsLeftWaiting(req: Request, max: nat)
    requires max > 1 && req.service != SYSTEMD
    ensures var r := Activate(NONE_PENDING, [], req, ASKS_SYSTEMD, max, true);
            var c := Cancel(r.activations, r.hooks);
            c.table == map[SYSTEMD := 1] && c.nPending == 1 && !AsBefore(NONE_PENDING, c)
  {
    RequestCancelled(NONE_PENDING, max, req, ASKS_SYSTEMD, true);
    assert NestedEnters(NONE_PENDING, req, ASKS_SYSTEMD, max, true);
  }
}
