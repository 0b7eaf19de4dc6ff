/** Whole runs of service activation: transactions, timeouts, failed children and failed systemd units, in any order. */
module ActivationRuns {
  import opened BusTypes
  import opened Lists
  import opened Activations
  import opened ActivationProofs

  /** Between two events no transaction is open, so every live activation is in the table, once. */
  ghost predicate Settled(a: Activations, max: int) {
    Inv(a, multiset{}) && a.nPending <= max
  }

  lemma SettledMeansListed(a: Activations, max: int, id: ActivationId)
    requires Settled(a, max) && IsLive(a.arena, id)
    ensures InTable(a, id) && a.arena[id].pending.refcount == 1
    ensures a.arena[id].pending.nEntries == |a.arena[id].pending.entries|
  {
    assert Right(a, multiset{}, id);
  }

  // ---------------------------------------------------------------------------------------------
  // Transactions

  lemma MoreCancelsStayOut(a: Activations, hooks: seq<Hook>, hooks': seq<Hook>)
    requires RestoresOut(a, hooks) && MoreCancels(hooks, hooks')
    ensures RestoresOut(a, hooks')
  {
    if hooks' != hooks {
      assert forall i :: 0 < i < |hooks'| ==> hooks'[i] == hooks'[1..][i - 1];
    }
  }

  /** A transaction in progress. */
  ghost predicate InProgress(a: Activations, hooks: seq<Hook>, max: int) {
    Inv(a, HeldBy(hooks)) && RestoresOut(a, hooks) && a.nPending <= max
  }

  lemma ApplyKeeps(a: Activations, hooks: seq<Hook>, op: Op, max: int, systemd: bool)
    requires InProgress(a, hooks, max)
    ensures var r := Apply(a, hooks, op, max, systemd); InProgress(r.activations, r.hooks, max)
  {
    assert multiset{} + HeldBy(hooks) == HeldBy(hooks);
    var r := Apply(a, hooks, op, max, systemd);
    assert multiset{} + HeldBy(r.hooks) == HeldBy(r.hooks);
    match op
    case ActivateOp(req, o) =>
      ActivateKeeps(a, hooks, multiset{}, req, o, max, systemd);
      OldRestoresStayOut(a, r.activations, hooks);
      MoreCancelsStayOut(r.activations, hooks, r.hooks);
    case DeliverOp(service, failure, memory) =>
      DeliverKeeps(a, hooks, multiset{}, service, failure, memory);
  }

  lemma {:induction false} ApplyAllKeeps(a: Activations, hooks: seq<Hook>, ops: seq<Op>, max: int, systemd: bool)
    requires InProgress(a, hooks, max)
    ensures var (a', hooks') := ApplyAll(a, hooks, ops, max, systemd); InProgress(a', hooks', max)
    decreases |ops|
  {
    if ops != [] {
      ApplyKeeps(a, hooks, ops[0], max, systemd);
      var r := Apply(a, hooks, ops[0], max, systemd);
      ApplyAllKeeps(r.activations, r.hooks, ops[1..], max, systemd);
    }
  }

  lemma TransactKeeps(a: Activations, ops: seq<Op>, commit: bool, max: int, systemd: bool)
    requires Settled(a, max)
    ensures Settled(Step(a, Transact(ops, commit), max, systemd), max)
  {
    ApplyAllKeeps(a, [], ops, max, systemd);
    var (a', hooks) := ApplyAll(a, [], ops, max, systemd);
    assert multiset{} + HeldBy(hooks) == HeldBy(hooks);
    if commit { FreeHooksKeep(a', hooks, multiset{}); } else { CancelKeeps(a', hooks, multiset{}); }
  }

  // ---------------------------------------------------------------------------------------------
  // Failures

  /** Failing one activation ends it, its table entry and its requests, and nothing else. */
  lemma FailExact(a: Activations, max: int, id: ActivationId)
    requires Settled(a, max) && IsLive(a.arena, id)
    ensures var p := a.arena[id].pending;
            Fail(a, id) == Activations(a.arena[id := Gone], a.table - {p.name}, a.nPending - |p.entries|, true,
                                       a.errorsSet)
    ensures Settled(Fail(a, id), max)
    ensures forall x: ActivationId :: InTable(Fail(a, id), x) <==> InTable(a, x) && x != id
  {
    SettledMeansListed(a, max, id);
    RemoveNameKeeps(a, multiset{}, a.arena[id].pending.name);
    var a' := Fail(a, id);
    forall x: ActivationId ensures InTable(a', x) <==> InTable(a, x) && x != id {
      if InTable(a, x) && x != id { assert a'.arena[x] == a.arena[x]; }
    }
  }

  /** The walk of a hash table meets every entry once. */
  ghost predicate WalksTable(a: Activations, walk: seq<ActivationId>) {
    NoRepeats(walk) && forall id: ActivationId :: id in walk <==> InTable(a, id)
  }

  ghost predicate Hit(a: Activations, walk: seq<ActivationId>, sharing: Sharing, id: ActivationId) {
    id in walk && IsLive(a.arena, id) && Shares(id, a.arena[id].pending, sharing)
  }

  /** Exactly the sharing activations on the walk are gone; every other slot is as it was. */
  ghost predicate FailedOnly(a: Activations, a': Activations, walk: seq<ActivationId>, sharing: Sharing) {
    && |a'.arena| == |a.arena|
    && forall id: ActivationId :: id < |a.arena| ==>
         a'.arena[id] == if Hit(a, walk, sharing, id) then Gone else a.arena[id]
  }

  lemma {:induction false} FailSharingEffect(a: Activations, max: int, walk: seq<ActivationId>, sharing: Sharing)
    requires Settled(a, max) && NoRepeats(walk) && forall id :: id in walk ==> IsLive(a.arena, id)
    ensures Settled(FailSharing(a, walk, sharing), max)
    ensures FailedOnly(a, FailSharing(a, walk, sharing), walk, sharing)
    decreases |walk|
  {
    if walk != [] {
      var id := walk[0];
      var rest := walk[1..];
      assert forall i :: 0 <= i < |rest| ==> rest[i] == walk[i + 1];
      assert id !in rest;
      FailExact(a, max, id);
      var a' := if Shares(id, a.arena[id].pending, sharing) then Fail(a, id) else a;
      forall x | x in rest ensures IsLive(a'.arena, x) {
        assert x in walk && x != id;
      }
      FailSharingEffect(a', max, rest, sharing);
      forall x: ActivationId | x < |a.arena|
        ensures FailSharing(a, walk, sharing).arena[x] == if Hit(a, walk, sharing, x) then Gone else a.arena[x]
      {
        assert x in walk <==> x == id || x in rest;
      }
    }
  }

  /** What the bus knows when an event comes: timers and children belong to live activations, walks meet the table. */
  ghost predicate Due(a: Activations, e: Event) {
    match e
    case Transact(_, _) => true
    case TimedOut(id) => IsLive(a.arena, id)
    case ChildFailed(id, walk) => IsLive(a.arena, id) && WalksTable(a, walk)
    case SystemdFailed(_, walk) => WalksTable(a, walk)
  }

  /** After a failed child no activation with the same command is left, and every other is untouched. */
  lemma ChildFailsExactly(a: Activations, max: int, id: ActivationId, walk: seq<ActivationId>)
    requires Settled(a, max) && Due(a, ChildFailed(id, walk))
    ensures var a' := ChildFails(a, id, walk);
            && Settled(a', max) && |a'.arena| == |a.arena|
            && forall x: ActivationId | x < |a.arena| ::
                 a'.arena[x] == if a.arena[x].Live? && a.arena[x].pending.exec == a.arena[id].pending.exec then Gone
                                else a.arena[x]
  {
    var exec := a.arena[id].pending.exec;
    var sharing := SameExec(id, exec);
    FailSharingEffect(a, max, walk, sharing);
    var others := FailSharing(a, walk, sharing);
    assert !Hit(a, walk, sharing, id);
    FailExact(others, max, id);
    forall x: ActivationId | x < |a.arena| && a.arena[x].Live? ensures x in walk {
      SettledMeansListed(a, max, x);
    }
  }

  /** After systemd reports a unit as failed, the activations that wait for it are gone, and only they. */
  lemma SystemdFailsExactly(a: Activations, max: int, unit: string, walk: seq<ActivationId>)
    requires Settled(a, max) && Due(a, SystemdFailed(unit, walk))
    ensures var a' := FailSharing(a, walk, SameUnit(unit));
            && Settled(a', max) && |a'.arena| == |a.arena|
            && forall x: ActivationId | x < |a.arena| ::
                 a'.arena[x] == if a.arena[x].Live? && a.arena[x].pending.systemdService == Some(unit) then Gone
                                else a.arena[x]
  {
    FailSharingEffect(a, max, walk, SameUnit(unit));
    forall x: ActivationId | x < |a.arena| && a.arena[x].Live? ensures x in walk {
      SettledMeansListed(a, max, x);
    }
  }

  // ---------------------------------------------------------------------------------------------
  // Every run

  lemma StepKeeps(a: Activations, e: Event, max: int, systemd: bool)
    requires Settled(a, max) && Due(a, e)
    ensures Settled(Step(a, e, max, systemd), max)
  {
    match e
    case Transact(ops, commit) => TransactKeeps(a, ops, commit, max, systemd);
    case TimedOut(id) => FailExact(a, max, id);
    case ChildFailed(id, walk) => ChildFailsExactly(a, max, id, walk);
    case SystemdFailed(unit, walk) => SystemdFailsExactly(a, max, unit, walk);
  }

  /** Whether an activation ends with a timeout, a failed child or a failed unit. */
  predicate EndedBy(a: Activations, e: Event, id: ActivationId)
    requires IsLive(a.arena, id)
  {
    var p := a.arena[id].pending;
    match e
    case Transact(_, _) => false
    case TimedOut(first) => id == first
    case ChildFailed(first, _) => IsLive(a.arena, first) && p.exec == a.arena[first].pending.exec
    case SystemdFailed(unit, _) => p.systemdService == Some(unit)
  }

  /** Of a failure exactly those end. */
  lemma StepEnds(a: Activations, e: Event, max: int, systemd: bool)
    requires Settled(a, max) && Due(a, e) && !e.Transact?
    ensures var a' := Step(a, e, max, systemd);
            && |a'.arena| == |a.arena|
            && forall id: ActivationId | id < |a.arena| ::
                 a'.arena[id] == if a.arena[id].Live? && EndedBy(a, e, id) then Gone else a.arena[id]
  {
    match e
    case TimedOut(id) => FailExact(a, max, id);
    case ChildFailed(id, walk) => ChildFailsExactly(a, max, id, walk);
    case SystemdFailed(unit, walk) => SystemdFailsExactly(a, max, unit, walk);
  }

  function Run(a: Activations, events: seq<Event>, max: int, systemd: bool): Activations
    decreases |events|
  {
    if events == [] then a else Run(Step(a, events[0], max, systemd), events[1..], max, systemd)
  }

  ghost predicate AllDue(a: Activations, events: seq<Event>, max: int, systemd: bool)
    decreases |events|
  {
    events != [] ==> Due(a, events[0]) && AllDue(Step(a, events[0], max, systemd), events[1..], max, systemd)
  }

  lemma {:induction false} RunKeeps(a: Activations, events: seq<Event>, max: int, systemd: bool)
    requires Settled(a, max) && AllDue(a, events, max, systemd)
    ensures Settled(Run(a, events, max, systemd), max)
    decreases |events|
  {
    if events != [] {
      StepKeeps(a, events[0], max, systemd);
      RunKeeps(Step(a, events[0], max, systemd), events[1..], max, systemd);
    }
  }

  /** The requests that wait, over all activations. */
  function WaitersOf(arena: seq<Slot>): nat {
    if arena == [] then 0
    else (if arena[0].Live? then |arena[0].pending.entries| else 0) + WaitersOf(arena[1..])
  }

  lemma {:induction false} CountIsWaiters(arena: seq<Slot>)
    requires forall i :: 0 <= i < |arena| && arena[i].Live? ==> arena[i].pending.nEntries == |arena[i].pending.entries|
    ensures CountWaiters(arena) == WaitersOf(arena)
  {
    if arena != [] { CountIsWaiters(arena[1..]); }
  }

  /**
   In every run from the empty table, mixing transactions that commit or cancel, with memory failing anywhere, timeouts,
   failed children and failed units: no assertion on counts and references fails, the count is the number of requests
   that wait and is within the limit, and every activation still alive is in the table with the table's reference only.
   */
  lemma EveryRun(events: seq<Event>, max: nat, systemd: bool)
    requires AllDue(NONE_PENDING, events, max, systemd)
    ensures var a := Run(NONE_PENDING, events, max, systemd);
            && a.ok && a.nPending == WaitersOf(a.arena) <= max
            && (forall id: ActivationId :: IsLive(a.arena, id) ==> InTable(a, id) && a.arena[id].pending.refcount == 1)
            && (forall name :: name in a.table ==>
                  IsLive(a.arena, a.table[name]) && a.arena[a.table[name]].pending.name == name)
  {
    RunKeeps(NONE_PENDING, events, max, systemd);
    var a := Run(NONE_PENDING, events, max, systemd);
    forall id: ActivationId | IsLive(a.arena, id)
      ensures InTable(a, id) && a.arena[id].pending.refcount == 1
              && a.arena[id].pending.nEntries == |a.arena[id].pending.entries|
    {
      SettledMeansListed(a, max, id);
    }
    CountIsWaiters(a.arena);
  }

  // ---------------------------------------------------------------------------------------------
  // An activation ends once

  /** What is gone stays gone, and what is live keeps its requests and only gains more behind them. */
  ghost predicate GoneStay(a: Activations, a': Activations) {
    && |a.arena| <= |a'.arena|
    && forall id: ActivationId :: id < |a.arena| && a'.arena[id].Live? ==>
         a.arena[id].Live? && a.arena[id].pending.entries <= a'.arena[id].pending.entries
  }

  lemma UnrefLeavesGone(a: Activations, id: ActivationId)
    ensures GoneStay(a, Unref(a, id)) && GoneStay(a, AddRef(a, id))
  {
  }

  lemma NamesLeaveGone(a: Activations, name: string, id: ActivationId)
    ensures GoneStay(a, RemoveName(a, name)) && GoneStay(a, InsertName(a, name, id))
  {
    if name in a.table {
      UnrefLeavesGone(a.(table := a.table - {name}), a.table[name]);
      UnrefLeavesGone(a.(table := a.table[name := id]), a.table[name]);
    }
  }

  lemma HookLeavesGone(a: Activations, hook: Hook)
    ensures GoneStay(a, RunHook(a, hook))
  {
    if IsLive(a.arena, hook.id) {
      var name := a.arena[hook.id].pending.name;
      NamesLeaveGone(a, name, hook.id);
      var inserted := InsertName(a, name, hook.id);
      UnrefLeavesGone(inserted, hook.id);
      GoneStayLater(a, inserted, AddRef(inserted, hook.id));
    }
  }

  lemma GoneStayLater(a: Activations, a1: Activations, a2: Activations)
    requires GoneStay(a, a1) && GoneStay(a1, a2)
    ensures GoneStay(a, a2)
  {
  }

  lemma {:induction false} RunHooksLeaveGone(a: Activations, hooks: seq<Hook>)
    ensures GoneStay(a, RunHooks(a, hooks))
    decreases |hooks|
  {
    if hooks != [] {
      HookLeavesGone(a, hooks[0]);
      RunHooksLeaveGone(RunHook(a, hooks[0]), hooks[1..]);
    }
  }

  lemma {:induction false} FreeHooksLeaveGone(a: Activations, hooks: seq<Hook>)
    ensures GoneStay(a, FreeHooks(a, hooks))
    decreases |hooks|
  {
    if hooks != [] {
      UnrefLeavesGone(a, hooks[0].id);
      FreeHooksLeaveGone(Unref(a, hooks[0].id), hooks[1..]);
    }
  }

  lemma EndLeavesGone(a: Activations, hooks: seq<Hook>)
    ensures GoneStay(a, Execute(a, hooks)) && GoneStay(a, Cancel(a, hooks))
  {
    FreeHooksLeaveGone(a, hooks);
    RunHooksLeaveGone(a, hooks);
    FreeHooksLeaveGone(RunHooks(a, hooks), hooks);
  }

  lemma NewLeavesGone(a: Activations, req: Request, file: ServiceFile, fault: Fault)
    ensures GoneStay(a, NewPending(a, req, file, fault).0)
  {
  }

  lemma EnterLeavesGone(a: Activations, req: Request, file: ServiceFile, fault: Fault)
    ensures GoneStay(a, Enter(a, req, file, fault).0)
  {
    NewLeavesGone(a, req, file, fault);
  }

  lemma AddHookLeavesGone(a: Activations, hooks: seq<Hook>, service: string, memory: bool)
    ensures GoneStay(a, AddCancelHook(a, hooks, service, memory).activations)
  {
  }

  lemma RecordLeavesGone(a: Activations, hooks: seq<Hook>, req: Request, file: ServiceFile, fault: Fault)
    ensures GoneStay(a, Record(a, hooks, req, file, fault).activations)
  {
    EnterLeavesGone(a, req, file, fault);
    AddHookLeavesGone(Enter(a, req, file, fault).0, hooks, req.service, fault != NoCancelHook);
  }

  lemma {:induction false} ActivateLeavesGone(a: Activations, hooks: seq<Hook>, req: Request, o: Outcome, max: int,
                                              systemd: bool)
    ensures GoneStay(a, Activate(a, hooks, req, o, max, systemd).activations)
    decreases if req.service == SYSTEMD then 0 else 1, 1
  {
    if o.file.Some? {
      RecordLeavesGone(a, hooks, req, o.file.value, o.fault);
      if !(systemd && req.service == SYSTEMD) {
        StartLeavesGone(Record(a, hooks, req, o.file.value, o.fault), req, o.file.value, o.launch, max, systemd);
      }
    }
  }

  lemma {:induction false} StartLeavesGone(r: Result, req: Request, file: ServiceFile, launch: Launch, max: int,
                                           systemd: bool)
    requires systemd ==> req.service != SYSTEMD
    ensures GoneStay(r.activations, StartService(r, req, file, launch, max, systemd).activations)
    decreases if req.service == SYSTEMD then 0 else 1, 0
  {
    if systemd { NestedLeavesGone(r.activations, req.conn, launch.nested, max, systemd); }
  }

  lemma {:induction false} NestedLeavesGone(a: Activations, conn: ConnId, n: Finding, max: int, systemd: bool)
    ensures GoneStay(a, ActivateSystemd(a, conn, n, max, systemd).0)
    decreases 0, 2
  {
    ActivateLeavesGone(a, [], ForSystemd(conn), OutcomeOf(n), max, systemd);
    var nested := Activate(a, [], ForSystemd(conn), OutcomeOf(n), max, systemd);
    EndLeavesGone(nested.activations, nested.hooks);
  }

  lemma {:induction false} ApplyAllLeavesGone(a: Activations, hooks: seq<Hook>, ops: seq<Op>, max: int, systemd: bool)
    ensures GoneStay(a, ApplyAll(a, hooks, ops, max, systemd).0)
    decreases |ops|
  {
    if ops != [] {
      var r := Apply(a, hooks, ops[0], max, systemd);
      if ops[0].ActivateOp? { ActivateLeavesGone(a, hooks, ops[0].req, ops[0].o, max, systemd); }
      ApplyAllLeavesGone(r.activations, r.hooks, ops[1..], max, systemd);
    }
  }

  lemma {:induction false} FailSharingLeavesGone(a: Activations, walk: seq<ActivationId>, sharing: Sharing)
    ensures GoneStay(a, FailSharing(a, walk, sharing))
    decreases |walk|
  {
    if walk != [] && IsLive(a.arena, walk[0]) {
      FailSharingLeavesGone(if Shares(walk[0], a.arena[walk[0]].pending, sharing) then Fail(a, walk[0]) else a,
                            walk[1..], sharing);
    }
  }

  lemma StepLeavesGone(a: Activations, e: Event, max: int, systemd: bool)
    ensures GoneStay(a, Step(a, e, max, systemd))
  {
    match e
    case Transact(ops, commit) =>
      ApplyAllLeavesGone(a, [], ops, max, systemd);
      var (a', hooks) := ApplyAll(a, [], ops, max, systemd);
      EndLeavesGone(a', hooks);
    case TimedOut(_) =>
    case ChildFailed(id, walk) =>
      if IsLive(a.arena, id) { FailSharingLeavesGone(a, walk, SameExec(id, a.arena[id].pending.exec)); }
    case SystemdFailed(unit, walk) => FailSharingLeavesGone(a, walk, SameUnit(unit));
  }

  /** What has ended, by success, failure or cancelling, stays so; and no request leaves an activation that goes on. */
  lemma {:induction false} RunLeavesGone(a: Activations, events: seq<Event>, max: int, systemd: bool)
    ensures GoneStay(a, Run(a, events, max, systemd))
    decreases |events|
  {
    if events != [] {
      StepLeavesGone(a, events[0], max, systemd);
      RunLeavesGone(Step(a, events[0], max, systemd), events[1..], max, systemd);
    }
  }
}
