/** What every run keeps of the pending activations: the counts are right, whichever exit each call takes. */
module ActivationProofs {
  import opened BusTypes
  import opened Activations

  // ---------------------------------------------------------------------------------------------
  // The invariant

  /** The references that a transaction's hooks hold. */
  function HeldBy(hooks: seq<Hook>): multiset<ActivationId> {
    if hooks == [] then multiset{} else multiset{hooks[0].id} + HeldBy(hooks[1..])
  }

  /** The waiting requests of all live activations. */
  function CountWaiters(arena: seq<Slot>): int {
    if arena == [] then 0
    else (if arena[0].Live? then arena[0].pending.nEntries else 0) + CountWaiters(arena[1..])
  }

  predicate InTable(a: Activations, id: ActivationId) {
    IsLive(a.arena, id) && var name := a.arena[id].pending.name; name in a.table && a.table[name] == id
  }

  /** A live activation's references are the table's, if it is there, and those of the hooks. */
  predicate Right(a: Activations, held: multiset<ActivationId>, id: ActivationId) {
    if IsLive(a.arena, id) then
      var p := a.arena[id].pending;
      p.refcount == held[id] + (if InTable(a, id) then 1 else 0) && p.refcount > 0 && p.nEntries == |p.entries|
    else held[id] == 0
  }

  ghost predicate Counted(a: Activations, held: multiset<ActivationId>) {
    forall id: ActivationId :: Right(a, held, id)
  }

  /** The table maps each name to a live activation of that name. */
  ghost predicate NamesRight(a: Activations) {
    forall name :: name in a.table ==> IsLive(a.arena, a.table[name]) && a.arena[a.table[name]].pending.name == name
  }

  ghost predicate Inv(a: Activations, held: multiset<ActivationId>) {
    a.ok && Counted(a, held) && NamesRight(a) && a.nPending == CountWaiters(a.arena)
  }

  // ---------------------------------------------------------------------------------------------
  // Counting waiters

  lemma CountUpdate(arena: seq<Slot>, id: ActivationId, slot: Slot)
    requires id < |arena|
    ensures CountWaiters(arena[id := slot]) == CountWaiters(arena)
          - (if arena[id].Live? then arena[id].pending.nEntries else 0)
          + (if slot.Live? then slot.pending.nEntries else 0)
  {
    if id > 0 {
      assert arena[id := slot][1..] == arena[1..][id - 1 := slot];
      CountUpdate(arena[1..], id - 1, slot);
    } else {
      assert arena[id := slot][1..] == arena[1..];
    }
  }

  lemma CountAppend(arena: seq<Slot>, slot: Slot)
    ensures CountWaiters(arena + [slot]) == CountWaiters(arena) + if slot.Live? then slot.pending.nEntries else 0
  {
    if arena != [] {
      assert (arena + [slot])[1..] == arena[1..] + [slot];
      CountAppend(arena[1..], slot);
    }
  }

  /** No activation counts fewer than no waiters, so neither do all of them. */
  lemma CountAtLeast(arena: seq<Slot>, id: ActivationId)
    requires forall i :: 0 <= i < |arena| && arena[i].Live? ==> arena[i].pending.nEntries >= 0
    ensures CountWaiters(arena) >= if IsLive(arena, id) then arena[id].pending.nEntries else 0
    ensures CountWaiters(arena) >= 0
  {
    if arena != [] {
      CountAtLeast(arena[1..], if id > 0 then id - 1 else |arena|);
    }
  }

  // ---------------------------------------------------------------------------------------------
  // References

  lemma AddRefKeeps(a: Activations, held: multiset<ActivationId>, id: ActivationId)
    requires Inv(a, held) && IsLive(a.arena, id)
    ensures Inv(AddRef(a, id), held + multiset{id}) && AddRef(a, id).table == a.table
    ensures forall x: ActivationId ::
              IsLive(AddRef(a, id).arena, x) == IsLive(a.arena, x) && InTable(AddRef(a, id), x) == InTable(a, x)
  {
    var a' := AddRef(a, id);
    assert Right(a, held, id);
    CountUpdate(a.arena, id, a'.arena[id]);
    forall x: ActivationId ensures InTable(a', x) == InTable(a, x) && Right(a', held + multiset{id}, x) {
      assert Right(a, held, x);
    }
  }

  /** A step that puts no older activation into the table and no more requests on the count. */
  ghost predicate NoneEnters(a: Activations, a': Activations) {
    && |a.arena| <= |a'.arena| && a'.nPending <= a.nPending
    && forall x: ActivationId :: x < |a.arena| && InTable(a', x) ==> InTable(a, x)
  }

  /** Giving up a reference that a hook holds. */
  lemma UnrefKeeps(a: Activations, held: multiset<ActivationId>, id: ActivationId)
    requires Inv(a, held + multiset{id})
    ensures Inv(Unref(a, id), held) && Unref(a, id).table == a.table && NoneEnters(a, Unref(a, id))
    ensures forall x: ActivationId :: InTable(Unref(a, id), x) == InTable(a, x)
  {
    assert Right(a, held + multiset{id}, id);
    var a' := Unref(a, id);
    CountUpdate(a.arena, id, a'.arena[id]);
    forall i: ActivationId | i < |a.arena| && a.arena[i].Live? ensures a.arena[i].pending.nEntries >= 0 {
      assert Right(a, held + multiset{id}, i);
    }
    CountAtLeast(a.arena, id);
    forall x: ActivationId ensures InTable(a', x) == InTable(a, x) && Right(a', held, x) {
      assert Right(a, held + multiset{id}, x);
    }
  }

  /** Taking a name out of the table. */
  lemma RemoveNameKeeps(a: Activations, held: multiset<ActivationId>, name: string)
    requires Inv(a, held)
    ensures Inv(RemoveName(a, name), held) && RemoveName(a, name).table == a.table - {name}
    ensures NoneEnters(a, RemoveName(a, name))
  {
    if name in a.table {
      var id := a.table[name];
      var taken := a.(table := a.table - {name});
      assert InTable(a, id);
      forall x: ActivationId
        ensures InTable(taken, x) <==> InTable(a, x) && x != id
        ensures Right(taken, held + multiset{id}, x)
      {
        assert Right(a, held, x);
      }
      UnrefKeeps(taken, held, id);
    } else {
      assert a.table - {name} == a.table;
    }
  }

  /** Putting an activation that a hook holds under its name moves the hook's reference to the table. */
  lemma InsertNameKeeps(a: Activations, held: multiset<ActivationId>, id: ActivationId)
    requires Inv(a, held + multiset{id}) && IsLive(a.arena, id) && !InTable(a, id)
    ensures var a' := InsertName(a, a.arena[id].pending.name, id);
            && Inv(a', held) && IsLive(a'.arena, id) && |a'.arena| == |a.arena| && a'.nPending <= a.nPending
            && forall x: ActivationId :: InTable(a', x) ==> x == id || InTable(a, x)
  {
    var name := a.arena[id].pending.name;
    var inserted := a.(table := a.table[name := id]);
    var moved := if name in a.table then held + multiset{a.table[name]} else held;
    forall x: ActivationId
      ensures InTable(inserted, x) <==> x == id || (InTable(a, x) && !(name in a.table && a.table[name] == x))
      ensures Right(inserted, moved, x)
    {
      assert Right(a, held + multiset{id}, x);
    }
    if name in a.table {
      assert InTable(a, a.table[name]);
      UnrefKeeps(inserted, held, a.table[name]);
      assert InTable(inserted, id);
    }
  }

  lemma RestoreKeeps(a: Activations, held: multiset<ActivationId>, id: ActivationId)
    requires Inv(a, held) && held[id] > 0 && !InTable(a, id)
    ensures var a' := RunHook(a, RestorePending(id));
            && Inv(a', held) && |a'.arena| == |a.arena| && a'.nPending <= a.nPending
            && forall x: ActivationId :: InTable(a', x) ==> x == id || InTable(a, x)
  {
    assert Right(a, held, id);
    var name := a.arena[id].pending.name;
    assert held == (held - multiset{id}) + multiset{id};
    InsertNameKeeps(a, held - multiset{id}, id);
    AddRefKeeps(InsertName(a, name, id), held - multiset{id}, id);
  }

  // ---------------------------------------------------------------------------------------------
  // Ending a transaction

  /** What a hook will put back is out of the table, and no other hook will. */
  ghost predicate RestoresOut(a: Activations, hooks: seq<Hook>) {
    forall i :: 0 <= i < |hooks| && hooks[i].RestorePending? ==>
      !InTable(a, hooks[i].id) && hooks[i].id < |a.arena|
      && forall j :: 0 <= j < |hooks| && j != i && hooks[j].RestorePending? ==> hooks[j].id != hooks[i].id
  }

  lemma RestoresStayOut(a: Activations, a': Activations, hooks: seq<Hook>)
    requires RestoresOut(a, hooks) && NoneEnters(a, a')
    ensures RestoresOut(a', hooks)
  {
  }

  lemma RestoresTail(a: Activations, hooks: seq<Hook>)
    requires RestoresOut(a, hooks) && hooks != []
    ensures RestoresOut(a, hooks[1..])
    ensures hooks[0].RestorePending? ==>
              forall i :: 0 <= i < |hooks[1..]| && hooks[1..][i].RestorePending? ==> hooks[1..][i].id != hooks[0].id
  {
    assert forall i :: 0 <= i < |hooks[1..]| ==> hooks[1..][i] == hooks[i + 1];
  }

  lemma {:induction false} FreeHooksKeep(a: Activations, hooks: seq<Hook>, held: multiset<ActivationId>)
    requires Inv(a, held + HeldBy(hooks))
    ensures Inv(FreeHooks(a, hooks), held) && NoneEnters(a, FreeHooks(a, hooks))
    decreases |hooks|
  {
    if hooks == [] {
      assert held + HeldBy(hooks) == held;
    } else {
      var rest := held + HeldBy(hooks[1..]);
      assert held + HeldBy(hooks) == rest + multiset{hooks[0].id};
      UnrefKeeps(a, rest, hooks[0].id);
      FreeHooksKeep(Unref(a, hooks[0].id), hooks[1..], held);
    }
  }

  lemma {:induction false} RunHooksKeep(a: Activations, hooks: seq<Hook>, held: multiset<ActivationId>)
    requires Inv(a, held) && RestoresOut(a, hooks) && HeldBy(hooks) <= held
    ensures Inv(RunHooks(a, hooks), held) && RunHooks(a, hooks).nPending <= a.nPending
    ensures |a.arena| <= |RunHooks(a, hooks).arena|
    decreases |hooks|
  {
    if hooks != [] {
      var id := hooks[0].id;
      assert HeldBy(hooks)[id] > 0;
      assert Right(a, held, id);
      RestoresTail(a, hooks);
      var a' := RunHook(a, hooks[0]);
      match hooks[0] {
        case CancelPending(_) =>
          RemoveNameKeeps(a, held, a.arena[id].pending.name);
          RestoresStayOut(a, a', hooks[1..]);
        case RestorePending(_) =>
          RestoreKeeps(a, held, id);
          assert RestoresOut(a', hooks[1..]);
      }
      RunHooksKeep(a', hooks[1..], held);
    }
  }

  /** Cancelling keeps every count right: hooks run while all their references are still held, then are freed. */
  lemma CancelKeeps(a: Activations, hooks: seq<Hook>, held: multiset<ActivationId>)
    requires Inv(a, held + HeldBy(hooks)) && RestoresOut(a, hooks)
    ensures Inv(Cancel(a, hooks), held) && Cancel(a, hooks).nPending <= a.nPending
  {
    RunHooksKeep(a, hooks, held + HeldBy(hooks));
    FreeHooksKeep(RunHooks(a, hooks), hooks, held);
  }

  // ---------------------------------------------------------------------------------------------
  // One request

  /** As NoneEnters, but there may be more requests on the count. */
  ghost predicate OldStayOut(a: Activations, a': Activations) {
    |a.arena| <= |a'.arena| && forall x: ActivationId :: x < |a.arena| && InTable(a', x) ==> InTable(a, x)
  }

  lemma OldRestoresStayOut(a: Activations, a': Activations, hooks: seq<Hook>)
    requires RestoresOut(a, hooks) && OldStayOut(a, a')
    ensures RestoresOut(a', hooks)
  {
  }

  lemma JoinKeeps(a: Activations, held: multiset<ActivationId>, req: Request, id: ActivationId)
    requires Inv(a, held) && InTable(a, id)
    ensures var a' := JoinPending(a, req, id);
            Inv(a', held) && a'.table == a.table && a'.nPending == a.nPending + 1 && OldStayOut(a, a')
  {
    assert Right(a, held, id);
    var a' := JoinPending(a, req, id);
    CountUpdate(a.arena, id, a'.arena[id]);
    forall x: ActivationId ensures InTable(a', x) == InTable(a, x) && Right(a', held, x) {
      assert Right(a, held, x);
    }
  }

  /** A slot appended with one reference, which a caller holds. */
  lemma BornKeeps(a: Activations, held: multiset<ActivationId>, p: Pending)
    requires Inv(a, held) && p.refcount == 1 && p.nEntries == |p.entries|
    ensures var a' := a.(arena := a.arena + [Live(p)], nPending := a.nPending + p.nEntries);
            Inv(a', held + multiset{|a.arena|}) && !InTable(a', |a.arena|) && OldStayOut(a, a')
  {
    var id := |a.arena|;
    var a' := a.(arena := a.arena + [Live(p)], nPending := a.nPending + p.nEntries);
    CountAppend(a.arena, Live(p));
    assert Right(a, held, id);
    forall x: ActivationId
      ensures InTable(a', x) == InTable(a, x) && Right(a', held + multiset{id}, x)
    {
      assert Right(a, held, x);
      assert x == id ==> !IsLive(a.arena, x);
    }
  }

  lemma NewKeeps(a: Activations, held: multiset<ActivationId>, req: Request, file: ServiceFile, fault: Fault)
    requires Inv(a, held) && req.service !in a.table
    ensures var (a', recorded) := NewPending(a, req, file, fault);
            && Inv(a', held) && OldStayOut(a, a') && a'.nPending <= a.nPending + 1
            && (recorded ==> req.service in a'.table) && (!recorded ==> a'.nPending <= a.nPending)
  {
    var id := |a.arena|;
    var empty := Pending(1, req.service, file.exec, file.systemdService, [], 0);
    var waiting := empty.(entries := [Waiter(req.conn, req.message, req.auto)], nEntries := 1);
    BornKeeps(a, held, empty);
    BornKeeps(a, held, waiting);
    var born := a.(arena := a.arena + [Live(empty)], nPending := a.nPending + 0);
    var recorded := a.(arena := a.arena + [Live(waiting)], nPending := a.nPending + 1);
    UnrefKeeps(born, held, id);
    UnrefKeeps(recorded, held, id);
    InsertNameKeeps(recorded, held, id);
    UnrefLast(born, held, id);
    UnrefLast(recorded, held, id);
  }

  /** The last reference takes the activation's requests off the count. */
  lemma UnrefLast(a: Activations, held: multiset<ActivationId>, id: ActivationId)
    requires IsLive(a.arena, id) && a.arena[id].pending.refcount == 1
    ensures Unref(a, id).nPending == a.nPending - a.arena[id].pending.nEntries
  {
  }

  lemma EnterKeeps(a: Activations, held: multiset<ActivationId>, req: Request, file: ServiceFile, fault: Fault)
    requires Inv(a, held)
    ensures var (a', entered) := Enter(a, req, file, fault);
            && Inv(a', held) && OldStayOut(a, a') && a'.nPending <= a.nPending + 1
            && (entered ==> req.service in a'.table) && (!entered ==> a'.nPending <= a.nPending)
  {
    if req.service in a.table {
      assert InTable(a, a.table[req.service]);
      JoinKeeps(a, held, req, a.table[req.service]);
    } else {
      NewKeeps(a, held, req, file, fault);
    }
  }

  /** One more hook on the list, or none. */
  ghost predicate MoreCancels(hooks: seq<Hook>, hooks': seq<Hook>) {
    hooks' == hooks || (hooks' != [] && hooks'[0].CancelPending? && hooks'[1..] == hooks)
  }

  lemma AddCancelHookKeeps(a: Activations, hooks: seq<Hook>, held: multiset<ActivationId>, service: string,
                           memory: bool)
    requires Inv(a, held + HeldBy(hooks)) && service in a.table
    ensures var r := AddCancelHook(a, hooks, service, memory);
            && Inv(r.activations, held + HeldBy(r.hooks)) && NoneEnters(a, r.activations) && MoreCancels(hooks, r.hooks)
            && (r.Ok() ==> r.activations.table == a.table)
  {
    var all := held + HeldBy(hooks);
    if memory {
      var id := a.table[service];
      var hooks' := [CancelPending(id)] + hooks;
      AddRefKeeps(a, all, id);
      assert hooks'[1..] == hooks;
      assert held + HeldBy(hooks') == all + multiset{id};
    } else {
      RemoveNameKeeps(a, all, service);
    }
  }

  lemma RecordKeeps(a: Activations, hooks: seq<Hook>, held: multiset<ActivationId>, req: Request, file: ServiceFile,
                    fault: Fault)
    requires Inv(a, held + HeldBy(hooks))
    ensures var r := Record(a, hooks, req, file, fault);
            && Inv(r.activations, held + HeldBy(r.hooks)) && OldStayOut(a, r.activations)
            && r.activations.nPending <= a.nPending + 1 && MoreCancels(hooks, r.hooks)
  {
    if fault != NoWaiter {
      EnterKeeps(a, held + HeldBy(hooks), req, file, fault);
      var (a', entered) := Enter(a, req, file, fault);
      if entered { AddCancelHookKeeps(a', hooks, held, req.service, fault != NoCancelHook); }
    }
  }

  /** Hooks that only cancel leave every older activation out of the table that was out of it. */
  lemma {:induction false} OnlyCancelsStayOut(a: Activations, hooks: seq<Hook>, held: multiset<ActivationId>)
    requires Inv(a, held) && HeldBy(hooks) <= held && forall h :: h in hooks ==> h.CancelPending?
    ensures NoneEnters(a, RunHooks(a, hooks)) && Inv(RunHooks(a, hooks), held)
    decreases |hooks|
  {
    if hooks != [] {
      var id := hooks[0].id;
      assert hooks[0] in hooks;
      assert HeldBy(hooks)[id] > 0;
      assert Right(a, held, id);
      RemoveNameKeeps(a, held, a.arena[id].pending.name);
      OnlyCancelsStayOut(RunHook(a, hooks[0]), hooks[1..], held);
    }
  }

  /** The counts are right, the limit is kept, and no older activation enters the table. */
  ghost predicate KeptBy(a: Activations, r: Result, hooks: seq<Hook>, held: multiset<ActivationId>, max: int) {
    && Inv(r.activations, held + HeldBy(r.hooks)) && OldStayOut(a, r.activations)
    && r.activations.nPending <= max && MoreCancels(hooks, r.hooks)
  }

  /** A request keeps every count right and the number of requests within the limit, through every exit. */
  lemma {:induction false} ActivateKeeps(a: Activations, hooks: seq<Hook>, held: multiset<ActivationId>, req: Request,
                                         o: Outcome, max: int, systemd: bool)
    requires Inv(a, held + HeldBy(hooks)) && a.nPending <= max
    ensures KeptBy(a, Activate(a, hooks, req, o, max, systemd), hooks, held, max)
    decreases if req.service == SYSTEMD then 0 else 1, 1
  {
    if a.nPending < max && o.file.Some? && (req.auto || !o.alreadyActive) {
      RecordKeeps(a, hooks, held, req, o.file.value, o.fault);
      var r := Record(a, hooks, req, o.file.value, o.fault);
      if !(!r.Ok() || req.service in a.table || (systemd && req.service == SYSTEMD)) {
        StartKeeps(a, r, hooks, held, req, o.file.value, o.launch, max, systemd);
      }
    }
  }

  lemma HandOffKeeps(a: Activations, r: Result, hooks: seq<Hook>, held: multiset<ActivationId>, max: int,
                     failure: Option<Failure>)
    requires KeptBy(a, r, hooks, held, max)
    ensures KeptBy(a, HandOff(r, failure), hooks, held, max)
  {
    var (all, a') := (held + HeldBy(r.hooks), HandOff(r, failure).activations);
    forall id: ActivationId ensures Right(a', all, id) && InTable(a', id) == InTable(r.activations, id) {
      assert Right(r.activations, all, id);
    }
  }

  /** The service is not started, and its activation leaves the table. */
  lemma NotStartedKeeps(a: Activations, r: Result, hooks: seq<Hook>, held: multiset<ActivationId>, max: int,
                        name: string, failure: Option<Failure>)
    requires KeptBy(a, r, hooks, held, max)
    ensures KeptBy(a, Result(RemoveName(r.activations, name), r.hooks, failure), hooks, held, max)
  {
    RemoveNameKeeps(r.activations, held + HeldBy(r.hooks), name);
  }

  lemma {:induction false} StartKeeps(a: Activations, r: Result, hooks: seq<Hook>, held: multiset<ActivationId>,
                                      req: Request, file: ServiceFile, launch: Launch, max: int, systemd: bool)
    requires KeptBy(a, r, hooks, held, max) && (systemd ==> req.service != SYSTEMD)
    ensures KeptBy(a, StartService(r, req, file, launch, max, systemd), hooks, held, max)
    decreases if req.service == SYSTEMD then 0 else 1, 0
  {
    if systemd && file.systemdService.Some? {
      HandOffKeeps(a, r, hooks, held, max, launch.handOff);
      NestedKeeps(r.activations, held + HeldBy(r.hooks), req.conn, launch.nested, max, systemd);
    } else {
      NotStartedKeeps(a, r, hooks, held, max, req.service, launch.arguments);
    }
  }

  /** Activating systemd for another service, in a transaction of its own; this does not nest further. */
  lemma {:induction false} NestedKeeps(a: Activations, held: multiset<ActivationId>, conn: ConnId, n: Finding, max: int,
                                       systemd: bool)
    requires Inv(a, held) && a.nPending <= max
    ensures var a' := ActivateSystemd(a, conn, n, max, systemd).0;
            Inv(a', held) && OldStayOut(a, a') && a'.nPending <= max
    decreases 0, 2
  {
    assert held + HeldBy([]) == held;
    ActivateKeeps(a, [], held, ForSystemd(conn), OutcomeOf(n), max, systemd);
    var nested := Activate(a, [], ForSystemd(conn), OutcomeOf(n), max, systemd);
    if nested.Ok() {
      FreeHooksKeep(nested.activations, nested.hooks, held);
    } else {
      OnlyCancelsStayOut(nested.activations, nested.hooks, held + HeldBy(nested.hooks));
      FreeHooksKeep(RunHooks(nested.activations, nested.hooks), nested.hooks, held);
    }
  }

  /** Delivering to a service that has come keeps every count right, and leaves a hook that can put it back. */
  lemma DeliverKeeps(a: Activations, hooks: seq<Hook>, held: multiset<ActivationId>, service: string,
                     failure: Option<Failure>,
                     memory: bool)
    requires Inv(a, held + HeldBy(hooks)) && RestoresOut(a, hooks)
    ensures var r := Deliver(a, hooks, service, failure, memory);
            && Inv(r.activations, held + HeldBy(r.hooks)) && RestoresOut(r.activations, r.hooks)
            && NoneEnters(a, r.activations)
  {
    if service in a.table && failure.None? {
      var id := a.table[service];
      var all := held + HeldBy(hooks);
      AddRefKeeps(a, all, id);
      var a1 := AddRef(a, id);
      if !memory {
        UnrefKeeps(a1, all, id);
      } else {
        RemoveNameKeeps(a1, all + multiset{id}, service);
        var a2 := RemoveName(a1, service);
        var hooks' := [RestorePending(id)] + hooks;
        assert hooks'[1..] == hooks;
        assert held + HeldBy(hooks') == all + multiset{id};
        assert InTable(a, id) && !InTable(a2, id);
        RestoresStayOut(a, a2, hooks);
        assert forall i :: 0 < i < |hooks'| ==> hooks'[i] == hooks[i - 1];
      }
    }
  }
}
