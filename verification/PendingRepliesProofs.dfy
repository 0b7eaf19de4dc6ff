/** What every run keeps of the pending replies. */
module PendingRepliesProofs {
  import opened BusTypes
  import opened Lists
  import opened PendingReplies

  // ---------------------------------------------------------------------------------------------
  // The invariant

  /** The pending replies that the check hooks of a transaction hold. */
  function HeldBy(hooks: seq<Hook>): multiset<PendingId> {
    if hooks == [] then multiset{}
    else if hooks[0].RestoreChecked? then multiset{hooks[0].id} + HeldBy(hooks[1..])
    else HeldBy(hooks[1..])
  }

  /** Every live pending reply is in the list or held by exactly one check hook, never both; nothing freed is. */
  ghost predicate Owned(r: Replies, held: multiset<PendingId>) {
    forall id: PendingId :: multiset(r.list)[id] + held[id] == if Lookup(r.arena, id).Some? then 1 else 0
  }

  /** No two listed pending replies await the same reply. */
  ghost predicate UniqueKeys(r: Replies) {
    forall id, other, key ::
      id in r.list && other in r.list && AwaitsKey(r.arena, id, key) && AwaitsKey(r.arena, other, key)
      ==> id == other
  }

  ghost predicate Bounded(r: Replies, max: int) {
    forall caller: ConnId :: CountCalls(r.arena, r.list, caller) <= max
  }

  ghost predicate Inv(r: Replies, held: multiset<PendingId>, max: int) {
    Owned(r, held) && UniqueKeys(r) && Bounded(r, max)
  }

  /** The same calls pending, in whatever order. */
  ghost predicate SameReplies(r: Replies, s: Replies) {
    && multiset(r.list) == multiset(s.list)
    && (forall id: PendingId :: Lookup(r.arena, id) == Lookup(s.arena, id))
  }

  // ---------------------------------------------------------------------------------------------
  // Counting

  /** Counting looks only at who awaits the listed replies. */
  lemma CountAgrees(arena: seq<Cell>, other: seq<Cell>, list: seq<PendingId>, caller: ConnId)
    requires forall id :: id in list ==> AwaitedBy(arena, id, caller) == AwaitedBy(other, id, caller)
    ensures CountCalls(arena, list, caller) == CountCalls(other, list, caller)
  {
    if list != [] {
      assert forall id :: id in list[1..] ==> id in list;
      CountAgrees(arena, other, list[1..], caller);
    }
  }

  lemma CountRemoved(arena: seq<Cell>, list: seq<PendingId>, id: PendingId, caller: ConnId)
    requires id in list
    ensures CountCalls(arena, list, caller)
         == CountCalls(arena, RemoveFirst(list, id), caller) + if AwaitedBy(arena, id, caller) then 1 else 0
  {
    if list[0] != id {
      CountRemoved(arena, list[1..], id, caller);
      assert RemoveFirst(list, id)[1..] == RemoveFirst(list[1..], id);
    }
  }

  /** Counting does not depend on the order of the list. */
  lemma {:induction false} CountAnyOrder(arena: seq<Cell>, a: seq<PendingId>, b: seq<PendingId>, caller: ConnId)
    requires multiset(a) == multiset(b)
    ensures CountCalls(arena, a, caller) == CountCalls(arena, b, caller)
  {
    if a == [] {
      assert |multiset(b)| == 0;
    } else {
      assert a == [a[0]] + a[1..];
      assert a[0] in multiset(b);
      RemoveFirstCounts(b, a[0]);
      CountRemoved(arena, b, a[0], caller);
      CountAnyOrder(arena, a[1..], RemoveFirst(b, a[0]), caller);
    }
  }

  lemma {:induction false} UnlinkCounts(arena: seq<Cell>, list: seq<PendingId>, i: nat, caller: ConnId)
    requires i < |list|
    ensures CountCalls(arena, Unlink(list, i), caller)
         == CountCalls(arena, list, caller) - if AwaitedBy(arena, list[i], caller) then 1 else 0
  {
    if i == 0 {
      assert Unlink(list, i) == list[1..];
    } else {
      UnlinkCounts(arena, list[1..], i - 1, caller);
      assert Unlink(list, i)[1..] == Unlink(list[1..], i - 1);
    }
  }

  lemma SameBounds(r: Replies, s: Replies, max: int)
    requires SameReplies(r, s)
    ensures UniqueKeys(r) ==> UniqueKeys(s)
    ensures Bounded(r, max) ==> Bounded(s, max)
    ensures forall held :: Owned(r, held) ==> Owned(s, held)
  {
    SameLinks(r.list, s.list);
    if UniqueKeys(r) {
      forall id, other, key
        | id in s.list && other in s.list && AwaitsKey(s.arena, id, key) && AwaitsKey(s.arena, other, key)
        ensures id == other
      {
        assert AwaitsKey(r.arena, id, key) && AwaitsKey(r.arena, other, key);
      }
    }
    if Bounded(r, max) {
      forall caller: ConnId ensures CountCalls(s.arena, s.list, caller) <= max {
        CountAnyOrder(r.arena, r.list, s.list, caller);
        CountAgrees(r.arena, s.arena, s.list, caller);
      }
    }
  }

  // ---------------------------------------------------------------------------------------------
  // One operation of a transaction

  lemma FindFinds(arena: seq<Cell>, list: seq<PendingId>, key: CallKey)
    ensures Find(arena, list, key) < |list| <==> exists id :: id in list && AwaitsKey(arena, id, key)
  {
  }

  lemma RecordOwned(r: Replies, held: multiset<PendingId>, key: CallKey, now: Time)
    requires Owned(r, held)
    ensures Owned(Record(r, key, now), held)
  {
    var r' := Record(r, key, now);
    forall id: PendingId
      ensures multiset(r'.list)[id] + held[id] == if Lookup(r'.arena, id).Some? then 1 else 0
    {
      assert multiset(r.list)[id] + held[id] == if Lookup(r.arena, id).Some? then 1 else 0;
    }
  }

  lemma RecordUnique(r: Replies, held: multiset<PendingId>, key: CallKey, now: Time)
    requires Owned(r, held) && UniqueKeys(r) && Find(r.arena, r.list, key) == |r.list|
    ensures UniqueKeys(Record(r, key, now))
  {
    var r' := Record(r, key, now);
    ListedAreLive(r, held);
    forall id, other, k
      | id in r'.list && other in r'.list && AwaitsKey(r'.arena, id, k) && AwaitsKey(r'.arena, other, k)
      ensures id == other
    {
      if id != |r.arena| { assert AwaitsKey(r.arena, id, k); }
      if other != |r.arena| { assert AwaitsKey(r.arena, other, k); }
    }
  }

  lemma RecordBounded(r: Replies, held: multiset<PendingId>, key: CallKey, now: Time, max: int)
    requires Owned(r, held) && Bounded(r, max) && CountCalls(r.arena, r.list, key.caller) < max
    ensures Bounded(Record(r, key, now), max)
  {
    var r' := Record(r, key, now);
    ListedAreLive(r, held);
    forall caller: ConnId ensures CountCalls(r'.arena, r'.list, caller) <= max {
      assert r'.list[1..] == r.list;
      CountAgrees(r.arena, r'.arena, r.list, caller);
    }
  }

  lemma ListedAreLive(r: Replies, held: multiset<PendingId>)
    requires Owned(r, held)
    ensures forall id :: id in r.list ==> Lookup(r.arena, id).Some?
  {
    forall id | id in r.list ensures Lookup(r.arena, id).Some? {
      assert multiset(r.list)[id] > 0;
    }
  }

  /** A link that leaves the list is held by whoever took it out. */
  lemma UnlinkOwned(r: Replies, held: multiset<PendingId>, i: nat)
    requires Owned(r, held) && i < |r.list|
    ensures Owned(r.(list := Unlink(r.list, i)), held + multiset{r.list[i]})
  {
    UnlinkLinks(r.list, i);
    assert r.list[i] in multiset(r.list);
  }

  lemma UnlinkBounds(r: Replies, i: nat, max: int)
    requires UniqueKeys(r) && Bounded(r, max) && i < |r.list|
    ensures UniqueKeys(r.(list := Unlink(r.list, i))) && Bounded(r.(list := Unlink(r.list, i)), max)
  {
    var r' := r.(list := Unlink(r.list, i));
    forall caller: ConnId ensures CountCalls(r'.arena, r'.list, caller) <= max {
      UnlinkCounts(r.arena, r.list, i, caller);
    }
  }

  lemma CheckKeeps(r: Replies, hooks: seq<Hook>, key: CallKey, max: int)
    requires Inv(r, HeldBy(hooks), max)
    ensures var (r', hooks', _) := Check(r, hooks, key, true); Inv(r', HeldBy(hooks'), max)
  {
    var (r', hooks', result) := Check(r, hooks, key, true);
    if result == Requested {
      var i := Find(r.arena, r.list, key);
      assert hooks'[1..] == hooks;
      UnlinkOwned(r, HeldBy(hooks), i);
      UnlinkBounds(r, i, max);
    }
  }

  /** A freed cell appended to the arena changes nothing that matters. */
  lemma OutOfMemoryKeeps(r: Replies)
    ensures var s := r.(arena := r.arena + [Freed(NeverRecorded)]); SameReplies(r, s)
  {
  }

  lemma ExpectKeeps(r: Replies, hooks: seq<Hook>, key: CallKey, noReply: bool, max: int, now: Time, fault: ExpectFault)
    requires Inv(r, HeldBy(hooks), max)
    ensures var (r', hooks', _) := Expect(r, hooks, key, noReply, max, now, fault); Inv(r', HeldBy(hooks'), max)
  {
    var (r', hooks', result) := Expect(r, hooks, key, noReply, max, now, fault);
    if result == Recorded {
      assert HeldBy(hooks') == HeldBy(hooks) by { assert hooks'[1..] == hooks; }
      RecordOwned(r, HeldBy(hooks), key, now);
      RecordUnique(r, HeldBy(hooks), key, now);
      RecordBounded(r, HeldBy(hooks), key, now, max);
    } else {
      assert hooks' == hooks;
      assert SameReplies(r, r') by { OutOfMemoryKeeps(r); }
      SameBounds(r, r', max);
    }
  }

  lemma ApplyKeeps(r: Replies, hooks: seq<Hook>, op: ReplyOp, max: int)
    requires Inv(r, HeldBy(hooks), max)
    ensures var (r', hooks') := Apply(r, hooks, op, max); Inv(r', HeldBy(hooks'), max)
  {
    match op
    case ExpectOp(key, noReply, now, fault) => ExpectKeeps(r, hooks, key, noReply, max, now, fault);
    case CheckOp(key, memory) => if memory { CheckKeeps(r, hooks, key, max); }
  }

  lemma {:induction false} ApplyAllKeeps(r: Replies, hooks: seq<Hook>, ops: seq<ReplyOp>, max: int)
    requires Inv(r, HeldBy(hooks), max)
    ensures var (r', hooks') := ApplyAll(r, hooks, ops, max); Inv(r', HeldBy(hooks'), max)
    decreases |ops|
  {
    if ops != [] {
      ApplyKeeps(r, hooks, ops[0], max);
      var (r', hooks') := Apply(r, hooks, ops[0], max);
      ApplyAllKeeps(r', hooks', ops[1..], max);
    }
  }

  // ---------------------------------------------------------------------------------------------
  // Cancelling

  lemma SameAfterFree(r: Replies, s: Replies, id: PendingId)
    requires SameReplies(r, s) && Lookup(r.arena, id).Some?
    ensures id < |s.arena|
    ensures SameReplies(Replies(Free(r.arena, id, RolledBack), RemoveFirst(r.list, id)),
                        Replies(Free(s.arena, id, RolledBack), RemoveFirst(s.list, id)))
  {
    RemoveFirstCounts(r.list, id);
    RemoveFirstCounts(s.list, id);
    var r', s' := Free(r.arena, id, RolledBack), Free(s.arena, id, RolledBack);
    assert forall x: PendingId :: x != id ==>
             Lookup(r', x) == Lookup(r.arena, x) == Lookup(s.arena, x) == Lookup(s', x);
  }

  /** Cancel hooks do not care about the order of the list. */
  lemma {:induction false} CancelAgrees(r: Replies, s: Replies, hooks: seq<Hook>)
    requires SameReplies(r, s)
    ensures Cancel(r, hooks).None? <==> Cancel(s, hooks).None?
    ensures Cancel(r, hooks).Some? ==> SameReplies(Cancel(r, hooks).value, Cancel(s, hooks).value)
    decreases |hooks|
  {
    if hooks != [] {
      SameLinks(r.list, s.list);
      match hooks[0]
      case CancelExpected(id) =>
        if id in r.list && Lookup(r.arena, id).Some? {
          SameAfterFree(r, s, id);
          CancelAgrees(Replies(Free(r.arena, id, RolledBack), RemoveFirst(r.list, id)),
                       Replies(Free(s.arena, id, RolledBack), RemoveFirst(s.list, id)), hooks[1..]);
        }
      case RestoreChecked(id) =>
        CancelAgrees(r.(list := [id] + r.list), s.(list := [id] + s.list), hooks[1..]);
    }
  }

  /** Cancelling from either state fails alike, or leads back to the same pending replies. */
  ghost predicate UndoneAlike(r: Replies, hooks: seq<Hook>, s: Replies, hooks': seq<Hook>) {
    match (Cancel(r, hooks), Cancel(s, hooks'))
    case (None, None) => true
    case (Some(back), Some(back')) => SameReplies(back, back')
    case _ => false
  }

  lemma RecordUndone(r: Replies, hooks: seq<Hook>, key: CallKey, now: Time)
    ensures UndoneAlike(r, hooks, Record(r, key, now), [CancelExpected(|r.arena|)] + hooks)
  {
    var r' := Record(r, key, now);
    var undone := Replies(Free(r'.arena, |r.arena|, RolledBack), r.list);
    assert r'.list[1..] == r.list;
    assert ([CancelExpected(|r.arena|)] + hooks)[1..] == hooks;
    assert forall x: PendingId :: Lookup(undone.arena, x) == Lookup(r.arena, x);
    CancelAgrees(r, undone, hooks);
  }

  lemma CheckUndone(r: Replies, hooks: seq<Hook>, i: nat)
    requires i < |r.list|
    ensures UndoneAlike(r, hooks, r.(list := Unlink(r.list, i)), [RestoreChecked(r.list[i])] + hooks)
  {
    var undone := r.(list := [r.list[i]] + Unlink(r.list, i));
    assert ([RestoreChecked(r.list[i])] + hooks)[1..] == hooks;
    UnlinkLinks(r.list, i);
    assert r.list[i] in multiset(r.list);
    CancelAgrees(r, undone, hooks);
  }

  lemma ExpectUndone(r: Replies, hooks: seq<Hook>, key: CallKey, noReply: bool, max: int, now: Time, fault: ExpectFault)
    ensures var (r', hooks', _) := Expect(r, hooks, key, noReply, max, now, fault); UndoneAlike(r, hooks, r', hooks')
  {
    var (r', hooks', result) := Expect(r, hooks, key, noReply, max, now, fault);
    if result == Recorded {
      RecordUndone(r, hooks, key, now);
    } else {
      assert hooks' == hooks;
      assert SameReplies(r, r') by { OutOfMemoryKeeps(r); }
      CancelAgrees(r, r', hooks);
    }
  }

  /** One more operation does not change what cancelling leads back to. */
  lemma ApplyUndone(r: Replies, hooks: seq<Hook>, op: ReplyOp, max: int)
    ensures var (r', hooks') := Apply(r, hooks, op, max); UndoneAlike(r, hooks, r', hooks')
  {
    match op
    case ExpectOp(key, noReply, now, fault) => ExpectUndone(r, hooks, key, noReply, max, now, fault);
    case CheckOp(key, memory) =>
      if Check(r, hooks, key, memory).2 == Requested {
        CheckUndone(r, hooks, Find(r.arena, r.list, key));
      }
  }

  lemma {:induction false} ApplyAllUndone(r: Replies, hooks: seq<Hook>, ops: seq<ReplyOp>, max: int)
    ensures var (r', hooks') := ApplyAll(r, hooks, ops, max); UndoneAlike(r, hooks, r', hooks')
    decreases |ops|
  {
    if ops != [] {
      ApplyUndone(r, hooks, ops[0], max);
      var (r', hooks') := Apply(r, hooks, ops[0], max);
      ApplyAllUndone(r', hooks', ops[1..], max);
    }
  }

  /**
   Cancelling a transaction never fails an assertion and leaves exactly the pending replies there were before it,
   whatever calls and replies went through it and wherever memory ran out.
   */
  lemma CancelRestores(r: Replies, ops: seq<ReplyOp>, max: int)
    ensures var (r', hooks) := ApplyAll(r, [], ops, max);
            Cancel(r', hooks).Some? && SameReplies(r, Cancel(r', hooks).value)
  {
    ApplyAllUndone(r, [], ops, max);
  }

  /** Running the hooks oldest first instead would fail: a call recorded and answered in one transaction. */
  lemma OldestFirstFails()
    ensures exists ops, key ::
              var (r, hooks) := ApplyAll(EMPTY, [], ops, 1);
              && ops == [ExpectOp(key, false, 1, AllSucceed), CheckOp(key, true)]
              && |hooks| == 2 && Cancel(r, hooks).Some? && Cancel(r, [hooks[1], hooks[0]]).None?
  {
    var key := CallKey(0, 1, 7);
    var ops := [ExpectOp(key, false, 1, AllSucceed), CheckOp(key, true)];
    CancelRestores(EMPTY, ops, 1);
    var (r1, hooks1) := Apply(EMPTY, [], ops[0], 1);
    assert r1 == Replies([Live(PendingReply(0, Some(1), 7, 1))], [0]) && hooks1 == [CancelExpected(0)];
    var (r2, hooks2) := Apply(r1, hooks1, ops[1], 1);
    assert r2.list == [] && hooks2 == [RestoreChecked(0), CancelExpected(0)];
    assert ops[1..][1..] == [];
    assert ApplyAll(r2, hooks2, [], 1) == (r2, hooks2);
    assert ApplyAll(r1, hooks1, ops[1..], 1) == (r2, hooks2);
  }

  function AwaitedCall(key: CallKey, now: Time): PendingReply {
    PendingReply(key.caller, Some(key.callee), key.serial, now)
  }

  lemma OneCallInv(p: PendingReply)
    ensures Inv(Replies([Live(p)], [0]), multiset{}, 1)
  {
    var r := Replies([Live(p)], [0]);
    assert r.list[1..] == [];
    assert multiset(r.list) == multiset{0};
  }

  lemma OverlapRecords(key: CallKey, now: Time)
    ensures var p := AwaitedCall(key, now);
            && Check(Replies([Live(p)], [0]), [], key, true) == (Replies([Live(p)], []), [RestoreChecked(0)], Requested)
            && Expect(Replies([Live(p)], []), [], key, false, 1, now, AllSucceed)
               == (Replies([Live(p), Live(p)], [1]), [CancelExpected(1)], Recorded)
  {
    var p := AwaitedCall(key, now);
    assert Lookup([Live(p)], 0) == Some(p) && AwaitsKey([Live(p)], 0, key);
    assert Find([Live(p)], [0], key) == 0 && Unlink([0], 0) == [];
    assert Find([Live(p)], [], key) == 0 && CountCalls([Live(p)], [], key.caller) == 0;
    assert [RestoreChecked(0)] + [] == [RestoreChecked(0)] && [CancelExpected(1)] + [] == [CancelExpected(1)];
    assert Record(Replies([Live(p)], []), key, now) == Replies([Live(p), Live(p)], [1]);
  }

  /**
   Transactions must not overlap: a call recorded by one while another holds the pending reply of the same call is
   there twice once the other is cancelled.
   */
  lemma OverlapBreaksUniqueness(key: CallKey, now: Time)
    ensures var r := Replies([Live(AwaitedCall(key, now))], [0]);
            var (r1, hooks1, checked) := Check(r, [], key, true);
            var (r2, hooks2, recorded) := Expect(r1, [], key, false, 1, now, AllSucceed);
            && Inv(r, multiset{}, 1) && checked == Requested && recorded == Recorded
            && Cancel(r2, hooks1).Some? && !UniqueKeys(Cancel(r2, hooks1).value)
  {
    var p := AwaitedCall(key, now);
    OneCallInv(p);
    OverlapRecords(key, now);
    var hooks := [RestoreChecked(0)];
    var restored := Replies([Live(p), Live(p)], [0, 1]);
    assert hooks[1..] == [] && [0] + [1] == [0, 1];
    assert Cancel(Replies([Live(p), Live(p)], [1]), hooks) == Cancel(restored, hooks[1..]) == Some(restored);
    assert 0 in restored.list && AwaitsKey(restored.arena, 0, key);
    assert 1 in restored.list && AwaitsKey(restored.arena, 1, key);
  }

  // ---------------------------------------------------------------------------------------------
  // The other steps of the main loop

  /** Fewer pending replies, awaiting no more than before, stay unique and bounded. */
  lemma FewerKeeps(r: Replies, s: Replies, max: int)
    requires UniqueKeys(r) && Bounded(r, max)
    requires forall x, key :: x in s.list && AwaitsKey(s.arena, x, key) ==> x in r.list && AwaitsKey(r.arena, x, key)
    requires forall caller: ConnId :: CountCalls(s.arena, s.list, caller) <= CountCalls(r.arena, r.list, caller)
    ensures UniqueKeys(s) && Bounded(s, max)
  {
  }

  lemma HeldIsFreed(r: Replies, hooks: seq<Hook>, id: PendingId, max: int)
    requires Inv(r, HeldBy(hooks), max) && hooks != [] && hooks[0] == RestoreChecked(id)
    ensures id < |r.arena| && r.arena[id].Live?
    ensures Inv(r.(arena := Free(r.arena, id, Answered)), HeldBy(hooks[1..]), max)
  {
    assert HeldBy(hooks)[id] >= 1;
    assert id !in multiset(r.list);
    var next := r.(arena := Free(r.arena, id, Answered));
    assert forall x: PendingId :: x != id ==> Lookup(next.arena, x) == Lookup(r.arena, x);
    forall caller: ConnId ensures CountCalls(next.arena, next.list, caller) == CountCalls(r.arena, r.list, caller) {
      CountAgrees(r.arena, next.arena, r.list, caller);
    }
    FewerKeeps(r, next, max);
  }

  /** Executing a transaction frees what its check hooks hold, once each, and nothing else. */
  lemma {:induction false} CommitKeeps(r: Replies, hooks: seq<Hook>, max: int)
    requires Inv(r, HeldBy(hooks), max)
    ensures Commit(r, hooks).Some?
    ensures var r' := Commit(r, hooks).value;
            && Inv(r', multiset{}, max) && r'.list == r.list && |r'.arena| == |r.arena|
            && forall id: PendingId :: id < |r.arena| ==>
                 r'.arena[id] == if id in HeldBy(hooks) then Freed(Answered) else r.arena[id]
    decreases |hooks|
  {
    if hooks != [] {
      match hooks[0]
      case CancelExpected(_) => CommitKeeps(r, hooks[1..], max);
      case RestoreChecked(id) =>
        HeldIsFreed(r, hooks, id, max);
        CommitKeeps(r.(arena := Free(r.arena, id, Answered)), hooks[1..], max);
    }
  }

  lemma UnlinkOnce(r: Replies, i: nat)
    requires Owned(r, multiset{}) && i < |r.list|
    ensures Lookup(r.arena, r.list[i]).Some?
    ensures forall x :: x in Unlink(r.list, i) <==> x in r.list && x != r.list[i]
  {
    UnlinkLinks(r.list, i);
    var id := r.list[i];
    assert id in multiset(r.list);
    forall x ensures x in Unlink(r.list, i) <==> x in r.list && x != id {
      assert x in Unlink(r.list, i) <==> x in multiset(Unlink(r.list, i));
      assert x in r.list <==> x in multiset(r.list);
    }
  }

  lemma EndCounts(r: Replies, i: nat, ending: Ending)
    requires Owned(r, multiset{}) && i < |r.list| && r.list[i] < |r.arena|
    ensures forall caller: ConnId ::
              CountCalls(Free(r.arena, r.list[i], ending), Unlink(r.list, i), caller)
              <= CountCalls(r.arena, r.list, caller)
  {
    UnlinkOnce(r, i);
    var freed := Free(r.arena, r.list[i], ending);
    forall caller: ConnId
      ensures CountCalls(freed, Unlink(r.list, i), caller) <= CountCalls(r.arena, r.list, caller)
    {
      UnlinkCounts(r.arena, r.list, i, caller);
      CountAgrees(r.arena, freed, Unlink(r.list, i), caller);
    }
  }

  /** A listed pending reply is unlinked and freed. */
  lemma EndKeeps(r: Replies, i: nat, ending: Ending, max: int)
    requires Inv(r, multiset{}, max) && i < |r.list|
    ensures r.list[i] < |r.arena|
    ensures Inv(Replies(Free(r.arena, r.list[i], ending), Unlink(r.list, i)), multiset{}, max)
  {
    UnlinkOnce(r, i);
    var id := r.list[i];
    var r' := Replies(Free(r.arena, id, ending), Unlink(r.list, i));
    assert forall x: PendingId :: x != id ==> Lookup(r'.arena, x) == Lookup(r.arena, x);
    assert Owned(r', multiset{}) by { UnlinkOwned(r, multiset{}, i); }
    EndCounts(r, i, ending);
    FewerKeeps(r, r', max);
  }

  /** What a disconnection makes of one pending reply. */
  function AfterDrop(p: Option<PendingReply>, conn: ConnId): Option<PendingReply> {
    if p.None? || p.value.willGetReply == conn then None
    else if p.value.willSendReply == Some(conn) then Some(p.value.(willSendReply := None, addedAt := 0))
    else p
  }

  lemma ClearKeeps(r: Replies, i: nat, conn: ConnId, max: int)
    requires Inv(r, multiset{}, max) && i < |r.list|
    requires Lookup(r.arena, r.list[i]).Some? && Lookup(r.arena, r.list[i]).value.willSendReply == Some(conn)
    ensures var p := r.arena[r.list[i]].pending.(willSendReply := None, addedAt := 0);
            Inv(r.(arena := r.arena[r.list[i] := Live(p)]), multiset{}, max)
  {
    var id := r.list[i];
    var r' := r.(arena := r.arena[id := Live(r.arena[id].pending.(willSendReply := None, addedAt := 0))]);
    assert forall x: PendingId :: x != id ==> Lookup(r'.arena, x) == Lookup(r.arena, x);
    forall caller: ConnId ensures CountCalls(r'.arena, r'.list, caller) == CountCalls(r.arena, r.list, caller) {
      CountAgrees(r.arena, r'.arena, r.list, caller);
    }
    FewerKeeps(r, r', max);
  }

  function Survives(arena: seq<Cell>, conn: ConnId): PendingId -> bool {
    (id: PendingId) => AfterDrop(Lookup(arena, id), conn).Some?
  }

  /** The pending replies that a disconnection leaves, in list order. */
  function Survivors(r: Replies, conn: ConnId): seq<PendingId> {
    Filter(r.list, Survives(r.arena, conn))
  }

  lemma DropOneEffect(r: Replies, i: nat, conn: ConnId, max: int)
    requires Inv(r, multiset{}, max) && i < |r.list| && Lookup(r.arena, r.list[i]).Some?
    ensures var next := DropOne(r, i, conn);
            && Inv(next, multiset{}, max)
            && Lookup(next.arena, r.list[i]) == AfterDrop(Lookup(r.arena, r.list[i]), conn)
            && (forall id: PendingId :: id != r.list[i] ==> Lookup(next.arena, id) == Lookup(r.arena, id))
  {
    var p := r.arena[r.list[i]].pending;
    if p.willGetReply == conn {
      EndKeeps(r, i, CallerGone, max);
    } else if p.willSendReply == Some(conn) {
      ClearKeeps(r, i, conn, max);
    }
  }

  lemma DropOneSurvivors(r: Replies, i: nat, conn: ConnId, max: int)
    requires Inv(r, multiset{}, max) && i < |r.list| && Lookup(r.arena, r.list[i]).Some?
    ensures Survivors(DropOne(r, i, conn), conn) == Survivors(r, conn)
  {
    var next := DropOne(r, i, conn);
    DropOneEffect(r, i, conn, max);
    UnlinkOnce(r, i);
    if next.list != r.list { FilterUnlinked(r.list, i, Survives(r.arena, conn)); }
    FilterAgrees(next.list, Survives(r.arena, conn), Survives(next.arena, conn));
  }

  /** The links before position i have been dealt with. */
  ghost predicate DroppedUpTo(r: Replies, i: nat, conn: ConnId) {
    i <= |r.list|
    && forall j :: 0 <= j < i ==> AfterDrop(Lookup(r.arena, r.list[j]), conn) == Lookup(r.arena, r.list[j])
  }

  /**
   A disconnection frees the calls of that connection, marks the calls it would have answered for immediate
   expiry, and touches nothing else; the order of the list stays.
   */
  lemma {:induction false} DropEffect(r: Replies, i: nat, conn: ConnId, max: int)
    requires Inv(r, multiset{}, max) && DroppedUpTo(r, i, conn)
    ensures Inv(DropFrom(r, i, conn), multiset{}, max)
    ensures forall id: PendingId ::
              Lookup(DropFrom(r, i, conn).arena, id) == AfterDrop(Lookup(r.arena, id), conn)
    ensures DropFrom(r, i, conn).list == Survivors(r, conn)
    decreases |r.list| - i
  {
    if i == |r.list| {
      AllDropped(r, conn);
    } else {
      ListedAreLive(r, multiset{});
      var next := DropOne(r, i, conn);
      var i' := if |next.list| < |r.list| then i else i + 1;
      DropOneEffect(r, i, conn, max);
      DropOneSurvivors(r, i, conn, max);
      DropOneAdvances(r, i, conn, max);
      DropEffect(next, i', conn, max);
    }
  }

  lemma DropOneAdvances(r: Replies, i: nat, conn: ConnId, max: int)
    requires Inv(r, multiset{}, max) && i < |r.list| && DroppedUpTo(r, i, conn)
    ensures var next := DropOne(r, i, conn);
            && DroppedUpTo(next, if |next.list| < |r.list| then i else i + 1, conn)
            && forall id: PendingId :: AfterDrop(Lookup(next.arena, id), conn) == AfterDrop(Lookup(r.arena, id), conn)
  {
    ListedAreLive(r, multiset{});
    UnlinkOnce(r, i);
    DropOneEffect(r, i, conn, max);
    var (id, next) := (r.list[i], DropOne(r, i, conn));
    forall j | 0 <= j < (if |next.list| < |r.list| then i else i + 1)
      ensures AfterDrop(Lookup(next.arena, next.list[j]), conn) == Lookup(next.arena, next.list[j])
    {
      assert next.list[j] == r.list[j];
    }
  }

  lemma AllDropped(r: Replies, conn: ConnId)
    requires Owned(r, multiset{}) && DroppedUpTo(r, |r.list|, conn)
    ensures forall id: PendingId :: Lookup(r.arena, id) == AfterDrop(Lookup(r.arena, id), conn)
    ensures r.list == Survivors(r, conn)
  {
    ListedAreLive(r, multiset{});
    KeepAll(r.list, Survives(r.arena, conn));
    forall id: PendingId ensures Lookup(r.arena, id) == AfterDrop(Lookup(r.arena, id), conn) {
      if Lookup(r.arena, id).Some? {
        assert id in multiset(r.list);
      }
    }
  }

  lemma KeepAll(list: seq<PendingId>, keep: PendingId -> bool)
    requires forall x :: x in list ==> keep(x)
    ensures Filter(list, keep) == list
  {
  }

  lemma FilterAgrees(list: seq<PendingId>, keep: PendingId -> bool, keep': PendingId -> bool)
    requires forall x :: x in list ==> keep(x) == keep'(x)
    ensures Filter(list, keep) == Filter(list, keep')
  {
  }

  lemma {:induction false} ExpireKeeps(r: Replies, i: nat, now: Time, timeout: int, budget: nat, max: int)
    requires Inv(r, multiset{}, max)
    ensures Inv(ExpireFrom(r, i, now, timeout, budget), multiset{}, max)
    decreases |r.list| - i
  {
    if i < |r.list| {
      if !IsDue(r.arena, r.list[i], now, timeout) {
        ExpireKeeps(r, i + 1, now, timeout, budget, max);
      } else if budget > 0 {
        EndKeeps(r, i, TimedOut, max);
        ExpireKeeps(Replies(Free(r.arena, r.list[i], TimedOut), Unlink(r.list, i)), i, now, timeout, budget - 1, max);
      }
    }
  }

  /** Expiry frees only calls that are due. */
  lemma {:induction false} ExpireOnlyDue(r: Replies, i: nat, now: Time, timeout: int, budget: nat, id: PendingId)
    ensures var p := Lookup(ExpireFrom(r, i, now, timeout, budget).arena, id);
            p == Lookup(r.arena, id) || (IsDue(r.arena, id, now, timeout) && p == None)
    decreases |r.list| - i
  {
    if i < |r.list| {
      if !IsDue(r.arena, r.list[i], now, timeout) {
        ExpireOnlyDue(r, i + 1, now, timeout, budget, id);
      } else if budget > 0 {
        var next := Replies(Free(r.arena, r.list[i], TimedOut), Unlink(r.list, i));
        ExpireOnlyDue(next, i, now, timeout, budget - 1, id);
      }
    }
  }

  ghost predicate NoneDue(r: Replies, upTo: nat, now: Time, timeout: int) {
    forall j :: 0 <= j < upTo && j < |r.list| ==> !IsDue(r.arena, r.list[j], now, timeout)
  }

  /** While memory lasts, expiry leaves no call that is due. */
  lemma {:induction false} ExpireAllDue(r: Replies, i: nat, now: Time, timeout: int, budget: nat)
    requires i <= |r.list| <= i + budget
    requires NoneDue(r, i, now, timeout)
    ensures var r' := ExpireFrom(r, i, now, timeout, budget); NoneDue(r', |r'.list|, now, timeout)
    decreases |r.list| - i
  {
    if i < |r.list| {
      if !IsDue(r.arena, r.list[i], now, timeout) {
        ExpireAllDue(r, i + 1, now, timeout, budget);
      } else {
        var next := Replies(Free(r.arena, r.list[i], TimedOut), Unlink(r.list, i));
        forall j | 0 <= j < i ensures !IsDue(next.arena, next.list[j], now, timeout) {
          assert next.list[j] == r.list[j];
        }
        ExpireAllDue(next, i, now, timeout, budget - 1);
      }
    }
  }

  // ---------------------------------------------------------------------------------------------
  // Whole runs

  lemma StepKeeps(r: Replies, e: Event, limits: Limits)
    requires Inv(r, multiset{}, limits.maxReplies)
    ensures Step(r, e, limits).Some? && Inv(Step(r, e, limits).value, multiset{}, limits.maxReplies)
  {
    var max := limits.maxReplies;
    match e
    case Transact(ops, commit) =>
      var (r', hooks) := ApplyAll(r, [], ops, max);
      if commit {
        ApplyAllKeeps(r, [], ops, max);
        CommitKeeps(r', hooks, max);
      } else {
        CancelRestores(r, ops, max);
        SameBounds(r, Cancel(r', hooks).value, max);
      }
    case Disconnect(conn) => DropEffect(r, 0, conn, max);
    case Expire(now, budget) => ExpireKeeps(r, 0, now, limits.timeout, budget, max);
  }

  /**
   In every run no assertion of the source fails, every live pending reply is in the list exactly once, no two await
   the same reply, and no caller has more than the configured number.
   */
  lemma {:induction false} RunKeeps(r: Replies, events: seq<Event>, limits: Limits)
    requires Inv(r, multiset{}, limits.maxReplies)
    ensures Run(r, events, limits).Some? && Inv(Run(r, events, limits).value, multiset{}, limits.maxReplies)
    decreases |events|
  {
    if events != [] {
      StepKeeps(r, events[0], limits);
      RunKeeps(Step(r, events[0], limits).value, events[1..], limits);
    }
  }

  lemma EveryRun(events: seq<Event>, limits: Limits)
    requires limits.maxReplies >= 0
    ensures Run(EMPTY, events, limits).Some?
    ensures Inv(Run(EMPTY, events, limits).value, multiset{}, limits.maxReplies)
  {
    RunKeeps(EMPTY, events, limits);
  }

  /** What a state leaves fixed: how a freed pending reply ended, and whose call a live one is. */
  ghost predicate Extends(r: Replies, s: Replies) {
    && |r.arena| <= |s.arena|
    && forall id: PendingId :: id < |r.arena| ==>
         match (r.arena[id], s.arena[id])
         case (Freed(e), Freed(e')) => e == e'
         case (Freed(_), Live(_)) => false
         case (Live(_), Freed(_)) => true
         case (Live(p), Live(q)) =>
           && p.willGetReply == q.willGetReply && p.replySerial == q.replySerial
           && (q.willSendReply == p.willSendReply || q.willSendReply == None)
  }

  lemma ApplyAllExtends(r: Replies, hooks: seq<Hook>, ops: seq<ReplyOp>, max: int)
    ensures Extends(r, ApplyAll(r, hooks, ops, max).0)
    decreases |ops|
  {
    if ops != [] {
      var (r', hooks') := Apply(r, hooks, ops[0], max);
      assert Extends(r, r');
      ApplyAllExtends(r', hooks', ops[1..], max);
    }
  }

  lemma {:induction false} CancelExtends(r: Replies, hooks: seq<Hook>)
    ensures Cancel(r, hooks).Some? ==> Extends(r, Cancel(r, hooks).value)
    decreases |hooks|
  {
    if hooks != [] {
      match hooks[0]
      case CancelExpected(id) =>
        if id in r.list && Lookup(r.arena, id).Some? {
          var next := Replies(Free(r.arena, id, RolledBack), RemoveFirst(r.list, id));
          CancelExtends(next, hooks[1..]);
        }
      case RestoreChecked(id) => CancelExtends(r.(list := [id] + r.list), hooks[1..]);
    }
  }

  lemma {:induction false} CommitExtends(r: Replies, hooks: seq<Hook>)
    ensures Commit(r, hooks).Some? ==> Extends(r, Commit(r, hooks).value)
    decreases |hooks|
  {
    if hooks != [] {
      match hooks[0]
      case CancelExpected(_) => CommitExtends(r, hooks[1..]);
      case RestoreChecked(id) =>
        if Lookup(r.arena, id).Some? { CommitExtends(r.(arena := Free(r.arena, id, Answered)), hooks[1..]); }
    }
  }

  lemma {:induction false} DropExtends(r: Replies, i: nat, conn: ConnId)
    ensures Extends(r, DropFrom(r, i, conn))
    decreases |r.list| - i
  {
    if i < |r.list| {
      var next := DropOne(r, i, conn);
      DropExtends(next, if |next.list| < |r.list| then i else i + 1, conn);
    }
  }

  lemma {:induction false} ExpireExtends(r: Replies, i: nat, now: Time, timeout: int, budget: nat)
    ensures Extends(r, ExpireFrom(r, i, now, timeout, budget))
    decreases |r.list| - i
  {
    if i < |r.list| {
      if !IsDue(r.arena, r.list[i], now, timeout) {
        ExpireExtends(r, i + 1, now, timeout, budget);
      } else if budget > 0 {
        ExpireExtends(Replies(Free(r.arena, r.list[i], TimedOut), Unlink(r.list, i)), i, now, timeout, budget - 1);
      }
    }
  }

  lemma StepExtends(r: Replies, e: Event, limits: Limits)
    ensures Step(r, e, limits).Some? ==> Extends(r, Step(r, e, limits).value)
  {
    match e
    case Transact(ops, commit) =>
      var (r', hooks) := ApplyAll(r, [], ops, limits.maxReplies);
      ApplyAllExtends(r, [], ops, limits.maxReplies);
      CommitExtends(r', hooks);
      CancelExtends(r', hooks);
    case Disconnect(conn) => DropExtends(r, 0, conn);
    case Expire(now, budget) => ExpireExtends(r, 0, now, limits.timeout, budget);
  }

  /**
   A call ends at most once, in one way: once its pending reply is freed, whatever the reason, no later run
   revives it or ends it again; and while it lives it stays the call of the same caller and serial.
   */
  lemma {:induction false} EndsOnce(r: Replies, events: seq<Event>, limits: Limits)
    ensures Run(r, events, limits).Some? ==> Extends(r, Run(r, events, limits).value)
    decreases |events|
  {
    if events != [] && Step(r, events[0], limits).Some? {
      StepExtends(r, events[0], limits);
      EndsOnce(Step(r, events[0], limits).value, events[1..], limits);
    }
  }

  // ---------------------------------------------------------------------------------------------
  // Which replies count as requested

  /** A reply with this key would be let through as requested. */
  ghost predicate Outstanding(r: Replies, key: CallKey) {
    exists id :: id in r.list && AwaitsKey(r.arena, id, key)
  }

  /** The bus treats a reply as requested exactly when its call is outstanding, and then the call no longer is. */
  lemma CheckDecides(r: Replies, hooks: seq<Hook>, key: CallKey, max: int)
    requires Inv(r, HeldBy(hooks), max)
    ensures Check(r, hooks, key, true).2 == (if Outstanding(r, key) then Requested else NotExpected)
    ensures forall k :: Outstanding(Check(r, hooks, key, true).0, k) <==> Outstanding(r, k) && k != key
  {
    FindFinds(r.arena, r.list, key);
    var i := Find(r.arena, r.list, key);
    if i < |r.list| {
      var id := r.list[i];
      var r' := Check(r, hooks, key, true).0;
      UnlinkLinks(r.list, i);
      assert id in multiset(r.list);
      assert forall x :: x in r'.list <==> x in multiset(r'.list);
      assert forall x :: x in r.list <==> x in multiset(r.list);
      forall k ensures Outstanding(r', k) <==> Outstanding(r, k) && k != key {
        if Outstanding(r, k) && k != key {
          var x :| x in r.list && AwaitsKey(r.arena, x, k);
          assert x in r'.list;
        }
      }
    }
  }

  /**
   A call is recorded exactly when it wants a reply, is not outstanding, its caller is below the limit and memory
   suffices; it is refused exactly when it wants one and is outstanding or its caller is at the limit.  Nothing but a
   recorded call becomes outstanding.
   */
  lemma ExpectDecides(r: Replies, hooks: seq<Hook>, key: CallKey, noReply: bool, max: int, now: Time,
                      fault: ExpectFault)
    requires Inv(r, HeldBy(hooks), max)
    ensures var (r', _, result) := Expect(r, hooks, key, noReply, max, now, fault);
            var below := CountCalls(r.arena, r.list, key.caller) < max;
            && (result == Recorded <==> !noReply && !Outstanding(r, key) && below && fault == AllSucceed)
            && (result == ExpectOutOfMemory <==> !noReply && !Outstanding(r, key) && below && fault != AllSucceed)
            && (result == DuplicateSerial <==> !noReply && Outstanding(r, key))
            && (result == LimitExceeded <==> !noReply && !Outstanding(r, key) && !below)
            && forall k :: Outstanding(r', k) <==> Outstanding(r, k) || (result == Recorded && k == key)
  {
    FindFinds(r.arena, r.list, key);
    var (r', _, result) := Expect(r, hooks, key, noReply, max, now, fault);
    ListedAreLive(r, HeldBy(hooks));
    assert forall x :: x in r.list ==> Lookup(r'.arena, x) == Lookup(r.arena, x);
    if result == Recorded {
      assert AwaitsKey(r'.arena, |r.arena|, key) && |r.arena| in r'.list;
      assert forall x :: x in r'.list <==> x == |r.arena| || x in r.list;
    }
  }

  ghost predicate Records(op: ReplyOp, key: CallKey) {
    op.ExpectOp? && op.key == key && !op.noReply
  }

  lemma {:induction false} OpsStayClosed(r: Replies, hooks: seq<Hook>, ops: seq<ReplyOp>, max: int, key: CallKey)
    requires Inv(r, HeldBy(hooks), max) && !Outstanding(r, key)
    requires forall op :: op in ops ==> !Records(op, key)
    ensures !Outstanding(ApplyAll(r, hooks, ops, max).0, key)
    decreases |ops|
  {
    if ops != [] {
      var (r', hooks') := Apply(r, hooks, ops[0], max);
      ApplyKeeps(r, hooks, ops[0], max);
      assert ops[0] in ops;
      match ops[0] {
        case ExpectOp(k, noReply, now, fault) =>
          ExpectDecides(r, hooks, k, noReply, max, now, fault);
        case CheckOp(k, memory) =>
          if memory { CheckDecides(r, hooks, k, max); }
      }
      assert !Outstanding(r', key);
      OpsStayClosed(r', hooks', ops[1..], max, key);
    }
  }

  lemma SameOutstanding(r: Replies, s: Replies, key: CallKey)
    requires SameReplies(r, s)
    ensures Outstanding(r, key) <==> Outstanding(s, key)
  {
    SameLinks(r.list, s.list);
    forall id ensures id in r.list && AwaitsKey(r.arena, id, key) <==> id in s.list && AwaitsKey(s.arena, id, key) {
    }
  }

  /** Nothing but recording the call makes a reply count as requested. */
  lemma StaysClosed(r: Replies, e: Event, limits: Limits, key: CallKey)
    requires Inv(r, multiset{}, limits.maxReplies) && !Outstanding(r, key)
    requires e.Transact? ==> forall op :: op in e.ops ==> !Records(op, key)
    ensures Step(r, e, limits).Some? && !Outstanding(Step(r, e, limits).value, key)
  {
    var max := limits.maxReplies;
    StepKeeps(r, e, limits);
    var s := Step(r, e, limits).value;
    match e
    case Transact(ops, commit) =>
      var (r', hooks) := ApplyAll(r, [], ops, max);
      if commit {
        OpsStayClosed(r, [], ops, max, key);
        ApplyAllKeeps(r, [], ops, max);
        CommitKeeps(r', hooks, max);
        ClosedStays(r', s, key);
      } else {
        CancelRestores(r, ops, max);
        SameOutstanding(r, s, key);
      }
    case Disconnect(conn) =>
      DropEffect(r, 0, conn, max);
      ClosedStays(r, s, key);
    case Expire(now, budget) =>
      forall id ensures Lookup(s.arena, id) in {None, Lookup(r.arena, id)} {
        ExpireOnlyDue(r, 0, now, limits.timeout, budget, id);
      }
      StepOwned(r, s);
      ClosedStays(r, s, key);
  }

  /** If s lists only pending replies of r, awaiting no more than they did, it opens nothing. */
  lemma ClosedStays(r: Replies, s: Replies, key: CallKey)
    requires !Outstanding(r, key)
    requires forall id :: id in s.list && AwaitsKey(s.arena, id, key) ==> id in r.list && AwaitsKey(r.arena, id, key)
    ensures !Outstanding(s, key)
  {
  }

  lemma StepOwned(r: Replies, s: Replies)
    requires Owned(r, multiset{}) && Owned(s, multiset{})
    requires forall id: PendingId :: Lookup(s.arena, id).Some? ==> Lookup(r.arena, id).Some?
    ensures forall id :: id in s.list ==> id in r.list
  {
    ListedAreLive(s, multiset{});
    forall id | id in s.list ensures id in r.list {
      assert id in multiset(r.list);
    }
  }

  lemma {:induction false} RunStaysClosed(r: Replies, events: seq<Event>, limits: Limits, key: CallKey)
    requires Inv(r, multiset{}, limits.maxReplies) && !Outstanding(r, key)
    requires forall e :: e in events && e.Transact? ==> forall op :: op in e.ops ==> !Records(op, key)
    ensures Run(r, events, limits).Some? && !Outstanding(Run(r, events, limits).value, key)
    decreases |events|
  {
    if events != [] {
      assert events[0] in events;
      StaysClosed(r, events[0], limits, key);
      StepKeeps(r, events[0], limits);
      RunStaysClosed(Step(r, events[0], limits).value, events[1..], limits, key);
    }
  }

  lemma {:induction false} ApplyAllConcat(r: Replies, hooks: seq<Hook>, a: seq<ReplyOp>, b: seq<ReplyOp>, max: int)
    ensures var (r', hooks') := ApplyAll(r, hooks, a, max);
            ApplyAll(r, hooks, a + b, max) == ApplyAll(r', hooks', b, max)
    decreases |a|
  {
    if a == [] {
      assert a + b == b;
    } else {
      var (r', hooks') := Apply(r, hooks, a[0], max);
      assert (a + b)[1..] == a[1..] + b;
      ApplyAllConcat(r', hooks', a[1..], b, max);
    }
  }

  lemma OneBetween(r: Replies, before: seq<ReplyOp>, op: ReplyOp, after: seq<ReplyOp>, max: int)
    ensures var (r1, hooks1) := ApplyAll(r, [], before, max);
            var (r2, hooks2) := Apply(r1, hooks1, op, max);
            ApplyAll(r, [], before + [op] + after, max) == ApplyAll(r2, hooks2, after, max)
  {
    ApplyAllConcat(r, [], before + [op], after, max);
    ApplyAllConcat(r, [], before, [op], max);
    var (r1, hooks1) := ApplyAll(r, [], before, max);
    var (r2, hooks2) := Apply(r1, hooks1, op, max);
    assert [op][1..] == [];
    assert ApplyAll(r2, hooks2, [op][1..], max) == (r2, hooks2);
  }

  /** Executing a transaction that let a reply through as requested closes its call, whatever else it did. */
  lemma AnswerCloses(r: Replies, before: seq<ReplyOp>, after: seq<ReplyOp>, limits: Limits, key: CallKey)
    requires Inv(r, multiset{}, limits.maxReplies)
    requires var (r1, hooks1) := ApplyAll(r, [], before, limits.maxReplies);
             Check(r1, hooks1, key, true).2 == Requested
    requires forall op :: op in after ==> !Records(op, key)
    ensures var s := Step(r, Transact(before + [CheckOp(key, true)] + after, true), limits);
            s.Some? && !Outstanding(s.value, key)
  {
    var max := limits.maxReplies;
    var answer := [CheckOp(key, true)];
    var (r1, hooks1) := ApplyAll(r, [], before, max);
    var (r2, hooks2) := Apply(r1, hooks1, answer[0], max);
    var (r3, hooks3) := ApplyAll(r2, hooks2, after, max);
    OneBetween(r, before, answer[0], after, max);
    ApplyAllKeeps(r, [], before, max);
    CheckDecides(r1, hooks1, key, max);
    ApplyKeeps(r1, hooks1, answer[0], max);
    OpsStayClosed(r2, hooks2, after, max, key);
    ApplyAllKeeps(r2, hooks2, after, max);
    CommitKeeps(r3, hooks3, max);
    ClosedStays(r3, Commit(r3, hooks3).value, key);
  }

  /**
   A second reply is never treated as requested.  Let a transaction let a reply through as requested and be
   executed; whatever else it did before and after, and whatever the bus does from then on, a further reply with
   the same serial between the same two connections is unexpected, unless the call was recorded again.
   */
  lemma AnsweredOnce(r: Replies, before: seq<ReplyOp>, after: seq<ReplyOp>, events: seq<Event>, limits: Limits,
                     key: CallKey)
    requires Inv(r, multiset{}, limits.maxReplies)
    requires var (r1, hooks1) := ApplyAll(r, [], before, limits.maxReplies);
             Check(r1, hooks1, key, true).2 == Requested
    requires forall op :: op in after ==> !Records(op, key)
    requires forall e :: e in events && e.Transact? ==> forall op :: op in e.ops ==> !Records(op, key)
    ensures var run := Run(r, [Transact(before + [CheckOp(key, true)] + after, true)] + events, limits);
            run.Some? && forall memory :: Check(run.value, [], key, memory).2 == NotExpected
  {
    var e := Transact(before + [CheckOp(key, true)] + after, true);
    StepKeeps(r, e, limits);
    AnswerCloses(r, before, after, limits, key);
    assert ([e] + events)[1..] == events;
    RunStaysClosed(Step(r, e, limits).value, events, limits, key);
    var end := Run(r, [e] + events, limits).value;
    FindFinds(end.arena, end.list, key);
  }

  lemma {:induction false} OpsStayOpen(r: Replies, hooks: seq<Hook>, ops: seq<ReplyOp>, max: int, key: CallKey)
    requires Inv(r, HeldBy(hooks), max) && Outstanding(r, key)
    requires forall op :: op in ops && op.CheckOp? ==> op.key != key
    ensures Outstanding(ApplyAll(r, hooks, ops, max).0, key)
    decreases |ops|
  {
    if ops != [] {
      var (r', hooks') := Apply(r, hooks, ops[0], max);
      ApplyKeeps(r, hooks, ops[0], max);
      assert ops[0] in ops;
      match ops[0] {
        case ExpectOp(k, noReply, now, fault) =>
          ExpectDecides(r, hooks, k, noReply, max, now, fault);
        case CheckOp(k, memory) =>
          if memory { CheckDecides(r, hooks, k, max); }
      }
      assert Outstanding(r', key);
      OpsStayOpen(r', hooks', ops[1..], max, key);
    }
  }

  /**
   An outstanding call stays so, and its reply would be let through, until that reply comes, one of the two
   connections goes, or it is due to expire.
   */
  lemma StaysOpen(r: Replies, e: Event, limits: Limits, key: CallKey)
    requires Inv(r, multiset{}, limits.maxReplies) && Outstanding(r, key)
    requires match e
             case Transact(ops, commit) => commit ==> forall op :: op in ops && op.CheckOp? ==> op.key != key
             case Disconnect(conn) => conn != key.caller && conn != key.callee
             case Expire(now, _) =>
               forall id :: id in r.list && AwaitsKey(r.arena, id, key) ==> !IsDue(r.arena, id, now, limits.timeout)
    ensures Step(r, e, limits).Some? && Outstanding(Step(r, e, limits).value, key)
  {
    var max := limits.maxReplies;
    StepKeeps(r, e, limits);
    var s := Step(r, e, limits).value;
    match e
    case Transact(ops, commit) =>
      var (r', hooks) := ApplyAll(r, [], ops, max);
      if commit {
        OpsStayOpen(r, [], ops, max, key);
        ApplyAllKeeps(r, [], ops, max);
        CommitKeeps(r', hooks, max);
        var id :| id in r'.list && AwaitsKey(r'.arena, id, key);
        assert id in multiset(r'.list);
        assert AwaitsKey(s.arena, id, key);
      } else {
        CancelRestores(r, ops, max);
        SameOutstanding(r, s, key);
      }
    case Disconnect(conn) =>
      DropEffect(r, 0, conn, max);
      var id :| id in r.list && AwaitsKey(r.arena, id, key);
      assert Survives(r.arena, conn)(id);
      assert AwaitsKey(s.arena, id, key);
    case Expire(now, budget) =>
      var id :| id in r.list && AwaitsKey(r.arena, id, key);
      ExpireOnlyDue(r, 0, now, limits.timeout, budget, id);
      assert Lookup(s.arena, id).Some?;
      assert id in multiset(s.list);
      assert AwaitsKey(s.arena, id, key);
  }

  /** After a disconnection nothing pending mentions the connection, so its address may be reused. */
  lemma DisconnectForgets(r: Replies, conn: ConnId, max: int)
    requires Inv(r, multiset{}, max)
    ensures forall id: PendingId :: var p := Lookup(DropFrom(r, 0, conn).arena, id);
              p.Some? ==> p.value.willGetReply != conn && p.value.willSendReply != Some(conn)
  {
    DropEffect(r, 0, conn, max);
  }

  /** How many calls of this caller and serial ended with the given reason. */
  function EndedAs(before: seq<Cell>, after: seq<Cell>, ending: Ending, call: NoReplyError): nat
    requires |before| <= |after|
  {
    if before == [] then 0
    else
      (if before[0].Live? && after[0] == Freed(ending)
          && NoReplyError(before[0].pending.willGetReply, before[0].pending.replySerial) == call then 1 else 0)
      + EndedAs(before[1..], after[1..], ending, call)
  }

  lemma {:induction false} EndedOneMore(before: seq<Cell>, mid: seq<Cell>, after: seq<Cell>, id: PendingId,
                                        call: NoReplyError)
    requires id < |before| == |mid| <= |after|
    requires before[id].Live? && mid == before[id := Freed(TimedOut)] && after[id] == Freed(TimedOut)
    ensures EndedAs(before, after, TimedOut, call) == EndedAs(mid, after, TimedOut, call)
          + if NoReplyError(before[id].pending.willGetReply, before[id].pending.replySerial) == call then 1 else 0
    decreases id
  {
    if id == 0 {
      assert before[1..] == mid[1..];
    } else {
      assert mid[1..] == before[1..][id - 1 := Freed(TimedOut)];
      EndedOneMore(before[1..], mid[1..], after[1..], id - 1, call);
    }
  }

  lemma EndedNone(arena: seq<Cell>, ending: Ending, call: NoReplyError)
    ensures EndedAs(arena, arena, ending, call) == 0
  {
  }

  /** Every call that times out is answered by exactly one no-reply error to its caller, and there are no others. */
  lemma {:induction false} OneErrorEach(r: Replies, i: nat, now: Time, timeout: int, budget: nat, call: NoReplyError)
    ensures |r.arena| <= |ExpireFrom(r, i, now, timeout, budget).arena|
    ensures multiset(ExpireErrors(r, i, now, timeout, budget))[call]
         == EndedAs(r.arena, ExpireFrom(r, i, now, timeout, budget).arena, TimedOut, call)
    decreases |r.list| - i
  {
    ExpireExtends(r, i, now, timeout, budget);
    EndedNone(r.arena, TimedOut, call);
    if i < |r.list| {
      if !IsDue(r.arena, r.list[i], now, timeout) {
        OneErrorEach(r, i + 1, now, timeout, budget, call);
      } else if budget > 0 {
        var next := Replies(Free(r.arena, r.list[i], TimedOut), Unlink(r.list, i));
        var r' := ExpireFrom(next, i, now, timeout, budget - 1);
        OneErrorEach(next, i, now, timeout, budget - 1, call);
        ExpireExtends(next, i, now, timeout, budget - 1);
        EndedOneMore(r.arena, next.arena, r'.arena, r.list[i], call);
        var p := r.arena[r.list[i]].pending;
        assert ExpireErrors(r, i, now, timeout, budget)
            == [NoReplyError(p.willGetReply, p.replySerial)] + ExpireErrors(next, i, now, timeout, budget - 1);
      }
    }
  }
}
