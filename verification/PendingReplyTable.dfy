/** `BusConnections` as far as replies go: the expire list and the cancel hooks of the open transactions. */
module PendingReplyTable {
  import opened BusTypes
  import opened Lists
  import opened PendingReplies

  lemma CountSnoc(arena: seq<Cell>, list: seq<PendingId>, id: PendingId, caller: ConnId)
    ensures CountCalls(arena, list + [id], caller)
         == CountCalls(arena, list, caller) + if AwaitedBy(arena, id, caller) then 1 else 0
  {
    if list != [] {
      assert (list + [id])[1..] == list[1..] + [id];
      CountSnoc(arena, list[1..], id, caller);
    }
  }

  class ReplyTable {
    var arena: seq<Cell>
    var list: seq<PendingId>
    var hooks: map<TxId, seq<Hook>>
    const maxReplies: int
    const timeout: int

    ghost function Replies(): Replies
      reads this
    {
      PendingReplies.Replies(arena, list)
    }

    constructor (limits: Limits)
      ensures Replies() == EMPTY && hooks == map[]
      ensures maxReplies == limits.maxReplies && timeout == limits.timeout
    {
      arena, list, hooks := [], [], map[];
      maxReplies, timeout := limits.maxReplies, limits.timeout;
    }

    method NewTransaction(tx: TxId)
      requires tx !in hooks
      modifies this`hooks
      ensures hooks == old(hooks)[tx := []]
    {
      hooks := hooks[tx := []];
    }

    /** `bus_connections_expect_reply`: record that a reply is allowed. */
    method ExpectReply(tx: TxId, key: CallKey, noReply: bool, now: Time, fault: ExpectFault)
      returns (result: ExpectResult)
      requires tx in hooks
      modifies this
      ensures tx in hooks && hooks == old(hooks)[tx := hooks[tx]]
      ensures (Replies(), hooks[tx], result)
           == Expect(old(Replies()), old(hooks[tx]), key, noReply, maxReplies, now, fault)
    {
      if noReply {
        return NotWanted;
      }
      var i, count := 0, 0;
      while i < |list|
        invariant i <= |list|
        invariant forall j :: 0 <= j < i ==> !AwaitsKey(arena, list[j], key)
        invariant count == CountCalls(arena, list[..i], key.caller)
        invariant Replies() == old(Replies()) && hooks == old(hooks)
      {
        if AwaitsKey(arena, list[i], key) {
          return DuplicateSerial;
        }
        assert list[..i + 1] == list[..i] + [list[i]];
        CountSnoc(arena, list[..i], list[i], key.caller);
        if AwaitedBy(arena, list[i], key.caller) {
          count := count + 1;
        }
        i := i + 1;
      }
      assert list[..i] == list;
      if count >= maxReplies {
        return LimitExceeded;
      }
      if fault == NoPending {
        return ExpectOutOfMemory;
      }
      var id := |arena|;
      arena := arena + [Live(PendingReply(key.caller, Some(key.callee), key.serial, 0))];
      if fault == NoHookData || fault == NoListLink {
        arena := arena[id := Freed(NeverRecorded)];
        assert arena == old(arena) + [Freed(NeverRecorded)];
        return ExpectOutOfMemory;
      }
      list := [id] + list;
      if fault == NoHook {
        list := RemoveFirst(list, id);
        arena := arena[id := Freed(NeverRecorded)];
        assert arena == old(arena) + [Freed(NeverRecorded)] && list == old(list);
        return ExpectOutOfMemory;
      }
      hooks := hooks[tx := [CancelExpected(id)] + hooks[tx]];
      arena := arena[id := Live(arena[id].pending.(addedAt := now))];
      assert arena == old(arena) + [Live(PendingReply(key.caller, Some(key.callee), key.serial, now))];
      result := Recorded;
    }

    /** `bus_connections_check_reply`: is this reply allowed?  If so its pending reply leaves the list. */
    method CheckReply(tx: TxId, key: CallKey, memory: bool) returns (result: CheckResult)
      requires tx in hooks
      modifies this`list, this`hooks
      ensures tx in hooks && hooks == old(hooks)[tx := hooks[tx]]
      ensures (Replies(), hooks[tx], result) == Check(old(Replies()), old(hooks[tx]), key, memory)
    {
      var i := 0;
      while i < |list|
        invariant i <= |list|
        invariant forall j :: 0 <= j < i ==> !AwaitsKey(arena, list[j], key)
      {
        if AwaitsKey(arena, list[i], key) {
          break;
        }
        i := i + 1;
      }
      if i == |list| {
        return NotExpected;
      }
      if !memory {
        return CheckOutOfMemory;
      }
      hooks := hooks[tx := [RestoreChecked(list[i])] + hooks[tx]];
      list := list[..i] + list[i + 1..];
      result := Requested;
    }

    /**
     The hooks of `bus_transaction_cancel_and_free`, newest first.  The caller owes that each recorded call is still
     listed when its hook runs; PendingRepliesProofs.CancelRestores shows that one transaction at a time is enough.
     */
    method CancelTransaction(tx: TxId)
      requires tx in hooks && Cancel(Replies(), hooks[tx]).Some?
      modifies this
      ensures hooks == old(hooks) - {tx}
      ensures Cancel(old(Replies()), old(hooks[tx])) == Some(Replies())
    {
      var todo := hooks[tx];
      while todo != []
        invariant Cancel(Replies(), todo) == Cancel(old(Replies()), old(hooks[tx])) && Cancel(Replies(), todo).Some?
        invariant hooks == old(hooks)
      {
        match todo[0] {
          case CancelExpected(id) =>
            list := RemoveFirst(list, id);
            arena := arena[id := Freed(RolledBack)];
          case RestoreChecked(id) =>
            list := [id] + list;
        }
        todo := todo[1..];
      }
      hooks := hooks - {tx};
    }

    /** The hooks of `bus_transaction_execute_and_free`: only their data is freed. */
    method ExecuteTransaction(tx: TxId)
      requires tx in hooks && Commit(Replies(), hooks[tx]).Some?
      modifies this
      ensures hooks == old(hooks) - {tx}
      ensures Commit(old(Replies()), old(hooks[tx])) == Some(Replies())
    {
      var todo := hooks[tx];
      while todo != []
        invariant Commit(Replies(), todo) == Commit(old(Replies()), old(hooks[tx])) && Commit(Replies(), todo).Some?
        invariant hooks == old(hooks)
      {
        if todo[0].RestoreChecked? {
          arena := arena[todo[0].id := Freed(Answered)];
        }
        todo := todo[1..];
      }
      hooks := hooks - {tx};
    }

    /** `bus_connection_drop_pending_replies` */
    method DropPendingReplies(conn: ConnId)
      modifies this
      ensures hooks == old(hooks)
      ensures Replies() == DropFrom(old(Replies()), 0, conn)
    {
      var i := 0;
      while i < |list|
        invariant i <= |list|
        invariant DropFrom(Replies(), i, conn) == DropFrom(old(Replies()), 0, conn)
        invariant hooks == old(hooks)
        decreases |list| - i
      {
        var id := list[i];
        var p := Lookup(arena, id);
        if p.Some? && p.value.willGetReply == conn {
          list := list[..i] + list[i + 1..];
          arena := arena[id := Freed(CallerGone)];
        } else {
          if p.Some? && p.value.willSendReply == Some(conn) {
            arena := arena[id := Live(p.value.(willSendReply := None, addedAt := 0))];
          }
          i := i + 1;
        }
      }
    }

    /** `do_expiration_with_current_time` with `bus_pending_reply_expired`; errors are those handed to the driver. */
    method ExpireReplies(now: Time, budget: nat) returns (errors: seq<NoReplyError>)
      modifies this
      ensures hooks == old(hooks)
      ensures Replies() == ExpireFrom(old(Replies()), 0, now, timeout, budget)
      ensures errors == ExpireErrors(old(Replies()), 0, now, timeout, budget)
    {
      var i, left := 0, budget;
      errors := [];
      while i < |list|
        invariant i <= |list|
        invariant ExpireFrom(Replies(), i, now, timeout, left) == ExpireFrom(old(Replies()), 0, now, timeout, budget)
        invariant errors + ExpireErrors(Replies(), i, now, timeout, left)
               == ExpireErrors(old(Replies()), 0, now, timeout, budget)
        invariant hooks == old(hooks)
        decreases |list| - i
      {
        var id := list[i];
        if IsDue(arena, id, now, timeout) {
          if left == 0 {
            break;
          }
          left := left - 1;
          errors := errors + [NoReplyError(arena[id].pending.willGetReply, arena[id].pending.replySerial)];
          list := list[..i] + list[i + 1..];
          arena := arena[id := Freed(TimedOut)];
        } else {
          i := i + 1;
        }
      }
    }
  }
}
