/** `BusContext` as dispatch.c drives it: the two tables, changed in place, message by message. */
module MessageBus {
  import opened BusTypes
  import opened Dispatch
  import DP = DispatchProofs
  import PR = PendingReplies
  import PendingReplyTable
  import T = Transactions
  import TransactionQueues

  class Context {
    const replies: PendingReplyTable.ReplyTable
    const queues: TransactionQueues.Queues

    constructor (limits: PR.Limits)
      ensures fresh(replies) && fresh(queues)
      ensures replies.Replies() == PR.EMPTY && queues.Net() == T.IDLE && replies.hooks == map[]
      ensures replies.maxReplies == limits.maxReplies && replies.timeout == limits.timeout
      ensures limits.maxReplies >= 0 ==> Idle()
    {
      replies := new PendingReplyTable.ReplyTable(limits);
      queues := new TransactionQueues.Queues();
      new;
      if limits.maxReplies >= 0 {
        DP.BusStarts(limits);
      }
    }

    ghost function Bus(): Bus
      reads this, replies, queues
    {
      Dispatch.Bus(replies.Replies(), queues.Net())
    }

    ghost function Limits(): PR.Limits
      reads this, replies
    {
      PR.Limits(replies.maxReplies, replies.timeout)
    }

    /** Between messages: no transaction is open, and what every run keeps holds. */
    ghost predicate Idle()
      reads this, replies, queues
    {
      DP.BusInv(Bus(), replies.maxReplies) && replies.hooks == map[]
    }

    /** The transaction in progress, as dispatch.c would see it. */
    ghost function Open(tx: TxId, failure: Option<Failure>): Attempt
      requires tx in replies.hooks
      reads this, replies, queues
    {
      Attempt(replies.Replies(), replies.hooks[tx], queues.Net(), failure)
    }

    /** `bus_context_check_security_policy` */
    method CheckSecurityPolicy(tx: TxId, sender: Option<ConnId>, addressed: Option<ConnId>, proposed: Option<ConnId>,
                               m: Message, v: Verdicts)
      returns (requested: bool, failure: Option<Failure>)
      requires tx in replies.hooks
      modifies replies
      ensures tx in replies.hooks && replies.hooks == old(replies.hooks)[tx := replies.hooks[tx]]
      ensures GateResult(replies.Replies(), replies.hooks[tx], requested, failure)
           == Gate(old(replies.Replies()), old(replies.hooks[tx]), sender, addressed, proposed, m, v,
                   replies.maxReplies)
    {
      requested, failure := false, None;
      if m.kind == Unknown {
        failure := Some(Refused);
        return;
      }
      if sender.Some? {
        if !v.selinuxAllows {
          failure := Some(Refused);
          return;
        }
        if v.senderActive {
          if m.replySerial != 0 && proposed.Some? && addressed == proposed {
            var result := replies.CheckReply(tx, ReplyKey(sender.value, proposed.value, m), v.checkMemory);
            if result == PR.CheckOutOfMemory {
              failure := Some(OutOfMemory);
              return;
            }
            requested := result == PR.Requested;
          }
        } else {
          if !(proposed.None? && v.isHello) {
            failure := Some(Refused);
          }
          return;
        }
      } else if addressed == proposed && m.replySerial != 0 {
        requested := true;
      }
      if sender.Some? && !v.canSend.Allows(requested) {
        failure := Some(Refused);
        return;
      }
      if proposed.Some? && !v.canReceive.Allows(requested) {
        failure := Some(RefusedSilently);
        return;
      }
      if proposed.Some? && v.queueFull {
        failure := Some(Refused);
        return;
      }
      if m.kind == MethodCall && sender.Some? && addressed.Some? && addressed == proposed {
        var result := replies.ExpectReply(tx, CallKeyOf(sender.value, addressed.value, m), m.noReply, v.now,
                                          v.expectFault);
        match result {
          case NotWanted =>
          case Recorded =>
          case ExpectOutOfMemory => failure := Some(OutOfMemory);
          case _ => failure := Some(Refused);
        }
      }
    }

    /** `send_one_message` */
    method SendOneMessage(tx: TxId, sender: Option<ConnId>, addressed: Option<ConnId>, m: Message, l: Listener)
      returns (failure: Option<Failure>)
      requires tx in replies.hooks && tx in queues.connections && Reaches(queues.queues.Keys, l.conn, l.link)
      modifies replies, queues
      ensures tx in replies.hooks && replies.hooks == old(replies.hooks)[tx := replies.hooks[tx]]
      ensures Open(tx, failure) == SendOne(old(Open(tx, None)), tx, sender, addressed, m, l, replies.maxReplies)
    {
      var _, refusal := CheckSecurityPolicy(tx, sender, addressed, Some(l.conn), m, l.verdicts);
      if refusal.Some? || (m.hasFds && !l.link.takesFds) {
        return None;
      }
      var ok := queues.Send(tx, l.conn, m, l.link.connected, l.link.fault);
      failure := if ok then None else Some(OutOfMemory);
    }

    /** The loop of `bus_dispatch_matches` over the listeners. */
    method SendToAll(tx: TxId, sender: Option<ConnId>, addressed: Option<ConnId>, m: Message, listeners: seq<Listener>)
      returns (failure: Option<Failure>)
      requires tx in replies.hooks && tx in queues.connections && AllReach(queues.queues.Keys, listeners)
      modifies replies, queues
      ensures tx in replies.hooks && replies.hooks == old(replies.hooks)[tx := replies.hooks[tx]]
      ensures Open(tx, failure)
           == SendToListeners(old(Open(tx, None)), tx, sender, addressed, m, listeners, replies.maxReplies)
    {
      var todo := listeners;
      while todo != []
        invariant tx in replies.hooks && tx in queues.connections && AllReach(queues.queues.Keys, todo)
        invariant replies.hooks == old(replies.hooks)[tx := replies.hooks[tx]]
        invariant SendToListeners(Open(tx, None), tx, sender, addressed, m, todo, replies.maxReplies)
               == SendToListeners(old(Open(tx, None)), tx, sender, addressed, m, listeners, replies.maxReplies)
      {
        assert todo[0] in todo;
        failure := SendOneMessage(tx, sender, addressed, m, todo[0]);
        if failure.Some? {
          return;
        }
        todo := todo[1..];
      }
      failure := None;
    }

    /** `bus_dispatch_matches` */
    method DispatchMatches(tx: TxId, sender: Option<ConnId>, addressed: Option<ConnId>, m: Message, v: Verdicts,
                           link: Link, listeners: Option<seq<Listener>>)
      returns (failure: Option<Failure>)
      requires tx in replies.hooks && tx in queues.connections
      requires addressed.Some? ==> Reaches(queues.queues.Keys, addressed.value, link)
      requires listeners.Some? ==> AllReach(queues.queues.Keys, listeners.value)
      modifies replies, queues
      ensures tx in replies.hooks && replies.hooks == old(replies.hooks)[tx := replies.hooks[tx]]
      ensures Open(tx, failure) == Dispatch.DispatchMatches(old(Open(tx, None)), tx, sender, addressed, m, v, link,
                                                            listeners, replies.maxReplies)
    {
      if addressed.Some? {
        var _, refusal := CheckSecurityPolicy(tx, sender, addressed, addressed, m, v);
        if refusal.Some? {
          return refusal;
        }
        if m.hasFds && !link.takesFds {
          return Some(Refused);
        }
        var ok := queues.Send(tx, addressed.value, m, link.connected, link.fault);
        if !ok {
          return Some(OutOfMemory);
        }
      }
      if listeners.None? {
        return Some(OutOfMemory);
      }
      failure := SendToAll(tx, sender, addressed, m, listeners.value);
    }

    /** The tail of `bus_dispatch`: cancel, or execute. */
    method EndTransaction(tx: TxId, commit: bool)
      requires tx in replies.hooks && Conclude(Open(tx, None), tx, commit).Some?
      modifies replies, queues
      ensures Some(Bus()) == Conclude(old(Open(tx, None)), tx, commit)
      ensures replies.hooks == old(replies.hooks) - {tx}
    {
      if commit {
        queues.ExecuteAndFree(tx);
        replies.ExecuteTransaction(tx);
      } else {
        queues.CancelAndFree(tx);
        replies.CancelTransaction(tx);
      }
    }

    /** `bus_transaction_send_from_driver` */
    method SendFromDriver(tx: TxId, conn: ConnId, m: Message, answer: Answer) returns (ok: bool)
      requires tx in queues.connections && Reaches(queues.queues.Keys, conn, answer.link)
      modifies queues
      ensures (queues.Net(), ok) == FromDriver(old(queues.Net()), tx, conn, m, answer)
    {
      if !answer.made {
        return false;
      }
      if answer.eaten {
        return true;
      }
      ok := queues.Send(tx, conn, m, answer.link.connected, answer.link.fault);
    }

    /** Report a failure to the sender, if there is one and it is still there; says whether to execute. */
    method ReportFailure(e: Incoming, failure: Option<Failure>) returns (commit: bool)
      requires e.tx in replies.hooks && e.tx in queues.connections
               && Reaches(queues.queues.Keys, e.sender, e.answer.link)
      modifies queues
      ensures (Open(e.tx, failure), commit) == Report(old(Open(e.tx, failure)), e)
    {
      if failure.None? || failure == Some(RefusedSilently) || !e.answer.link.connected {
        return true;
      }
      if failure == Some(OutOfMemory) {
        return false;
      }
      commit := SendFromDriver(e.tx, e.sender, ErrorFor(e.m, e.m.body), e.answer);
    }

    /** `bus_dispatch` up to its label out. */
    method AttemptMessage(e: Incoming) returns (failure: Option<Failure>)
      requires e.tx !in replies.hooks && Possible(Bus(), Received(e))
      modifies replies, queues
      ensures e.tx in replies.hooks && replies.hooks == old(replies.hooks)[e.tx := replies.hooks[e.tx]]
      ensures Open(e.tx, failure) == Attempted(old(Bus()), e, replies.maxReplies)
    {
      replies.NewTransaction(e.tx);
      queues.Begin(e.tx);
      failure := DispatchMatches(e.tx, Some(e.sender), e.addressed, e.m, e.v, e.link, e.listeners);
    }

    /** The rest of it. */
    method ReportAndEnd(e: Incoming, failure: Option<Failure>)
      requires e.tx in replies.hooks && e.tx in queues.connections
               && Reaches(queues.queues.Keys, e.sender, e.answer.link)
      requires var (a, commit) := Report(Open(e.tx, failure), e); Conclude(a, e.tx, commit).Some?
      modifies replies, queues
      ensures var (a, commit) := Report(old(Open(e.tx, failure)), e); Some(Bus()) == Conclude(a, e.tx, commit)
      ensures replies.hooks == old(replies.hooks) - {e.tx}
    {
      var commit := ReportFailure(e, failure);
      ConcludeAnyFailure(Open(e.tx, failure), e.tx, commit);
      EndTransaction(e.tx, commit);
    }

    /**
     `bus_dispatch` from the point where the recipient is known.  Its transaction can be ended either way because the
     bus is idle when it begins.
     */
    method DispatchMessage(e: Incoming)
      requires Idle() && Possible(Bus(), Received(e))
      modifies replies, queues
      ensures Idle() && Some(Bus()) == Dispatch.DispatchMessage(old(Bus()), e, replies.maxReplies)
    {
      ghost var ops := DP.DispatchKeeps(Bus(), e, Limits());
      var failure := AttemptMessage(e);
      ReportAndEnd(e, failure);
    }

    /** A connection is gone: its messages, its pending replies and its data go too. */
    method DropConnection(conn: ConnId)
      requires Idle() && Possible(Bus(), Disconnected(conn))
      modifies replies, queues
      ensures Idle() && Some(Bus()) == Dispatch.Turn(old(Bus()), Disconnected(conn), Limits())
    {
      DP.TurnKeeps(Bus(), Disconnected(conn), Limits());
      queues.RemoveTransactions(conn);
      replies.DropPendingReplies(conn);
      queues.TakeDown(conn);
    }

    /** One turn of the main loop: an idle bus stays so, and meets what `Dispatch.Turn` says of it. */
    method Turn(ev: MainLoopEvent)
      requires Idle() && Possible(Bus(), ev)
      modifies replies, queues
      ensures Idle() && Some(Bus()) == Dispatch.Turn(old(Bus()), ev, Limits())
    {
      DP.TurnKeeps(Bus(), ev, Limits());
      match ev
      case Connected(conn) => queues.SetUp(conn);
      case Received(e) => DispatchMessage(e);
      case Disconnected(conn) => DropConnection(conn);
      case Expired(now, budget) => var _ := replies.ExpireReplies(now, budget);
    }
  }

  lemma ConcludeAnyFailure(a: Attempt, tx: TxId, commit: bool)
    ensures Conclude(a, tx, commit) == Conclude(a.(failure := None), tx, commit)
  {
  }
}
