/** The loops of activation.c over the requests that wait, on the queues and transactions of the bus. */
module ActivationMessages {
  import opened BusTypes
  import opened Activations
  import opened ActivationReplies
  import opened ActivationRepliesProofs
  import D = Dispatch
  import MessageBus
  import T = Transactions

  /** `bus_activation_service_created` and the loop of `try_send_activation_failure` */
  method TellWaiters(context: MessageBus.Context, tx: TxId, waiters: seq<Waiter>, recipients: seq<Recipient>,
                     memory: seq<Memory>, word: Word) returns (ok: bool)
    requires tx in context.queues.connections && Present(context.queues.queues.Keys, waiters, recipients)
    requires |memory| == |waiters|
    modifies context.queues
    ensures (context.queues.Net(), ok) == Tell(old(context.queues.Net()), tx, waiters, recipients, memory, word)
  {
    ghost var start := context.queues.Net();
    var i := 0;
    while i < |waiters|
      invariant i <= |waiters| && tx in context.queues.connections
      invariant context.queues.queues.Keys == start.queues.Keys
      invariant Tell(context.queues.Net(), tx, waiters[i..], recipients[i..], memory[i..], word)
             == Tell(start, tx, waiters, recipients, memory, word)
    {
      assert waiters[i..][1..] == waiters[i + 1..] && recipients[i..][1..] == recipients[i + 1..];
      assert memory[i..][1..] == memory[i + 1..];
      if recipients[i].connected {
        if Concerns(waiters[i], word) {
          ok := context.SendFromDriver(tx, waiters[i].conn, Said(waiters[i].message, word),
                                       AnswerTo(recipients[i], memory[i]));
          if !ok {
            return;
          }
        }
      }
      i := i + 1;
    }
    ok := true;
  }

  /** `try_send_activation_failure` */
  method TrySendFailure(context: MessageBus.Context, waiters: seq<Waiter>, recipients: seq<Recipient>, how: string,
                        t: Try)
    returns (ok: bool)
    requires CanTry(context.queues.Net(), waiters, recipients, t)
    requires TryFailure(context.queues.Net(), waiters, recipients, how, t).Some?
    modifies context.queues
    ensures Some((context.queues.Net(), ok)) == TryFailure(old(context.queues.Net()), waiters, recipients, how, t)
  {
    if !t.transactionMade {
      return false;
    }
    context.queues.Begin(t.tx);
    assert context.queues.Net() == Begun(old(context.queues.Net()), t.tx);
    ok := TellWaiters(context, t.tx, waiters, recipients, t.memory, Failure(how));
    if ok {
      context.queues.ExecuteAndFree(t.tx);
    } else {
      context.queues.CancelAndFree(t.tx);
    }
  }

  /**
   The loop of `pending_activation_failed`, for as long as memory lasts out.  Each attempt can be ended either way,
   whatever the ones before it met.
   */
  method KeepTryingToFail(context: MessageBus.Context, waiters: seq<Waiter>, recipients: seq<Recipient>, how: string,
                          tries: seq<Try>) returns (ok: bool)
    requires T.Inv(context.queues.Net()) && Present(context.queues.queues.Keys, waiters, recipients)
    requires forall t :: t in tries ==> Fits(t, waiters) && t.tx !in context.queues.connections
    modifies context.queues
    ensures Some((context.queues.Net(), ok)) == KeepTrying(old(context.queues.Net()), waiters, recipients, how, tries)
    ensures if ok then Told(old(context.queues.Net()), context.queues.Net(), waiters, recipients, Failure(how))
            else context.queues.Net() == old(context.queues.Net())
  {
    ghost var start := context.queues.Net();
    FailureAnswersOnce(start, waiters, recipients, how, tries);
    ok := false;
    var i := 0;
    while i < |tries| && !ok
      invariant i <= |tries| && (!ok ==> context.queues.Net() == start)
      invariant !ok ==> KeepTrying(start, waiters, recipients, how, tries[i..])
                        == KeepTrying(start, waiters, recipients, how, tries)
      invariant ok ==> Some((context.queues.Net(), true)) == KeepTrying(start, waiters, recipients, how, tries)
    {
      assert tries[i..][1..] == tries[i + 1..] && tries[i] in tries;
      TryIsAllOrNothing(start, waiters, recipients, how, tries[i]);
      ok := TrySendFailure(context, waiters, recipients, how, tries[i]);
      i := i + 1;
    }
  }

  /** One turn of the loop of `bus_activation_send_pending_auto_activation_messages`, as the specification sees it. */
  lemma AutosFrom(a: D.Attempt, tx: TxId, waiters: seq<Waiter>, recipients: seq<Recipient>, owner: ConnId,
                  autos: seq<Auto>, i: nat, max: int)
    requires tx in a.net.connections && |recipients| == |waiters| == |autos| && i < |waiters|
    requires forall auto :: auto in autos ==> Deliverable(a.net.queues.Keys, owner, auto)
    ensures var (w, auto) := (waiters[i], autos[i]);
            Deliverable(a.net.queues.Keys, owner, auto)
            && var one := if w.auto && recipients[i].connected
                          then D.DispatchMatches(a, tx, Some(w.conn), Some(owner), w.message, auto.v, auto.link,
                                                 auto.listeners, max)
                          else a;
            DispatchAutos(a, tx, waiters[i..], recipients[i..], owner, autos[i..], max)
            == if one.failure.Some? && w.auto && recipients[i].connected then one
               else DispatchAutos(one, tx, waiters[i + 1..], recipients[i + 1..], owner, autos[i + 1..], max)
  {
    assert autos[i] in autos;
    assert waiters[i..][1..] == waiters[i + 1..] && recipients[i..][1..] == recipients[i + 1..];
    assert autos[i..][1..] == autos[i + 1..];
  }

  /** The loop of `bus_activation_send_pending_auto_activation_messages` */
  method DispatchHeldBack(context: MessageBus.Context, tx: TxId, waiters: seq<Waiter>, recipients: seq<Recipient>,
                          owner: ConnId, autos: seq<Auto>) returns (failure: Option<Failure>)
    requires tx in context.replies.hooks && tx in context.queues.connections && |recipients| == |waiters| == |autos|
    requires forall auto :: auto in autos ==> Deliverable(context.queues.queues.Keys, owner, auto)
    modifies context.replies, context.queues
    ensures tx in context.replies.hooks
    ensures context.replies.hooks == old(context.replies.hooks)[tx := context.replies.hooks[tx]]
    ensures context.Open(tx, failure)
         == DispatchAutos(old(context.Open(tx, None)), tx, waiters, recipients, owner, autos,
                          context.replies.maxReplies)
  {
    ghost var start := context.Open(tx, None);
    var i := 0;
    while i < |waiters|
      invariant i <= |waiters| && tx in context.replies.hooks && tx in context.queues.connections
      invariant context.queues.queues.Keys == start.net.queues.Keys
      invariant context.replies.hooks == old(context.replies.hooks)[tx := context.replies.hooks[tx]]
      invariant DispatchAutos(context.Open(tx, None), tx, waiters[i..], recipients[i..], owner, autos[i..],
                              context.replies.maxReplies)
             == DispatchAutos(start, tx, waiters, recipients, owner, autos, context.replies.maxReplies)
    {
      AutosFrom(context.Open(tx, None), tx, waiters, recipients, owner, autos, i, context.replies.maxReplies);
      if waiters[i].auto && recipients[i].connected {
        failure := context.DispatchMatches(tx, Some(waiters[i].conn), Some(owner), waiters[i].message, autos[i].v,
                                           autos[i].link, autos[i].listeners);
        if failure.Some? {
          return;
        }
      }
      i := i + 1;
    }
    failure := None;
  }
}
