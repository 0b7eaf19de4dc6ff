/** Messages that were held back for a service: which of them a request for its name sends on, and to whose outbox. */
module HeldBackMessages {
  import opened BusTypes
  import opened Activations
  import opened ActivationReplies
  import opened Appearances
  import ARP = ActivationRepliesProofs
  import D = Dispatch
  import DP = DispatchProofs
  import PR = PendingReplies
  import T = Transactions

  function ForwardOf(w: Waiter, r: Recipient, auto: Auto): seq<Message> {
    if w.auto && r.connected && auto.link.connected then [w.message] else []
  }

  /** What is sent on to the owner for those who wait, in the order they asked. */
  function Forwards(waiters: seq<Waiter>, recipients: seq<Recipient>, autos: seq<Auto>): seq<Message>
    requires |recipients| == |waiters| == |autos|
  {
    if waiters == [] then []
    else ForwardOf(waiters[0], recipients[0], autos[0]) + Forwards(waiters[1..], recipients[1..], autos[1..])
  }

  // ---------------------------------------------------------------------------------------------
  // In the transaction

  /** One message: the owner's queue gains it if it gets there, and only memory fails after that. */
  ghost predicate SentOnce(a: D.Attempt, one: D.Attempt, tx: TxId, owner: ConnId, sent: bool, m: Message) {
    && owner in a.net.queues && owner in one.net.queues
    && T.MessagesOf(one.net.queues[owner], tx)
       == T.MessagesOf(a.net.queues[owner], tx) + (if sent then [m] else [])
  }

  lemma DispatchForwards(a: D.Attempt, tx: TxId, w: Waiter, owner: ConnId, auto: Auto, max: int)
    requires tx in a.net.connections && Deliverable(a.net.queues.Keys, owner, auto) && owner in a.net.queues
    ensures var one := D.DispatchMatches(a, tx, Some(w.conn), Some(owner), w.message, auto.v, auto.link, auto.listeners,
                                         max);
            var queued := GetsQueued(a, tx, w, owner, auto, max);
            && (one.failure.None? ==> queued) && (queued ==> one.failure in {None, Some(OutOfMemory)})
            && SentOnce(a, one, tx, owner, queued && auto.link.connected, w.message)
  {
    var (sender, m) := (Some(w.conn), w.message);
    var gate := D.Gate(a.replies, a.hooks, sender, Some(owner), Some(owner), m, auto.v, max);
    var net := T.Send(a.net, tx, owner, m, auto.link.connected, auto.link.fault).0;
    assert ([T.ToSend(tx, m)] + a.net.queues[owner])[1..] == a.net.queues[owner];
    if GetsQueued(a, tx, w, owner, auto, max) {
      QueuedThenMemory(a, tx, w, owner, auto, max);
      if auto.listeners.Some? {
        DP.ListenersElsewhere(D.Attempt(gate.replies, gate.hooks, net, None), tx, sender, owner, m,
                              auto.listeners.value, max);
      }
    }
  }

  lemma ForwardsFirst(waiters: seq<Waiter>, recipients: seq<Recipient>, autos: seq<Auto>, k: nat)
    requires |recipients| == |waiters| == |autos| && 0 < k <= |waiters|
    ensures Forwards(waiters[..k], recipients[..k], autos[..k])
         == ForwardOf(waiters[0], recipients[0], autos[0])
            + Forwards(waiters[1..][..k - 1], recipients[1..][..k - 1], autos[1..][..k - 1])
  {
    assert waiters[..k][1..] == waiters[1..][..k - 1];
    assert recipients[..k][1..] == recipients[1..][..k - 1];
    assert autos[..k][1..] == autos[1..][..k - 1];
  }

  /** The owner's queue gains exactly what the loop gets through, in order. */
  lemma {:induction false} AutosForward(a: D.Attempt, tx: TxId, waiters: seq<Waiter>, recipients: seq<Recipient>,
                                        owner: ConnId, autos: seq<Auto>, max: int)
    requires tx in a.net.connections && |recipients| == |waiters| == |autos| && owner in a.net.queues
    requires forall auto :: auto in autos ==> Deliverable(a.net.queues.Keys, owner, auto)
    ensures var k := SentOn(a, tx, waiters, recipients, owner, autos, max);
            ARP.Adds(a.net, DispatchAutos(a, tx, waiters, recipients, owner, autos, max).net, tx, owner,
                     Forwards(waiters[..k], recipients[..k], autos[..k]))
    decreases |waiters|
  {
    if waiters != [] {
      var k := SentOn(a, tx, waiters, recipients, owner, autos, max);
      if k > 0 { ForwardsFirst(waiters, recipients, autos, k); }
      if !waiters[0].auto || !recipients[0].connected {
        AutosForward(a, tx, waiters[1..], recipients[1..], owner, autos[1..], max);
      } else {
        assert Deliverable(a.net.queues.Keys, owner, autos[0]);
        DispatchForwards(a, tx, waiters[0], owner, autos[0], max);
        var one := D.DispatchMatches(a, tx, Some(waiters[0].conn), Some(owner), waiters[0].message, autos[0].v,
                                     autos[0].link, autos[0].listeners, max);
        if one.failure.None? {
          AutosForward(one, tx, waiters[1..], recipients[1..], owner, autos[1..], max);
          ARP.AddsThenAdds(a.net, one.net, DispatchAutos(a, tx, waiters, recipients, owner, autos, max).net, tx, owner,
                           ForwardOf(waiters[0], recipients[0], autos[0]),
                           Forwards(waiters[1..][..k - 1], recipients[1..][..k - 1], autos[1..][..k - 1]));
        }
      }
    }
  }

  lemma {:induction false} NothingForNobody(known: set<ConnId>, waiters: seq<Waiter>, recipients: seq<Recipient>,
                                            owner: ConnId, autos: seq<Auto>)
    requires |recipients| == |waiters| == |autos| && owner !in known
    requires forall auto :: auto in autos ==> Deliverable(known, owner, auto)
    ensures Forwards(waiters, recipients, autos) == []
    decreases |waiters|
  {
    if waiters != [] {
      assert Deliverable(known, owner, autos[0]);
      NothingForNobody(known, waiters[1..], recipients[1..], owner, autos[1..]);
    }
  }

  // ---------------------------------------------------------------------------------------------
  // In the outbox

  /** What the request for the name sends on to the owner. */
  function ForwardsOf(a: Activations, b: D.Bus, e: Appearance, isNew: bool, max: int): seq<Message>
    requires CanAppear(a, b, e)
  {
    var k := SentOnIn(a, b, e, isNew, max);
    Forwards(WaitersFor(a, e.service)[..k], e.recipients[..k], e.autos[..k])
  }

  /** The transaction holds these messages for a connection, among others. */
  ghost predicate HoldsThese(n: T.Net, tx: TxId, conn: ConnId, these: seq<Message>) {
    conn in n.queues && multiset(these) <= multiset(T.MessagesOf(n.queues[conn], tx))
  }

  lemma LongerHolds(n: T.Net, n': T.Net, tx: TxId, conn: ConnId, these: seq<Message>)
    requires HoldsThese(n, tx, conn, these) && ARP.Longer(n, n', tx)
    ensures HoldsThese(n', tx, conn, these)
  {
    var (before, after) := (T.MessagesOf(n.queues[conn], tx), T.MessagesOf(n'.queues[conn], tx));
    assert after == before + after[|before|..];
  }

  lemma HeldBackHolds(a: Activations, b: D.Bus, e: Appearance, isNew: bool, max: int)
    requires CanAppear(a, b, e) && e.owner in b.net.queues
    ensures HoldsThese(HeldBack(a, b, e, isNew, max).net, e.request.tx, e.owner, ForwardsOf(a, b, e, isNew, max))
  {
    var (net, told) := Ensure(a, b, e, isNew);
    if told && e.registered {
      AutosForward(D.Attempt(b.replies, [], net, None), e.request.tx, WaitersFor(a, e.service), e.recipients, e.owner,
                   e.autos, max);
    }
  }

  lemma AppearingHolds(a: Activations, b: D.Bus, e: Appearance, isNew: bool, max: int)
    requires DP.BusInv(b, max) && CanAppear(a, b, e) && e.owner in b.net.queues
    ensures HoldsThese(Appearing(a, b, e, isNew, max).1.net, e.request.tx, e.owner, ForwardsOf(a, b, e, isNew, max))
  {
    var (sent, attempt) := (HeldBack(a, b, e, isNew, max), Appearing(a, b, e, isNew, max).1);
    HeldBackHolds(a, b, e, isNew, max);
    if attempt.net != sent.net {
      var ops := ARP.HeldBackAdds(a, b, e, isNew, max);
      ARP.DriverAdds(b.net, sent.net, e.request.tx, e.request.sender, NameReply(e.request.m), e.reply);
      LongerHolds(sent.net, attempt.net, e.request.tx, e.owner, ForwardsOf(a, b, e, isNew, max));
    }
  }

  /** A connection was sent these messages, and nothing that it was sent before is taken back. */
  ghost predicate Gains(n: T.Net, n': T.Net, conn: ConnId, these: seq<Message>) {
    multiset(T.Outbox(n, conn)) + multiset(these) <= multiset(T.Outbox(n', conn))
  }

  lemma EndedGains(n: T.Net, open: T.Net, n': T.Net, tx: TxId, conn: ConnId, these: seq<Message>)
    requires DP.Ended(n, open, n', tx, true) && HoldsThese(open, tx, conn, these)
    ensures Gains(n, n', conn, these)
  {
    assert T.Outbox(n', conn) == T.Outbox(n, conn) + DP.SentTo(open, tx, true, conn);
  }

  /** When the request for the name is executed, the owner is sent what was sent on to it. */
  lemma AppearForwards(a: Activations, b: D.Bus, e: Appearance, isNew: bool, limits: PR.Limits)
    requires DP.BusInv(b, limits.maxReplies) && CanAppear(a, b, e) && Executed(a, b, e, isNew, limits.maxReplies)
    ensures var b' := Appear(a, b, e, isNew, limits.maxReplies).1;
            b'.Some? && Gains(b.net, b'.value.net, e.owner, ForwardsOf(a, b, e, isNew, limits.maxReplies))
  {
    var (max, tx) := (limits.maxReplies, e.request.tx);
    var ops := ARP.AppearingAdds(a, b, e, isNew, max);
    var attempt := Appearing(a, b, e, isNew, max).1;
    var reported := D.Report(attempt, e.request).0;
    ARP.ReportAdds(b.net, attempt, e.request);
    DP.ConcludeKeeps(b, reported, tx, ops, true, limits);
    var (n', these) := (D.Conclude(reported, tx, true).value.net, ForwardsOf(a, b, e, isNew, max));
    if e.owner in b.net.queues {
      AppearingHolds(a, b, e, isNew, max);
      LongerHolds(attempt.net, reported.net, tx, e.owner, these);
      EndedGains(b.net, reported.net, n', tx, e.owner, these);
    } else {
      var k := SentOnIn(a, b, e, isNew, max);
      NothingForNobody(b.net.queues.Keys, WaitersFor(a, e.service)[..k], e.recipients[..k], e.owner, e.autos[..k]);
      assert T.Outbox(n', e.owner) == T.Outbox(b.net, e.owner) + DP.SentTo(reported.net, tx, true, e.owner);
    }
  }
}
