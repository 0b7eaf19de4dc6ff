/** What each turn of the main loop but a message does to the bus: a connection that comes or goes, and the expiry. */
module BusTurns {
  import opened BusTypes
  import opened Dispatch
  import opened DispatchProofs
  import Expiry = ReplyExpiry
  import PR = PendingReplies
  import Proofs = PendingRepliesProofs
  import T = Transactions

  lemma TurnConnects(b: Bus, conn: ConnId, limits: PR.Limits)
    requires conn !in b.net.queues
    ensures var turned := Turn(b, Connected(conn), limits);
            && turned.Some? && turned.value.replies == b.replies
            && turned.value.net == b.net.(queues := b.net.queues[conn := []])
  {
  }

  /** What is left of a pending reply when a connection has gone: none of its own, and those it owed are dated zero. */
  predicate Forgets(arena: seq<PR.Cell>, arena': seq<PR.Cell>, id: PendingId, conn: ConnId)
    requires id < |arena| == |arena'|
  {
    match arena[id]
    case Freed(_) => arena'[id] == arena[id]
    case Live(p) =>
      if p.willGetReply == conn then arena'[id] == PR.Freed(PR.CallerGone)
      else if p.willSendReply == Some(conn) then arena'[id] == PR.Live(p.(willSendReply := None, addedAt := 0))
      else arena'[id] == arena[id]
  }

  lemma {:induction false} DropEndings(r: PR.Replies, i: nat, conn: ConnId)
    requires i <= |r.list|
    ensures var r' := PR.DropFrom(r, i, conn);
            |r'.arena| == |r.arena| && forall id: PendingId :: id < |r.arena| && r'.arena[id].Freed? ==>
              r'.arena[id] == if r.arena[id].Freed? then r.arena[id] else PR.Freed(PR.CallerGone)
    decreases |r.list| - i
  {
    if i < |r.list| {
      var next := PR.DropOne(r, i, conn);
      DropEndings(next, if |next.list| < |r.list| then i else i + 1, conn);
    }
  }

  lemma ForgetsOne(r: PR.Replies, r': PR.Replies, id: PendingId, conn: ConnId)
    requires id < |r.arena| == |r'.arena|
    requires PR.Lookup(r'.arena, id) == Proofs.AfterDrop(PR.Lookup(r.arena, id), conn)
    requires r'.arena[id].Freed? ==>
               r'.arena[id] == if r.arena[id].Freed? then r.arena[id] else PR.Freed(PR.CallerGone)
    ensures Forgets(r.arena, r'.arena, id, conn)
  {
  }

  /** A connection that goes takes its pending replies and its data along, and nobody is sent anything. */
  lemma TurnForgets(b: Bus, conn: ConnId, limits: PR.Limits)
    requires Quiet(b, limits.maxReplies) && conn in b.net.queues
    ensures var turned := Turn(b, Disconnected(conn), limits);
            && turned.Some?
            && PR.Step(b.replies, PR.Disconnect(conn), limits) == Some(turned.value.replies)
            && turned.value.net.queues == b.net.queues - {conn} && turned.value.net.outbox == b.net.outbox
            && |turned.value.replies.arena| == |b.replies.arena|
            && forall id: PendingId :: id < |b.replies.arena| ==>
                 Forgets(b.replies.arena, turned.value.replies.arena, id, conn)
  {
    var r' := PR.DropFrom(b.replies, 0, conn);
    Proofs.DropEffect(b.replies, 0, conn, limits.maxReplies);
    DropEndings(b.replies, 0, conn);
    T.DropEffect(b.net, conn);
    forall id: PendingId | id < |b.replies.arena| ensures Forgets(b.replies.arena, r'.arena, id, conn) {
      ForgetsOne(b.replies, r', id, conn);
    }
  }

  /** An expiry ends the calls whose time is up by the timeout of the limits, and leaves all else. */
  lemma TurnExpires(b: Bus, now: Time, budget: nat, limits: PR.Limits)
    requires Quiet(b, limits.maxReplies)
    ensures var turned := Turn(b, Expired(now, budget), limits);
            && turned.Some? && turned.value.net == b.net
            && PR.Step(b.replies, PR.Expire(now, budget), limits) == Some(turned.value.replies)
            && Expiry.EndsThese(b.replies, turned.value.replies,
                                Expiry.AtMost(Expiry.Overdue(b.replies.arena, b.replies.list, now, limits.timeout),
                                              budget),
                                PR.ExpireErrors(b.replies, 0, now, limits.timeout, budget))
  {
    Expiry.ExpireExactly(b.replies, limits.maxReplies, now, limits.timeout, budget);
  }
}
