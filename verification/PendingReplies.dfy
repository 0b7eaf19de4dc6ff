/**
 The calls whose replies the bus still allows, as functions on values: what each operation of connection.c does to the
 pending replies and to the cancel hooks of one transaction.

 A `BusPendingReply *` is an index into an arena.  A cell is Live from allocation to free; the reason kept in a freed
 cell is bookkeeping of the model, so that "freed once" and "ended once" can be stated.
 */
module PendingReplies {
  import opened BusTypes
  import opened Lists

  /** A method call as the reply protocol sees it: who gets the reply, who sends it, which serial. */
  datatype CallKey = CallKey(caller: ConnId, callee: ConnId, serial: Serial)

  /** addedAt == 0 is the (0, 0) timestamp that means "expire at once". */
  datatype PendingReply = PendingReply(willGetReply: ConnId, willSendReply: Option<ConnId>, replySerial: Serial,
                                       addedAt: Time)

  datatype Ending =
    | Answered       // a reply was let through as requested
    | TimedOut       // the caller was sent a no-reply error
    | CallerGone     // the caller disconnected
    | RolledBack     // the transaction that recorded the call was cancelled
    | NeverRecorded  // memory ran out while recording the call

  datatype Cell = Live(pending: PendingReply) | Freed(ending: Ending)

  /** The two cancel hooks of the reply protocol. */
  datatype Hook = CancelExpected(id: PendingId) | RestoreChecked(id: PendingId)

  /** `list` is the expire list, first link first. */
  datatype Replies = Replies(arena: seq<Cell>, list: seq<PendingId>)

  const EMPTY := Replies([], [])

  /** What a pointer to a pending reply points to, unless it was freed. */
  function Lookup(arena: seq<Cell>, id: PendingId): Option<PendingReply> {
    if id < |arena| && arena[id].Live? then Some(arena[id].pending) else None
  }

  predicate AwaitsKey(arena: seq<Cell>, id: PendingId, key: CallKey) {
    var p := Lookup(arena, id);
    && p.Some?
    && p.value.replySerial == key.serial && p.value.willGetReply == key.caller
    && p.value.willSendReply == Some(key.callee)
  }

  predicate AwaitedBy(arena: seq<Cell>, id: PendingId, caller: ConnId) {
    var p := Lookup(arena, id);
    p.Some? && p.value.willGetReply == caller
  }

  /** The position of the first link that awaits the key, or |list|. */
  function Find(arena: seq<Cell>, list: seq<PendingId>, key: CallKey): (i: nat)
    ensures i <= |list|
    ensures i < |list| ==> AwaitsKey(arena, list[i], key)
    ensures forall j :: 0 <= j < i ==> !AwaitsKey(arena, list[j], key)
  {
    if list == [] then 0
    else if AwaitsKey(arena, list[0], key) then 0
    else 1 + Find(arena, list[1..], key)
  }

  /** How many links of the list hold a call of this caller. */
  function CountCalls(arena: seq<Cell>, list: seq<PendingId>, caller: ConnId): nat {
    if list == [] then 0
    else (if AwaitedBy(arena, list[0], caller) then 1 else 0) + CountCalls(arena, list[1..], caller)
  }

  function Free(arena: seq<Cell>, id: PendingId, ending: Ending): seq<Cell>
    requires id < |arena|
  {
    arena[id := Freed(ending)]
  }

  /** A newly allocated pending reply at the head of the list. */
  function Record(r: Replies, key: CallKey, now: Time): Replies {
    Replies(r.arena + [Live(PendingReply(key.caller, Some(key.callee), key.serial, now))], [|r.arena|] + r.list)
  }

  datatype ExpectResult = NotWanted | Recorded | DuplicateSerial | LimitExceeded | ExpectOutOfMemory

  /** Which allocation of `bus_connections_expect_reply` fails. */
  datatype ExpectFault = AllSucceed | NoPending | NoHookData | NoListLink | NoHook

  /** `bus_connections_expect_reply`: hooks is the hook list of the transaction, newest first. */
  function Expect(r: Replies, hooks: seq<Hook>, key: CallKey, noReply: bool, max: int, now: Time, fault: ExpectFault)
    : (Replies, seq<Hook>, ExpectResult)
  {
    if noReply then (r, hooks, NotWanted)
    else if Find(r.arena, r.list, key) < |r.list| then (r, hooks, DuplicateSerial)
    else if CountCalls(r.arena, r.list, key.caller) >= max then (r, hooks, LimitExceeded)
    else match fault
      case NoPending => (r, hooks, ExpectOutOfMemory)
      case AllSucceed =>
        (Record(r, key, now), [CancelExpected(|r.arena|)] + hooks, Recorded)
      case _ => (r.(arena := r.arena + [Freed(NeverRecorded)]), hooks, ExpectOutOfMemory)
  }

  datatype CheckResult = Requested | NotExpected | CheckOutOfMemory

  /** `bus_connections_check_reply` */
  function Check(r: Replies, hooks: seq<Hook>, key: CallKey, memory: bool): (Replies, seq<Hook>, CheckResult) {
    var i := Find(r.arena, r.list, key);
    if i == |r.list| then (r, hooks, NotExpected)
    else if !memory then (r, hooks, CheckOutOfMemory)
    else (r.(list := Unlink(r.list, i)), [RestoreChecked(r.list[i])] + hooks, Requested)
  }

  /** The cancel functions of a hook list, run in list order; None is a failed assertion of the source. */
  function Cancel(r: Replies, hooks: seq<Hook>): Option<Replies>
    decreases |hooks|
  {
    if hooks == [] then Some(r)
    else match hooks[0]
      case CancelExpected(id) =>
        if id in r.list && Lookup(r.arena, id).Some?
        then Cancel(Replies(Free(r.arena, id, RolledBack), RemoveFirst(r.list, id)), hooks[1..])
        else None
      case RestoreChecked(id) => Cancel(r.(list := [id] + r.list), hooks[1..])
  }

  /** The free functions of a hook list when the transaction was executed. */
  function Commit(r: Replies, hooks: seq<Hook>): Option<Replies>
    decreases |hooks|
  {
    if hooks == [] then Some(r)
    else match hooks[0]
      case CancelExpected(_) => Commit(r, hooks[1..])
      case RestoreChecked(id) =>
        if id !in r.list && Lookup(r.arena, id).Some?
        then Commit(r.(arena := Free(r.arena, id, Answered)), hooks[1..])
        else None
  }

  /** One turn of the loop of `bus_connection_drop_pending_replies`, at link i. */
  function DropOne(r: Replies, i: nat, conn: ConnId): Replies
    requires i < |r.list|
  {
    match Lookup(r.arena, r.list[i])
    case None => r
    case Some(p) =>
      if p.willGetReply == conn then Replies(Free(r.arena, r.list[i], CallerGone), Unlink(r.list, i))
      else if p.willSendReply == Some(conn) then
        r.(arena := r.arena[r.list[i] := Live(p.(willSendReply := None, addedAt := 0))])
      else r
  }

  /** `bus_connection_drop_pending_replies`, the links from position i on. */
  function DropFrom(r: Replies, i: nat, conn: ConnId): Replies
    decreases |r.list| - i
  {
    if i >= |r.list| then r
    else
      var next := DropOne(r, i, conn);
      DropFrom(next, if |next.list| < |r.list| then i else i + 1, conn)
  }

  predicate IsDue(arena: seq<Cell>, id: PendingId, now: Time, timeout: int) {
    var p := Lookup(arena, id);
    p.Some? && (p.value.addedAt == 0 || (timeout > 0 && now - p.value.addedAt >= timeout * 1000))
  }

  /**
   `do_expiration_with_current_time` from position i on, where the memory lasts for `budget` no-reply errors; the scan
   stops at the first error it cannot send.
   */
  function ExpireFrom(r: Replies, i: nat, now: Time, timeout: int, budget: nat): Replies
    decreases |r.list| - i
  {
    if i >= |r.list| then r
    else if !IsDue(r.arena, r.list[i], now, timeout) then ExpireFrom(r, i + 1, now, timeout, budget)
    else if budget == 0 then r
    else
      ExpireFrom(Replies(Free(r.arena, r.list[i], TimedOut), Unlink(r.list, i)), i, now, timeout, budget - 1)
  }

  /** The no-reply error of `bus_pending_reply_send_no_reply`: who is told, about which call. */
  datatype NoReplyError = NoReplyError(receiver: ConnId, replySerial: Serial)

  /** The no-reply errors that the scan of `ExpireFrom` sends, in order. */
  function ExpireErrors(r: Replies, i: nat, now: Time, timeout: int, budget: nat): seq<NoReplyError>
    decreases |r.list| - i
  {
    if i >= |r.list| then []
    else if !IsDue(r.arena, r.list[i], now, timeout) then ExpireErrors(r, i + 1, now, timeout, budget)
    else if budget == 0 then []
    else
      var p := r.arena[r.list[i]].pending;
      [NoReplyError(p.willGetReply, p.replySerial)]
      + ExpireErrors(Replies(Free(r.arena, r.list[i], TimedOut), Unlink(r.list, i)), i, now, timeout, budget - 1)
  }

  // ---------------------------------------------------------------------------------------------
  // Runs

  datatype ReplyOp =
    | ExpectOp(key: CallKey, noReply: bool, now: Time, fault: ExpectFault)
    | CheckOp(key: CallKey, memory: bool)

  function Apply(r: Replies, hooks: seq<Hook>, op: ReplyOp, max: int): (Replies, seq<Hook>) {
    match op
    case ExpectOp(key, noReply, now, fault) =>
      var (r', hooks', _) := Expect(r, hooks, key, noReply, max, now, fault); (r', hooks')
    case CheckOp(key, memory) =>
      var (r', hooks', _) := Check(r, hooks, key, memory); (r', hooks')
  }

  function ApplyAll(r: Replies, hooks: seq<Hook>, ops: seq<ReplyOp>, max: int): (Replies, seq<Hook>)
    decreases |ops|
  {
    if ops == [] then (r, hooks)
    else
      var (r', hooks') := Apply(r, hooks, ops[0], max);
      ApplyAll(r', hooks', ops[1..], max)
  }

  /** What the main loop does to the pending replies: one transaction at a time, and nothing else meanwhile. */
  datatype Event =
    | Transact(ops: seq<ReplyOp>, commit: bool)
    | Disconnect(conn: ConnId)
    | Expire(now: Time, budget: nat)

  datatype Limits = Limits(maxReplies: int, timeout: int)

  /** None is a failed assertion of the source. */
  function Step(r: Replies, e: Event, limits: Limits): Option<Replies> {
    match e
    case Transact(ops, commit) =>
      var (r', hooks) := ApplyAll(r, [], ops, limits.maxReplies);
      if commit then Commit(r', hooks) else Cancel(r', hooks)
    case Disconnect(conn) => Some(DropFrom(r, 0, conn))
    case Expire(now, budget) => Some(ExpireFrom(r, 0, now, limits.timeout, budget))
  }

  function Run(r: Replies, events: seq<Event>, limits: Limits): Option<Replies>
    decreases |events|
  {
    if events == [] then Some(r)
    else match Step(r, events[0], limits)
      case None => None
      case Some(r') => Run(r', events[1..], limits)
  }
}
