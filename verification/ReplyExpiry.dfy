/** The expiry of pending replies, on their fields and the clock: which calls end, and who is told. */
module ReplyExpiry {
  import opened BusTypes
  import opened Lists
  import opened PendingReplies
  import opened PendingRepliesProofs

  /** Its time is up: it was dated zero, or the timeout is set and has passed since it was recorded. */
  predicate TimeUp(p: PendingReply, now: Time, timeout: int) {
    p.addedAt == 0 || (timeout > 0 && now - p.addedAt >= 1000 * timeout)
  }

  predicate IsOverdue(arena: seq<Cell>, id: PendingId, now: Time, timeout: int) {
    id < |arena| && arena[id].Live? && TimeUp(arena[id].pending, now, timeout)
  }

  /** The listed calls whose time is up, in order. */
  function Overdue(arena: seq<Cell>, list: seq<PendingId>, now: Time, timeout: int): (ids: seq<PendingId>)
    ensures |ids| <= |list| && forall id :: id in ids <==> id in list && IsOverdue(arena, id, now, timeout)
  {
    if list == [] then []
    else (if IsOverdue(arena, list[0], now, timeout) then [list[0]] else []) + Overdue(arena, list[1..], now, timeout)
  }

  predicate AreLive(arena: seq<Cell>, ids: seq<PendingId>) {
    forall i :: 0 <= i < |ids| ==> Lookup(arena, ids[i]).Some?
  }

  /** One error for each of these calls, for its caller and with its serial. */
  function ErrorsFor(arena: seq<Cell>, ids: seq<PendingId>): seq<NoReplyError>
    requires AreLive(arena, ids)
  {
    seq(|ids|, i requires 0 <= i < |ids| =>
          var p := Lookup(arena, ids[i]).value; NoReplyError(p.willGetReply, p.replySerial))
  }

  /** These calls are over, and nothing else has changed. */
  ghost predicate EndsOnly(r: Replies, r': Replies, ended: seq<PendingId>) {
    && |r'.arena| == |r.arena|
    && (forall id: PendingId :: id < |r.arena| ==>
          r'.arena[id] == if id in ended then Freed(TimedOut) else r.arena[id])
    && forall id :: id in r'.list <==> id in r.list && id !in ended
  }

  /** So they are, with an error each. */
  ghost predicate EndsThese(r: Replies, r': Replies, ended: seq<PendingId>, errors: seq<NoReplyError>) {
    AreLive(r.arena, ended) && errors == ErrorsFor(r.arena, ended) && EndsOnly(r, r', ended)
  }

  function AtMost(ids: seq<PendingId>, budget: nat): seq<PendingId> {
    if |ids| <= budget then ids else ids[..budget]
  }

  lemma DueIsOverdue(arena: seq<Cell>, id: PendingId, now: Time, timeout: int)
    ensures IsDue(arena, id, now, timeout) <==> IsOverdue(arena, id, now, timeout)
  {
  }

  lemma {:induction false} OverdueSame(arena: seq<Cell>, arena': seq<Cell>, list: seq<PendingId>, now: Time,
                                       timeout: int)
    requires forall id :: id in list ==> Lookup(arena', id) == Lookup(arena, id)
    ensures Overdue(arena', list, now, timeout) == Overdue(arena, list, now, timeout)
  {
    if list != [] {
      assert list[0] in list;
      OverdueSame(arena, arena', list[1..], now, timeout);
    }
  }

  lemma UnlinkedRest(list: seq<PendingId>, i: nat)
    requires NoRepeats(list) && i < |list|
    ensures NoRepeats(Unlink(list, i)) && Unlink(list, i)[i..] == list[i + 1..]
    ensures forall x :: x in Unlink(list, i) <==> x in list && x != list[i]
  {
    var rest := Unlink(list, i);
    forall j | 0 <= j < |rest| ensures rest[j] == if j < i then list[j] else list[j + 1] {}
    forall x | x in list && x != list[i] ensures x in rest {
      var j :| 0 <= j < |list| && list[j] == x;
      assert rest[if j < i then j else j - 1] == x;
    }
  }

  ghost predicate AllLive(r: Replies) {
    NoRepeats(r.list) && AreLive(r.arena, r.list)
  }

  /** Ending one call first and then others ends them all. */
  lemma EndsOneMore(r: Replies, r': Replies, id: PendingId, i: nat, rest: seq<PendingId>)
    requires NoRepeats(r.list) && i < |r.list| && r.list[i] == id && id < |r.arena|
    requires EndsOnly(Replies(Free(r.arena, id, TimedOut), Unlink(r.list, i)), r', rest)
    ensures EndsOnly(r, r', [id] + rest)
  {
    UnlinkedRest(r.list, i);
  }

  lemma OneMoreError(arena: seq<Cell>, arena': seq<Cell>, id: PendingId, rest: seq<PendingId>)
    requires Lookup(arena, id).Some? && AreLive(arena', rest)
    requires forall x: PendingId :: x != id ==> Lookup(arena', x) == Lookup(arena, x)
    requires Lookup(arena', id).None?
    ensures var p := Lookup(arena, id).value;
            && AreLive(arena, [id] + rest)
            && ErrorsFor(arena, [id] + rest) == [NoReplyError(p.willGetReply, p.replySerial)] + ErrorsFor(arena', rest)
  {
    var all := [id] + rest;
    forall i | 0 <= i < |all|
      ensures Lookup(arena, all[i]).Some? && (i > 0 ==> Lookup(arena, all[i]) == Lookup(arena', rest[i - 1]))
    {
      if i > 0 { assert Lookup(arena', rest[i - 1]).Some?; }
    }
  }

  lemma AtMostFirst(id: PendingId, rest: seq<PendingId>, budget: nat)
    ensures AtMost([id] + rest, budget) == if budget == 0 then [] else [id] + AtMost(rest, budget - 1)
  {
  }

  lemma StillLive(r: Replies, i: nat)
    requires AllLive(r) && i < |r.list|
    ensures r.list[i] < |r.arena| && AllLive(Replies(Free(r.arena, r.list[i], TimedOut), Unlink(r.list, i)))
  {
    var id := r.list[i];
    assert Lookup(r.arena, id).Some?;
    var next := Replies(Free(r.arena, id, TimedOut), Unlink(r.list, i));
    UnlinkedRest(r.list, i);
    forall j | 0 <= j < |next.list| ensures Lookup(next.arena, next.list[j]).Some? {
      assert next.list[j] in next.list && next.list[j] == r.list[if j < i then j else j + 1];
    }
  }

  /** The calls that a scan from position i on is to end. */
  function ToEnd(r: Replies, i: nat, now: Time, timeout: int, budget: nat): seq<PendingId>
    requires i <= |r.list|
  {
    AtMost(Overdue(r.arena, r.list[i..], now, timeout), budget)
  }

  lemma ToEndSkips(r: Replies, i: nat, now: Time, timeout: int, budget: nat)
    requires i < |r.list| && !IsOverdue(r.arena, r.list[i], now, timeout)
    ensures ToEnd(r, i, now, timeout, budget) == ToEnd(r, i + 1, now, timeout, budget)
  {
    assert r.list[i..][1..] == r.list[i + 1..];
    assert [] + Overdue(r.arena, r.list[i + 1..], now, timeout) == Overdue(r.arena, r.list[i + 1..], now, timeout);
  }

  /** The scan comes to a call whose time is up. */
  lemma ToEndFirst(r: Replies, i: nat, now: Time, timeout: int, budget: nat)
    requires AllLive(r) && i < |r.list| && IsOverdue(r.arena, r.list[i], now, timeout) && budget > 0
    ensures var next := Replies(Free(r.arena, r.list[i], TimedOut), Unlink(r.list, i));
            ToEnd(r, i, now, timeout, budget) == [r.list[i]] + ToEnd(next, i, now, timeout, budget - 1)
  {
    var id := r.list[i];
    var next := Replies(Free(r.arena, id, TimedOut), Unlink(r.list, i));
    UnlinkedRest(r.list, i);
    assert r.list[i..][1..] == r.list[i + 1..];
    forall x | x in r.list[i + 1..] ensures Lookup(next.arena, x) == Lookup(r.arena, x) { assert x in next.list; }
    OverdueSame(r.arena, next.arena, r.list[i + 1..], now, timeout);
    AtMostFirst(id, Overdue(r.arena, r.list[i + 1..], now, timeout), budget);
  }

  /** From position i on, the scan ends the calls whose time is up, in order, for as long as memory lasts. */
  lemma {:induction false} ScanEnds(r: Replies, i: nat, now: Time, timeout: int, budget: nat)
    requires AllLive(r) && i <= |r.list|
    ensures EndsThese(r, ExpireFrom(r, i, now, timeout, budget), ToEnd(r, i, now, timeout, budget),
                      ExpireErrors(r, i, now, timeout, budget))
    decreases |r.list| - i
  {
    if i < |r.list| {
      var id := r.list[i];
      DueIsOverdue(r.arena, id, now, timeout);
      if !IsOverdue(r.arena, id, now, timeout) {
        ToEndSkips(r, i, now, timeout, budget);
        ScanEnds(r, i + 1, now, timeout, budget);
      } else if budget == 0 {
        assert ToEnd(r, i, now, timeout, budget) == [];
      } else {
        StillLive(r, i);
        ScanEnds(Replies(Free(r.arena, id, TimedOut), Unlink(r.list, i)), i, now, timeout, budget - 1);
        ScanEndsOne(r, i, now, timeout, budget);
      }
    }
  }

  lemma ScanEndsOne(r: Replies, i: nat, now: Time, timeout: int, budget: nat)
    requires AllLive(r) && i < |r.list| && IsOverdue(r.arena, r.list[i], now, timeout) && budget > 0
    requires var next := Replies(Free(r.arena, r.list[i], TimedOut), Unlink(r.list, i));
             i <= |next.list|
             && EndsThese(next, ExpireFrom(next, i, now, timeout, budget - 1), ToEnd(next, i, now, timeout, budget - 1),
                          ExpireErrors(next, i, now, timeout, budget - 1))
    ensures EndsThese(r, ExpireFrom(r, i, now, timeout, budget), ToEnd(r, i, now, timeout, budget),
                      ExpireErrors(r, i, now, timeout, budget))
  {
    var (id, next) := (r.list[i], Replies(Free(r.arena, r.list[i], TimedOut), Unlink(r.list, i)));
    var rest := ToEnd(next, i, now, timeout, budget - 1);
    DueIsOverdue(r.arena, id, now, timeout);
    ToEndFirst(r, i, now, timeout, budget);
    EndsOneMore(r, ExpireFrom(next, i, now, timeout, budget - 1), id, i, rest);
    OneMoreError(r.arena, next.arena, id, rest);
  }

  lemma ReachableIsLive(r: Replies, max: int)
    requires Inv(r, multiset{}, max)
    ensures AllLive(r)
  {
    ListedAreLive(r, multiset{});
    forall id | id in r.list ensures multiset(r.list)[id] == 1 {
      assert multiset(r.list)[id] + multiset{}[id] == if Lookup(r.arena, id).Some? then 1 else 0;
    }
    NoRepeatsCounts(r.list);
  }

  /**
   Expiry ends exactly the calls whose time is up, with one error each for its caller, in the order of the list, for as
   long as memory lasts; every other call is as it was.
   */
  lemma ExpireExactly(r: Replies, max: int, now: Time, timeout: int, budget: nat)
    requires Inv(r, multiset{}, max)
    ensures EndsThese(r, ExpireFrom(r, 0, now, timeout, budget),
                      AtMost(Overdue(r.arena, r.list, now, timeout), budget), ExpireErrors(r, 0, now, timeout, budget))
  {
    ReachableIsLive(r, max);
    assert r.list[0..] == r.list;
    ScanEnds(r, 0, now, timeout, budget);
  }

  /** A call that is still to be answered ends if and only if it was dated zero or the timeout is set and has passed. */
  lemma WaitingEndsIff(r: Replies, max: int, now: Time, timeout: int, budget: nat, id: PendingId)
    requires Inv(r, multiset{}, max) && id in r.list && budget >= |r.list|
    ensures Lookup(r.arena, id).Some?
    ensures var p := r.arena[id].pending;
            var r' := ExpireFrom(r, 0, now, timeout, budget);
            && id < |r'.arena|
            && if p.addedAt == 0 || (timeout > 0 && now - p.addedAt >= 1000 * timeout)
               then r'.arena[id] == Freed(TimedOut) && id !in r'.list
               else r'.arena[id] == Live(p) && id in r'.list
  {
    ReachableIsLive(r, max);
    ExpireExactly(r, max, now, timeout, budget);
  }

  lemma {:induction false} OverdueOnce(arena: seq<Cell>, list: seq<PendingId>, now: Time, timeout: int)
    requires NoRepeats(list)
    ensures NoRepeats(Overdue(arena, list, now, timeout))
  {
    if list != [] {
      var rest := list[1..];
      assert forall i :: 0 <= i < |rest| ==> rest[i] == list[i + 1];
      assert NoRepeats(rest) && list[0] !in rest;
      OverdueOnce(arena, rest, now, timeout);
      var more := Overdue(arena, rest, now, timeout);
      assert list[0] !in more;
    }
  }

  lemma {:induction false} NoLonger(list: seq<PendingId>, keep: PendingId -> bool)
    ensures |Filter(list, keep)| <= |list|
  {
    if list != [] { NoLonger(list[1..], keep); }
  }

  /**
   A call whose callee is gone ends at the next expiry that memory lasts for, whatever the timeout, and exactly one of
   the errors is for it.
   */
  lemma GoneCalleeIsTold(r: Replies, max: int, callee: ConnId, now: Time, timeout: int, budget: nat, id: PendingId)
    requires Inv(r, multiset{}, max) && budget >= |r.list| && id in r.list && id < |r.arena| && r.arena[id].Live?
    requires r.arena[id].pending.willSendReply == Some(callee) && r.arena[id].pending.willGetReply != callee
    ensures var p := r.arena[id].pending;
            var dropped := DropFrom(r, 0, callee);
            var r' := ExpireFrom(dropped, 0, now, timeout, budget);
            var errors := ExpireErrors(dropped, 0, now, timeout, budget);
            var ended := Overdue(dropped.arena, dropped.list, now, timeout);
            && id < |r'.arena| && r'.arena[id] == Freed(TimedOut) && id !in r'.list
            && EndsThese(dropped, r', ended, errors) && NoRepeats(ended)
            && exists k :: 0 <= k < |ended| == |errors| && ended[k] == id
                           && errors[k] == NoReplyError(p.willGetReply, p.replySerial)
  {
    var dropped := DropFrom(r, 0, callee);
    DropEffect(r, 0, callee, max);
    assert Lookup(r.arena, id).Some?;
    assert Lookup(dropped.arena, id) == AfterDrop(Lookup(r.arena, id), callee);
    NoLonger(r.list, Survives(r.arena, callee));
    assert Survives(r.arena, callee)(id) && id in dropped.list;
    ExpireExactly(dropped, max, now, timeout, budget);
    ReachableIsLive(dropped, max);
    OverdueOnce(dropped.arena, dropped.list, now, timeout);
    var ended := Overdue(dropped.arena, dropped.list, now, timeout);
    assert id in ended;
    var k :| 0 <= k < |ended| && ended[k] == id;
    var p := r.arena[id].pending;
    assert ErrorsFor(dropped.arena, ended)[k] == NoReplyError(p.willGetReply, p.replySerial);
  }

  lemma OnlyThisAwaits(r: Replies, after: Replies, ended: seq<PendingId>, key: CallKey, id: PendingId)
    requires UniqueKeys(r) && EndsOnly(r, after, ended) && id in r.list && AwaitsKey(r.arena, id, key)
    ensures Outstanding(after, key) <==> id in after.list
  {
    forall x | x in after.list && AwaitsKey(after.arena, x, key) ensures x == id {
      assert x in r.list && AwaitsKey(r.arena, x, key);
    }
    if id in after.list { assert AwaitsKey(after.arena, id, key); }
  }

  /**
   A call that is recorded now is outstanding until its reply, its caller's or its callee's end, or the first expiry
   that memory lasts for with the timeout set and passed since; at the clock's zero it would expire at once.
   */
  lemma RecordedThenExpires(r: Replies, key: CallKey, max: int, recorded: Time, now: Time, timeout: int, budget: nat)
    requires Inv(r, multiset{}, max) && budget > |r.list|
    requires Expect(r, [], key, false, max, recorded, AllSucceed).2 == Recorded
    ensures var r' := Expect(r, [], key, false, max, recorded, AllSucceed).0;
            && Outstanding(r', key)
            && (Outstanding(ExpireFrom(r', 0, now, timeout, budget), key)
                <==> recorded != 0 && !(timeout > 0 && now - recorded >= 1000 * timeout))
  {
    var r' := Expect(r, [], key, false, max, recorded, AllSucceed).0;
    var id := |r.arena|;
    ExpectKeeps(r, [], key, false, max, recorded, AllSucceed);
    assert r'.list[0] == id && AwaitsKey(r'.arena, id, key);
    WaitingEndsIff(r', max, now, timeout, budget, id);
    ExpireExactly(r', max, now, timeout, budget);
    OnlyThisAwaits(r', ExpireFrom(r', 0, now, timeout, budget),
                   AtMost(Overdue(r'.arena, r'.list, now, timeout), budget), key, id);
  }
}
