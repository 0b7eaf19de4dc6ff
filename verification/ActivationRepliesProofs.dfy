/** Each request that waits is answered once, however the attempts to answer it fail first; and when that is not so. */
module ActivationRepliesProofs {
  import opened BusTypes
  import opened Lists
  import opened Activations
  import opened ActivationReplies
  import D = Dispatch
  import DP = DispatchProofs
  import PR = PendingReplies
  import PRP = PendingRepliesProofs
  import T = Transactions

  // ---------------------------------------------------------------------------------------------
  // Telling

  /** In one transaction, each connection's messages are those it had and then some. */
  ghost predicate Adds(n: T.Net, n': T.Net, tx: TxId, conn: ConnId, more: seq<Message>) {
    conn in n.queues && conn in n'.queues
    && T.MessagesOf(n'.queues[conn], tx) == T.MessagesOf(n.queues[conn], tx) + more
  }

  lemma AddsThenAdds(n: T.Net, n1: T.Net, n2: T.Net, tx: TxId, conn: ConnId, first: seq<Message>, rest: seq<Message>)
    requires Adds(n, n1, tx, conn, first) && Adds(n1, n2, tx, conn, rest)
    ensures Adds(n, n2, tx, conn, first + rest)
  {
    Regroup(T.MessagesOf(n.queues[conn], tx), first, rest);
  }

  lemma SendAdds(n: T.Net, tx: TxId, conn: ConnId, m: Message, fault: T.SendFault)
    requires tx in n.connections && conn in n.queues
    ensures var (n', ok) := T.Send(n, tx, conn, m, true, fault);
            ok ==> forall c :: c in n.queues ==> Adds(n, n', tx, c, if c == conn then [m] else [])
  {
    assert ([T.ToSend(tx, m)] + n.queues[conn])[1..] == n.queues[conn];
  }

  lemma OneAdds(n: T.Net, tx: TxId, w: Waiter, r: Recipient, memory: Memory, word: Word)
    requires tx in n.connections && (r.connected ==> w.conn in n.queues)
    ensures var (n', ok) := TellOne(n, tx, w, r, memory, word);
            ok ==> forall c :: c in n.queues ==> Adds(n, n', tx, c, AnswerDue(w, r, word, c))
  {
    if r.connected && Concerns(w, word) && memory.made && !r.eaten {
      SendAdds(n, tx, w.conn, Said(w.message, word), memory.fault);
    }
  }

  lemma OneIsTold(base: T.Net, n: T.Net, tx: TxId, w: Waiter, r: Recipient, memory: Memory, word: Word)
    requires DP.Grown(base, n, tx) && (r.connected ==> w.conn in n.queues)
    ensures var (n', ok) := TellOne(n, tx, w, r, memory, word);
            && DP.Grown(base, n', tx)
            && (ok ==> forall c :: c in n.queues ==> Adds(n, n', tx, c, AnswerDue(w, r, word, c)))
  {
    OneAdds(n, tx, w, r, memory, word);
    if r.connected && Concerns(w, word) && memory.made && !r.eaten {
      DP.SendGrows(base, n, tx, w.conn, Said(w.message, word), AnswerTo(r, memory).link);
    }
  }

  /** If memory lasts, exactly the answers due are queued, in the order they were asked for. */
  lemma {:induction false} TellAnswers(base: T.Net, n: T.Net, tx: TxId, waiters: seq<Waiter>,
                                       recipients: seq<Recipient>, memory: seq<Memory>, word: Word)
    requires DP.Grown(base, n, tx) && Present(n.queues.Keys, waiters, recipients) && |memory| == |waiters|
    ensures var (n', ok) := Tell(n, tx, waiters, recipients, memory, word);
            && DP.Grown(base, n', tx)
            && (ok ==> forall c :: c in n.queues ==> Adds(n, n', tx, c, Answers(waiters, recipients, word, c)))
    decreases |waiters|
  {
    if waiters != [] {
      OneIsTold(base, n, tx, waiters[0], recipients[0], memory[0], word);
      var (n1, ok) := TellOne(n, tx, waiters[0], recipients[0], memory[0], word);
      if ok {
        TellAnswers(base, n1, tx, waiters[1..], recipients[1..], memory[1..], word);
        var (n2, told) := Tell(n1, tx, waiters[1..], recipients[1..], memory[1..], word);
        forall c | c in n.queues && told ensures Adds(n, n2, tx, c, Answers(waiters, recipients, word, c)) {
          AddsThenAdds(n, n1, n2, tx, c, AnswerDue(waiters[0], recipients[0], word, c),
                       Answers(waiters[1..], recipients[1..], word, c));
        }
      }
    }
  }

  /** If memory runs out, it is as if only those who were told had been waiting. */
  lemma {:induction false} HeardTells(n: T.Net, tx: TxId, waiters: seq<Waiter>, recipients: seq<Recipient>,
                                      memory: seq<Memory>, word: Word)
    requires tx in n.connections && Present(n.queues.Keys, waiters, recipients) && |memory| == |waiters|
    ensures var k := Heard(n, tx, waiters, recipients, memory, word);
            Present(n.queues.Keys, waiters[..k], recipients[..k])
            && Tell(n, tx, waiters[..k], recipients[..k], memory[..k], word)
               == (Tell(n, tx, waiters, recipients, memory, word).0, true)
    decreases |waiters|
  {
    var k := Heard(n, tx, waiters, recipients, memory, word);
    if k > 0 {
      var n' := TellOne(n, tx, waiters[0], recipients[0], memory[0], word).0;
      HeardTells(n', tx, waiters[1..], recipients[1..], memory[1..], word);
      assert waiters[..k][1..] == waiters[1..][..k - 1] && recipients[..k][1..] == recipients[1..][..k - 1];
      assert memory[..k][1..] == memory[1..][..k - 1];
    }
  }

  lemma {:induction false} NobodyThere(known: set<ConnId>, waiters: seq<Waiter>, recipients: seq<Recipient>, word: Word,
                                       conn: ConnId)
    requires Present(known, waiters, recipients) && conn !in known
    ensures Answers(waiters, recipients, word, conn) == []
    decreases |waiters|
  {
    if waiters != [] {
      assert recipients[0].connected ==> waiters[0].conn in known;
      NobodyThere(known, waiters[1..], recipients[1..], word, conn);
    }
  }

  // ---------------------------------------------------------------------------------------------
  // Failure

  /** The queues are untouched, and each connection was sent these answers. */
  ghost predicate Told(n: T.Net, n': T.Net, waiters: seq<Waiter>, recipients: seq<Recipient>, word: Word)
    requires |recipients| == |waiters|
  {
    && n'.queues == n.queues && n'.connections == n.connections
    && forall c :: T.Outbox(n', c) == T.Outbox(n, c) + Answers(waiters, recipients, word, c)
  }

  /** What a new transaction holds for a connection once everybody was told. */
  lemma ToldFromEmpty(n: T.Net, tx: TxId, waiters: seq<Waiter>, recipients: seq<Recipient>, memory: seq<Memory>,
                      word: Word, conn: ConnId)
    requires T.Inv(n) && tx !in n.connections && Present(n.queues.Keys, waiters, recipients) && |memory| == |waiters|
    ensures var (n', ok) := Tell(Begun(n, tx), tx, waiters, recipients, memory, word);
            ok ==>
              Answers(waiters, recipients, word, conn)
              == (if conn in n'.queues then T.MessagesOf(n'.queues[conn], tx) else [])
  {
    DP.BeginGrows(n, tx);
    TellAnswers(n, Begun(n, tx), tx, waiters, recipients, memory, word);
    var (n', ok) := Tell(Begun(n, tx), tx, waiters, recipients, memory, word);
    if ok && conn in n.queues {
      assert Adds(Begun(n, tx), n', tx, conn, Answers(waiters, recipients, word, conn));
      T.Splits(n.queues[conn], tx);
    } else if ok {
      NobodyThere(n.queues.Keys, waiters, recipients, word, conn);
    }
  }

  /** A transaction in which everybody was told, or memory ran out, ends by telling them or nobody. */
  lemma EndTells(n: T.Net, tx: TxId, waiters: seq<Waiter>, recipients: seq<Recipient>, memory: seq<Memory>, word: Word)
    requires T.Inv(n) && tx !in n.connections && Present(n.queues.Keys, waiters, recipients) && |memory| == |waiters|
    ensures var (open, ok) := Tell(Begun(n, tx), tx, waiters, recipients, memory, word);
            && (forall c :: c in open.connections[tx] ==> c in open.queues)
            && var n' := if ok then T.ExecuteTx(open, tx) else T.CancelTx(open, tx);
            T.Inv(n') && if ok then Told(n, n', waiters, recipients, word) else n' == n
  {
    var (open, ok) := Tell(Begun(n, tx), tx, waiters, recipients, memory, word);
    DP.BeginGrows(n, tx);
    TellAnswers(n, Begun(n, tx), tx, waiters, recipients, memory, word);
    DP.EndNet(n, open, tx, ok);
    if ok {
      var n' := T.ExecuteTx(open, tx);
      forall c ensures T.Outbox(n', c) == T.Outbox(n, c) + Answers(waiters, recipients, word, c) {
        ToldFromEmpty(n, tx, waiters, recipients, memory, word, c);
      }
    }
  }

  lemma TryIsAllOrNothing(n: T.Net, waiters: seq<Waiter>, recipients: seq<Recipient>, how: string, t: Try)
    requires CanTry(n, waiters, recipients, t)
    ensures var done := TryFailure(n, waiters, recipients, how, t);
            && done.Some? && T.Inv(done.value.0)
            && if done.value.1 then Told(n, done.value.0, waiters, recipients, Failure(how)) else done.value.0 == n
  {
    EndTells(n, t.tx, waiters, recipients, t.memory, Failure(how));
  }

  /**
   However many attempts run out of memory and are cancelled first, the one that succeeds sends every waiting connection
   that is still there exactly one error for each of its requests, in order; until then nothing is sent.
   */
  lemma {:induction false} FailureAnswersOnce(n: T.Net, waiters: seq<Waiter>, recipients: seq<Recipient>, how: string,
                                              tries: seq<Try>)
    requires T.Inv(n) && Present(n.queues.Keys, waiters, recipients)
    requires forall t :: t in tries ==> Fits(t, waiters) && t.tx !in n.connections
    ensures var done := KeepTrying(n, waiters, recipients, how, tries);
            && done.Some? && T.Inv(done.value.0)
            && if done.value.1 then Told(n, done.value.0, waiters, recipients, Failure(how)) else done.value.0 == n
    decreases |tries|
  {
    if tries != [] {
      TryIsAllOrNothing(n, waiters, recipients, how, tries[0]);
      if !TryFailure(n, waiters, recipients, how, tries[0]).value.1 {
        FailureAnswersOnce(n, waiters, recipients, how, tries[1..]);
      }
    }
  }

  // ---------------------------------------------------------------------------------------------
  // Success

  /** Nothing queued is lost or reordered. */
  ghost predicate Longer(n: T.Net, n': T.Net, tx: TxId) {
    n'.queues.Keys == n.queues.Keys
    && forall c :: c in n.queues ==> T.MessagesOf(n.queues[c], tx) <= T.MessagesOf(n'.queues[c], tx)
  }

  lemma SendLonger(n: T.Net, tx: TxId, conn: ConnId, m: Message, link: D.Link)
    requires tx in n.connections && D.Reaches(n.queues.Keys, conn, link)
    ensures Longer(n, T.Send(n, tx, conn, m, link.connected, link.fault).0, tx)
  {
    if link.connected { assert ([T.ToSend(tx, m)] + n.queues[conn])[1..] == n.queues[conn]; }
  }

  lemma {:induction false} ListenersLonger(a: D.Attempt, tx: TxId, sender: Option<ConnId>, addressed: Option<ConnId>,
                                           m: Message, listeners: seq<D.Listener>, max: int)
    requires tx in a.net.connections && D.AllReach(a.net.queues.Keys, listeners)
    ensures Longer(a.net, D.SendToListeners(a, tx, sender, addressed, m, listeners, max).net, tx)
    decreases |listeners|
  {
    if listeners != [] {
      assert listeners[0] in listeners;
      var one := D.SendOne(a, tx, sender, addressed, m, listeners[0], max);
      SendLonger(a.net, tx, listeners[0].conn, m, listeners[0].link);
      if one.failure.None? { ListenersLonger(one, tx, sender, addressed, m, listeners[1..], max); }
    }
  }

  lemma SentLonger(a: D.Attempt, tx: TxId, sender: Option<ConnId>, conn: ConnId, m: Message, link: D.Link,
                   listeners: seq<D.Listener>, max: int)
    requires tx in a.net.connections && D.Reaches(a.net.queues.Keys, conn, link)
    requires D.AllReach(a.net.queues.Keys, listeners)
    ensures var sent := a.(net := T.Send(a.net, tx, conn, m, link.connected, link.fault).0);
            Longer(a.net, D.SendToListeners(sent, tx, sender, Some(conn), m, listeners, max).net, tx)
  {
    SendLonger(a.net, tx, conn, m, link);
    var sent := a.(net := T.Send(a.net, tx, conn, m, link.connected, link.fault).0);
    ListenersLonger(sent, tx, sender, Some(conn), m, listeners, max);
    var n' := D.SendToListeners(sent, tx, sender, Some(conn), m, listeners, max).net;
    forall c | c in a.net.queues ensures T.MessagesOf(a.net.queues[c], tx) <= T.MessagesOf(n'.queues[c], tx) {
      assert T.MessagesOf(a.net.queues[c], tx) <= T.MessagesOf(sent.net.queues[c], tx);
    }
  }

  lemma MatchesLonger(a: D.Attempt, tx: TxId, sender: Option<ConnId>, conn: ConnId, m: Message, v: D.Verdicts,
                      link: D.Link, listeners: Option<seq<D.Listener>>, max: int)
    requires tx in a.net.connections && D.Reaches(a.net.queues.Keys, conn, link)
    requires listeners.Some? ==> D.AllReach(a.net.queues.Keys, listeners.value)
    ensures Longer(a.net, D.DispatchMatches(a, tx, sender, Some(conn), m, v, link, listeners, max).net, tx)
  {
    var gate := D.Gate(a.replies, a.hooks, sender, Some(conn), Some(conn), m, v, max);
    SendLonger(a.net, tx, conn, m, link);
    if listeners.Some? {
      SentLonger(D.Attempt(gate.replies, gate.hooks, a.net, None), tx, sender, conn, m, link, listeners.value, max);
    }
  }

  /** What was held back adds to the transaction, in the queues and in the pending replies. */
  lemma {:induction false} AutosAdd(base: T.Net, a: D.Attempt, tx: TxId, waiters: seq<Waiter>,
                                    recipients: seq<Recipient>,
                                    owner: ConnId, autos: seq<Auto>, max: int) returns (ops: seq<PR.ReplyOp>)
    requires DP.Grown(base, a.net, tx) && |recipients| == |waiters| == |autos|
    requires forall auto :: auto in autos ==> Deliverable(a.net.queues.Keys, owner, auto)
    ensures var a' := DispatchAutos(a, tx, waiters, recipients, owner, autos, max);
            && DP.Grown(base, a'.net, tx) && Longer(a.net, a'.net, tx)
            && PR.ApplyAll(a.replies, a.hooks, ops, max) == (a'.replies, a'.hooks)
    decreases |waiters|
  {
    ops := [];
    if waiters != [] {
      var one := a;
      if waiters[0].auto && recipients[0].connected {
        var auto := autos[0];
        assert Deliverable(a.net.queues.Keys, owner, auto);
        var (sender, m) := (Some(waiters[0].conn), waiters[0].message);
        one := D.DispatchMatches(a, tx, sender, Some(owner), m, auto.v, auto.link, auto.listeners, max);
        DP.MatchesGrow(base, a, tx, sender, Some(owner), m, auto.v, auto.link, auto.listeners, max);
        MatchesLonger(a, tx, sender, owner, m, auto.v, auto.link, auto.listeners, max);
        ops := DP.MatchesAreOps(a, tx, sender, Some(owner), m, auto.v, auto.link, auto.listeners, max);
        if one.failure.Some? { return; }
      }
      var more := AutosAdd(base, one, tx, waiters[1..], recipients[1..], owner, autos[1..], max);
      PRP.ApplyAllConcat(a.replies, a.hooks, ops, more, max);
      ops := ops + more;
    }
  }

  /** Every connection that is due an answer has it queued, ahead of anything else in this transaction. */
  ghost predicate AllAnswered(open: T.Net, tx: TxId, waiters: seq<Waiter>, recipients: seq<Recipient>)
    requires |recipients| == |waiters|
  {
    forall c :: c in open.queues ==> Answers(waiters, recipients, Success, c) <= T.MessagesOf(open.queues[c], tx)
  }

  lemma TellAnswersAll(n: T.Net, tx: TxId, waiters: seq<Waiter>, recipients: seq<Recipient>, memory: seq<Memory>)
    requires T.Inv(n) && tx !in n.connections && Present(n.queues.Keys, waiters, recipients) && |memory| == |waiters|
    ensures var (open, told) := Tell(Begun(n, tx), tx, waiters, recipients, memory, Success);
            DP.Grown(n, open, tx) && (told ==> AllAnswered(open, tx, waiters, recipients))
  {
    DP.BeginGrows(n, tx);
    TellAnswers(n, Begun(n, tx), tx, waiters, recipients, memory, Success);
    var (open, told) := Tell(Begun(n, tx), tx, waiters, recipients, memory, Success);
    forall c | c in open.queues && told
      ensures Answers(waiters, recipients, Success, c) <= T.MessagesOf(open.queues[c], tx)
    {
      ToldFromEmpty(n, tx, waiters, recipients, memory, Success, c);
    }
  }

  lemma TellAnswersFirst(n: T.Net, tx: TxId, waiters: seq<Waiter>, recipients: seq<Recipient>, memory: seq<Memory>)
    requires T.Inv(n) && tx !in n.connections && Present(n.queues.Keys, waiters, recipients) && |memory| == |waiters|
    ensures var open := Tell(Begun(n, tx), tx, waiters, recipients, memory, Success).0;
            var k := Heard(Begun(n, tx), tx, waiters, recipients, memory, Success);
            DP.Grown(n, open, tx) && AllAnswered(open, tx, waiters[..k], recipients[..k])
  {
    var k := Heard(Begun(n, tx), tx, waiters, recipients, memory, Success);
    HeardTells(Begun(n, tx), tx, waiters, recipients, memory, Success);
    TellAnswersAll(n, tx, waiters[..k], recipients[..k], memory[..k]);
  }

  lemma LongerStaysAnswered(n: T.Net, n': T.Net, tx: TxId, waiters: seq<Waiter>, recipients: seq<Recipient>)
    requires |recipients| == |waiters| && AllAnswered(n, tx, waiters, recipients) && Longer(n, n', tx)
    ensures AllAnswered(n', tx, waiters, recipients)
  {
    forall c | c in n'.queues ensures Answers(waiters, recipients, Success, c) <= T.MessagesOf(n'.queues[c], tx) {
      assert Answers(waiters, recipients, Success, c) <= T.MessagesOf(n.queues[c], tx);
      assert T.MessagesOf(n.queues[c], tx) <= T.MessagesOf(n'.queues[c], tx);
    }
  }

  lemma DriverAdds(base: T.Net, n: T.Net, tx: TxId, conn: ConnId, m: Message, answer: D.Answer)
    requires DP.Grown(base, n, tx) && D.Reaches(n.queues.Keys, conn, answer.link)
    ensures var n' := D.FromDriver(n, tx, conn, m, answer).0; DP.Grown(base, n', tx) && Longer(n, n', tx)
  {
    if answer.made && !answer.eaten {
      DP.SendGrows(base, n, tx, conn, m, answer.link);
      SendLonger(n, tx, conn, m, answer.link);
    }
  }

  /** Those whom a name's new owner was announced to are answered, and only the transaction has grown. */
  lemma EnsureAnswers(a: Activations, b: D.Bus, e: Appearance, isNew: bool)
    requires T.Inv(b.net) && CanAppear(a, b, e)
    ensures var (net, told) := Ensure(a, b, e, isNew);
            var (waiters, k) := (WaitersFor(a, e.service), ToldIn(a, b, e, isNew));
            && DP.Grown(b.net, net, e.request.tx)
            && AllAnswered(net, e.request.tx, waiters[..k], e.recipients[..k])
            && (told ==> k == if isNew then |waiters| else 0)
  {
    DP.BeginGrows(b.net, e.request.tx);
    if isNew && e.announced {
      TellAnswersFirst(b.net, e.request.tx, WaitersFor(a, e.service), e.recipients, e.memory);
    }
  }

  /** Before the transaction of an appearance ends: only it has grown, and those it got through are answered. */
  lemma HeldBackAdds(a: Activations, b: D.Bus, e: Appearance, isNew: bool, max: int) returns (ops: seq<PR.ReplyOp>)
    requires DP.BusInv(b, max) && CanAppear(a, b, e)
    ensures var sent := HeldBack(a, b, e, isNew, max);
            var (waiters, k) := (WaitersFor(a, e.service), ToldIn(a, b, e, isNew));
            && DP.Grown(b.net, sent.net, e.request.tx)
            && PR.ApplyAll(b.replies, [], ops, max) == (sent.replies, sent.hooks)
            && AllAnswered(sent.net, e.request.tx, waiters[..k], e.recipients[..k])
            && (sent.failure != Some(OutOfMemory) ==> k == if isNew then |waiters| else 0)
  {
    var tx := e.request.tx;
    var (waiters, k) := (WaitersFor(a, e.service), ToldIn(a, b, e, isNew));
    var (net, told) := Ensure(a, b, e, isNew);
    EnsureAnswers(a, b, e, isNew);
    ops := [];
    if told && e.registered {
      var begun := D.Attempt(b.replies, [], net, None);
      ops := AutosAdd(b.net, begun, tx, waiters, e.recipients, e.owner, e.autos, max);
      LongerStaysAnswered(net, HeldBack(a, b, e, isNew, max).net, tx, waiters[..k], e.recipients[..k]);
    }
  }

  lemma AppearingAdds(a: Activations, b: D.Bus, e: Appearance, isNew: bool, max: int) returns (ops: seq<PR.ReplyOp>)
    requires DP.BusInv(b, max) && CanAppear(a, b, e)
    ensures var attempt := Appearing(a, b, e, isNew, max).1;
            var (waiters, k) := (WaitersFor(a, e.service), ToldIn(a, b, e, isNew));
            && DP.Grown(b.net, attempt.net, e.request.tx)
            && PR.ApplyAll(b.replies, [], ops, max) == (attempt.replies, attempt.hooks)
            && AllAnswered(attempt.net, e.request.tx, waiters[..k], e.recipients[..k])
            && (Appearing(a, b, e, isNew, max).0.failure != Some(OutOfMemory) ==> k == if isNew then |waiters| else 0)
  {
    ops := HeldBackAdds(a, b, e, isNew, max);
    var (sent, attempt) := (HeldBack(a, b, e, isNew, max), Appearing(a, b, e, isNew, max).1);
    var (waiters, k) := (WaitersFor(a, e.service), ToldIn(a, b, e, isNew));
    DriverAdds(b.net, sent.net, e.request.tx, e.request.sender, NameReply(e.request.m), e.reply);
    if attempt.net != sent.net {
      LongerStaysAnswered(sent.net, attempt.net, e.request.tx, waiters[..k], e.recipients[..k]);
    }
  }

  lemma ReportAdds(n: T.Net, attempt: D.Attempt, e: D.Incoming)
    requires DP.Grown(n, attempt.net, e.tx) && D.Reaches(n.queues.Keys, e.sender, e.answer.link)
    ensures var reported := D.Report(attempt, e).0;
            && DP.Grown(n, reported.net, e.tx) && Longer(attempt.net, reported.net, e.tx)
            && reported.replies == attempt.replies && reported.hooks == attempt.hooks
  {
    DriverAdds(n, attempt.net, e.tx, e.sender, D.ErrorFor(e.m, e.m.body), e.answer);
  }

  /** Each connection that is due an answer was sent it. */
  ghost predicate AnswersSent(n: T.Net, n': T.Net, waiters: seq<Waiter>, recipients: seq<Recipient>)
    requires |recipients| == |waiters|
  {
    forall c :: T.Outbox(n, c) + Answers(waiters, recipients, Success, c) <= T.Outbox(n', c)
  }

  lemma EndedAnswers(b: D.Bus, open: T.Net, n': T.Net, tx: TxId, waiters: seq<Waiter>, recipients: seq<Recipient>)
    requires DP.Grown(b.net, open, tx) && DP.Ended(b.net, open, n', tx, true)
    requires Present(b.net.queues.Keys, waiters, recipients) && AllAnswered(open, tx, waiters, recipients)
    ensures AnswersSent(b.net, n', waiters, recipients)
  {
    forall c ensures T.Outbox(b.net, c) + Answers(waiters, recipients, Success, c) <= T.Outbox(n', c) {
      if c in open.queues {
        assert Answers(waiters, recipients, Success, c) <= T.MessagesOf(open.queues[c], tx);
      } else {
        NobodyThere(b.net.queues.Keys, waiters, recipients, Success, c);
      }
    }
  }

  /** The bus after an appearance. */
  lemma AppearBus(a: Activations, b: D.Bus, e: Appearance, isNew: bool, limits: PR.Limits)
    requires DP.BusInv(b, limits.maxReplies) && CanAppear(a, b, e)
    ensures var b' := Appear(a, b, e, isNew, limits.maxReplies).1;
            var attempt := Appearing(a, b, e, isNew, limits.maxReplies).1;
            var (waiters, k) := (WaitersFor(a, e.service), ToldIn(a, b, e, isNew));
            && b'.Some? && DP.BusInv(b'.value, limits.maxReplies)
            && if D.Report(attempt, e.request).1
               then AnswersSent(b.net, b'.value.net, waiters[..k], e.recipients[..k])
               else b'.value.net == b.net && PRP.SameReplies(b.replies, b'.value.replies)
  {
    var (max, tx) := (limits.maxReplies, e.request.tx);
    var (waiters, k) := (WaitersFor(a, e.service), ToldIn(a, b, e, isNew));
    var ops := AppearingAdds(a, b, e, isNew, max);
    var attempt := Appearing(a, b, e, isNew, max).1;
    var (reported, commit) := D.Report(attempt, e.request);
    ReportAdds(b.net, attempt, e.request);
    DP.ConcludeKeeps(b, reported, tx, ops, commit, limits);
    if commit {
      LongerStaysAnswered(attempt.net, reported.net, tx, waiters[..k], e.recipients[..k]);
      EndedAnswers(b, reported.net, D.Conclude(reported, tx, commit).value.net, tx, waiters[..k], e.recipients[..k]);
    } else {
      PRP.CancelRestores(b.replies, ops, max);
    }
  }

  lemma AppearLeavesQueues(a: Activations, b: D.Bus, e: Appearance, isNew: bool, limits: PR.Limits)
    requires DP.BusInv(b, limits.maxReplies) && CanAppear(a, b, e)
    ensures var b' := Appear(a, b, e, isNew, limits.maxReplies).1;
            b'.Some? && b'.value.net.queues == b.net.queues && b'.value.net.connections == b.net.connections
  {
    var ops := AppearingAdds(a, b, e, isNew, limits.maxReplies);
    var attempt := Appearing(a, b, e, isNew, limits.maxReplies).1;
    var (reported, commit) := D.Report(attempt, e.request);
    ReportAdds(b.net, attempt, e.request);
    DP.ConcludeKeeps(b, reported, e.request.tx, ops, commit, limits);
  }
}
