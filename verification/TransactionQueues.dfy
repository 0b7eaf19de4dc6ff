/** The `transaction_messages` of all connections and the `connections` lists of all open transactions. */
module TransactionQueues {
  import opened BusTypes
  import opened Lists
  import opened Transactions

  /** Remove the messages of a transaction from a queue; it is newest first, so it is walked from its last link. */
  method TakeMessages(queue: seq<ToSend>, tx: TxId) returns (kept: seq<ToSend>, sent: seq<Message>)
    ensures kept == OtherThan(queue, tx)
    ensures sent == MessagesOf(queue, tx)
  {
    kept, sent := queue, [];
    var i := |queue|;
    while i > 0
      invariant 0 <= i <= |queue| && i <= |kept| && kept[..i] == queue[..i]
      invariant kept[i..] == OtherThan(queue[i..], tx)
      invariant sent == MessagesOf(queue[i..], tx)
    {
      i := i - 1;
      assert queue[i] == queue[..i + 1][i] == kept[..i + 1][i];
      assert queue[i..][1..] == queue[i + 1..] && kept[i..][1..] == kept[i + 1..];
      if kept[i].tx == tx {
        sent := sent + [kept[i].message];
        ghost var rest := kept[i + 1..];
        kept := kept[..i] + kept[i + 1..];
        assert kept[i..] == rest;
      }
    }
    assert kept[0..] == kept && queue[0..] == queue;
  }

  class Queues {
    var queues: map<ConnId, seq<ToSend>>
    var connections: map<TxId, seq<ConnId>>
    var outbox: map<ConnId, seq<Message>>

    ghost function Net(): Net
      reads this
    {
      Transactions.Net(queues, connections, outbox)
    }

    constructor ()
      ensures Net() == IDLE
    {
      queues, connections, outbox := map[], map[], map[];
    }

    method SetUp(conn: ConnId)
      requires conn !in queues
      modifies this`queues
      ensures Net() == old(Net()).(queues := old(queues)[conn := []])
    {
      queues := queues[conn := []];
    }

    /** The connection's data is freed. */
    method TakeDown(conn: ConnId)
      modifies this`queues
      ensures Net() == old(Net()).(queues := old(queues) - {conn})
    {
      queues := queues - {conn};
    }

    /** `bus_transaction_new` */
    method Begin(tx: TxId)
      requires tx !in connections
      modifies this`connections
      ensures Net() == old(Net()).(connections := old(connections)[tx := []])
    {
      connections := connections[tx := []];
    }

    /** `bus_transaction_send` */
    method Send(tx: TxId, conn: ConnId, message: Message, connected: bool, fault: SendFault) returns (ok: bool)
      requires tx in connections && (connected ==> conn in queues)
      modifies this
      ensures (Net(), ok) == Transactions.Send(old(Net()), tx, conn, message, connected, fault)
    {
      if !connected {
        return true;
      }
      if fault == NoToSend || fault == NoPreallocated || fault == NoMessageLink {
        return false;
      }
      var toSend := ToSend(tx, message);
      queues := queues[conn := [toSend] + queues[conn]];
      var queue := queues[conn];
      var i := 1;
      while i < |queue|
        invariant 1 <= i <= |queue|
        invariant forall j :: 1 <= j < i ==> queue[j].tx != tx
        invariant Net() == old(Net()).(queues := old(queues)[conn := queue])
      {
        if queue[i].tx == tx {
          break;
        }
        i := i + 1;
      }
      assert queue[1..] == old(queues)[conn];
      if i < |queue| {
        assert queue[1..][i - 1].tx == tx;
      } else {
        assert forall j :: 0 <= j < |queue[1..]| ==> queue[1..][j] == queue[j + 1];
        if fault == NoConnectionLink {
          queues := queues[conn := RemoveFirst(queue, toSend)];
          assert queues == old(queues);
          return false;
        }
        connections := connections[tx := [conn] + connections[tx]];
      }
      ok := true;
    }

    /** `connection_cancel_transaction` */
    method CancelConnection(conn: ConnId, tx: TxId)
      requires conn in queues
      modifies this`queues
      ensures queues == old(queues)[conn := OtherThan(old(queues)[conn], tx)]
    {
      var queue := queues[conn];
      var i := 0;
      while i < |queue|
        invariant i <= |queue|
        invariant queue[..i] + OtherThan(queue[i..], tx) == OtherThan(queues[conn], tx)
        decreases |queue| - i
      {
        assert queue[i..][1..] == queue[i + 1..];
        if queue[i].tx == tx {
          var rest := queue[i + 1..];
          queue := queue[..i] + rest;
          assert queue[i..] == rest;
        } else {
          assert queue[..i + 1] == queue[..i] + [queue[i]];
          i := i + 1;
        }
      }
      assert queue == queue[..i] + OtherThan(queue[i..], tx);
      queues := queues[conn := queue];
    }

    /** `bus_transaction_cancel_and_free`, the messages. */
    method CancelAndFree(tx: TxId)
      requires tx in connections && forall c :: c in connections[tx] ==> c in queues
      modifies this
      ensures Net() == CancelTx(old(Net()), tx)
    {
      while connections[tx] != []
        invariant connections == old(connections)[tx := if tx in connections then connections[tx] else []]
        invariant tx in connections && forall c :: c in connections[tx] ==> c in queues
        invariant CancelOn(Net().(connections := old(connections)), connections[tx], tx)
               == CancelOn(old(Net()), old(connections)[tx], tx)
        decreases |connections[tx]|
      {
        var conn := connections[tx][0];
        ghost var left := connections[tx];
        connections := connections[tx := connections[tx][1..]];
        assert left[1..] == connections[tx];
        CancelConnection(conn, tx);
      }
      connections := connections - {tx};
    }

    /** `connection_execute_transaction` */
    method ExecuteConnection(conn: ConnId, tx: TxId)
      requires conn in queues
      modifies this`queues, this`outbox
      ensures queues == old(queues)[conn := OtherThan(old(queues)[conn], tx)]
      ensures outbox == old(outbox)[conn := Outbox(old(Net()), conn) + MessagesOf(old(queues)[conn], tx)]
    {
      var kept, sent := TakeMessages(queues[conn], tx);
      queues := queues[conn := kept];
      outbox := outbox[conn := (if conn in outbox then outbox[conn] else []) + sent];
    }

    /** One turn of the loop of `bus_transaction_execute_and_free`. */
    method ExecuteNext(tx: TxId)
      requires tx in connections && connections[tx] != [] && connections[tx][0] in queues
      modifies this
      ensures connections == old(connections)[tx := old(connections)[tx][1..]]
      ensures var conn := old(connections)[tx][0];
              && queues == old(queues)[conn := OtherThan(old(queues)[conn], tx)]
              && outbox == old(outbox)[conn := Outbox(old(Net()), conn) + MessagesOf(old(queues)[conn], tx)]
    {
      var conn := connections[tx][0];
      connections := connections[tx := connections[tx][1..]];
      ExecuteConnection(conn, tx);
    }

    /** `bus_transaction_execute_and_free`, the messages. */
    method ExecuteAndFree(tx: TxId)
      requires tx in connections && forall c :: c in connections[tx] ==> c in queues
      modifies this
      ensures Net() == ExecuteTx(old(Net()), tx)
    {
      while connections[tx] != []
        invariant connections == old(connections)[tx := if tx in connections then connections[tx] else []]
        invariant tx in connections && forall c :: c in connections[tx] ==> c in queues
        invariant ExecuteOn(Net().(connections := old(connections)), connections[tx], tx)
               == ExecuteOn(old(Net()), old(connections)[tx], tx)
        decreases |connections[tx]|
      {
        ghost var (left, before) := (connections[tx], Net().(connections := old(connections)));
        ExecuteNext(tx);
        assert queues == before.queues[left[0] := OtherThan(before.queues[left[0]], tx)];
        assert left[1..] == connections[tx];
      }
      connections := connections - {tx};
    }

    /** `bus_connection_remove_transactions` */
    method RemoveTransactions(conn: ConnId)
      requires conn in queues && forall m :: m in queues[conn] ==> m.tx in connections
      modifies this
      ensures Net() == DropMessages(old(Net()), conn)
    {
      while queues[conn] != []
        invariant conn in queues && forall m :: m in queues[conn] ==> m.tx in connections
        invariant DropMessages(Net(), conn) == DropMessages(old(Net()), conn)
        decreases |queues[conn]|
      {
        var toSend := queues[conn][0];
        connections := connections[toSend.tx := RemoveFirst(connections[toSend.tx], conn)];
        queues := queues[conn := RemoveFirst(queues[conn], toSend)];
      }
    }
  }
}
