/**
 Blocking operations (blocked.c): clients that wait for keys, and the loop that
 serves them from lists.
 */
module BlockedClients {
  import opened Basics
  import opened BlockedIndex
  import opened BlockedServe

  function KeySet(keys: seq<Key>): set<Key>
  {
    set k | k in keys
  }

  /** A client after it was unblocked. */
  function Released(cl: Client): Client
  {
    cl.(btype := NotBlocked, keys := {}, target := None, unblocked := true)
  }

  /** Only a client blocked on lists has a target. */
  ghost predicate TargetInv(clients: Clients)
  {
    forall c :: c in clients && clients[c].btype != OnList ==> clients[c].target == None
  }

  /** The ready keys: db->ready_keys holds exactly the keys queued, in the list and in the batch being drained, each queued once. */
  ghost predicate ReadyInv(batch: seq<Key>, ready: seq<Key>, dict: set<Key>)
  {
    NoDuplicates(batch + ready) && forall k :: k in dict <==> k in batch + ready
  }

  lemma ReadyMore(batch: seq<Key>, ready: seq<Key>, dict: set<Key>, k: Key)
    requires ReadyInv(batch, ready, dict) && k !in dict
    ensures ReadyInv(batch, ready + [k], dict + {k})
  {
    assert batch + (ready + [k]) == (batch + ready) + [k];
    AppendUnique(batch + ready, k);
  }

  lemma ReadyLess(batch: seq<Key>, ready: seq<Key>, dict: set<Key>)
    requires ReadyInv(batch, ready, dict) && batch != []
    ensures ReadyInv(batch[1..], ready, dict - {batch[0]}) && batch[0] in dict
  {
    var all := batch + ready;
    assert all[0] == batch[0] && all == [batch[0]] + (batch[1..] + ready);
    assert forall i :: 0 <= i < |all| - 1 ==> (batch[1..] + ready)[i] == all[i + 1];
  }

  lemma Requeued(clients: Clients, unblocked: seq<ClientId>, c: ClientId, cl: Client)
    requires UnblockedInv(clients, unblocked) && c in clients && cl.unblocked
    ensures UnblockedInv(clients[c := cl], if clients[c].unblocked then unblocked else unblocked + [c])
  {
    if !clients[c].unblocked { AppendUnique(unblocked, c); }
  }

  lemma ReleasedKeepsIndex(clients: Clients, queues: Queues, c: ClientId, cl: Client)
    requires c in clients && cl.keys == clients[c].keys && IndexInv(clients, queues)
    ensures IndexInv(clients[c := cl], queues)
  {
    forall k, d ensures d in Queue(queues, k) <==> k in KeysOf(clients[c := cl], d)
    {
      assert k in KeysOf(clients, d) <==> k in KeysOf(clients[c := cl], d);
    }
  }

  class Server {
    var clients: Clients
    var queues: Queues
    var unblocked: seq<ClientId>
    var blockedClients: nat
    var blockedByType: map<BlockType, nat>
    var readyKeys: seq<Key>
    var readyDict: set<Key>
    var data: Data
    var replies: seq<Reply>

    /** batch: the keys of the ready list being drained. */
    ghost predicate Valid(batch: seq<Key>)
      reads this
    {
      && IndexInv(clients, queues) && KeysInv(clients) && TargetInv(clients)
      && CountersInv(clients, blockedClients, blockedByType)
      && UnblockedInv(clients, unblocked)
      && ReadyInv(batch, readyKeys, readyDict)
    }

    /** queueClientForReprocessing */
    method QueueClientForReprocessing(c: ClientId)
      requires c in clients && UnblockedInv(clients, unblocked)
      modifies this`clients, this`unblocked
      ensures clients == old(clients)[c := old(clients)[c].(unblocked := true)]
      ensures UnblockedInv(clients, unblocked)
      ensures unblocked == if old(clients)[c].unblocked then old(unblocked) else old(unblocked) + [c]
    {
      Requeued(clients, unblocked, c, clients[c].(unblocked := true));
      if !clients[c].unblocked {
        clients := clients[c := clients[c].(unblocked := true)];
        unblocked := unblocked + [c];
      }
    }

    /** blockClient */
    method BlockClient(c: ClientId, t: BlockType)
      requires c in clients && clients[c].btype == NotBlocked && t != NotBlocked
      requires CountersInv(clients, blockedClients, blockedByType)
      modifies this`clients, this`blockedClients, this`blockedByType
      ensures clients == old(clients)[c := old(clients)[c].(btype := t)]
      ensures CountersInv(clients, blockedClients, blockedByType)
    {
      BlockingCounts(clients, c, t);
      clients := clients[c := clients[c].(btype := t)];
      blockedClients := blockedClients + 1;
      blockedByType := blockedByType[t := blockedByType[t] + 1];
      hide Blocked, BlockedOn;
    }

    /** One key of blockForKeys: skipped when the client has it already. */
    method JoinQueue(c: ClientId, k: Key)
      requires c in clients && IndexInv(clients, queues)
      modifies this`clients, this`queues
      ensures IndexInv(clients, queues)
      ensures clients == old(clients)[c := old(clients)[c].(keys := old(clients)[c].keys + {k})]
      ensures forall x :: Queue(queues, x) ==
                Queue(old(queues), x) + if x == k && k !in old(clients)[c].keys then [c] else []
    {
      hide IndexInv;
      if k in clients[c].keys {
        assert clients[c].keys + {k} == clients[c].keys;
        return;
      }
      EnqueuedIndex(clients, queues, k, c);
      ghost var next := Enqueued(queues, k, c);
      clients := clients[c := clients[c].(keys := clients[c].keys + {k})];
      if k !in queues { queues := queues[k := []]; }
      queues := queues[k := queues[k] + [c]];
      assert queues == next;
    }

    /** The loop of blockForKeys. */
    method JoinQueues(c: ClientId, keys: seq<Key>)
      requires c in clients && clients[c].keys == {} && IndexInv(clients, queues)
      modifies this`clients, this`queues
      ensures IndexInv(clients, queues)
      ensures clients == old(clients)[c := old(clients)[c].(keys := KeySet(keys))]
      ensures forall k :: Queue(queues, k) == Queue(old(queues), k) + if k in KeySet(keys) then [c] else []
    {
      hide IndexInv, Queue, KeySet;
      var j := 0;
      KeySetNext(keys, 0);
      while j < |keys|
        invariant 0 <= j <= |keys| && IndexInv(clients, queues)
        invariant clients == old(clients)[c := old(clients)[c].(keys := KeySet(keys[..j]))]
        invariant forall k :: Queue(queues, k) == Queue(old(queues), k) + if k in KeySet(keys[..j]) then [c] else []
      {
        KeySetNext(keys, j);
        JoinQueue(c, keys[j]);
        j := j + 1;
      }
      assert keys[..j] == keys;
    }

    /** blockForKeys: the client joins the end of the queue of each key, once however often the key is named. */
    method BlockForKeys(c: ClientId, t: BlockType, keys: seq<Key>, target: Option<Key>, where: Where, ghost batch: seq<Key>)
      requires Valid(batch) && c in clients && clients[c].btype == NotBlocked && OnKeys(t) && keys != []
      requires t == OnList || target == None
      modifies this`clients, this`queues, this`blockedClients, this`blockedByType
      ensures Valid(batch)
      ensures clients == old(clients)[c := Client(t, KeySet(keys), target, where, old(clients)[c].unblocked)]
      ensures forall k :: Queue(queues, k) == Queue(old(queues), k) + if k in KeySet(keys) then [c] else []
    {
      hide CountersInv, UnblockedInv, ReadyInv, IndexInv, KeysInv, TargetInv, Queue, KeySet;
      ghost var was := clients;
      BlockingKeeps(clients, c, t, keys, target, where, unblocked, blockedClients, blockedByType);
      ReleasedKeepsIndex(clients, queues, c, clients[c].(target := target, where := where));
      clients := clients[c := clients[c].(target := target, where := where)];
      JoinQueues(c, keys);
      assert clients == was[c := was[c].(target := target, where := where, keys := KeySet(keys))];
      ReleasedKeepsIndex(clients, queues, c, clients[c].(btype := t));
      BlockClient(c, t);
      assert clients == was[c := Client(t, KeySet(keys), target, where, was[c].unblocked)];
    }

    /** unblockClientWaitingData: the client leaves the queue of every key it waits for; emptied queues are dropped. */
    method UnblockClientWaitingData(c: ClientId)
      requires c in clients && clients[c].keys != {} && IndexInv(clients, queues)
      modifies this`clients, this`queues
      ensures IndexInv(clients, queues)
      ensures clients == old(clients)[c := old(clients)[c].(keys := {}, target := None)]
      ensures forall k :: Queue(queues, k) == Remove(Queue(old(queues), k), c)
    {
      hide Remove;
      ghost var was := clients;
      var todo := clients[c].keys;
      Waiting(clients, queues, c);
      assert was == was[c := was[c].(keys := todo)];
      hide IndexInv;
      while todo != {}
        invariant todo <= was[c].keys && clients == was && IndexInv(was[c := was[c].(keys := todo)], queues)
        invariant forall k :: Queue(queues, k) ==
                    if k in was[c].keys && k !in todo then Remove(Queue(old(queues), k), c) else Queue(old(queues), k)
      {
        var k :| k in todo;
        QueueThere(was[c := was[c].(keys := todo)], queues, k, c);
        DequeuedIndex(was[c := was[c].(keys := todo)], queues, k, c);
        assert k in queues; // serverAssert: the queue exists
        ghost var next := Dequeued(queues, k, c);
        var rest := Remove(queues[k], c);
        if rest == [] { queues := queues - {k}; } else { queues := queues[k := rest]; }
        assert queues == next;
        assert was[c := was[c].(keys := todo)][c := was[c].(keys := todo - {k})] == was[c := was[c].(keys := todo - {k})];
        todo := todo - {k};
      }
      forall k ensures Queue(queues, k) == Remove(Queue(old(queues), k), c)
      {
        if k !in was[c].keys { RemoveAbsent(Queue(old(queues), k), c); }
      }
      ReleasedKeepsIndex(was[c := was[c].(keys := {})], queues, c, was[c].(keys := {}, target := None));
      clients := clients[c := clients[c].(keys := {}, target := None)];
      assert was[c := was[c].(keys := {})][c := was[c].(keys := {}, target := None)] == clients;
    }

    /** The part of unblockClient that depends on what the client waits for. */
    method LeaveQueues(c: ClientId)
      requires c in clients && IndexInv(clients, queues) && KeysInv(clients) && TargetInv(clients)
      modifies this`clients, this`queues
      ensures IndexInv(clients, queues)
      ensures clients == old(clients)[c := old(clients)[c].(keys := {}, target := None)]
      ensures forall k :: Queue(queues, k) == Remove(Queue(old(queues), k), c)
    {
      hide IndexInv, Queue, Remove;
      if OnKeys(clients[c].btype) {
        UnblockClientWaitingData(c);
      } else {
        NotWaiting(clients, queues, c);
        assert clients == clients[c := clients[c].(keys := {}, target := None)];
      }
    }

    /** The part of unblockClient that clears the BLOCKED flag. */
    method UncountClient(c: ClientId)
      requires c in clients && clients[c].btype != NotBlocked && CountersInv(clients, blockedClients, blockedByType)
      modifies this`clients, this`blockedClients, this`blockedByType
      ensures CountersInv(clients, blockedClients, blockedByType)
      ensures clients == old(clients)[c := old(clients)[c].(btype := NotBlocked)]
      ensures blockedClients + 1 == old(blockedClients)
    {
      Uncount(clients, c, blockedClients, blockedByType);
      hide CountersInv;
      blockedClients := blockedClients - 1;
      blockedByType := blockedByType[clients[c].btype := blockedByType[clients[c].btype] - 1];
      clients := clients[c := clients[c].(btype := NotBlocked)];
    }

    /** unblockClient: the client leaves all queues and will have its pending input processed. */
    method UnblockClient(c: ClientId, ghost batch: seq<Key>)
      requires Valid(batch) && c in clients && clients[c].btype != NotBlocked
      modifies this`clients, this`queues, this`unblocked, this`blockedClients, this`blockedByType
      ensures Valid(batch)
      ensures clients == old(clients)[c := Released(old(clients)[c])]
      ensures forall k :: Queue(queues, k) == Remove(Queue(old(queues), k), c)
      ensures unblocked == if old(clients)[c].unblocked then old(unblocked) else old(unblocked) + [c]
      ensures blockedClients + 1 == old(blockedClients)
    {
      hide CountersInv, UnblockedInv, ReadyInv, IndexInv, KeysInv, TargetInv, Queue, Remove;
      ghost var was := clients;
      ReleasedKeys(clients, c);
      LeaveQueues(c);
      ghost var gone := clients;
      ReleasedKeepsIndex(clients, queues, c, Released(clients[c]));
      CountersSame(was, clients, blockedClients, blockedByType);
      UncountClient(c);
      ghost var counted := clients;
      UnblockedSame(was, clients, unblocked);
      QueueClientForReprocessing(c);
      CountersSame(counted, clients, blockedClients, blockedByType);
      assert clients == was[c := Released(was[c])];
      assert clients == gone[c := Released(gone[c])];
    }

    /** processUnblockedClients: every client of the list is taken once, in order; those blocked again are passed over. */
    method ProcessUnblockedClients() returns (processed: seq<ClientId>)
      requires UnblockedInv(clients, unblocked)
      modifies this`clients, this`unblocked
      ensures unblocked == [] && UnblockedInv(clients, unblocked)
      ensures processed == Those(old(clients), old(unblocked), NotBlocked, true)
      ensures clients.Keys == old(clients).Keys
      ensures forall c :: c in clients ==> clients[c] == old(clients)[c].(unblocked := false)
    {
      processed := [];
      ghost var done: nat := 0;
      ghost var all := unblocked;
      assert forall c :: c in clients ==> clients[c].unblocked == (c in unblocked);
      hide UnblockedInv, Those;
      assert processed == Those(clients, all[..0], NotBlocked, true) by { NoneOf(clients, NotBlocked, true); }
      while |unblocked| != 0
        invariant done <= |all| && unblocked == all[done..] && UnblockedInv(clients, unblocked)
        invariant processed == Those(old(clients), all[..done], NotBlocked, true) && clients.Keys == old(clients).Keys
        invariant forall c :: c in clients ==>
                    clients[c] == old(clients)[c].(unblocked := if c in unblocked then true else false)
        decreases |unblocked|
      {
        var c := unblocked[0];
        DropFirst(clients, unblocked);
        NextThose(old(clients), all, NotBlocked, done);
        unblocked := unblocked[1..];
        clients := clients[c := clients[c].(unblocked := false)];
        if clients[c].btype == NotBlocked { processed := processed + [c]; }
        done := done + 1;
      }
      assert all[..done] == all;
    }

    /** signalKeyAsReady */
    method SignalKeyAsReady(k: Key, ghost batch: seq<Key>)
      requires ReadyInv(batch, readyKeys, readyDict)
      modifies this`readyKeys, this`readyDict
      ensures ReadyInv(batch, readyKeys, readyDict)
      ensures readyDict == old(readyDict) + if k in queues then {k} else {}
      ensures readyKeys == old(readyKeys) + if k in queues && k !in old(readyDict) then [k] else []
    {
      if k !in queues { return; }
      if k in readyDict { return; }
      ReadyMore(batch, readyKeys, readyDict, k);
      hide ReadyInv;
      readyKeys := readyKeys + [k];
      readyDict := readyDict + {k};
    }

    /** dbAdd of a new list. */
    method AddList(k: Key, ghost batch: seq<Key>)
      requires k !in data && ReadyInv(batch, readyKeys, readyDict)
      modifies this`data, this`readyKeys, this`readyDict
      ensures data == old(data)[k := ListValue([])] && ReadyInv(batch, readyKeys, readyDict)
      ensures readyDict == old(readyDict) + if k in queues then {k} else {}
      ensures readyKeys == old(readyKeys) + if k in queues && k !in old(readyDict) then [k] else []
    {
      data := data[k := ListValue([])];
      SignalKeyAsReady(k, batch);
    }

    /** rpoplpushHandlePush: the element goes to the head of the destination, which is created if need be. */
    method RPopLPushHandlePush(c: ClientId, t: Key, value: Element, ghost batch: seq<Key>)
      requires ReadyInv(batch, readyKeys, readyDict) && (t in data ==> data[t].ListValue?)
      modifies this`data, this`replies, this`readyKeys, this`readyDict
      ensures ReadyInv(batch, readyKeys, readyDict) && replies == old(replies) + [Moved(c, value)]
      ensures data == old(data)[t := ListValue([value] + if t in old(data) then old(data)[t].elements else [])]
      ensures readyDict == old(readyDict) + if t !in old(data) && t in queues then {t} else {}
    {
      if t !in data { AddList(t, batch); }
      data := data[t := ListValue([value] + data[t].elements)];
      replies := replies + [Moved(c, value)];
    }

    /** serveClientBlockedOnList, the element already popped: false when the destination is of the wrong type. */
    method ServeClientBlockedOnList(c: ClientId, k: Key, target: Option<Key>, value: Element, ghost batch: seq<Key>)
      returns (ok: bool)
      requires ReadyInv(batch, readyKeys, readyDict)
      modifies this`data, this`replies, this`readyKeys, this`readyDict
      ensures ReadyInv(batch, readyKeys, readyDict) && ok == Accepts(old(data), target)
      ensures data == if ok && target.Some? then WithElement(old(data), target.value, value) else old(data)
      ensures ok <==> target.None? || target.value !in old(data) || old(data)[target.value].ListValue?
      ensures ok && target.Some? ==>
                data == old(data)[target.value :=
                  ListValue([value] + if target.value in old(data) then old(data)[target.value].elements else [])]
      ensures !ok || target.None? ==> data == old(data)
      ensures replies == old(replies) +
                [if target.None? then Popped(c, k, value) else if ok then Moved(c, value) else WrongType(c)]
      ensures readyDict == old(readyDict) + if target.Some? && target.value !in old(data) && target.value in queues then {target.value} else {}
    {
      if target.None? {
        replies := replies + [Popped(c, k, value)];
        return true;
      }
      var t := target.value;
      if t in data && !data[t].ListValue? {
        replies := replies + [WrongType(c)];
        return false;
      }
      RPopLPushHandlePush(c, t, value, batch);
      return true;
    }

    /** The body of the serving loop for a client blocked on lists: pop, unblock, serve, and push back on failure. */
    method ServeListReceiver(c: ClientId, k: Key, ghost batch: seq<Key>)
      requires Valid(batch) && c in clients && clients[c].btype == OnList && HasElements(data, k) && data[k].ListValue?
      modifies this
      ensures Valid(batch)
      ensures clients == old(clients)[c := Released(old(clients)[c])]
      ensures forall x :: Queue(queues, x) == Remove(Queue(old(queues), x), c)
      ensures data == DataAfter(old(data), k, old(clients)[c])
      ensures replies == old(replies) + [ReplyTo(old(data), k, c, old(clients)[c])]
      ensures var s, cl := old(data)[k].elements, old(clients)[c];
              var value, rest := if cl.where == Head then s[0] else s[|s| - 1], if cl.where == Head then s[1..] else s[..|s| - 1];
              var t := cl.target;
              && (t == None ==> data == old(data)[k := ListValue(rest)] && replies == old(replies) + [Popped(c, k, value)])
              && (t.Some? && t.value in old(data) && !old(data)[t.value].ListValue? ==>
                    data == old(data) && replies == old(replies) + [WrongType(c)])
              && (t.Some? && (t.value in old(data) ==> old(data)[t.value].ListValue?) ==>
                    && replies == old(replies) + [Moved(c, value)]
                    && data == if t.value == k then old(data)[k := ListValue([value] + rest)]
                               else old(data)[k := ListValue(rest)][t.value :=
                                 ListValue([value] + if t.value in old(data) then old(data)[t.value].elements else [])])
      ensures blockedClients + 1 == old(blockedClients)
      ensures var t := old(clients)[c].target;
              readyDict == old(readyDict) + if t.Some? && t.value !in old(data) && t.value in queues then {t.value} else {}
    {
      hide CountersInv, UnblockedInv, ReadyInv, IndexInv, KeysInv, TargetInv, Queue, Remove, First, Rest, Insert, WithElement;
      var target, where := clients[c].target, clients[c].where;
      PushBack(data[k].elements, where);
      ServeMeans(data, k, c, clients[c]);
      var value := First(data[k].elements, where);
      data := data[k := ListValue(Rest(data[k].elements, where))];
      UnblockClient(c, batch);
      var ok := ServeClientBlockedOnList(c, k, target, value, batch);
      if !ok {
        data := data[k := ListValue(Insert(data[k].elements, where, value))];
        assert data == old(data);
      }
    }

    /** The part of genericZpopCommand that takes the member with the least or greatest score. */
    method ZPop(c: ClientId, k: Key, where: Where)
      requires HasElements(data, k) && data[k].ZsetValue?
      modifies this`data, this`replies
      ensures var s := old(data)[k].elements;
              && data == old(data)[k := ZsetValue(if where == Head then s[1..] else s[..|s| - 1])]
              && replies == old(replies) + [Popped(c, k, if where == Head then s[0] else s[|s| - 1])]
    {
      replies := replies + [Popped(c, k, First(data[k].elements, where))];
      data := data[k := ZsetValue(Rest(data[k].elements, where))];
    }

    /** The body of the serving loop for a client blocked on sorted sets: unblock, then pop. */
    method ServeZsetReceiver(c: ClientId, k: Key, ghost batch: seq<Key>)
      requires Valid(batch) && c in clients && clients[c].btype == OnZset && HasElements(data, k) && data[k].ZsetValue?
      modifies this
      ensures Valid(batch)
      ensures clients == old(clients)[c := Released(old(clients)[c])]
      ensures forall x :: Queue(queues, x) == Remove(Queue(old(queues), x), c)
      ensures data == DataAfter(old(data), k, old(clients)[c])
      ensures replies == old(replies) + [ReplyTo(old(data), k, c, old(clients)[c])]
      ensures var s, where := old(data)[k].elements, old(clients)[c].where;
              && data == old(data)[k := ZsetValue(if where == Head then s[1..] else s[..|s| - 1])]
              && replies == old(replies) + [Popped(c, k, if where == Head then s[0] else s[|s| - 1])]
      ensures blockedClients + 1 == old(blockedClients)
      ensures readyDict == old(readyDict) && old(clients)[c].target == None
    {
      assert clients[c].target == None;
      hide CountersInv, UnblockedInv, ReadyInv, IndexInv, KeysInv, TargetInv, Queue, Remove, First, Rest;
      var where := clients[c].where;
      PoppedEnd(data[k].elements);
      UnblockClient(c, batch);
      ZPop(c, k, where);
    }

    method ServeReceiver(c: ClientId, k: Key, ghost batch: seq<Key>)
      requires Valid(batch) && c in clients && HasElements(data, k) && clients[c].btype == KindOf(data[k])
      modifies this
      ensures Valid(batch)
      ensures clients == old(clients)[c := Released(old(clients)[c])]
      ensures forall x :: Queue(queues, x) == Remove(Queue(old(queues), x), c)
      ensures data == DataAfter(old(data), k, old(clients)[c])
      ensures replies == old(replies) + [ReplyTo(old(data), k, c, old(clients)[c])]
      ensures blockedClients + 1 == old(blockedClients)
      ensures var t := old(clients)[c].target;
              readyDict == old(readyDict) + if t.Some? && t.value !in old(data) && t.value in queues then {t.value} else {}
    {
      hide CountersInv, UnblockedInv, ReadyInv, IndexInv, KeysInv, TargetInv, Queue, Remove, DataAfter, ReplyTo;
      if data[k].ListValue? { ServeListReceiver(c, k, batch); } else { ServeZsetReceiver(c, k, batch); }
    }

    /** The state of the serving loop for key k after the first visited clients of the queue q. */
    ghost predicate Serving(w: Start, batch: seq<Key>, k: Key, q: seq<ClientId>, visited: nat, served: seq<ClientId>)
      reads this
    {
      && visited <= |q| && Valid(batch)
      && Progress(w.clients, w.data, w.replies, k, served, clients, data, replies)
      && k in w.data && served == Those(w.clients, q[..visited], KindOf(w.data[k]), true)
      && Queue(queues, k) == q[visited..] + Those(w.clients, q[..visited], KindOf(w.data[k]), false)
      && blockedClients + |served| == w.blocked && (served == [] ==> readyDict == w.dict && readyKeys == w.ready)
      && (w.attended ==> FullOthers(data, k) && Attended(data, clients, queues, readyDict + w.lost, k))
    }

    /** What the loop knows of the client at the head of the queue: it is the next of q, as it was, and the queue is there. */
    ghost predicate AtHead(w: Start, k: Key, q: seq<ClientId>, visited: nat, served: seq<ClientId>)
      reads this
    {
      && visited < |q| && q[visited] in w.clients && q[visited] !in served && q[visited] in clients
      && clients[q[visited]] == w.clients[q[visited]] && k in queues && queues[k] != [] && queues[k][0] == q[visited]
      && k in w.data && k in data && !data[k].OtherValue? && KindOf(data[k]) == KindOf(w.data[k])
    }

    lemma Heads(w: Start, batch: seq<Key>, k: Key, q: seq<ClientId>, visited: nat, served: seq<ClientId>)
      requires Serving(w, batch, k, q, visited, served) && visited < |q|
      requires NoDuplicates(q) && forall c :: c in q ==> c in w.clients
      ensures AtHead(w, k, q, visited, served)
    {
      hide IndexInv, KeysInv, TargetInv, CountersInv, UnblockedInv, ReadyInv, Attended, FullOthers, Progress, Those, NoDuplicates;
      assert q[visited] in q && Queue(queues, k)[0] == q[visited];
      ProgressKnows(w.clients, w.data, w.replies, k, served, clients, data, replies, q, visited);
    }

    /** A turn that moves the client behind, and one that serves it. */
    method RotateTurn(ghost w: Start, ghost batch: seq<Key>, k: Key, ghost q: seq<ClientId>, ghost visited: nat, ghost served: seq<ClientId>)
      requires Serving(w, batch, k, q, visited, served) && AtHead(w, k, q, visited, served)
      requires clients[queues[k][0]].btype != KindOf(data[k])
      modifies this`queues
      ensures Serving(w, batch, k, q, visited + 1, served)
    {
      hide CountersInv, UnblockedInv, ReadyInv, IndexInv, KeysInv, TargetInv, Attended, FullOthers, Progress, Those;
      ghost var behind := Those(w.clients, q[..visited], KindOf(w.data[k]), false);
      NextThose(w.clients, q, KindOf(w.data[k]), visited);
      assert q[visited..] == [q[visited]] + q[visited + 1..];
      var receiver := queues[k][0];
      RotateFirst(k, receiver, batch, w.lost);
      assert Queue(queues, k) == q[visited + 1..] + (behind + [receiver]);
    }

    method ServeTurn(ghost w: Start, ghost batch: seq<Key>, k: Key, ghost q: seq<ClientId>, ghost visited: nat, ghost served: seq<ClientId>)
      requires Serving(w, batch, k, q, visited, served) && AtHead(w, k, q, visited, served)
      requires clients[queues[k][0]].btype == KindOf(data[k]) && HasElements(data, k)
      modifies this
      ensures Serving(w, batch, k, q, visited + 1, served + [q[visited]])
    {
      hide CountersInv, UnblockedInv, ReadyInv, IndexInv, KeysInv, TargetInv, Attended, FullOthers, Progress, Those;
      ghost var behind := Those(w.clients, q[..visited], KindOf(w.data[k]), false);
      NextThose(w.clients, q, KindOf(w.data[k]), visited);
      assert q[visited..] == [q[visited]] + q[visited + 1..];
      var receiver := queues[k][0];
      ServedNext(w.clients, w.data, w.replies, k, served, clients, data, replies, receiver);
      RemoveFirst(Queue(queues, k), 0);
      assert Queue(queues, k)[..0] == [];
      assert Queue(queues, k)[1..] == q[visited + 1..] + behind;
      ServeAndAttend(receiver, k, batch, w.lost);
    }

    /**
     One turn of the serving loop; false when nothing is left. The loop for lists
     finds that out when it pops for a client, the one for sorted sets before it
     looks at the client.
     */
    method VisitFirst(ghost w: Start, ghost batch: seq<Key>, k: Key, ghost q: seq<ClientId>, ghost visited: nat, ghost served: seq<ClientId>)
      returns (more: bool, ghost served': seq<ClientId>)
      requires Serving(w, batch, k, q, visited, served) && visited < |q|
      requires NoDuplicates(q) && forall c :: c in q ==> c in w.clients
      modifies this
      ensures more ==> Serving(w, batch, k, q, visited + 1, served')
      ensures !more ==> served' == served && Serving(w, batch, k, q, visited, served) && !HasElements(data, k)
    {
      hide Serving, NoDuplicates;
      Heads(w, batch, k, q, visited, served);
      assert k in queues; // the queue has not been freed
      var receiver := queues[k][0];
      if data[k].ZsetValue? && data[k].elements == [] { return false, served; }
      if clients[receiver].btype != KindOf(data[k]) {
        RotateTurn(w, batch, k, q, visited, served);
        return true, served;
      }
      if data[k].elements == [] { return false, served; }
      ServeTurn(w, batch, k, q, visited, served);
      return true, served + [receiver];
    }

    /** A client that waits for another type goes to the end of the queue. */
    method RotateFirst(k: Key, receiver: ClientId, ghost batch: seq<Key>, ghost lost: set<Key>)
      requires Valid(batch) && k in queues && queues[k] != [] && queues[k][0] == receiver
      modifies this`queues
      ensures Valid(batch) && queues == old(queues)[k := old(queues)[k][1..] + [receiver]]
      ensures Attended(data, clients, old(queues), readyDict + lost, k) ==> Attended(data, clients, queues, readyDict + lost, k)
    {
      hide CountersInv, UnblockedInv, ReadyInv, IndexInv, KeysInv, TargetInv, Attended;
      Rotate(clients, queues, k);
      SameWaiters(data, clients, queues, readyDict + lost, k, queues[k][1..] + [receiver]);
      queues := queues[k := queues[k][1..] + [receiver]];
    }

    method ServeAndAttend(c: ClientId, k: Key, ghost batch: seq<Key>, ghost lost: set<Key>)
      requires Valid(batch) && c in clients && HasElements(data, k) && clients[c].btype == KindOf(data[k])
      modifies this
      ensures Valid(batch)
      ensures clients == old(clients)[c := Released(old(clients)[c])]
      ensures Queue(queues, k) == Remove(Queue(old(queues), k), c)
      ensures data == DataAfter(old(data), k, old(clients)[c])
      ensures replies == old(replies) + [ReplyTo(old(data), k, c, old(clients)[c])]
      ensures blockedClients + 1 == old(blockedClients)
      ensures FullOthers(old(data), k) && Attended(old(data), old(clients), old(queues), old(readyDict) + lost, k) ==>
                FullOthers(data, k) && Attended(data, clients, queues, readyDict + lost, k)
    {
      hide CountersInv, UnblockedInv, ReadyInv, IndexInv, KeysInv, TargetInv, Attended, FullOthers, DataAfter, ReplyTo, Queue, Remove;
      ServeReceiver(c, k, batch);
      ServeAttends(old(data), old(clients), old(queues), old(readyDict) + lost, k, c, queues, readyDict + lost);
    }

    /**
     The serving loops of handleClientsBlockedOnKeys for one key that holds a list
     or a sorted set. They visit clients in the order they queued, serve those
     blocked on that type, and move the others behind; they stop early only when
     the value is used up.
     */
    method ServeQueue(k: Key, ghost batch: seq<Key>, ghost lost: set<Key>) returns (ghost w: Start, ghost visited: nat, ghost served: seq<ClientId>)
      requires Valid(batch) && k in data && !data[k].OtherValue?
      modifies this
      ensures w == Start(old(clients), old(data), old(replies), old(blockedClients), old(readyDict), old(readyKeys), lost,
                         FullOthers(old(data), k) && Attended(old(data), old(clients), old(queues), old(readyDict) + lost, k))
      ensures Serving(w, batch, k, Queue(old(queues), k), visited, served)
      ensures visited < |Queue(old(queues), k)| ==> !HasElements(data, k)
    {
      visited, served := 0, [];
      hide CountersInv, UnblockedInv, ReadyInv, IndexInv, KeysInv, TargetInv, Attended, FullOthers, Progress, NoDuplicates;
      w := Start(clients, data, replies, blockedClients, readyDict, readyKeys, lost,
                 FullOthers(data, k) && Attended(data, clients, queues, readyDict + lost, k));
      NothingServed(clients, data, replies, k);
      ghost var q := Queue(queues, k);
      assert q[0..] + Those(clients, q[..0], KindOf(data[k]), false) == q;
      assert Serving(w, batch, k, q, 0, []);
      if k !in queues { return; }
      QueueKnown(clients, queues, k);
      var numclients := |queues[k]|;
      while numclients > 0
        invariant numclients == |q| - visited && Serving(w, batch, k, q, visited, served)
        decreases numclients
      {
        hide Serving;
        numclients := numclients - 1;
        var more;
        more, served := VisitFirst(w, batch, k, q, visited, served);
        if !more { break; }
        visited := visited + 1;
      }
    }

    /** One ready key: its clients are served, and a value used up is deleted (a sorted set by the pop that empties it). */
    method ServeKey(k: Key, ghost batch: seq<Key>, ghost lost: set<Key>)
      requires Valid(batch) && FullLists(data) && Attended(data, clients, queues, readyDict + lost, k)
      modifies this
      ensures Valid(batch) && FullLists(data) && AllAttended(data, clients, queues, readyDict + lost)
      ensures Contents(data) + Delivered(replies) == old(Contents(data) + Delivered(replies))
      ensures blockedClients < old(blockedClients) || (blockedClients == old(blockedClients) && readyKeys == old(readyKeys))
    {
      hide IndexInv, KeysInv, TargetInv, CountersInv, UnblockedInv, ReadyInv, Contents, Delivered, Attended, Queue, AllAttended;
      ListsFull(data, k);
      if k !in data || data[k].OtherValue? {
        NoListAt(data, clients, queues, readyDict + lost, k);
        return;
      }
      ghost var q := Queue(queues, k);
      ghost var w, visited, served := ServeQueue(k, batch, lost);
      hide FullLists, FullOthers;
      ServedConserves(this, w, batch, k, q, visited, served);
      ServedAttends(this, w, batch, k, q, visited, served);
      if data[k].elements == [] {
        DropEmpty(data, k);
        DeletedAttends(data, clients, queues, readyDict + lost, k);
        data := data - {k};
      } else {
        StillFull(data, k);
      }
    }

    /**
     handleClientsBlockedOnKeys: it ends, with elements delivered once or still
     there. No client is left waiting for a list or sorted set that has elements,
     unless the key had been forgotten before: it had elements and a client that
     waits for such a value, and was not among the ready keys.
     */
    method HandleClientsBlockedOnKeys()
      requires Valid([]) && FullLists(data)
      modifies this
      ensures Valid([]) && FullLists(data) && readyKeys == [] && readyDict == {}
      ensures forall k :: Awaited(data, clients, queues, k) ==> k in old(Forgotten(data, clients, queues, readyDict))
      ensures old(Settled()) ==> Settled() && forall k :: !Awaited(data, clients, queues, k)
      ensures Contents(data) + Delivered(replies) == old(Contents(data) + Delivered(replies))
      ensures old(readyKeys) == [] ==> unchanged(this)
    {
      hide Contents, Delivered, FullLists, Forgotten;
      ghost var lost := Forgotten(data, clients, queues, readyDict);
      ForgottenWithin(data, clients, queues, readyDict, lost);
      ForgottenWithin(data, clients, queues, readyDict, {});
      while |readyKeys| != 0
        invariant Valid([]) && FullLists(data) && AllAttended(data, clients, queues, readyDict + lost)
        invariant Contents(data) + Delivered(replies) == old(Contents(data) + Delivered(replies))
        invariant old(readyKeys) == [] ==> unchanged(this)
        decreases blockedClients, |readyKeys|
      {
        hide AllAttended, IndexInv, KeysInv, TargetInv, CountersInv, UnblockedInv;
        ghost var blocked := blockedClients;
        var l := readyKeys;
        assert [] + l == l + [];
        readyKeys := [];
        DrainBatch(l, lost);
      }
      assert readyDict == {};
    }

    /** The inner loop: the batch is drained key by key, while new keys may become ready. */
    method DrainBatch(batch: seq<Key>, ghost lost: set<Key>)
      requires Valid(batch) && readyKeys == [] && FullLists(data) && AllAttended(data, clients, queues, readyDict + lost)
      modifies this
      ensures Valid([]) && FullLists(data) && AllAttended(data, clients, queues, readyDict + lost)
      ensures Contents(data) + Delivered(replies) == old(Contents(data) + Delivered(replies))
      ensures blockedClients < old(blockedClients) || (blockedClients == old(blockedClients) && readyKeys == [])
    {
      hide Contents, Delivered, FullLists, AllAttended, IndexInv, KeysInv, TargetInv, CountersInv, UnblockedInv, ReadyInv, Attended;
      var l := batch;
      while |l| != 0
        invariant Valid(l) && FullLists(data) && AllAttended(data, clients, queues, readyDict + lost)
        invariant Contents(data) + Delivered(replies) == old(Contents(data) + Delivered(replies))
        invariant blockedClients < old(blockedClients) || (blockedClients == old(blockedClients) && readyKeys == [])
        decreases |l|
      {
        var k := l[0];
        ReadyLess(l, readyKeys, readyDict);
        AllButOne(data, clients, queues, readyDict, lost, k);
        readyDict := readyDict - {k};
        l := l[1..];
        ServeKey(k, l, lost);
      }
      assert l == [];
    }

    // -------------------------------------------------------------- the commands around it

    /** Between commands, when every list with elements that a client waits for is ready to be served. */
    ghost predicate Settled()
      reads this
    {
      Valid([]) && FullLists(data) && AllAttended(data, clients, queues, readyDict)
    }

    constructor (ids: set<ClientId>)
      ensures Settled() && data == map[] && replies == [] && readyKeys == []
      ensures clients == map c | c in ids :: Client(NotBlocked, {}, None, Head, false)
    {
      clients := map c | c in ids :: Client(NotBlocked, {}, None, Head, false);
      queues, unblocked := map[], [];
      blockedClients, blockedByType := 0, map[OnList := 0, OnZset := 0, OnStream := 0, OnWait := 0, OnModule := 0];
      readyKeys, readyDict, data, replies := [], {}, map[], [];
      new;
      NobodyBlocked(clients, blockedByType);
    }

    /** pushGenericCommand: a list that comes into being is signalled to those who wait for it, a longer list is not. */
    method Push(c: ClientId, k: Key, elements: seq<Element>, where: Where) returns (ok: bool)
      requires Valid([]) && FullLists(data) && elements != []
      modifies this`data, this`readyKeys, this`readyDict, this`replies
      ensures Valid([]) && FullLists(data) && (old(Settled()) ==> Settled()) && ok == Accepts(old(data), Some(k))
      ensures ok ==> replies == old(replies)
      ensures ok ==> data == old(data)[k := ListValue(InsertAll(if k in old(data) then old(data)[k].elements else [], where, elements))]
      ensures ok ==>
                var was := if k in old(data) then old(data)[k].elements else [];
                && k in data && data[k].ListValue? && |data[k].elements| == |was| + |elements|
                && (where == Tail ==> data[k].elements == was + elements)
                && (where == Head ==> data[k].elements[|elements|..] == was)
                && (where == Head ==> forall i :: 0 <= i < |elements| ==> data[k].elements[|elements| - 1 - i] == elements[i])
      ensures !ok ==> data == old(data) && replies == old(replies) + [WrongType(c)]
      ensures k in old(data) ==> readyKeys == old(readyKeys) && readyDict == old(readyDict)
      ensures Forgotten(data, clients, queues, readyDict) <= old(Forgotten(data, clients, queues, readyDict))
    {
      hide IndexInv, KeysInv, TargetInv, CountersInv, UnblockedInv, ReadyInv, FullLists, AllAttended, Forgotten, InsertAll, Insert;
      ghost var lost := Forgotten(data, clients, queues, readyDict);
      ForgottenWithin(data, clients, queues, readyDict, lost);
      ForgottenWithin(data, clients, queues, readyDict, {});
      if k in data && !data[k].ListValue? {
        replies := replies + [WrongType(c)];
        return false;
      }
      if k !in data { AddList(k, []); }
      ghost var was := data[k].elements;
      InsertAllNext(was, where, elements, 0);
      var j := 0;
      while j < |elements|
        modifies this`data
        invariant 0 <= j <= |elements| && k in data
        invariant data == old(data)[k := ListValue(InsertAll(was, where, elements[..j]))]
      {
        InsertAllNext(was, where, elements, j);
        data := data[k := ListValue(Insert(data[k].elements, where, elements[j]))];
        j := j + 1;
      }
      assert elements[..j] == elements;
      PushedEnd(was, elements);
      PushAttends(old(data), clients, queues, old(readyDict) + lost, readyDict + lost, k, data[k].elements);
      ForgottenWithin(data, clients, queues, readyDict, lost);
      ForgottenWithin(data, clients, queues, readyDict, {});
      return true;
    }

    /**
     setKey: a new key is added, and signalled if it holds a list or a sorted set;
     an existing key is overwritten and never signalled. That keeps the state
     settled exactly when nobody waits for a list, or sorted set, at the key one
     overwrites, unless the key is ready already.
     */
    method SetKey(k: Key, v: Value)
      requires Valid([]) && FullLists(data) && !Empty(v)
      modifies this`data, this`readyKeys, this`readyDict
      ensures Valid([]) && FullLists(data) && data == old(data)[k := v]
      ensures readyDict == old(readyDict) + if k !in old(data) && !v.OtherValue? && k in queues then {k} else {}
      ensures k in old(data) || v.OtherValue? ==> readyKeys == old(readyKeys)
      ensures old(Settled()) ==>
                (Settled() <==> k !in old(data) || v.OtherValue? || !Waits(clients, queues, k, KindOf(v)) || k in old(readyDict))
    {
      hide IndexInv, KeysInv, TargetInv, CountersInv, UnblockedInv, ReadyInv, AllAttended, Waits;
      OverwriteSettled(data, clients, queues, readyDict, k, v);
      AddSettled(data, clients, queues, readyDict, k, v);
      if k !in data {
        data := data[k := v];
        if !v.OtherValue? { SignalKeyAsReady(k, []); }
      } else {
        data := data[k := v];
      }
    }

    /** blockingPopGenericCommand and blockingGenericZpopCommand: pop from the first value named, or wait for all of them. */
    method BlockingPop(c: ClientId, keys: seq<Key>, t: BlockType, where: Where, inTransaction: bool)
      requires Valid([]) && FullLists(data) && c in clients && clients[c].btype == NotBlocked && keys != [] && (t == OnList || t == OnZset)
      modifies this
      ensures Valid([]) && FullLists(data) && (old(Settled()) ==> Settled())
      ensures readyDict == old(readyDict) && readyKeys == old(readyKeys)
      ensures Forgotten(data, clients, queues, readyDict) <= old(Forgotten(data, clients, queues, readyDict))
      ensures Contents(data) + Delivered(replies) == old(Contents(data) + Delivered(replies))
      ensures clients == old(clients) ||
                (data == old(data) && replies == old(replies) && clients == old(clients)[c := Client(t, KeySet(keys), None, where, old(clients)[c].unblocked)])
      ensures clients != old(clients) <==> !inTransaction && forall k :: k in keys ==> k !in old(data)
      ensures clients != old(clients) ==>
                forall k :: Queue(queues, k) == Queue(old(queues), k) + if k in keys then [c] else []
      ensures clients == old(clients) ==> queues == old(queues)
      ensures inTransaction && (forall k :: k in keys ==> k !in old(data)) ==>
                data == old(data) && replies == old(replies) + [Nil(c)]
      ensures forall j :: 0 <= j < |keys| && keys[j] in old(data) && (forall k :: k in keys[..j] ==> k !in old(data)) ==>
                var k, v := keys[j], old(data)[keys[j]];
                if (t == OnList && v.ListValue?) || (t == OnZset && v.ZsetValue?) then
                  var s := v.elements;
                  && s != []
                  && replies == old(replies) + [Popped(c, k, if where == Head then s[0] else s[|s| - 1])]
                  && data == if |s| == 1 then old(data) - {k}
                             else old(data)[k := v.(elements := if where == Head then s[1..] else s[..|s| - 1])]
                else
                  data == old(data) && replies == old(replies) + [WrongType(c)]
    {
      hide IndexInv, KeysInv, TargetInv, CountersInv, UnblockedInv, ReadyInv, Contents, Delivered, Forgotten, AllAttended, Queue, KeySet;
      var j := 0;
      while j < |keys| && keys[j] !in data
        invariant 0 <= j <= |keys| && forall k :: k in keys[..j] ==> k !in data
      {
        assert keys[..j + 1] == keys[..j] + [keys[j]];
        j := j + 1;
      }
      if j < |keys| {
        FirstThere(old(data), keys, j);
        if KindOf(data[keys[j]]) != t {
          DeliveredOneMore(replies, WrongType(c));
          replies := replies + [WrongType(c)];
        } else {
          PopNow(c, keys[j], where);
        }
        return;
      }
      assert keys[..j] == keys;
      if inTransaction {
        DeliveredOneMore(replies, Nil(c));
        replies := replies + [Nil(c)];
        return;
      }
      Wait(c, t, keys, None, where);
    }

    /**
     brpoplpushCommand: the last element of list k goes to the head of list t, at
     once or when there is one.
     */
    method BRPopLPush(c: ClientId, k: Key, t: Key, inTransaction: bool)
      requires Valid([]) && FullLists(data) && c in clients && clients[c].btype == NotBlocked
      modifies this
      ensures Valid([]) && FullLists(data) && (old(Settled()) ==> Settled())
      ensures Forgotten(data, clients, queues, readyDict) <= old(Forgotten(data, clients, queues, readyDict))
      ensures Contents(data) == old(Contents(data))
      ensures k !in old(data) && !inTransaction ==>
                && data == old(data) && replies == old(replies) && readyDict == old(readyDict)
                && clients == old(clients)[c := Client(OnList, {k}, Some(t), Tail, old(clients)[c].unblocked)]
                && forall x :: Queue(queues, x) == Queue(old(queues), x) + if x == k then [c] else []
      ensures k in old(data) || inTransaction ==> clients == old(clients) && queues == old(queues)
      ensures k !in old(data) && inTransaction ==> data == old(data) && replies == old(replies) + [Nil(c)]
      ensures k in old(data) && !(old(data)[k].ListValue? && (t in old(data) ==> old(data)[t].ListValue?)) ==>
                data == old(data) && replies == old(replies) + [WrongType(c)]
      ensures k in old(data) && old(data)[k].ListValue? && (t in old(data) ==> old(data)[t].ListValue?) ==>
                var s, n := old(data)[k].elements, |old(data)[k].elements| - 1;
                && s != [] && replies == old(replies) + [Moved(c, s[n])]
                && data == if t == k then old(data)[k := ListValue([s[n]] + s[..n])]
                           else (if n == 0 then old(data) - {k} else old(data)[k := ListValue(s[..n])])
                                [t := ListValue([s[n]] + if t in old(data) then old(data)[t].elements else [])]
    {
      hide IndexInv, KeysInv, TargetInv, CountersInv, UnblockedInv, ReadyInv, Contents, Forgotten, AllAttended, Queue;
      if k in data {
        if !data[k].ListValue? {
          replies := replies + [WrongType(c)];
        } else {
          assert data[k].elements != []; // serverAssertWithInfo
          RPopLPush(c, k, t);
        }
      } else if inTransaction {
        replies := replies + [Nil(c)];
      } else {
        assert KeySet([k]) == {k};
        Wait(c, OnList, [k], Some(t), Tail);
      }
    }

    /** rpoplpushCommand, the source being a list: where both keys name the same list, it is rotated. */
    method RPopLPush(c: ClientId, k: Key, t: Key)
      requires Valid([]) && FullLists(data) && HasElements(data, k) && data[k].ListValue?
      modifies this`data, this`replies, this`readyKeys, this`readyDict
      ensures Valid([]) && FullLists(data) && (old(Settled()) ==> Settled())
      ensures Forgotten(data, clients, queues, readyDict) <= old(Forgotten(data, clients, queues, readyDict))
      ensures Contents(data) == old(Contents(data))
      ensures t in old(data) && !old(data)[t].ListValue? ==> data == old(data) && replies == old(replies) + [WrongType(c)]
      ensures (t in old(data) ==> old(data)[t].ListValue?) ==>
                var s, n := old(data)[k].elements, |old(data)[k].elements| - 1;
                && replies == old(replies) + [Moved(c, s[n])]
                && data == if t == k then old(data)[k := ListValue([s[n]] + s[..n])]
                           else (if n == 0 then old(data) - {k} else old(data)[k := ListValue(s[..n])])
                                [t := ListValue([s[n]] + if t in old(data) then old(data)[t].elements else [])]
      ensures readyDict == old(readyDict) + if t !in old(data) && t in queues then {t} else {}
    {
      hide IndexInv, KeysInv, TargetInv, CountersInv, UnblockedInv, ReadyInv, Contents, Forgotten, AllAttended, Queue, DataAfter, FullLists;
      if t in data && !data[t].ListValue? {
        replies := replies + [WrongType(c)];
        return;
      }
      ghost var cl := Client(OnList, {k}, Some(t), Tail, false);
      MoveForgets(data, clients, queues, readyDict, k, c, cl);
      ServeMeans(data, k, c, cl);
      var value := data[k].elements[|data[k].elements| - 1];
      data := data[k := ListValue(data[k].elements[..|data[k].elements| - 1])];
      RPopLPushHandlePush(c, t, value, []);
      assert data == DataAfter(old(data), k, cl);
      if data[k].elements == [] { data := data - {k}; }
    }

    /** The end of the blocking commands: the client waits for all keys, none of which exists. */
    method Wait(c: ClientId, t: BlockType, keys: seq<Key>, target: Option<Key>, where: Where)
      requires Valid([]) && FullLists(data) && c in clients && clients[c].btype == NotBlocked && keys != []
      requires (t == OnList || (t == OnZset && target == None)) && forall k :: k in keys ==> k !in data
      modifies this`clients, this`queues, this`blockedClients, this`blockedByType
      ensures Valid([]) && (old(Settled()) ==> Settled())
      ensures Forgotten(data, clients, queues, readyDict) <= old(Forgotten(data, clients, queues, readyDict))
      ensures clients == old(clients)[c := Client(t, KeySet(keys), target, where, old(clients)[c].unblocked)]
      ensures clients != old(clients)
      ensures forall k :: Queue(queues, k) == Queue(old(queues), k) + if k in keys then [c] else []
    {
      hide IndexInv, KeysInv, TargetInv, CountersInv, UnblockedInv, ReadyInv, Contents, Delivered, Forgotten, AllAttended, FullLists;
      ghost var lost := Forgotten(data, clients, queues, readyDict);
      ForgottenWithin(data, clients, queues, readyDict, lost);
      ForgottenWithin(data, clients, queues, readyDict, {});
      BlockForKeys(c, t, keys, target, where, []);
      NewWaiter(data, old(clients), old(queues), readyDict + lost, c, keys, clients, queues);
      ForgottenWithin(data, clients, queues, readyDict, lost);
      ForgottenWithin(data, clients, queues, readyDict, {});
    }

    /** The part of these commands for a value with elements: a plain pop. */
    method PopNow(c: ClientId, k: Key, where: Where)
      requires Valid([]) && FullLists(data) && HasElements(data, k)
      modifies this`data, this`replies
      ensures Valid([]) && FullLists(data) && (old(Settled()) ==> Settled())
      ensures Forgotten(data, clients, queues, readyDict) <= old(Forgotten(data, clients, queues, readyDict))
      ensures Contents(data) + Delivered(replies) == old(Contents(data) + Delivered(replies))
      ensures var s := old(data)[k].elements;
              && replies == old(replies) + [Popped(c, k, if where == Head then s[0] else s[|s| - 1])]
              && data == if |s| == 1 then old(data) - {k}
                         else old(data)[k := old(data)[k].(elements := if where == Head then s[1..] else s[..|s| - 1])]
    {
      hide IndexInv, KeysInv, TargetInv, CountersInv, UnblockedInv, ReadyInv, Contents, Delivered, First, Rest;
      var value := First(data[k].elements, where);
      PoppedEnd(data[k].elements);
      TakeConserves(data, k, where);
      DeliveredOneMore(replies, Popped(c, k, value));
      data := data[k := data[k].(elements := Rest(data[k].elements, where))];
      replies := replies + [Popped(c, k, value)];
      if data[k].elements == [] {
        DropEmpty(data, k);
        data := data - {k};
      }
    }
  }

  /** There is one first key that exists. */
  lemma FirstThere(data: Data, keys: seq<Key>, j: nat)
    requires j < |keys| && keys[j] in data && forall k :: k in keys[..j] ==> k !in data
    ensures forall i :: 0 <= i < |keys| && keys[i] in data && (forall k :: k in keys[..i] ==> k !in data) ==> i == j
  {
    assert forall i :: 0 <= i < j ==> keys[i] in keys[..j];
    assert forall i :: j < i < |keys| ==> keys[j] in keys[..i];
  }

  /** What the serving loop starts from. */
  datatype Start = Start(clients: Clients, data: Data, replies: seq<Reply>, blocked: nat, dict: set<Key>, ready: seq<Key>, lost: set<Key>, attended: bool)

  // ---------------------------------------------------------------- the serving loop

  /** The clients of a queue that are, or are not, blocked on the given type. */
  function Those(clients: Clients, q: seq<ClientId>, t: BlockType, yes: bool): seq<ClientId>
  {
    if q == [] then []
    else
      var c := q[|q| - 1];
      Those(clients, q[..|q| - 1], t, yes) +
      if c in clients && ((clients[c].btype == t) == yes) then [c] else []
  }

  lemma NextThose(clients: Clients, q: seq<ClientId>, t: BlockType, i: nat)
    requires i < |q| && q[i] in clients
    ensures Those(clients, q[..i + 1], t, true) == Those(clients, q[..i], t, true) + if clients[q[i]].btype == t then [q[i]] else []
    ensures Those(clients, q[..i + 1], t, false) == Those(clients, q[..i], t, false) + if clients[q[i]].btype == t then [] else [q[i]]
  {
    assert q[..i + 1][..i] == q[..i];
  }

  /** How far the loop is: the clients served so far are unblocked, and lists and replies are what serving them makes of them. */
  ghost predicate Progress(clients: Clients, data: Data, replies: seq<Reply>, k: Key, served: seq<ClientId>,
                           clients': Clients, data': Data, replies': seq<Reply>)
  {
    && clients'.Keys == clients.Keys
    && (forall c :: c in clients ==> clients'[c] == if c in served then Released(clients[c]) else clients[c])
    && data' == DataAfterAll(data, k, clients, served)
    && k in data && k in data' && !data[k].OtherValue? && KindOf(data'[k]) == KindOf(data[k])
    && replies' == replies + RepliesTo(data, k, clients, served)
  }

  lemma NothingServed(clients: Clients, data: Data, replies: seq<Reply>, k: Key)
    requires k in data && !data[k].OtherValue?
    ensures Progress(clients, data, replies, k, [], clients, data, replies)
  {
  }

  lemma NoneOf(clients: Clients, t: BlockType, yes: bool)
    ensures Those(clients, [], t, yes) == []
  {
  }

  lemma {:induction false} ThoseIn(clients: Clients, q: seq<ClientId>, t: BlockType, yes: bool, c: ClientId)
    requires c in Those(clients, q, t, yes)
    ensures c in q
    decreases |q|
  {
    if c !in q {
      ThoseIn(clients, q[..|q| - 1], t, yes, c);
    }
  }

  /** Those of a queue are in its order. */
  lemma {:induction false} ThoseInOrder(clients: Clients, q: seq<ClientId>, t: BlockType, yes: bool, i: nat, j: nat) returns (a: nat, b: nat)
    requires i < j < |Those(clients, q, t, yes)|
    ensures a < b < |q| && q[a] == Those(clients, q, t, yes)[i] && q[b] == Those(clients, q, t, yes)[j]
    decreases |q|
  {
    var prev, last := Those(clients, q[..|q| - 1], t, yes), |q| - 1;
    if j < |prev| {
      a, b := ThoseInOrder(clients, q[..last], t, yes, i, j);
    } else {
      assert prev[i] in prev;
      ThoseIn(clients, q[..last], t, yes, prev[i]);
      a :| 0 <= a < last && q[a] == prev[i];
      b := last;
    }
  }

  /** They are all the known clients of the queue blocked, or not blocked, on the type. */
  lemma {:induction false} ThoseAll(clients: Clients, q: seq<ClientId>, t: BlockType, yes: bool, c: ClientId)
    requires c in clients
    ensures c in Those(clients, q, t, yes) <==> c in q && ((clients[c].btype == t) == yes)
    decreases |q|
  {
    if q != [] {
      ThoseAll(clients, q[..|q| - 1], t, yes, c);
      assert q == q[..|q| - 1] + [q[|q| - 1]];
    }
  }

  /** The client about to be visited is as it was when the loop began. */
  lemma ProgressKnows(clients: Clients, data: Data, replies: seq<Reply>, k: Key, served: seq<ClientId>,
                      clients': Clients, data': Data, replies': seq<Reply>, q: seq<ClientId>, i: nat)
    requires Progress(clients, data, replies, k, served, clients', data', replies')
    requires NoDuplicates(q) && i < |q| && q[i] in clients && served == Those(clients, q[..i], KindOf(data[k]), true)
    ensures q[i] in clients' && clients'[q[i]] == clients[q[i]] && q[i] !in served
    ensures k in data' && !data'[k].OtherValue? && KindOf(data'[k]) == KindOf(data[k])
  {
    if q[i] in served { ThoseIn(clients, q[..i], KindOf(data[k]), true, q[i]); }
  }

  lemma ServedNext(clients: Clients, data: Data, replies: seq<Reply>, k: Key, served: seq<ClientId>,
                   clients': Clients, data': Data, replies': seq<Reply>, c: ClientId)
    requires Progress(clients, data, replies, k, served, clients', data', replies')
    requires c in clients && c !in served && HasElements(data', k)
    ensures c in clients'
    ensures Progress(clients, data, replies, k, served + [c], clients'[c := Released(clients'[c])],
                     DataAfter(data', k, clients'[c]), replies' + [ReplyTo(data', k, c, clients'[c])])
  {
    ServedOneMore(data, k, clients, served, c);
    hide DataAfterAll, RepliesTo;
    assert replies' + [ReplyTo(data', k, c, clients'[c])]
           == replies + (RepliesTo(data, k, clients, served) + [ReplyTo(data', k, c, clients'[c])]);
    KeyStays(data', k, clients'[c]);
  }

  lemma KeyStays(data: Data, k: Key, cl: Client)
    requires HasElements(data, k)
    ensures k in DataAfter(data, k, cl) && KindOf(DataAfter(data, k, cl)[k]) == KindOf(data[k])
  {
  }

  lemma Rotate(clients: Clients, queues: Queues, k: Key)
    requires IndexInv(clients, queues) && k in queues
    ensures IndexInv(clients, queues[k := queues[k][1..] + [queues[k][0]]])
  {
    var q := queues[k];
    var r := q[1..] + [q[0]];
    assert q == [q[0]] + q[1..];
    var queues' := queues[k := r];
    assert forall c :: c in r <==> c in q;
    forall x, c ensures c in Queue(queues', x) <==> x in KeysOf(clients, c)
    {
      assert c in Queue(queues, x) <==> x in KeysOf(clients, c);
    }
  }

  // ---------------------------------------------------------------- nobody is forgotten

  ghost predicate Waits(clients: Clients, queues: Queues, x: Key, t: BlockType)
  {
    exists c :: c in Queue(queues, x) && c in clients && clients[c].btype == t
  }

  /** The key has elements, and a client waits for such a value there. */
  ghost predicate Awaited(data: Data, clients: Clients, queues: Queues, x: Key)
  {
    HasElements(data, x) && Waits(clients, queues, x, KindOf(data[x]))
  }

  /** Apart from k, every key with elements that a client waits for is among the ready keys. */
  ghost predicate Attended(data: Data, clients: Clients, queues: Queues, dict: set<Key>, k: Key)
  {
    forall x :: x != k && Awaited(data, clients, queues, x) ==> x in dict
  }

  /** Nothing is empty, except perhaps at k. */
  ghost predicate FullOthers(data: Data, k: Key)
  {
    forall x :: x in data && x != k ==> !Empty(data[x])
  }

  ghost predicate FullLists(data: Data)
  {
    forall x :: x in data ==> !Empty(data[x])
  }

  /** Every key with elements that a client waits for is among the ready keys. */
  ghost predicate AllAttended(data: Data, clients: Clients, queues: Queues, dict: set<Key>)
  {
    forall x :: Awaited(data, clients, queues, x) ==> x in dict
  }

  /** The keys with elements that a client waits for and that are not among the ready keys. */
  ghost function Forgotten(data: Data, clients: Clients, queues: Queues, dict: set<Key>): set<Key>
  {
    set x | x in data && Awaited(data, clients, queues, x) && x !in dict
  }

  lemma ForgottenWithin(data: Data, clients: Clients, queues: Queues, dict: set<Key>, lost: set<Key>)
    ensures Forgotten(data, clients, queues, dict) <= lost <==> AllAttended(data, clients, queues, dict + lost)
    ensures dict + {} == dict
  {
    if AllAttended(data, clients, queues, dict + lost) {
      assert forall x :: x in Forgotten(data, clients, queues, dict) ==> x in lost;
    }
  }

  /** Overwriting a key with a value somebody waits for loses that client if the key is not ready; nothing else does. */
  lemma OverwriteSettled(data: Data, clients: Clients, queues: Queues, dict: set<Key>, k: Key, v: Value)
    requires !Empty(v)
    ensures AllAttended(data, clients, queues, dict) ==>
              (AllAttended(data[k := v], clients, queues, dict) <==> v.OtherValue? || !Waits(clients, queues, k, KindOf(v)) || k in dict)
  {
    hide Waits;
    var data' := data[k := v];
    assert Awaited(data', clients, queues, k) <==> !v.OtherValue? && Waits(clients, queues, k, KindOf(v));
    assert forall x :: x != k ==> (Awaited(data', clients, queues, x) <==> Awaited(data, clients, queues, x));
  }

  lemma AddSettled(data: Data, clients: Clients, queues: Queues, dict: set<Key>, k: Key, v: Value)
    ensures AllAttended(data, clients, queues, dict) ==>
              AllAttended(data[k := v], clients, queues, dict + if !v.OtherValue? && k in queues then {k} else {})
  {
    var data' := data[k := v];
    if AllAttended(data, clients, queues, dict) {
      forall x | Awaited(data', clients, queues, x)
        ensures x in dict + if !v.OtherValue? && k in queues then {k} else {}
      {
        assert x == k || Awaited(data, clients, queues, x);
      }
    }
  }

  /** The overwrite at its smallest: one client waits, the key holds a string, then a list. */
  lemma OverwriteForgets(c: ClientId, k: Key, e: Element)
    ensures var clients, queues := map[c := Client(OnList, {k}, None, Head, false)], map[k := [c]];
            && AllAttended(map[k := OtherValue], clients, queues, {})
            && k in Forgotten(map[k := OtherValue][k := ListValue([e])], clients, queues, {})
  {
    var clients, queues := map[c := Client(OnList, {k}, None, Head, false)], map[k := [c]];
    assert c in Queue(queues, k);
    assert Awaited(map[k := OtherValue][k := ListValue([e])], clients, queues, k);
  }

  lemma ListsFull(data: Data, k: Key)
    requires FullLists(data)
    ensures FullOthers(data, k)
  {
  }

  lemma AllButOne(data: Data, clients: Clients, queues: Queues, dict: set<Key>, lost: set<Key>, k: Key)
    requires AllAttended(data, clients, queues, dict + lost)
    ensures Attended(data, clients, queues, dict - {k} + lost, k)
  {
  }

  lemma NoListAt(data: Data, clients: Clients, queues: Queues, dict: set<Key>, k: Key)
    requires Attended(data, clients, queues, dict, k) && !HasElements(data, k)
    ensures AllAttended(data, clients, queues, dict)
  {
  }

  lemma ServedConserves(s: Server, w: Start, batch: seq<Key>, k: Key, q: seq<ClientId>, visited: nat, served: seq<ClientId>)
    requires s.Serving(w, batch, k, q, visited, served)
    ensures Contents(s.data) + Delivered(s.replies) == Contents(w.data) + Delivered(w.replies)
  {
    hide Contents, Delivered;
    AllConserved(w.data, k, w.clients, served);
    DeliveredTogether(w.replies, RepliesTo(w.data, k, w.clients, served));
  }

  /** When the loop is over either the list is used up or nobody blocked on lists is left in the queue. */
  lemma ServedAttends(s: Server, w: Start, batch: seq<Key>, k: Key, q: seq<ClientId>, visited: nat, served: seq<ClientId>)
    requires s.Serving(w, batch, k, q, visited, served) && w.attended && (visited < |q| ==> !HasElements(s.data, k))
    ensures s.Valid(batch) && k in s.data && !s.data[k].OtherValue?
    ensures FullOthers(s.data, k) && AllAttended(s.data, s.clients, s.queues, s.readyDict + w.lost)
    ensures served == [] ==> s.readyKeys == w.ready
    ensures s.blockedClients + |served| == w.blocked
  {
    if visited == |q| {
      assert q[visited..] == [] && q[..visited] == q;
      OthersOnly(w, s.clients, q, KindOf(w.data[k]), served);
    }
  }

  lemma OthersOnly(w: Start, clients: Clients, q: seq<ClientId>, t: BlockType, served: seq<ClientId>)
    requires clients.Keys == w.clients.Keys && t != NotBlocked
    requires forall c :: c in w.clients ==> clients[c] == if c in served then Released(w.clients[c]) else w.clients[c]
    ensures forall c :: c in Those(w.clients, q, t, false) && c in clients ==> clients[c].btype != t
  {
    forall c | c in Those(w.clients, q, t, false) && c in w.clients ensures w.clients[c].btype != t
    {
      ThoseAll(w.clients, q, t, false, c);
    }
  }

  lemma NobodyBlocked(clients: Clients, byType: map<BlockType, nat>)
    requires forall c :: c in clients ==> clients[c] == Client(NotBlocked, {}, None, Head, false)
    requires forall t :: t != NotBlocked ==> t in byType && byType[t] == 0
    ensures IndexInv(clients, map[]) && KeysInv(clients) && TargetInv(clients)
    ensures CountersInv(clients, 0, byType) && UnblockedInv(clients, [])
  {
    assert Blocked(clients) == {};
    forall t | t != NotBlocked ensures BlockedOn(clients, t) == {} {}
  }

  lemma PushAttends(data: Data, clients: Clients, queues: Queues, dict: set<Key>, dict': set<Key>, k: Key, elements: seq<Element>)
    requires FullLists(data) && AllAttended(data, clients, queues, dict) && Accepts(data, Some(k)) && elements != []
    requires dict' == dict + if k !in data && k in queues then {k} else {}
    ensures FullLists(data[k := ListValue(elements)]) && AllAttended(data[k := ListValue(elements)], clients, queues, dict')
  {
    var data' := data[k := ListValue(elements)];
    forall x | Awaited(data', clients, queues, x) ensures x in dict'
    {
      assert Awaited(data, clients, queues, x) || (x == k && k !in data);
    }
  }

  lemma NewWaiter(data: Data, clients: Clients, queues: Queues, dict: set<Key>, c: ClientId, keys: seq<Key>, clients': Clients, queues': Queues)
    requires AllAttended(data, clients, queues, dict) && c in clients && c in clients' && clients' == clients[c := clients'[c]]
    requires forall k :: Queue(queues', k) == Queue(queues, k) + if k in KeySet(keys) then [c] else []
    requires (forall k :: k in keys ==> k !in data) && clients[c].btype == NotBlocked && IndexInv(clients, queues) && KeysInv(clients)
    ensures AllAttended(data, clients', queues', dict)
  {
    forall x | Awaited(data, clients', queues', x) ensures x in dict
    {
      var d :| d in Queue(queues', x) && d in clients' && clients'[d].btype == KindOf(data[x]);
      assert x !in keys && Queue(queues', x) == Queue(queues, x);
      Waiting(clients, queues, c);
      assert d != c;
    }
  }

  lemma StillFull(data: Data, k: Key)
    requires FullOthers(data, k) && HasElements(data, k)
    ensures FullLists(data)
  {
  }

  lemma DeletedAttends(data: Data, clients: Clients, queues: Queues, dict: set<Key>, k: Key)
    requires AllAttended(data, clients, queues, dict) && FullOthers(data, k)
    ensures AllAttended(data - {k}, clients, queues, dict) && FullLists(data - {k})
  {
  }

  lemma SameWaiters(data: Data, clients: Clients, queues: Queues, dict: set<Key>, k: Key, q: seq<ClientId>)
    ensures Attended(data, clients, queues, dict, k) ==> Attended(data, clients, queues[k := q], dict, k)
  {
    assert forall x :: x != k ==> Queue(queues[k := q], x) == Queue(queues, x);
  }

  /** Serving c gives elements only to its target; a target that was missing is signalled. */
  lemma ServeAttends(data: Data, clients: Clients, queues: Queues, dict: set<Key>, k: Key, c: ClientId, queues': Queues, dict': set<Key>)
    requires HasElements(data, k) && c in clients && IndexInv(clients, queues)
    requires forall x :: Queue(queues', x) == Remove(Queue(queues, x), c)
    requires var t := clients[c].target;
             dict' == dict + if t.Some? && t.value !in data && t.value in queues' then {t.value} else {}
    ensures FullOthers(data, k) ==> FullOthers(DataAfter(data, k, clients[c]), k)
    ensures FullOthers(data, k) && Attended(data, clients, queues, dict, k) ==>
              Attended(DataAfter(data, k, clients[c]), clients[c := Released(clients[c])], queues', dict', k)
  {
    var data' := DataAfter(data, k, clients[c]);
    ServeGives(data, k, clients[c]);
    hide DataAfter, Waits, IndexInv;
    if FullOthers(data, k) && Attended(data, clients, queues, dict, k) {
      forall x | x != k && Awaited(data', clients[c := Released(clients[c])], queues', x)
        ensures x in dict'
      {
        StillWaits(clients, queues, c, queues', x, KindOf(data'[x]));
      }
    }
  }

  /** So does moving an element at once; the source has to be dropped if it is used up. */
  lemma MoveAttends(data: Data, clients: Clients, queues: Queues, dict: set<Key>, k: Key, cl: Client)
    requires FullLists(data) && HasElements(data, k) && cl.target.Some?
    ensures var t, data' := cl.target.value, DataAfter(data, k, cl);
            var dict' := dict + if t !in data && t in queues then {t} else {};
            var left := if k in data' && Empty(data'[k]) then data' - {k} else data';
            FullLists(left) && (AllAttended(data, clients, queues, dict) ==> AllAttended(left, clients, queues, dict'))
  {
    var t, data' := cl.target.value, DataAfter(data, k, cl);
    ServeGives(data, k, cl);
    KeyStays(data, k, cl);
    hide DataAfter;
    var dict' := dict + if t !in data && t in queues then {t} else {};
    var left := if k in data' && Empty(data'[k]) then data' - {k} else data';
    if AllAttended(data, clients, queues, dict) {
      forall x | Awaited(left, clients, queues, x) ensures x in dict'
      {
        assert x in data ==> Awaited(data, clients, queues, x);
      }
    }
  }

  lemma MoveForgets(data: Data, clients: Clients, queues: Queues, dict: set<Key>, k: Key, c: ClientId, cl: Client)
    requires FullLists(data) && HasElements(data, k) && cl.target.Some?
    ensures var t, data' := cl.target.value, DataAfter(data, k, cl);
            var dict' := dict + if t !in data && t in queues then {t} else {};
            var left := if k in data' && Empty(data'[k]) then data' - {k} else data';
            && FullLists(left) && Contents(left) == Contents(data)
            && Forgotten(left, clients, queues, dict') <= Forgotten(data, clients, queues, dict)
            && (AllAttended(data, clients, queues, dict) ==> AllAttended(left, clients, queues, dict'))
  {
    hide Contents, Forgotten, AllAttended, FullLists, DataAfter;
    var t, data' := cl.target.value, DataAfter(data, k, cl);
    var dict' := dict + if t !in data && t in queues then {t} else {};
    var left := if k in data' && Empty(data'[k]) then data' - {k} else data';
    var lost := Forgotten(data, clients, queues, dict);
    ForgottenWithin(data, clients, queues, dict, lost);
    MoveAttends(data, clients, queues, dict + lost, k, cl);
    MoveAttends(data, clients, queues, dict, k, cl);
    assert dict' + lost == dict + lost + if t !in data && t in queues then {t} else {};
    ForgottenWithin(left, clients, queues, dict', lost);
    ServeConserves(data, k, c, cl);
    if k in data' && Empty(data'[k]) { DropEmpty(data', k); }
  }

  /** Apart from the target, which becomes a list with elements, serving a client from k touches nothing but k. */
  lemma ServeGives(data: Data, k: Key, cl: Client)
    requires HasElements(data, k)
    ensures var data' := DataAfter(data, k, cl);
            forall x :: x != k && x in data' ==>
              if cl.target != Some(x) then x in data && data'[x] == data[x]
              else x in data ==> data'[x] == data[x] || (!Empty(data'[x]) && KindOf(data'[x]) == KindOf(data[x]))
    ensures var data' := DataAfter(data, k, cl);
            forall x :: x != k && x in data' && x !in data ==> cl.target == Some(x) && !Empty(data'[x])
  {
  }

  lemma StillWaits(clients: Clients, queues: Queues, c: ClientId, queues': Queues, x: Key, t: BlockType)
    requires c in clients && IndexInv(clients, queues) && Queue(queues', x) == Remove(Queue(queues, x), c)
    requires t != NotBlocked && Waits(clients[c := Released(clients[c])], queues', x, t)
    ensures Waits(clients, queues, x, t) && x in queues'
  {
    var d :| d in Queue(queues', x) && d in clients && clients[c := Released(clients[c])][d].btype == t;
    RemoveUnique(Queue(queues, x), c);
    assert d in Queue(queues, x);
  }

  lemma QueueKnown(clients: Clients, queues: Queues, k: Key)
    requires IndexInv(clients, queues) && k in queues
    ensures NoDuplicates(queues[k]) && forall c :: c in queues[k] ==> c in clients
  {
    forall c | c in queues[k] ensures c in clients
    {
      assert c in Queue(queues, k);
      assert k in KeysOf(clients, c);
    }
  }

  lemma DropFirst(clients: Clients, unblocked: seq<ClientId>)
    requires UnblockedInv(clients, unblocked) && unblocked != []
    ensures unblocked[0] in clients
    ensures UnblockedInv(clients[unblocked[0] := clients[unblocked[0]].(unblocked := false)], unblocked[1..])
    ensures forall c :: c in unblocked[1..] <==> c in unblocked && c != unblocked[0]
  {
    assert unblocked == [unblocked[0]] + unblocked[1..];
    assert unblocked[0] !in unblocked[1..];
  }

  lemma KeySetNext(keys: seq<Key>, j: nat)
    ensures KeySet(keys[..0]) == {}
    ensures j < |keys| ==> KeySet(keys[..j + 1]) == KeySet(keys[..j]) + {keys[j]}
  {
    if j < |keys| { assert keys[..j + 1] == keys[..j] + [keys[j]]; }
  }

  /** What blocking a client leaves as it was. */
  lemma BlockingKeeps(clients: Clients, c: ClientId, t: BlockType, keys: seq<Key>, target: Option<Key>, where: Where,
                      unblocked: seq<ClientId>, total: nat, byType: map<BlockType, nat>)
    requires c in clients && clients[c].btype == NotBlocked && OnKeys(t) && keys != [] && (t == OnList || target == None)
    requires KeysInv(clients) && TargetInv(clients) && UnblockedInv(clients, unblocked) && CountersInv(clients, total, byType)
    ensures clients[c].keys == {}
    ensures CountersInv(clients[c := clients[c].(target := target, where := where, keys := KeySet(keys))], total, byType)
    ensures var clients' := clients[c := Client(t, KeySet(keys), target, where, clients[c].unblocked)];
            KeysInv(clients') && TargetInv(clients') && UnblockedInv(clients', unblocked)
  {
    assert clients[c].keys == {};
    hide CountersInv, UnblockedInv, KeysInv, TargetInv, KeySet;
    CountersSame(clients, clients[c := clients[c].(target := target, where := where, keys := KeySet(keys))], total, byType);
    var clients' := clients[c := Client(t, KeySet(keys), target, where, clients[c].unblocked)];
    UnblockedSame(clients, clients', unblocked);
    BlockedKeys(clients, clients', c, keys);
  }

  lemma BlockedKeys(clients: Clients, clients': Clients, c: ClientId, keys: seq<Key>)
    requires KeysInv(clients) && TargetInv(clients) && keys != [] && c in clients'
    requires clients' == clients[c := clients'[c]] && OnKeys(clients'[c].btype) && clients'[c].keys == KeySet(keys)
    requires clients'[c].btype == OnList || clients'[c].target == None
    ensures KeysInv(clients') && TargetInv(clients')
  {
    assert keys[0] in KeySet(keys);
  }

  /** A client is in the queues of its keys only. */
  lemma Waiting(clients: Clients, queues: Queues, c: ClientId)
    requires IndexInv(clients, queues) && c in clients
    ensures forall k :: k !in clients[c].keys ==> c !in Queue(queues, k)
  {
    assert KeysOf(clients, c) == clients[c].keys;
  }

  lemma QueueThere(clients: Clients, queues: Queues, k: Key, c: ClientId)
    requires IndexInv(clients, queues) && c in clients && k in clients[c].keys
    ensures k in queues && c in queues[k]
  {
    assert k in KeysOf(clients, c);
    assert c in Queue(queues, k);
  }

  lemma UnblockedSame(clients: Clients, clients': Clients, unblocked: seq<ClientId>)
    requires UnblockedInv(clients, unblocked) && clients.Keys == clients'.Keys
    requires forall c :: c in clients ==> clients'[c].unblocked == clients[c].unblocked
    ensures UnblockedInv(clients', unblocked)
  {
  }

  lemma NotWaiting(clients: Clients, queues: Queues, c: ClientId)
    requires IndexInv(clients, queues) && c in clients && clients[c].keys == {}
    ensures forall k :: Queue(queues, k) == Remove(Queue(queues, k), c)
  {
    Waiting(clients, queues, c);
    forall k ensures Queue(queues, k) == Remove(Queue(queues, k), c)
    {
      RemoveAbsent(Queue(queues, k), c);
    }
  }

  lemma Uncount(clients: Clients, c: ClientId, total: nat, byType: map<BlockType, nat>)
    requires CountersInv(clients, total, byType) && c in clients && clients[c].btype != NotBlocked
    ensures var t := clients[c].btype;
            && total > 0 && t in byType && byType[t] > 0
            && CountersInv(clients[c := clients[c].(btype := NotBlocked)], total - 1, byType[t := byType[t] - 1])
  {
    UnblockingCounts(clients, c);
    hide Blocked, BlockedOn;
  }

  lemma ReleasedKeys(clients: Clients, c: ClientId)
    requires KeysInv(clients) && TargetInv(clients) && c in clients
    ensures KeysInv(clients[c := Released(clients[c])]) && TargetInv(clients[c := Released(clients[c])])
  {
  }

  /**
   BLPOP k blocks; SET k; SORT .. STORE k; RPUSH k; and the loop that serves
   clients: the list has two elements, and the client waits for it still.
   */
  method OverwriteRun(a: ClientId, b: ClientId, k: Key, e: Element, f: Element) returns (s: Server)
    ensures fresh(s) && s.Valid([]) && s.readyKeys == [] && s.replies == []
    ensures k in s.data && s.data[k] == ListValue([e, f])
    ensures a in s.clients && s.clients[a].btype == OnList && k in s.queues && a in s.queues[k]
  {
    hide IndexInv, KeysInv, TargetInv, CountersInv, UnblockedInv, ReadyInv, FullLists, AllAttended, Forgotten, InsertAll, Waits, Contents, Delivered, Queue;
    s := new Server({a, b});
    s.BlockingPop(a, [k], OnList, Head, false);
    assert k in KeySet([k]);
    s.SetKey(k, OtherValue);
    s.SetKey(k, ListValue([e]));
    var ok := s.Push(b, k, [f], Tail);
    s.HandleClientsBlockedOnKeys();
    QueueThere(s.clients, s.queues, k, a);
  }
}
