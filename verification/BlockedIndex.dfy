/**
 Clients blocked on keys (blocked.c): the two sides of the index, as values.
 A key stands for a key of a given database.
 */
module BlockedIndex {
  import opened Basics

  type ClientId = nat
  type Key = nat
  type Element = nat

  datatype BlockType = NotBlocked | OnList | OnZset | OnStream | OnWait | OnModule

  datatype Where = Head | Tail

  /** The blocking state of a client; target is the destination of BRPOPLPUSH, where the end it pops from. */
  datatype Client = Client(btype: BlockType, keys: set<Key>, target: Option<Key>, where: Where, unblocked: bool)

  type Clients = map<ClientId, Client>

  /** blocking_keys: for each key the clients that wait for it, in the order they blocked. */
  type Queues = map<Key, seq<ClientId>>

  predicate OnKeys(t: BlockType) { t == OnList || t == OnZset || t == OnStream }

  function Queue(queues: Queues, k: Key): seq<ClientId>
  {
    if k in queues then queues[k] else []
  }

  ghost predicate NoDuplicates<T>(s: seq<T>)
  {
    forall i, j :: 0 <= i < j < |s| ==> s[i] != s[j]
  }

  function KeysOf(clients: Clients, c: ClientId): set<Key>
  {
    if c in clients then clients[c].keys else {}
  }

  /** Each client is once in the queue of each key it waits for, and in no other; no queue is empty. */
  ghost predicate IndexInv(clients: Clients, queues: Queues)
  {
    && (forall k :: k in queues ==> queues[k] != [] && NoDuplicates(queues[k]))
    && forall k, c :: c in Queue(queues, k) <==> k in KeysOf(clients, c)
  }

  /** A client waits for keys exactly while it is blocked on a list, a sorted set or a stream. */
  ghost predicate KeysInv(clients: Clients)
  {
    forall c :: c in clients ==> (clients[c].keys != {} <==> OnKeys(clients[c].btype))
  }

  function BlockedOn(clients: Clients, t: BlockType): set<ClientId>
  {
    set c | c in clients && clients[c].btype == t
  }

  function Blocked(clients: Clients): set<ClientId>
  {
    set c | c in clients && clients[c].btype != NotBlocked
  }

  /** The counters are the numbers of blocked clients, in all and by type. */
  ghost predicate CountersInv(clients: Clients, total: nat, byType: map<BlockType, nat>)
  {
    && total == |Blocked(clients)|
    && forall t :: t != NotBlocked ==> t in byType && byType[t] == |BlockedOn(clients, t)|
  }

  /** The UNBLOCKED flag says that the client is in the list of unblocked clients, where it is once. */
  ghost predicate UnblockedInv(clients: Clients, unblocked: seq<ClientId>)
  {
    && NoDuplicates(unblocked)
    && forall c :: c in unblocked <==> c in clients && clients[c].unblocked
  }

  // ---------------------------------------------------------------- removing from a queue

  /** listSearchKey and listDelNode: remove the first occurrence. */
  function Remove(s: seq<ClientId>, c: ClientId): seq<ClientId>
  {
    if s == [] then [] else if s[0] == c then s[1..] else [s[0]] + Remove(s[1..], c)
  }

  lemma {:induction false} RemoveAbsent(s: seq<ClientId>, c: ClientId)
    requires c !in s
    ensures Remove(s, c) == s
  {
    if s != [] {
      RemoveAbsent(s[1..], c);
      assert s == [s[0]] + s[1..];
    }
  }

  lemma {:induction false} RemoveFirst(s: seq<ClientId>, i: nat)
    requires i < |s| && s[i] !in s[..i]
    ensures Remove(s, s[i]) == s[..i] + s[i + 1..]
    decreases |s|
  {
    if i > 0 {
      assert s[1..][..i - 1] == s[1..i];
      assert s[i] != s[0] by { assert s[..i][0] == s[0]; }
      assert s[i] !in s[1..i] by { assert forall x :: x in s[1..i] ==> x in s[..i]; }
      RemoveFirst(s[1..], i - 1);
      assert [s[0]] + (s[1..i] + s[i + 1..]) == s[..i] + s[i + 1..];
    } else {
      assert s[..0] + s[1..] == s[1..];
    }
  }

  lemma RemoveUnique(s: seq<ClientId>, c: ClientId)
    requires NoDuplicates(s)
    ensures NoDuplicates(Remove(s, c)) && forall x :: x in Remove(s, c) <==> x in s && x != c
  {
    if c in s {
      var i: nat :| i < |s| && s[i] == c;
      RemoveFirst(s, i);
      CutUnique(s, i);
    } else {
      RemoveAbsent(s, c);
    }
  }

  lemma CutUnique(s: seq<ClientId>, i: nat)
    requires NoDuplicates(s) && i < |s|
    ensures NoDuplicates(s[..i] + s[i + 1..])
    ensures forall x :: x in s[..i] + s[i + 1..] <==> x in s && x != s[i]
  {
    var t := s[..i] + s[i + 1..];
    assert forall k :: 0 <= k < |t| ==> t[k] == if k < i then s[k] else s[k + 1];
    forall x | x in s && x != s[i] ensures x in t
    {
      var k: nat :| k < |s| && s[k] == x;
      assert t[if k < i then k else k - 1] == x;
    }
  }

  /** One queue less one client; an empty queue is dropped. */
  function Dequeued(queues: Queues, k: Key, c: ClientId): Queues
  {
    var rest := Remove(Queue(queues, k), c);
    if rest == [] then queues - {k} else queues[k := rest]
  }

  function Enqueued(queues: Queues, k: Key, c: ClientId): Queues
  {
    queues[k := Queue(queues, k) + [c]]
  }

  lemma DequeuedIndex(clients: Clients, queues: Queues, k: Key, c: ClientId)
    requires IndexInv(clients, queues) && c in clients
    ensures IndexInv(clients[c := clients[c].(keys := clients[c].keys - {k})], Dequeued(queues, k, c))
    ensures forall x :: Queue(Dequeued(queues, k, c), x) == if x == k then Remove(Queue(queues, k), c) else Queue(queues, x)
  {
    RemoveUnique(Queue(queues, k), c);
    hide Remove;
    var queues' := Dequeued(queues, k, c);
    var clients' := clients[c := clients[c].(keys := clients[c].keys - {k})];
    forall x, d ensures d in Queue(queues', x) <==> x in KeysOf(clients', d)
    {
      assert d in Queue(queues, x) <==> x in KeysOf(clients, d);
    }
  }

  lemma AppendUnique<T>(s: seq<T>, x: T)
    requires NoDuplicates(s) && x !in s
    ensures NoDuplicates(s + [x])
  {
  }

  lemma EnqueuedIndex(clients: Clients, queues: Queues, k: Key, c: ClientId)
    requires IndexInv(clients, queues) && c in clients && k !in clients[c].keys
    ensures IndexInv(clients[c := clients[c].(keys := clients[c].keys + {k})], Enqueued(queues, k, c))
  {
    var queues' := Enqueued(queues, k, c);
    var clients' := clients[c := clients[c].(keys := clients[c].keys + {k})];
    assert k !in KeysOf(clients, c);
    assert c !in Queue(queues, k);
    AppendUnique(Queue(queues, k), c);
    forall x, d ensures d in Queue(queues', x) <==> x in KeysOf(clients', d)
    {
      assert d in Queue(queues, x) <==> x in KeysOf(clients, d);
    }
  }

  // ---------------------------------------------------------------- counters

  lemma BlockingCounts(clients: Clients, c: ClientId, t: BlockType)
    requires c in clients && clients[c].btype == NotBlocked && t != NotBlocked
    ensures var clients' := clients[c := clients[c].(btype := t)];
            && |Blocked(clients')| == |Blocked(clients)| + 1
            && forall u :: u != NotBlocked ==>
                 |BlockedOn(clients', u)| == |BlockedOn(clients, u)| + if u == t then 1 else 0
  {
    var clients' := clients[c := clients[c].(btype := t)];
    assert Blocked(clients') == Blocked(clients) + {c};
    forall u | u != NotBlocked
      ensures |BlockedOn(clients', u)| == |BlockedOn(clients, u)| + if u == t then 1 else 0
    {
      assert BlockedOn(clients', u) == if u == t then BlockedOn(clients, u) + {c} else BlockedOn(clients, u);
    }
  }

  lemma UnblockingCounts(clients: Clients, c: ClientId)
    requires c in clients && clients[c].btype != NotBlocked
    ensures var clients' := clients[c := clients[c].(btype := NotBlocked)];
            && |Blocked(clients')| + 1 == |Blocked(clients)|
            && forall u :: u != NotBlocked ==>
                 |BlockedOn(clients', u)| + (if u == clients[c].btype then 1 else 0) == |BlockedOn(clients, u)|
  {
    var clients' := clients[c := clients[c].(btype := NotBlocked)];
    hide Blocked, BlockedOn;
    BlockingCounts(clients', c, clients[c].btype);
    assert clients == clients'[c := clients'[c].(btype := clients[c].btype)];
  }

  /** Counters depend on the block types only. */
  lemma CountersSame(clients: Clients, clients': Clients, total: nat, byType: map<BlockType, nat>)
    requires CountersInv(clients, total, byType) && clients.Keys == clients'.Keys
    requires forall c :: c in clients ==> clients'[c].btype == clients[c].btype
    ensures CountersInv(clients', total, byType)
  {
    assert Blocked(clients') == Blocked(clients);
    forall t | t != NotBlocked ensures BlockedOn(clients', t) == BlockedOn(clients, t) {}
  }
}
