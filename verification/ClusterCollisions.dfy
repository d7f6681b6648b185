/**
 Config epoch collisions (cluster.c, clusterHandleConfigEpochCollision): n masters
 that know each other and only exchange pings. Each run is a run of ClusterEpochs,
 so pings may be delayed, lost, reordered or repeated.
 */
module ClusterCollisions {
  import opened Basics
  import opened ClusterSlots
  import opened ClusterEpochs

  /** The masters' IDs from the greatest down; each host goes by its ID. */
  ghost predicate Ranked(ids: seq<NodeId>)
  {
    forall i, j :: 0 <= i < j < |ids| ==> ids[i] > ids[j]
  }

  ghost predicate Peer(ids: seq<NodeId>, v: NodeView, id: NodeId)
  {
    v.myself == id && v.slaveOf.None? && forall m :: m in ids ==> m in v.configs
  }

  ghost predicate Peers(ids: seq<NodeId>, s: System)
  {
    forall id :: id in ids ==> id in s.hosts && Peer(ids, s.hosts[id], id)
  }

  /** A master's own configEpoch. */
  function Own(s: System, id: NodeId): nat
  {
    if id in s.hosts && id in s.hosts[id].configs then s.hosts[id].configs[id] else 0
  }

  /** Only pings are sent and received. */
  ghost predicate PingRun(ids: seq<NodeId>, states: seq<System>, steps: seq<Step>)
  {
    && IsRun(states, steps) && Inv(states[0]) && Peers(ids, states[0]) && states[0].network == {}
    && forall i :: 0 <= i < |steps| ==>
      steps[i].host in ids && (steps[i].Receive? || (steps[i].Send? && steps[i].kind.Ping?))
  }

  // ---------------------------------------------------------------- one step

  lemma PeersKept(ids: seq<NodeId>, s: System, step: Step)
    requires Peers(ids, s) && Enabled(s, step) && (step.Receive? || step.Send?)
    ensures Peers(ids, Next(s, step))
  {
  }

  /** A master that changes its epoch left it because a master with a greater ID once said it had the same; the new one is greater. */
  lemma MoveHasCause(v: NodeView, p: Packet)
    requires v.myself in v.configs && v.slaveOf.None? && (p.kind.Ping? && p.sender != v.myself)
    requires v.configs[v.myself] <= v.currentEpoch
    ensures Received(v, p).myself == v.myself && v.myself in Received(v, p).configs
    ensures Received(v, p).configs[v.myself] != v.configs[v.myself] ==>
              v.configs[v.myself] < Received(v, p).configs[v.myself] && p.sender > v.myself && p.configEpoch == v.configs[v.myself]
  {
  }

  lemma OwnEcho(v: NodeView, p: Packet)
    requires v.myself in v.configs && p.kind.Ping? && p.sender == v.myself && p.configEpoch <= v.configs[v.myself]
    ensures Received(v, p).myself == v.myself && v.myself in Received(v, p).configs
    ensures Received(v, p).configs[v.myself] == v.configs[v.myself]
  {
  }

  // ---------------------------------------------------------------- what a run has held

  /** The epochs a master has had, and the number of times it moved. */
  ghost function Held(states: seq<System>, id: NodeId): set<nat>
  {
    set k | 0 <= k < |states| :: Own(states[k], id)
  }

  ghost function Moves(states: seq<System>, id: NodeId): nat
  {
    if |states| <= 1 then 0
    else
      var n := |states| - 1;
      Moves(states[..n], id) + if Own(states[n], id) == Own(states[n - 1], id) then 0 else 1
  }

  /** Everything the bound rests on, for one state of the run and the states up to it. */
  ghost predicate HistoryInv(ids: seq<NodeId>, states: seq<System>)
  {
    && states != []
    && Peers(ids, states[|states| - 1])
    && (forall id :: id in ids ==> HostInv(ids, states, id))
    && forall p :: p in states[|states| - 1].network ==> PacketInv(ids, states, p)
  }

  ghost predicate PacketInv(ids: seq<NodeId>, states: seq<System>, p: Packet)
  {
    p.kind.Ping? && p.sender in ids && p.configEpoch in Held(states, p.sender)
  }

  ghost predicate HostInv(ids: seq<NodeId>, states: seq<System>, id: NodeId)
    requires states != []
  {
    var last := states[|states| - 1];
    && id in last.hosts && Own(last, id) <= last.hosts[id].currentEpoch
    && (forall e :: e in Held(states, id) ==> e <= Own(last, id))
    && |Held(states, id)| == Moves(states, id) + 1
    && forall e :: e in Held(states, id) && e != Own(last, id) ==> HeldAbove(ids, states, id, e)
  }

  ghost predicate HeldAbove(ids: seq<NodeId>, states: seq<System>, id: NodeId, e: nat)
  {
    exists j :: j in ids && j > id && e in Held(states, j)
  }

  lemma HeldGrows(states: seq<System>, s: System, id: NodeId)
    ensures Held(states + [s], id) == Held(states, id) + {Own(s, id)}
  {
    var more := states + [s];
    forall e | e in Held(states, id) ensures e in Held(more, id)
    {
      var k :| 0 <= k < |states| && Own(states[k], id) == e;
      assert more[k] == states[k];
    }
    assert more[|states|] == s;
  }

  lemma MovesGrow(states: seq<System>, s: System, id: NodeId)
    requires states != []
    ensures Moves(states + [s], id) ==
            Moves(states, id) + if Own(s, id) == Own(states[|states| - 1], id) then 0 else 1
  {
    HeldGrows(states, s, id);
    assert (states + [s])[..|states|] == states;
  }

  // ---------------------------------------------------------------- the history invariant

  lemma AboveKept(ids: seq<NodeId>, states: seq<System>, s: System, id: NodeId, e: nat)
    requires HeldAbove(ids, states, id, e)
    ensures HeldAbove(ids, states + [s], id, e)
  {
    var j :| j in ids && j > id && e in Held(states, j);
    HeldGrows(states, s, j);
    assert e in Held(states + [s], j);
  }

  lemma HostStays(ids: seq<NodeId>, states: seq<System>, s: System, id: NodeId)
    requires states != []
    requires HostInv(ids, states, id) && id in s.hosts && Own(s, id) == Own(states[|states| - 1], id)
    requires Own(s, id) <= s.hosts[id].currentEpoch
    ensures HostInv(ids, states + [s], id)
  {
    HeldGrows(states, s, id);
    MovesGrow(states, s, id);
    hide HeldAbove, Moves;
    assert Own(s, id) in Held(states, id);
    assert Held(states + [s], id) == Held(states, id);
    hide Held;
    forall e | e in Held(states + [s], id) && e != Own(s, id) ensures HeldAbove(ids, states + [s], id, e)
    {
      AboveKept(ids, states, s, id, e);
    }
  }

  lemma HostMoves(ids: seq<NodeId>, states: seq<System>, s: System, id: NodeId, cause: NodeId)
    requires states != []
    requires HostInv(ids, states, id) && id in s.hosts && Own(states[|states| - 1], id) < Own(s, id) <= s.hosts[id].currentEpoch
    requires cause in ids && cause > id && Own(states[|states| - 1], id) in Held(states, cause)
    ensures HostInv(ids, states + [s], id)
  {
    HeldGrows(states, s, id);
    MovesGrow(states, s, id);
    assert HeldAbove(ids, states, id, Own(states[|states| - 1], id));
    hide HeldAbove, Moves, Held;
    forall e | e in Held(states + [s], id) && e != Own(s, id) ensures HeldAbove(ids, states + [s], id, e)
    {
      AboveKept(ids, states, s, id, e);
    }
  }

  lemma PacketKept(ids: seq<NodeId>, states: seq<System>, s: System, p: Packet)
    requires PacketInv(ids, states, p)
    ensures PacketInv(ids, states + [s], p)
  {
    HeldGrows(states, s, p.sender);
  }

  /** What receiving a ping does to the epoch of the receiver. */
  lemma ReceiveMoves(ids: seq<NodeId>, states: seq<System>, id: NodeId, p: Packet)
    requires HistoryInv(ids, states) && id in ids && p in states[|states| - 1].network
    requires Enabled(states[|states| - 1], Receive(id, p))
    ensures var last := states[|states| - 1];
            var s := Next(last, Receive(id, p));
            && Peers(ids, s) && Own(s, id) <= s.hosts[id].currentEpoch
            && (Own(s, id) != Own(last, id) ==>
                  Own(last, id) < Own(s, id) && p.sender in ids && p.sender > id && Own(last, id) in Held(states, p.sender))
  {
    var last := states[|states| - 1];
    PeersKept(ids, last, Receive(id, p));
    var v := last.hosts[id];
    assert HostInv(ids, states, id) && PacketInv(ids, states, p);
    hide HostInv, Held, Received;
    ReceiveOwn(ids, states, id, p);
  }

  lemma ReceiveOwn(ids: seq<NodeId>, states: seq<System>, id: NodeId, p: Packet)
    requires HistoryInv(ids, states) && id in ids && p in states[|states| - 1].network
    ensures id in states[|states| - 1].hosts && states[|states| - 1].hosts[id].myself == id
    ensures id in states[|states| - 1].hosts[id].configs
    ensures var v := states[|states| - 1].hosts[id];
            var w := Received(v, p);
            && id in w.configs && w.configs[id] <= w.currentEpoch
            && (w.configs[id] != v.configs[id] ==>
                  v.configs[id] < w.configs[id] && p.sender > id && p.configEpoch == v.configs[id])
  {
    var v := states[|states| - 1].hosts[id];
    assert Peer(ids, v, id) && HostInv(ids, states, id) && PacketInv(ids, states, p);
    hide HostInv, PacketInv, HistoryInv;
    OwnBounded(ids, states, id, p);
    if p.sender == id { OwnEcho(v, p); } else { MoveHasCause(v, p); }
  }

  lemma OwnBounded(ids: seq<NodeId>, states: seq<System>, id: NodeId, p: Packet)
    requires HistoryInv(ids, states) && id in ids && p in states[|states| - 1].network
    ensures Own(states[|states| - 1], id) <= states[|states| - 1].hosts[id].currentEpoch
    ensures p.kind.Ping? && p.sender in ids && p.configEpoch in Held(states, p.sender)
    ensures p.sender == id ==> p.configEpoch <= Own(states[|states| - 1], id)
  {
    assert PacketInv(ids, states, p) && HostInv(ids, states, id);
  }

  ghost predicate PingStep(ids: seq<NodeId>, step: Step)
  {
    step.host in ids && (step.Receive? || (step.Send? && step.kind.Ping?))
  }

  lemma SendKeepsHistory(ids: seq<NodeId>, states: seq<System>, step: Step)
    requires HistoryInv(ids, states) && PingStep(ids, step) && step.Send? && Enabled(states[|states| - 1], step)
    ensures HistoryInv(ids, states + [Next(states[|states| - 1], step)])
  {
    var last := states[|states| - 1];
    var s := Next(last, step);
    PeersKept(ids, last, step);
    assert HostInv(ids, states, step.host);
    hide HostInv, PacketInv;
    forall id | id in ids ensures HostInv(ids, states + [s], id)
    {
      SameHost(ids, states, s, id);
    }
    forall p | p in s.network ensures PacketInv(ids, states + [s], p)
    {
      if p in last.network { PacketKept(ids, states, s, p); } else { NewPacket(ids, states, s, step.host, p); }
    }
  }

  lemma SameHost(ids: seq<NodeId>, states: seq<System>, s: System, id: NodeId)
    requires states != [] && HostInv(ids, states, id)
    requires id in s.hosts && id in states[|states| - 1].hosts && s.hosts[id] == states[|states| - 1].hosts[id]
    ensures HostInv(ids, states + [s], id)
  {
    HostStays(ids, states, s, id);
  }

  lemma NewPacket(ids: seq<NodeId>, states: seq<System>, s: System, id: NodeId, p: Packet)
    requires id in ids && Peers(ids, s) && p.kind.Ping? && p.sender == id && p.configEpoch == Own(s, id)
    ensures PacketInv(ids, states + [s], p)
  {
    HeldGrows(states, s, id);
  }

  lemma ReceiveKeepsHistory(ids: seq<NodeId>, states: seq<System>, id: NodeId, p: Packet)
    requires HistoryInv(ids, states) && id in ids && Enabled(states[|states| - 1], Receive(id, p))
    ensures HistoryInv(ids, states + [Next(states[|states| - 1], Receive(id, p))])
  {
    var last := states[|states| - 1];
    var s := Next(last, Receive(id, p));
    ReceiveMoves(ids, states, id, p);
    hide HostInv, PacketInv, Received, Held, Own;
    forall j | j in ids ensures HostInv(ids, states + [s], j)
    {
      if j != id { SameHost(ids, states, s, j); }
      else if Own(s, id) == Own(last, id) { HostStays(ids, states, s, id); }
      else { HostMoves(ids, states, s, id, p.sender); }
    }
    forall q | q in s.network ensures PacketInv(ids, states + [s], q)
    {
      PacketKept(ids, states, s, q);
    }
  }

  lemma HistoryStart(ids: seq<NodeId>, s: System)
    requires Inv(s) && Peers(ids, s) && s.network == {}
    ensures HistoryInv(ids, [s])
  {
    forall id | id in ids ensures HostInv(ids, [s], id)
    {
      assert ViewInv(s.hosts[id]) && Peer(ids, s.hosts[id], id);
      HeldGrows([], s, id);
      assert [] + [s] == [s];
      assert Held([], id) == {};
    }
  }

  lemma {:induction false} HistoryHolds(ids: seq<NodeId>, states: seq<System>, steps: seq<Step>, i: nat)
    requires PingRun(ids, states, steps) && i < |states|
    ensures HistoryInv(ids, states[..i + 1])
    decreases i
  {
    hide HistoryInv;
    if i == 0 {
      HistoryStart(ids, states[0]);
      assert states[..1] == [states[0]];
    } else {
      HistoryHolds(ids, states, steps, i - 1);
      var so := states[..i];
      assert so[|so| - 1] == states[i - 1] && states[..i + 1] == so + [states[i]];
      var step := steps[i - 1];
      assert states[i - 1 + 1] == Next(states[i - 1], step);
      assert PingStep(ids, step);
      HistoryNext(ids, so, step);
    }
  }

  lemma HistoryNext(ids: seq<NodeId>, states: seq<System>, step: Step)
    requires HistoryInv(ids, states) && PingStep(ids, step) && Enabled(states[|states| - 1], step)
    ensures HistoryInv(ids, states + [Next(states[|states| - 1], step)])
  {
    if step.Send? { SendKeepsHistory(ids, states, step); }
    else { ReceiveKeepsHistory(ids, states, step.host, step.packet); }
  }

  // ---------------------------------------------------------------- counting

  /** All epochs the first k masters have held, and how many that is at most. */
  ghost function HeldByFirst(ids: seq<NodeId>, states: seq<System>, k: nat): set<nat>
    requires k <= |ids|
  {
    if k == 0 then {} else HeldByFirst(ids, states, k - 1) + Held(states, ids[k - 1])
  }

  ghost function HeldCount(ids: seq<NodeId>, states: seq<System>, k: nat): nat
    requires k <= |ids|
  {
    if k == 0 then 0 else HeldCount(ids, states, k - 1) + |Held(states, ids[k - 1])|
  }

  /** The moves of the first k masters together. */
  ghost function TotalMoves(ids: seq<NodeId>, states: seq<System>, k: nat): nat
    requires k <= |ids|
  {
    if k == 0 then 0 else TotalMoves(ids, states, k - 1) + Moves(states, ids[k - 1])
  }

  lemma {:induction false} HeldByFirstHas(ids: seq<NodeId>, states: seq<System>, k: nat, j: nat, e: nat)
    requires j < k <= |ids| && e in Held(states, ids[j])
    ensures e in HeldByFirst(ids, states, k)
  {
    if j < k - 1 { HeldByFirstHas(ids, states, k - 1, j, e); }
  }

  lemma {:induction false} UnionSize(ids: seq<NodeId>, states: seq<System>, k: nat)
    requires k <= |ids|
    ensures |HeldByFirst(ids, states, k)| <= HeldCount(ids, states, k)
  {
    if k > 0 {
      UnionSize(ids, states, k - 1);
      hide Held;
      UnionAtMost(HeldByFirst(ids, states, k - 1), Held(states, ids[k - 1]));
    }
  }

  lemma UnionAtMost<T>(a: set<T>, b: set<T>)
    ensures |a + b| <= |a| + |b|
  {
    assert a + b == a + (b - a);
    SubsetSize(b - a, b);
  }

  lemma LeftHeldAbove(ids: seq<NodeId>, states: seq<System>, k: nat, e: nat)
    requires Ranked(ids) && k < |ids| && HeldAbove(ids, states, ids[k], e)
    ensures e in HeldByFirst(ids, states, k)
  {
    hide Held, HeldByFirst;
    var m :| m in ids && m > ids[k] && e in Held(states, m);
    var j: nat :| j < |ids| && ids[j] == m;
    assert j < k;
    HeldByFirstHas(ids, states, k, j, e);
  }

  /** The k-th master has left only epochs that masters above it have held. */
  lemma HeldAtMost(ids: seq<NodeId>, states: seq<System>, k: nat)
    requires Ranked(ids) && states != [] && k < |ids| && HostInv(ids, states, ids[k])
    ensures |Held(states, ids[k])| <= HeldCount(ids, states, k) + 1
  {
    hide Held, HeldByFirst, HeldAbove, Moves, HeldCount;
    var own := Own(states[|states| - 1], ids[k]);
    var left := Held(states, ids[k]) - {own};
    forall e | e in left ensures e in HeldByFirst(ids, states, k)
    {
      LeftHeldAbove(ids, states, k, e);
    }
    SubsetSize(left, HeldByFirst(ids, states, k));
    UnionSize(ids, states, k);
  }

  lemma {:induction false} CountBound(ids: seq<NodeId>, states: seq<System>, k: nat)
    requires Ranked(ids) && HistoryInv(ids, states) && k <= |ids|
    ensures HeldCount(ids, states, k) + 1 <= Pow2(k)
    ensures TotalMoves(ids, states, k) + k == HeldCount(ids, states, k)
  {
    hide Held, Moves, HeldAbove, PacketInv, Peers, Ranked;
    if k > 0 {
      CountBound(ids, states, k - 1);
      assert ids[k - 1] in ids;
      assert HostInv(ids, states, ids[k - 1]);
      HeldAtMost(ids, states, k - 1);
    }
  }

  // ---------------------------------------------------------------- the theorems

  /** Collision resolution stops: n masters make at most 2^n - n - 1 bumps in any run. */
  lemma CollisionsConverge(ids: seq<NodeId>, states: seq<System>, steps: seq<Step>)
    requires Ranked(ids) && PingRun(ids, states, steps)
    ensures TotalMoves(ids, states, |ids|) + |ids| + 1 <= Pow2(|ids|)
  {
    HistoryHolds(ids, states, steps, |steps|);
    assert states[..|steps| + 1] == states;
    CountBound(ids, states, |ids|);
  }

  /** The master with the greatest ID never moves. */
  lemma GreatestNeverMoves(ids: seq<NodeId>, states: seq<System>, steps: seq<Step>)
    requires Ranked(ids) && PingRun(ids, states, steps) && ids != []
    ensures Moves(states, ids[0]) == 0
  {
    HistoryHolds(ids, states, steps, |steps|);
    assert states[..|steps| + 1] == states;
    hide Held, HeldAbove, Moves;
    assert ids[0] in ids && HostInv(ids, states, ids[0]);
    HeldAtMost(ids, states, 0);
  }

  /** What a master knows of another never runs ahead of it. */
  ghost predicate NotAhead(ids: seq<NodeId>, s: System)
    requires Peers(ids, s)
  {
    forall i, j :: i in ids && j in ids ==> s.hosts[i].configs[j] <= Own(s, j)
  }

  /**
   As long as two masters share an epoch, a fresh ping from the one with the
   greater ID makes the other move; when no two do, no fresh ping moves anyone.
   */
  lemma FreshPingMoves(ids: seq<NodeId>, s: System, i: NodeId, j: NodeId)
    requires Inv(s) && Peers(ids, s) && NotAhead(ids, s) && i in ids && j in ids && i != j
    ensures var p := Sent(s.hosts[j], Ping);
            var w := Received(s.hosts[i], p);
            i in w.configs && (w.configs[i] != Own(s, i) <==> i < j && Own(s, i) == Own(s, j))
  {
    assert Peer(ids, s.hosts[i], i) && Peer(ids, s.hosts[j], j);
    assert s.hosts[i].configs[j] <= Own(s, j);
    assert ViewInv(s.hosts[i]) && ViewInv(s.hosts[j]);
  }

  lemma NotAheadKept(ids: seq<NodeId>, states: seq<System>, step: Step)
    requires HistoryInv(ids, states) && PingStep(ids, step) && Enabled(states[|states| - 1], step)
    requires NotAhead(ids, states[|states| - 1])
    ensures Peers(ids, Next(states[|states| - 1], step)) && NotAhead(ids, Next(states[|states| - 1], step))
  {
    var last := states[|states| - 1];
    var s := Next(last, step);
    PeersKept(ids, last, step);
    if step.Receive? {
      ReceiveMoves(ids, states, step.host, step.packet);
      SenderAhead(ids, states, step.packet);
    }
    forall i, j | i in ids && j in ids ensures s.hosts[i].configs[j] <= Own(s, j)
    {
      hide HistoryInv, Held;
      assert Peer(ids, last.hosts[i], i) && Peer(ids, last.hosts[j], j);
      assert last.hosts[i].configs[j] <= Own(last, j) <= Own(s, j);
      if step.Receive? && i == step.host && i != j { KnowsFromPacket(last.hosts[i], step.packet, j); }
    }
  }

  /** What a receiver knows of another node after a ping is what it knew, or what the ping said. */
  lemma KnowsFromPacket(v: NodeView, p: Packet, j: NodeId)
    requires v.myself in v.configs && j in v.configs && j != v.myself && p.kind.Ping?
    ensures j in Received(v, p).configs
    ensures Received(v, p).configs[j] == v.configs[j] || (j == p.sender && Received(v, p).configs[j] == p.configEpoch)
  {
  }

  lemma SenderAhead(ids: seq<NodeId>, states: seq<System>, p: Packet)
    requires HistoryInv(ids, states) && p in states[|states| - 1].network
    ensures p.kind.Ping? && p.sender in ids && p.configEpoch <= Own(states[|states| - 1], p.sender)
  {
    assert PacketInv(ids, states, p) && HostInv(ids, states, p.sender);
  }

  /** So in every state of a run that started so, a fresh ping resolves a shared epoch, and only that. */
  lemma {:induction false} NotAheadHolds(ids: seq<NodeId>, states: seq<System>, steps: seq<Step>, i: nat)
    requires PingRun(ids, states, steps) && NotAhead(ids, states[0]) && i < |states|
    ensures Inv(states[i]) && Peers(ids, states[i]) && NotAhead(ids, states[i])
  {
    if i > 0 {
      NotAheadHolds(ids, states, steps, i - 1);
      HistoryHolds(ids, states, steps, i - 1);
      var so, step := states[..i], steps[i - 1];
      assert so[|so| - 1] == states[i - 1];
      assert states[i - 1 + 1] == Next(states[i - 1], step);
      assert PingStep(ids, step);
      hide HistoryInv, NotAhead, Peers, PingRun;
      NotAheadKept(ids, so, step);
      NextKeepsInv(states[i - 1], step);
    }
  }
}
