/**
 Epochs (cluster.c): every node keeps a currentEpoch and the configEpoch of every
 node it knows, itself included, and spreads them in packet headers and UPDATE
 packets. A host keeps its place in the system while its node ID may change.
 */
module ClusterEpochs {
  import opened Basics
  import opened ClusterSlots

  type Host = nat

  /**
   configs holds the configEpoch of each known node; slaveOf the master of a
   slave; authEpoch, authSent and authCount its election; size the number of
   masters it knows to serve slots.
   */
  datatype NodeView = NodeView(
    myself: NodeId,
    currentEpoch: nat,
    lastVoteEpoch: nat,
    configs: map<NodeId, nat>,
    slaveOf: Option<NodeId>,
    authEpoch: nat,
    authSent: bool,
    authCount: nat,
    size: nat)

  /** AUTH_REQUEST and AUTH_ACK are Request and Ack; an ACK goes to the slave it is for. */
  datatype Kind = Ping | Other | Update(about: NodeId, epoch: nat) | Request | Ack(to: NodeId)

  datatype Packet = Packet(sender: NodeId, isMaster: bool, currentEpoch: nat, configEpoch: nat, kind: Kind)

  ghost predicate Formed(v: NodeView)
  {
    v.myself in v.configs && (v.slaveOf.Some? ==> v.slaveOf.value in v.configs)
  }

  // ---------------------------------------------------------------- one node

  /** The epochs in the header of a packet from a known node. */
  function Heard(v: NodeView, p: Packet): NodeView
    requires p.sender in v.configs
  {
    v.(currentEpoch := Max(v.currentEpoch, p.currentEpoch),
       configs := v.configs[p.sender := Max(v.configs[p.sender], p.configEpoch)])
  }

  /** Take the next epoch for oneself, without asking. */
  function Bumped(v: NodeView): NodeView
  {
    v.(currentEpoch := v.currentEpoch + 1, configs := v.configs[v.myself := v.currentEpoch + 1])
  }

  predicate Collides(v: NodeView, p: Packet)
    requires p.sender in v.configs && v.myself in v.configs
  {
    && v.slaveOf.None? && p.isMaster && p.configEpoch == v.configs[v.myself]
    && v.configs[p.sender] == v.configs[v.myself] && v.myself < p.sender
  }

  function Received(v: NodeView, p: Packet): NodeView
    requires v.myself in v.configs
  {
    if p.sender !in v.configs then v
    else
      var h := Heard(v, p);
      match p.kind
      case Ping => if Collides(h, p) then Bumped(h) else h
      case Other => h
      case Update(about, epoch) =>
        if about in h.configs && h.configs[about] < epoch then
          h.(configs := h.configs[about := epoch], slaveOf := if about == h.myself then None else h.slaveOf)
        else h
      case Request => h
      case Ack(to) =>
        if to == h.myself && p.isMaster && p.currentEpoch >= h.authEpoch then h.(authCount := h.authCount + 1) else h
  }

  /** May a master vote in answer to this request, as far as epochs go? */
  predicate MayVote(v: NodeView, p: Packet)
  {
    && p.kind == Request && p.sender in v.configs && v.slaveOf.None?
    && var h := Heard(v, p);
       p.currentEpoch >= h.currentEpoch && h.lastVoteEpoch != h.currentEpoch
  }

  function Voted(v: NodeView, p: Packet): NodeView
    requires p.sender in v.configs
  {
    var h := Heard(v, p);
    h.(lastVoteEpoch := h.currentEpoch)
  }

  /** Whose configEpoch a header carries: a slave shows its master's. */
  function Speaks(v: NodeView): NodeId
  {
    if v.slaveOf.Some? then v.slaveOf.value else v.myself
  }

  function Sent(v: NodeView, kind: Kind): Packet
    requires Formed(v)
  {
    Packet(v.myself, v.slaveOf.None?, v.currentEpoch, v.configs[Speaks(v)], kind)
  }

  /** The greatest epoch a node knows of. */
  ghost predicate IsMaxEpoch(v: NodeView, e: nat)
  {
    && v.currentEpoch <= e && (forall m :: m in v.configs ==> v.configs[m] <= e)
    && (e == v.currentEpoch || exists m :: m in v.configs && v.configs[m] == e)
  }

  // ---------------------------------------------------------------- the whole system

  /** Packets once sent may be received at any time, any number of times, by any host, or never. */
  datatype System = System(hosts: map<Host, NodeView>, network: set<Packet>)

  datatype Step =
    | Send(host: Host, kind: Kind)
    | Receive(host: Host, packet: Packet)
    | Vote(host: Host, packet: Packet)
    | Bump(host: Host)
    | Schedule(host: Host)
    | StartElection(host: Host)
    | WinElection(host: Host)
    | Resize(host: Host, size: nat)
    | SetConfigEpoch(host: Host, epoch: nat)
    | Learn(host: Host, node: NodeId)
    | Forget(host: Host, node: NodeId)
    | Replicate(host: Host, node: NodeId)
    | SoftReset(host: Host)
    | HardReset(host: Host, name: NodeId)

  ghost predicate Enabled(s: System, step: Step)
  {
    && step.host in s.hosts && Formed(s.hosts[step.host])
    && var v := s.hosts[step.host];
    match step
    case Send(_, kind) =>
      && !kind.Ack?
      && (kind.Update? ==> kind.about in v.configs && kind.epoch == v.configs[kind.about])
      && (kind.Request? ==> v.slaveOf.Some? && v.authSent)
    case Receive(_, p) => p in s.network
    case Vote(_, p) => p in s.network && MayVote(v, p)
    case Bump(_) => v.configs[v.myself] == 0 || !IsMaxEpoch(v, v.configs[v.myself])
    case Schedule(_) => v.slaveOf.Some?
    case StartElection(_) => v.slaveOf.Some? && !v.authSent
    case WinElection(_) => v.slaveOf.Some? && v.authSent && v.authCount >= v.size / 2 + 1
    case Resize(_, n) => n <= |v.configs|
    case SetConfigEpoch(_, _) => v.configs.Keys == {v.myself} && v.configs[v.myself] == 0
    case Learn(_, m) => m !in v.configs
    case Forget(_, m) => m != v.myself && v.slaveOf != Some(m)
    case Replicate(_, m) => m in v.configs && m != v.myself
    case SoftReset(_) => true
    case HardReset(_, _) => true
  }

  function Effect(v: NodeView, step: Step): NodeView
    requires Formed(v) && !step.Send? && (step.Vote? ==> step.packet.sender in v.configs)
  {
    match step
    case Receive(_, p) => Received(v, p)
    case Vote(_, p) => Voted(v, p)
    case Schedule(_) => v.(authSent := false, authCount := 0)
    case Resize(_, n) => v.(size := n)
    case Bump(_) => Bumped(v)
    case StartElection(_) => v.(currentEpoch := v.currentEpoch + 1, authEpoch := v.currentEpoch + 1, authSent := true)
    case WinElection(_) =>
      v.(configs := v.configs[v.myself := Max(v.configs[v.myself], v.authEpoch)], slaveOf := None)
    case SetConfigEpoch(_, e) => v.(configs := v.configs[v.myself := e], currentEpoch := Max(v.currentEpoch, e))
    case Learn(_, m) => v.(configs := v.configs[m := 0])
    case Forget(_, m) => v.(configs := v.configs - {m})
    case Replicate(_, m) => v.(slaveOf := Some(m))
    case SoftReset(_) => v.(configs := map[v.myself := v.configs[v.myself]], slaveOf := None)
    case HardReset(_, name) =>
      v.(myself := name, currentEpoch := 0, lastVoteEpoch := 0, configs := map[name := 0], slaveOf := None)
  }

  function Next(s: System, step: Step): System
    requires Enabled(s, step)
  {
    var v := s.hosts[step.host];
    if step.Send? then s.(network := s.network + {Sent(v, step.kind)})
    else
      var w := Effect(v, step);
      var sent := if step.Vote? then {Sent(w, Ack(step.packet.sender))} else {};
      System(s.hosts[step.host := w], s.network + sent)
  }

  // ---------------------------------------------------------------- the invariant

  /** No node knows a configEpoch above its currentEpoch. */
  ghost predicate Bounded(v: NodeView)
  {
    forall m :: m in v.configs ==> v.configs[m] <= v.currentEpoch
  }

  predicate BoundedPacket(p: Packet)
  {
    p.configEpoch <= p.currentEpoch && (p.kind.Update? ==> p.kind.epoch <= p.currentEpoch)
  }

  ghost predicate ViewInv(v: NodeView)
  {
    Formed(v) && Bounded(v)
  }

  ghost predicate Inv(s: System)
  {
    (forall h :: h in s.hosts ==> ViewInv(s.hosts[h])) && (forall p :: p in s.network ==> BoundedPacket(p))
  }

  lemma ReceivedBounded(v: NodeView, p: Packet)
    requires ViewInv(v) && BoundedPacket(p)
    ensures ViewInv(Received(v, p)) && v.currentEpoch <= Received(v, p).currentEpoch
  {
  }

  /** Of node m is kept the greatest epoch known before, shown in a header by m itself, or told of m in an UPDATE. */
  ghost predicate KeepsGreatest(v: NodeView, p: Packet, w: NodeView, m: NodeId)
    requires m in v.configs && m in w.configs
  {
    var e, told := w.configs[m], p.kind.Update? && m == p.kind.about;
    && e >= v.configs[m] && (m == p.sender ==> e >= p.configEpoch) && (told ==> e >= p.kind.epoch)
    && (e == v.configs[m] || (m == p.sender && e == p.configEpoch) || (told && e == p.kind.epoch))
  }

  /** A PING of a master with a greater ID shows the receiver's own configEpoch, and the receiver is a master too. */
  ghost predicate SameEpoch(v: NodeView, p: Packet)
    requires v.myself in v.configs && p.sender in v.configs
  {
    && p.kind.Ping? && v.slaveOf.None? && p.isMaster && v.myself < p.sender
    && v.configs[p.sender] <= p.configEpoch == v.configs[v.myself]
  }

  lemma ReceivedKeeps(v: NodeView, p: Packet, m: NodeId)
    requires v.myself in v.configs && p.sender in v.configs && m in v.configs && (m == v.myself ==> !SameEpoch(v, p))
    ensures m in Received(v, p).configs && KeepsGreatest(v, p, Received(v, p), m)
  {
  }

  lemma ReceivedTakes(v: NodeView, p: Packet)
    requires v.myself in v.configs && p.sender in v.configs
    ensures var w, next := Received(v, p), if SameEpoch(v, p) then 1 else 0;
            && w.configs.Keys == v.configs.Keys
            && w.currentEpoch == Max(v.currentEpoch, p.currentEpoch) + next
            && (SameEpoch(v, p) ==> w.configs[v.myself] == w.currentEpoch)
            && w.slaveOf == if p.kind.Update? && p.kind.about == v.myself && Heard(v, p).configs[v.myself] < p.kind.epoch then None
                            else v.slaveOf
  {
  }

  /**
   A packet from an unknown node changes nothing. After any other the receiver
   keeps of each node it knows the greatest epoch it had or was told, and the
   greater currentEpoch. Only on a collision of which it has the smaller ID it
   takes the next epoch for itself.
   */
  lemma ReceivedMeans(v: NodeView, p: Packet)
    requires v.myself in v.configs
    ensures var w := Received(v, p);
            && (p.sender !in v.configs ==> w == v)
            && w.configs.Keys == v.configs.Keys
            && (p.sender in v.configs ==>
                  && (forall m :: m in v.configs && (m == v.myself ==> !SameEpoch(v, p)) ==> KeepsGreatest(v, p, w, m))
                  && w.currentEpoch == Max(v.currentEpoch, p.currentEpoch) + (if SameEpoch(v, p) then 1 else 0)
                  && (SameEpoch(v, p) ==> w.configs[v.myself] == w.currentEpoch)
                  && (w.slaveOf != v.slaveOf ==> w.slaveOf == None && p.kind.Update? && p.kind.about == v.myself)
                  && (p.kind.Update? && p.kind.about == v.myself && w.configs[v.myself] > Max(v.configs[v.myself], p.configEpoch) ==>
                        w.slaveOf == None))
  {
    if p.sender in v.configs {
      ReceivedTakes(v, p);
      ReceivedKeeps(v, p, p.sender);
      hide Received, SameEpoch;
      forall m | m in v.configs && (m == v.myself ==> !SameEpoch(v, p)) ensures KeepsGreatest(v, p, Received(v, p), m)
      {
        ReceivedKeeps(v, p, m);
      }
    }
  }

  /** A win that takes an epoch the node has reached. */
  ghost predicate Timely(v: NodeView, step: Step)
  {
    step.WinElection? ==> v.authEpoch <= v.currentEpoch
  }

  lemma EffectBounded(v: NodeView, step: Step)
    requires ViewInv(v) && !step.Send? && (step.Receive? ==> BoundedPacket(step.packet))
    requires step.Vote? ==> BoundedPacket(step.packet) && step.packet.sender in v.configs
    requires step.Forget? ==> step.node != v.myself && v.slaveOf != Some(step.node)
    requires step.Replicate? ==> step.node in v.configs
    requires Timely(v, step)
    ensures ViewInv(Effect(v, step))
  {
    if step.Receive? {
      ReceivedBounded(v, step.packet);
      hide Received;
    }
  }

  lemma NextKeepsInv(s: System, step: Step)
    requires Inv(s) && Enabled(s, step) && Timely(s.hosts[step.host], step)
    ensures Inv(Next(s, step))
  {
    var v := s.hosts[step.host];
    assert ViewInv(v);
    if !step.Send? {
      EffectBounded(v, step);
    }
    hide Effect;
  }

  /** Winning keeps the bound exactly when the election's epoch is not above the current one. */
  lemma WinBoundedIff(v: NodeView, h: Host)
    requires Formed(v) && Bounded(v)
    ensures Bounded(Effect(v, WinElection(h))) <==> v.authEpoch <= v.currentEpoch
  {
    var w := Effect(v, WinElection(h));
    assert w.configs[v.myself] == Max(v.configs[v.myself], v.authEpoch);
  }

  ghost predicate IsRun(states: seq<System>, steps: seq<Step>)
  {
    && |states| == |steps| + 1
    && forall i :: 0 <= i < |steps| ==> Enabled(states[i], steps[i]) && states[i + 1] == Next(states[i], steps[i])
  }

  ghost predicate TimelyAt(states: seq<System>, steps: seq<Step>, k: nat)
    requires IsRun(states, steps) && k < |steps|
  {
    Timely(states[k].hosts[steps[k].host], steps[k])
  }

  lemma {:induction false} BoundedSoFar(states: seq<System>, steps: seq<Step>, i: nat)
    requires IsRun(states, steps) && i < |states| && Inv(states[0])
    requires forall k: nat :: k < i ==> TimelyAt(states, steps, k)
    ensures Inv(states[i])
  {
    if i > 0 {
      BoundedSoFar(states, steps, i - 1);
      assert TimelyAt(states, steps, i - 1);
      hide Inv;
      NextKeepsInv(states[i - 1], steps[i - 1]);
    }
  }

  /** A win that is not timely breaks the bound at once. */
  lemma UntimelyBreaks(s: System, step: Step)
    requires Enabled(s, step) && Inv(s) && Inv(Next(s, step))
    ensures Timely(s.hosts[step.host], step)
  {
    if step.WinElection? {
      var v := s.hosts[step.host];
      assert ViewInv(v);
      assert Next(s, step).hosts[step.host] == Effect(v, step);
      assert ViewInv(Effect(v, step));
      hide Effect;
      WinBoundedIff(v, step.host);
    }
  }

  /**
   In every run, each configEpoch kept or carried is at most the currentEpoch
   beside it in every state, if and only if every election was won in an epoch
   that its winner had reached.
   */
  lemma EpochsBounded(states: seq<System>, steps: seq<Step>)
    requires IsRun(states, steps) && Inv(states[0])
    ensures (forall i :: 0 <= i < |states| ==> Inv(states[i])) <==> (forall k: nat :: k < |steps| ==> TimelyAt(states, steps, k))
  {
    if forall k: nat :: k < |steps| ==> TimelyAt(states, steps, k) {
      forall i: nat | i < |states| ensures Inv(states[i])
      {
        BoundedSoFar(states, steps, i);
      }
    }
    if forall i :: 0 <= i < |states| ==> Inv(states[i]) {
      hide Inv, Timely, Next;
      forall k: nat | k < |steps| ensures TimelyAt(states, steps, k)
      {
        assert Inv(states[k]) && Inv(states[k + 1]);
        UntimelyBreaks(states[k], steps[k]);
      }
    }
  }

  // ---------------------------------------------------------------- runs in which it holds

  /** A request for votes that is out is for an epoch the node has reached. */
  ghost predicate Reached(v: NodeView)
  {
    v.authSent ==> v.authEpoch <= v.currentEpoch
  }

  /** A hard reset does not close an open election, so it must not hit one. */
  ghost predicate Calm(s: System, step: Step)
    requires Enabled(s, step)
  {
    step.HardReset? ==> Reached(Effect(s.hosts[step.host], step))
  }

  ghost predicate AllReached(s: System)
  {
    forall h :: h in s.hosts ==> Reached(s.hosts[h])
  }

  lemma ReachedKept(s: System, step: Step)
    requires Enabled(s, step) && Calm(s, step) && AllReached(s)
    ensures AllReached(Next(s, step)) && Timely(s.hosts[step.host], step)
  {
    var v := s.hosts[step.host];
    assert Reached(v);
    if !step.Send? { assert Reached(Effect(v, step)); }
  }

  lemma {:induction false} ReachedSoFar(states: seq<System>, steps: seq<Step>, i: nat)
    requires IsRun(states, steps) && i < |states| && AllReached(states[0])
    requires forall k :: 0 <= k < |steps| ==> Calm(states[k], steps[k])
    ensures AllReached(states[i])
  {
    if i > 0 {
      ReachedSoFar(states, steps, i - 1);
      hide AllReached;
      ReachedKept(states[i - 1], steps[i - 1]);
    }
  }

  /** So the bound holds in every run in which no hard reset hits a node whose request for votes is out. */
  lemma CalmRunsBounded(states: seq<System>, steps: seq<Step>)
    requires IsRun(states, steps) && Inv(states[0]) && AllReached(states[0])
    requires forall k :: 0 <= k < |steps| ==> Calm(states[k], steps[k])
    ensures forall i :: 0 <= i < |states| ==> Inv(states[i])
  {
    forall k: nat | k < |steps| ensures TimelyAt(states, steps, k)
    {
      ReachedSoFar(states, steps, k);
      hide Timely, AllReached, Next, Enabled;
      ReachedKept(states[k], steps[k]);
    }
    EpochsBounded(states, steps);
  }

  lemma CurrentEpochRises(s: System, step: Step, h: Host)
    requires Enabled(s, step) && h in s.hosts && !(step.HardReset? && step.host == h)
    ensures h in Next(s, step).hosts && s.hosts[h].currentEpoch <= Next(s, step).hosts[h].currentEpoch
  {
  }

  /** A host's currentEpoch only rises while it is not hard-reset, whatever else happens. */
  lemma {:induction false} CurrentEpochMonotone(states: seq<System>, steps: seq<Step>, h: Host, i: nat, j: nat)
    requires IsRun(states, steps) && i <= j < |states| && h in states[i].hosts
    requires forall k :: i <= k < j ==> !(steps[k].HardReset? && steps[k].host == h)
    ensures h in states[j].hosts && states[i].hosts[h].currentEpoch <= states[j].hosts[h].currentEpoch
    decreases j
  {
    if i < j {
      CurrentEpochMonotone(states, steps, h, i, j - 1);
      hide Next, Enabled;
      CurrentEpochRises(states[j - 1], steps[j - 1], h);
    }
  }

  // ---------------------------------------------------------------- why calm resets are needed

  lemma Take(states: seq<System>, steps: seq<Step>, step: Step) returns (states': seq<System>, steps': seq<Step>)
    requires |states| == |steps| + 1 && IsRun(states, steps) && Enabled(states[|steps|], step)
    ensures |states'| == |steps'| + 1 && IsRun(states', steps') && steps' == steps + [step]
    ensures states' == states + [Next(states[|steps|], step)]
  {
    hide Enabled, Next;
    states', steps' := states + [Next(states[|steps|], step)], steps + [step];
  }

  /** A slave, number 10, of a failed master of a cluster of five, and two of the other masters, all in epoch e. */
  function Slave(e: nat): NodeView
  {
    NodeView(10, e, 0, map[10 := 0, 20 := 0, 21 := 0, 22 := 0, 23 := 0, 24 := 0], Some(20), 0, false, 0, 5)
  }

  function Master(id: NodeId, e: nat): NodeView
  {
    NodeView(id, e, 0, map[10 := 0, id := 0], None, 0, false, 0, 5)
  }

  function Cluster(e: nat): System
  {
    System(map[0 := Slave(e), 1 := Master(21, e), 2 := Master(22, e)], {})
  }

  function VotesAsked(e: nat): Packet { Packet(10, false, e + 1, 0, Request) }

  function VoteOf(id: NodeId, e: nat): Packet { Packet(id, true, e + 1, 0, Ack(10)) }

  /** A master gives its vote. */
  lemma VoteGiven(s: System, h: Host, id: NodeId, e: nat)
    requires h in s.hosts && s.hosts[h] == Master(id, e) && id != 10 && VotesAsked(e) in s.network
    ensures Enabled(s, Vote(h, VotesAsked(e)))
    ensures Next(s, Vote(h, VotesAsked(e))).network == s.network + {VoteOf(id, e)}
    ensures Next(s, Vote(h, VotesAsked(e))).hosts == s.hosts[h := Voted(Master(id, e), VotesAsked(e))]
  {
    var v := Voted(Master(id, e), VotesAsked(e));
    assert v.configs == Master(id, e).configs;
    assert Sent(v, Ack(10)) == VoteOf(id, e);
  }

  /** And the slave counts it. */
  lemma VoteCounted(s: System, id: NodeId, e: nat, n: nat)
    requires 0 in s.hosts && VoteOf(id, e) in s.network && (id == 21 || id == 22)
    requires s.hosts[0] == Slave(e).(currentEpoch := e + 1, authEpoch := e + 1, authSent := true, authCount := n)
    ensures Enabled(s, Receive(0, VoteOf(id, e)))
    ensures Next(s, Receive(0, VoteOf(id, e))) == s.(hosts := s.hosts[0 := s.hosts[0].(authCount := n + 1)])
  {
    var v := s.hosts[0];
    assert Heard(v, VoteOf(id, e)).configs == v.configs;
    assert Received(v, VoteOf(id, e)) == v.(authCount := n + 1);
    assert s.network + {} == s.network;
  }

  /** The slave asks for votes and counts two, one short of the quorum of three. */
  lemma VotesAreAsked(e: nat)
    ensures Enabled(Cluster(e), StartElection(0))
    ensures var s := Next(Cluster(e), StartElection(0));
            && Enabled(s, Send(0, Request))
            && var t := Next(s, Send(0, Request));
               && t.hosts.Keys == {0, 1, 2} && t.hosts[1] == Master(21, e) && t.hosts[2] == Master(22, e)
               && t.hosts[0] == Slave(e).(currentEpoch := e + 1, authEpoch := e + 1, authSent := true)
               && VotesAsked(e) in t.network
  {
  }

  lemma TwoVotes(e: nat) returns (states: seq<System>, steps: seq<Step>)
    ensures |states| == |steps| + 1 && IsRun(states, steps) && states[0] == Cluster(e)
    ensures var s := states[|steps|];
            0 in s.hosts && s.hosts[0] == Slave(e).(currentEpoch := e + 1, authEpoch := e + 1, authSent := true, authCount := 2)
  {
    hide IsRun, Next, Enabled, Cluster, Slave, Master, VotesAsked;
    states, steps := [Cluster(e)], [];
    OneState(states, steps);
    VotesAreAsked(e);
    states, steps := Take(states, steps, StartElection(0));
    states, steps := Take(states, steps, Send(0, Request));
    states, steps := GatherVotes(states, steps, e);
  }

  lemma OneState(states: seq<System>, steps: seq<Step>)
    requires |states| == 1 && steps == []
    ensures IsRun(states, steps)
  {
  }

  lemma GatherVotes(states: seq<System>, steps: seq<Step>, e: nat) returns (states': seq<System>, steps': seq<Step>)
    requires |states| == |steps| + 1 && IsRun(states, steps)
    requires var s := states[|steps|];
             && s.hosts.Keys == {0, 1, 2} && s.hosts[1] == Master(21, e) && s.hosts[2] == Master(22, e)
             && s.hosts[0] == Slave(e).(currentEpoch := e + 1, authEpoch := e + 1, authSent := true)
             && VotesAsked(e) in s.network
    ensures |states'| == |steps'| + 1 && IsRun(states', steps') && states <= states' && steps <= steps'
    ensures var s := states'[|steps'|];
            0 in s.hosts && s.hosts[0] == Slave(e).(currentEpoch := e + 1, authEpoch := e + 1, authSent := true, authCount := 2)
  {
    hide Next, Enabled, MayVote, IsRun, Voted, Slave, Master;
    var v := states[|steps|].hosts[0];
    SlaveCount(e);
    VoteGiven(states[|steps|], 1, 21, e);
    states', steps' := Take(states, steps, Vote(1, VotesAsked(e)));
    VoteGiven(states'[|steps'|], 2, 22, e);
    states', steps' := Take(states', steps', Vote(2, VotesAsked(e)));
    VoteCounted(states'[|steps'|], 21, e, 0);
    states', steps' := Take(states', steps', Receive(0, VoteOf(21, e)));
    VoteCounted(states'[|steps'|], 22, e, 1);
    states', steps' := Take(states', steps', Receive(0, VoteOf(22, e)));
  }

  lemma SlaveCount(e: nat)
    ensures Slave(e).authCount == 0
  {
  }

  /**
   A slave that has asked for votes in epoch e + 1 is hard-reset and joins a
   cluster of three masters as a slave. The two votes it had counted make a
   quorum there, and it wins: its configEpoch is e + 1, its currentEpoch 0.
   */
  lemma ResetDuringElection(e: nat) returns (states: seq<System>, steps: seq<Step>)
    ensures |states| == |steps| + 1 && IsRun(states, steps) && states[0] == Cluster(e) && Inv(Cluster(e))
    ensures 0 in states[|steps|].hosts && !Bounded(states[|steps|].hosts[0])
  {
    hide IsRun, Next, Enabled, Inv, Bounded, Cluster, Slave, Reborn;
    ClusterSound(e);
    states, steps := TwoVotes(e);
    IsReborn(states[|steps|], e);
    states, steps := Take(states, steps, HardReset(0, 11));
    states, steps := Joins(states, steps, e);
    LateWinBreaks(states[|steps|], e);
    states, steps := Take(states, steps, WinElection(0));
  }

  lemma ClusterSound(e: nat)
    ensures Inv(Cluster(e))
  {
  }

  /** The slave after its reset: a new node that still has an election with two votes. */
  function Reborn(e: nat, configs: map<NodeId, nat>, master: Option<NodeId>, size: nat): NodeView
  {
    NodeView(11, 0, 0, configs, master, e + 1, true, 2, size)
  }

  lemma IsReborn(s: System, e: nat)
    requires 0 in s.hosts
    requires s.hosts[0] == Slave(e).(currentEpoch := e + 1, authEpoch := e + 1, authSent := true, authCount := 2)
    ensures Enabled(s, HardReset(0, 11))
    ensures var s' := Next(s, HardReset(0, 11)); 0 in s'.hosts && s'.hosts[0] == Reborn(e, map[11 := 0], None, 5)
  {
  }

  lemma LearnsOne(s: System, e: nat, configs: map<NodeId, nat>, m: NodeId)
    requires 0 in s.hosts && s.hosts[0] == Reborn(e, configs, None, 5) && 11 in configs && m !in configs
    ensures Enabled(s, Learn(0, m))
    ensures var s' := Next(s, Learn(0, m)); 0 in s'.hosts && s'.hosts[0] == Reborn(e, configs[m := 0], None, 5)
  {
  }

  lemma FollowsMaster(s: System, e: nat, configs: map<NodeId, nat>)
    requires 0 in s.hosts && s.hosts[0] == Reborn(e, configs, None, 5) && 11 in configs && 30 in configs
    ensures Enabled(s, Replicate(0, 30))
    ensures var s' := Next(s, Replicate(0, 30)); 0 in s'.hosts && s'.hosts[0] == Reborn(e, configs, Some(30), 5)
  {
  }

  lemma CountsMasters(s: System, e: nat, configs: map<NodeId, nat>)
    requires 0 in s.hosts && s.hosts[0] == Reborn(e, configs, Some(30), 5) && 11 in configs && 30 in configs && |configs| >= 3
    ensures Enabled(s, Resize(0, 3))
    ensures var s' := Next(s, Resize(0, 3)); 0 in s'.hosts && s'.hosts[0] == Reborn(e, configs, Some(30), 3)
  {
  }

  lemma LateWinBreaks(s: System, e: nat)
    requires 0 in s.hosts && s.hosts[0] == Reborn(e, map[11 := 0, 30 := 0, 31 := 0, 32 := 0], Some(30), 3)
    ensures Enabled(s, WinElection(0)) && 0 in Next(s, WinElection(0)).hosts && !Bounded(Next(s, WinElection(0)).hosts[0])
  {
    assert Next(s, WinElection(0)).hosts[0].configs[11] == e + 1;
  }

  lemma Joins(states: seq<System>, steps: seq<Step>, e: nat) returns (states': seq<System>, steps': seq<Step>)
    requires |states| == |steps| + 1 && IsRun(states, steps)
    requires 0 in states[|steps|].hosts && states[|steps|].hosts[0] == Reborn(e, map[11 := 0], None, 5)
    ensures |states'| == |steps'| + 1 && IsRun(states', steps') && states <= states' && steps <= steps'
    ensures 0 in states'[|steps'|].hosts
    ensures states'[|steps'|].hosts[0] == Reborn(e, map[11 := 0, 30 := 0, 31 := 0, 32 := 0], Some(30), 3)
  {
    hide IsRun, Next, Enabled, Reborn;
    var one, two, three := map[11 := 0, 30 := 0], map[11 := 0, 30 := 0, 31 := 0], map[11 := 0, 30 := 0, 31 := 0, 32 := 0];
    assert map[11 := 0][30 := 0] == one && one[31 := 0] == two && two[32 := 0] == three;
    LearnsOne(states[|steps|], e, map[11 := 0], 30);
    states', steps' := Take(states, steps, Learn(0, 30));
    LearnsOne(states'[|steps'|], e, one, 31);
    states', steps' := Take(states', steps', Learn(0, 31));
    LearnsOne(states'[|steps'|], e, two, 32);
    states', steps' := Take(states', steps', Learn(0, 32));
    FollowsMaster(states'[|steps'|], e, three);
    states', steps' := Take(states', steps', Replicate(0, 30));
    assert |three.Keys| >= 3 by { assert {11, 30, 31} <= three.Keys; SubsetSize({11, 30, 31}, three.Keys); }
    CountsMasters(states'[|steps'|], e, three);
    states', steps' := Take(states', steps', Resize(0, 3));
  }

  // ---------------------------------------------------------------- the handlers

  class Epochs {
    var myself: NodeId
    var currentEpoch: nat
    var configs: map<NodeId, nat>
    var lastVoteEpoch: nat
    var slaveOf: Option<NodeId>
    var authEpoch: nat
    var authSent: bool
    var authCount: nat
    var size: nat

    function View(): NodeView
      reads this
    {
      NodeView(myself, currentEpoch, lastVoteEpoch, configs, slaveOf, authEpoch, authSent, authCount, size)
    }

    /** clusterGetMaxEpoch */
    method GetMaxEpoch() returns (max: nat)
      ensures IsMaxEpoch(View(), max)
    {
      max := 0;
      var rest := configs.Keys;
      while rest != {}
        invariant rest <= configs.Keys
        invariant forall m :: m in configs && m !in rest ==> configs[m] <= max
        invariant max == 0 || exists m :: m in configs && configs[m] == max
        decreases |rest|
      {
        var m :| m in rest;
        if configs[m] > max { max := configs[m]; }
        rest := rest - {m};
      }
      if max < currentEpoch { max := currentEpoch; }
    }

    /** clusterBumpConfigEpochWithoutConsensus: the new epoch is above every epoch the node knows of. */
    method BumpConfigEpochWithoutConsensus() returns (ok: bool)
      requires ViewInv(View())
      modifies this`currentEpoch, this`configs
      ensures ViewInv(View())
      ensures ok <==> old(configs)[myself] == 0 || old(configs)[myself] != old(currentEpoch)
      ensures View() == if ok then Bumped(old(View())) else old(View())
      ensures ok ==> forall m :: m in configs && m != myself ==> configs[m] < configs[myself]
    {
      var maxEpoch := GetMaxEpoch();
      if configs[myself] == 0 || configs[myself] != maxEpoch {
        currentEpoch := currentEpoch + 1;
        configs := configs[myself := currentEpoch];
        return true;
      }
      return false;
    }

    /** clusterHandleConfigEpochCollision */
    method HandleConfigEpochCollision(sender: NodeId, senderIsMaster: bool)
      requires myself in configs && sender in configs
      modifies this`currentEpoch, this`configs
      ensures var p := Packet(sender, senderIsMaster, 0, old(configs)[myself], Ping);
              View() == if Collides(old(View()), p) then Bumped(old(View())) else old(View())
    {
      if configs[sender] != configs[myself] || !senderIsMaster || slaveOf.Some? { return; }
      if sender <= myself { return; }
      currentEpoch := currentEpoch + 1;
      configs := configs[myself := currentEpoch];
    }

    /** clusterProcessPacket, the epochs in the header. */
    method ProcessHeader(p: Packet)
      requires p.sender in configs
      modifies this`currentEpoch, this`configs
      ensures View() == Heard(old(View()), p) && configs.Keys == old(configs).Keys
    {
      if p.currentEpoch > currentEpoch { currentEpoch := p.currentEpoch; }
      if p.configEpoch > configs[p.sender] { configs := configs[p.sender := p.configEpoch]; }
    }

    /** clusterProcessPacket, its effect on epochs. */
    method ProcessPacket(p: Packet)
      requires ViewInv(View()) && BoundedPacket(p)
      modifies this`currentEpoch, this`configs, this`slaveOf, this`authCount
      ensures View() == Received(old(View()), p) && ViewInv(View())
    {
      ReceivedBounded(View(), p);
      hide Bounded, BoundedPacket, Heard;
      if p.sender !in configs { return; }
      ProcessHeader(p);
      match p.kind
      case Ping =>
        if slaveOf.None? && p.isMaster && p.configEpoch == configs[myself] {
          HandleConfigEpochCollision(p.sender, p.isMaster);
        }
      case Other =>
      case Update(about, epoch) =>
        if about !in configs { return; }
        if configs[about] >= epoch { return; }
        if about == myself { slaveOf := None; }
        configs := configs[about := epoch];
      case Request =>
      case Ack(to) =>
        if to == myself && p.isMaster && p.currentEpoch >= authEpoch { authCount := authCount + 1; }
    }

    /** CLUSTER SET-CONFIG-EPOCH */
    method SetConfigEpoch(epoch: int) returns (ok: bool)
      requires ViewInv(View())
      modifies this`currentEpoch, this`configs
      ensures ok <==> epoch >= 0 && |old(configs)| <= 1 && old(configs)[myself] == 0
      ensures ok ==> ViewInv(View()) && configs == map[myself := epoch] && currentEpoch == Max(old(currentEpoch), epoch)
      ensures !ok ==> View() == old(View())
    {
      if epoch < 0 { return false; }
      if |configs| > 1 { return false; }
      if configs[myself] != 0 { return false; }
      Alone(configs.Keys, myself);
      configs := configs[myself := epoch];
      if currentEpoch < epoch { currentEpoch := epoch; }
      return true;
    }
  }

  lemma Alone(ids: set<NodeId>, id: NodeId)
    requires id in ids && |ids| <= 1
    ensures ids == {id}
  {
    assert |ids - {id}| == 0;
  }
}
