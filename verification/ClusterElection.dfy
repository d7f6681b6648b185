/**
 Failover election (cluster.c): slaves of a failed master ask the masters for
 their votes and the first to gather a majority for its epoch is promoted.
 Nodes are local states; the network is a multiset of messages that may be
 delayed, reordered or lost. The voters are a fixed set, agreed by all.
 */
module ClusterElection {
  import opened Basics
  import opened ClusterBitmap
  import opened ClusterSlots

  // ---------------------------------------------------------------- one node

  /** The fields of clusterState that elections use. */
  datatype Local = Local(
    currentEpoch: nat,
    lastVoteEpoch: nat,
    configEpoch: nat,
    authEpoch: nat,
    authSent: bool,
    authCount: nat)

  /** The header of any packet raises the current epoch. */
  function Heard(n: Local, epoch: nat): Local
  {
    n.(currentEpoch := Max(n.currentEpoch, epoch))
  }

  /** Is a vote asked for in this epoch granted, the other conditions being met or not? */
  predicate Grants(n: Local, epoch: nat, fit: bool)
  {
    fit && n.currentEpoch <= epoch && n.lastVoteEpoch != n.currentEpoch
  }

  function Asked(n: Local, epoch: nat, fit: bool): Local
  {
    if Grants(n, epoch, fit) then n.(lastVoteEpoch := n.currentEpoch) else n
  }

  function Acked(n: Local, epoch: nat, fromVoter: bool): Local
  {
    if fromVoter && epoch >= n.authEpoch then n.(authCount := n.authCount + 1) else n
  }

  function Scheduled(n: Local): Local
  {
    n.(authCount := 0, authSent := false)
  }

  function Started(n: Local): Local
  {
    n.(currentEpoch := n.currentEpoch + 1, authEpoch := n.currentEpoch + 1, authSent := true)
  }

  function Promoted(n: Local): Local
  {
    n.(configEpoch := Max(n.configEpoch, n.authEpoch))
  }

  // ---------------------------------------------------------------- the whole system

  datatype Message = Request(from: NodeId, to: NodeId, epoch: nat) | Ack(from: NodeId, to: NodeId, epoch: nat)

  /**
   granted, counted and wins are history: who each voter voted for in each
   epoch, whose votes each slave has counted since it last scheduled an
   election, and who won which epoch.
   */
  datatype System = System(
    nodes: map<NodeId, Local>,
    network: multiset<Message>,
    granted: map<(NodeId, nat), NodeId>,
    counted: map<NodeId, set<NodeId>>,
    wins: set<(nat, NodeId)>)

  datatype Step =
    | Hear(node: NodeId, epoch: nat)
    | Schedule(node: NodeId)
    | Start(node: NodeId)
    | Win(node: NodeId)
    | Deliver(message: Message, fit: bool)
    | Lose(message: Message)

  function Quorum(voters: set<NodeId>): nat { |voters| / 2 + 1 }

  ghost predicate Enabled(voters: set<NodeId>, s: System, step: Step)
  {
    match step
    case Hear(n, _) => n in s.nodes
    case Schedule(n) => n in s.nodes && n !in voters && n in s.counted
    case Start(n) => n in s.nodes && n !in voters && !s.nodes[n].authSent
    case Win(n) => n in s.nodes && n !in voters && s.nodes[n].authSent && s.nodes[n].authCount >= Quorum(voters)
    case Deliver(m, _) => m in s.network && m.to in s.nodes && m.to in s.counted
    case Lose(m) => m in s.network
  }

  function Requests(voters: set<NodeId>, n: NodeId, epoch: nat): set<Message>
  {
    set v | v in voters :: Request(n, v, epoch)
  }

  function DeliverRequest(voters: set<NodeId>, s: System, from: NodeId, to: NodeId, epoch: nat, fit: bool): System
    requires to in s.nodes
  {
    var n := Heard(s.nodes[to], epoch);
    var network := s.network - multiset{Request(from, to, epoch)};
    if Grants(n, epoch, fit && to in voters) then
      s.(nodes := s.nodes[to := Asked(n, epoch, true)],
         network := network + multiset{Ack(to, from, n.currentEpoch)},
         granted := s.granted[(to, n.currentEpoch) := from])
    else
      s.(nodes := s.nodes[to := n], network := network)
  }

  function DeliverAck(voters: set<NodeId>, s: System, from: NodeId, to: NodeId, epoch: nat): System
    requires to in s.nodes && to in s.counted
  {
    var n := Heard(s.nodes[to], epoch);
    var network := s.network - multiset{Ack(from, to, epoch)};
    if from in voters && epoch >= n.authEpoch then
      s.(nodes := s.nodes[to := Acked(n, epoch, true)],
         network := network,
         counted := s.counted[to := s.counted[to] + {from}])
    else
      s.(nodes := s.nodes[to := n], network := network)
  }

  function Next(voters: set<NodeId>, s: System, step: Step): System
    requires Enabled(voters, s, step)
  {
    match step
    case Hear(n, epoch) => s.(nodes := s.nodes[n := Heard(s.nodes[n], epoch)])
    case Schedule(n) => s.(nodes := s.nodes[n := Scheduled(s.nodes[n])], counted := s.counted[n := {}])
    case Start(n) =>
      var started := Started(s.nodes[n]);
      s.(nodes := s.nodes[n := started], network := s.network + multiset(Requests(voters, n, started.authEpoch)))
    case Win(n) =>
      s.(nodes := s.nodes[n := Promoted(s.nodes[n])], wins := s.wins + {(s.nodes[n].authEpoch, n)})
    case Deliver(m, fit) =>
      if m.Request? then DeliverRequest(voters, s, m.from, m.to, m.epoch, fit)
      else DeliverAck(voters, s, m.from, m.to, m.epoch)
    case Lose(m) => s.(network := s.network - multiset{m})
  }

  /** An election is started with no vote counted: none came in since it was scheduled. */
  ghost predicate Clean(voters: set<NodeId>, s: System, step: Step)
    requires Enabled(voters, s, step)
  {
    step.Start? ==> s.nodes[step.node].authCount == 0
  }

  ghost predicate Init(voters: set<NodeId>, s: System)
  {
    && voters <= s.nodes.Keys == s.counted.Keys
    && s.network == multiset{} && s.granted == map[] && s.wins == {}
    && (forall n :: n in s.nodes ==> s.counted[n] == {} && s.nodes[n].lastVoteEpoch <= s.nodes[n].currentEpoch)
    && forall n :: n in s.nodes ==> s.nodes[n].authEpoch == 0 && !s.nodes[n].authSent && s.nodes[n].authCount == 0
  }

  // ---------------------------------------------------------------- the invariant

  ghost predicate LocalInv(voters: set<NodeId>, s: System)
  {
    && voters <= s.nodes.Keys == s.counted.Keys
    && forall n :: n in s.nodes ==>
      s.nodes[n].lastVoteEpoch <= s.nodes[n].currentEpoch && s.nodes[n].authEpoch <= s.nodes[n].currentEpoch
  }

  predicate VotedFor(s: System, v: NodeId, epoch: nat, n: NodeId)
  {
    (v, epoch) in s.granted && s.granted[(v, epoch)] == n
  }

  /** A voter's votes are for epochs up to its last vote, and for elections their candidate did start. */
  ghost predicate GrantInv(voters: set<NodeId>, s: System)
    requires LocalInv(voters, s)
  {
    forall v: NodeId, e: nat :: (v, e) in s.granted ==>
      && v in voters && e <= s.nodes[v].lastVoteEpoch
      && s.granted[(v, e)] in s.nodes && e <= s.nodes[s.granted[(v, e)]].authEpoch
  }

  ghost predicate MessageInv(s: System, m: Message)
  {
    && m.from in s.nodes && m.to in s.nodes
    && (m.Request? ==> m.epoch <= s.nodes[m.from].authEpoch)
    && (m.Ack? ==> VotedFor(s, m.from, m.epoch, m.to) && s.network[m] == 1)
  }

  ghost predicate NetworkInv(s: System)
  {
    forall m :: m in s.network ==> MessageInv(s, m)
  }

  /** The count of a slave is the number of voters that voted for it in its epoch, each counted once. */
  ghost predicate CountInv(voters: set<NodeId>, s: System, n: NodeId)
    requires n in s.nodes && n in s.counted
  {
    && s.counted[n] <= voters
    && s.nodes[n].authCount == |s.counted[n]|
    && forall v :: v in s.counted[n] ==>
      VotedFor(s, v, s.nodes[n].authEpoch, n) && Ack(v, n, s.nodes[n].authEpoch) !in s.network
  }

  function VotersOf(voters: set<NodeId>, s: System, epoch: nat, n: NodeId): set<NodeId>
  {
    set v | v in voters && VotedFor(s, v, epoch, n)
  }

  ghost predicate WinInv(voters: set<NodeId>, s: System)
  {
    forall e: nat, n: NodeId :: (e, n) in s.wins ==> |VotersOf(voters, s, e, n)| >= Quorum(voters)
  }

  ghost predicate Inv(voters: set<NodeId>, s: System)
  {
    && LocalInv(voters, s) && GrantInv(voters, s) && NetworkInv(s) && WinInv(voters, s)
    && forall n :: n in s.nodes ==> CountInv(voters, s, n)
  }

  lemma InitInv(voters: set<NodeId>, s: System)
    requires Init(voters, s)
    ensures Inv(voters, s)
  {
  }

  // ---------------------------------------------------------------- quorum intersection

  /** Two quorums share a voter, and a voter votes once per epoch: at most one winner an epoch. */
  lemma OneWinner(voters: set<NodeId>, s: System, epoch: nat, m: NodeId, n: NodeId)
    requires WinInv(voters, s) && (epoch, m) in s.wins && (epoch, n) in s.wins
    ensures m == n
  {
    var a, b := VotersOf(voters, s, epoch, m), VotersOf(voters, s, epoch, n);
    if a * b == {} {
      assert |a + b| == |a| + |b|;
      SubsetSize(a + b, voters);
    } else {
      var v :| v in a * b;
      assert VotedFor(s, v, epoch, m) && VotedFor(s, v, epoch, n);
    }
  }

  lemma WinsKept(voters: set<NodeId>, s: System, s': System)
    requires WinInv(voters, s) && s'.wins == s.wins
    requires forall k :: k in s.granted ==> k in s'.granted && s'.granted[k] == s.granted[k]
    ensures WinInv(voters, s')
  {
    forall e: nat, n: NodeId | (e, n) in s'.wins
      ensures |VotersOf(voters, s', e, n)| >= Quorum(voters)
    {
      SubsetSize(VotersOf(voters, s, e, n), VotersOf(voters, s', e, n));
    }
  }

  // ---------------------------------------------------------------- every step keeps the invariant

  /** What every step does: epochs only rise, votes are never taken back. */
  ghost predicate Grown(s: System, s': System)
  {
    && s.nodes.Keys == s'.nodes.Keys
    && (forall k :: k in s.granted ==> k in s'.granted && s'.granted[k] == s.granted[k])
    && forall n :: n in s.nodes ==>
      s.nodes[n].lastVoteEpoch <= s'.nodes[n].lastVoteEpoch && s.nodes[n].authEpoch <= s'.nodes[n].authEpoch
  }

  lemma GrantsKept(voters: set<NodeId>, s: System, s': System)
    requires LocalInv(voters, s) && GrantInv(voters, s) && LocalInv(voters, s') && Grown(s, s') && s'.granted == s.granted
    ensures GrantInv(voters, s')
  {
  }

  lemma MessageKept(s: System, s': System, m: Message)
    requires MessageInv(s, m) && Grown(s, s') && 0 < s'.network[m] <= s.network[m]
    ensures MessageInv(s', m)
  {
  }

  lemma MessagesKept(s: System, s': System)
    requires NetworkInv(s) && Grown(s, s') && s'.network <= s.network
    ensures NetworkInv(s')
  {
    hide Grown, MessageInv;
    forall m | m in s'.network ensures MessageInv(s', m)
    {
      MessageKept(s, s', m);
    }
  }

  /** A slave whose election is not touched keeps an honest count; so does one that schedules a new election. */
  ghost predicate Untouched(s: System, s': System, n: NodeId)
    requires n in s.nodes && n in s.counted && n in s'.nodes && n in s'.counted
  {
    || (&& s'.nodes[n].authEpoch == s.nodes[n].authEpoch
        && s'.nodes[n].authCount == s.nodes[n].authCount && s'.counted[n] == s.counted[n])
    || (s'.nodes[n].authCount == 0 && s'.counted[n] == {})
  }

  lemma CountKept(voters: set<NodeId>, s: System, s': System, n: NodeId)
    requires n in s.nodes && n in s.counted && n in s'.nodes && n in s'.counted
    requires CountInv(voters, s, n) && Grown(s, s') && Untouched(s, s', n)
    requires forall v, e: nat :: v in s.counted[n] && Ack(v, n, e) in s'.network ==> Ack(v, n, e) in s.network
    ensures CountInv(voters, s', n)
  {
  }

  /** Steps that send nothing, grant nothing and count nothing. */
  lemma QuietKeeps(voters: set<NodeId>, s: System, s': System)
    requires Inv(voters, s) && LocalInv(voters, s') && WinInv(voters, s') && Grown(s, s') && s'.granted == s.granted
    requires s'.network <= s.network && forall n :: n in s.nodes ==> Untouched(s, s', n)
    ensures Inv(voters, s')
  {
    hide MessageInv, CountInv, Untouched, WinInv;
    GrantsKept(voters, s, s');
    MessagesKept(s, s');
    forall c | c in s'.nodes ensures CountInv(voters, s', c)
    {
      CountKept(voters, s, s', c);
    }
  }

  lemma HearKeeps(voters: set<NodeId>, s: System, n: NodeId, epoch: nat)
    requires Inv(voters, s) && n in s.nodes
    ensures Inv(voters, Next(voters, s, Hear(n, epoch)))
  {
    hide WinInv, GrantInv, NetworkInv, CountInv;
    var s' := Next(voters, s, Hear(n, epoch));
    WinsKept(voters, s, s');
    QuietKeeps(voters, s, s');
  }

  lemma ScheduleKeeps(voters: set<NodeId>, s: System, n: NodeId)
    requires Inv(voters, s) && Enabled(voters, s, Schedule(n))
    ensures Inv(voters, Next(voters, s, Schedule(n)))
  {
    hide WinInv, GrantInv, NetworkInv, CountInv;
    var s' := Next(voters, s, Schedule(n));
    WinsKept(voters, s, s');
    QuietKeeps(voters, s, s');
  }

  lemma LoseKeeps(voters: set<NodeId>, s: System, lost: Message)
    requires Inv(voters, s) && Enabled(voters, s, Lose(lost))
    ensures Inv(voters, Next(voters, s, Lose(lost)))
  {
    hide WinInv, GrantInv, NetworkInv, CountInv;
    var s' := Next(voters, s, Lose(lost));
    WinsKept(voters, s, s');
    QuietKeeps(voters, s, s');
  }

  lemma RefuseKeeps(voters: set<NodeId>, s: System, from: NodeId, to: NodeId, epoch: nat, fit: bool)
    requires Inv(voters, s) && Enabled(voters, s, Deliver(Request(from, to, epoch), fit))
    requires !Grants(Heard(s.nodes[to], epoch), epoch, fit && to in voters)
    ensures Inv(voters, DeliverRequest(voters, s, from, to, epoch, fit))
  {
    hide WinInv, GrantInv, NetworkInv, CountInv;
    var s' := DeliverRequest(voters, s, from, to, epoch, fit);
    WinsKept(voters, s, s');
    QuietKeeps(voters, s, s');
  }

  /** A win is backed by a quorum of votes of its epoch. */
  lemma WinBacked(voters: set<NodeId>, s: System, n: NodeId)
    requires Enabled(voters, s, Win(n)) && n in s.counted && CountInv(voters, s, n)
    ensures |VotersOf(voters, s, s.nodes[n].authEpoch, n)| >= Quorum(voters)
  {
    SubsetSize(s.counted[n], VotersOf(voters, s, s.nodes[n].authEpoch, n));
  }

  lemma WinKeeps(voters: set<NodeId>, s: System, n: NodeId)
    requires Inv(voters, s) && Enabled(voters, s, Win(n))
    ensures Inv(voters, Next(voters, s, Win(n)))
  {
    hide GrantInv, NetworkInv, CountInv;
    var s' := Next(voters, s, Win(n));
    WinBacked(voters, s, n);
    forall e: nat, c: NodeId | (e, c) in s'.wins
      ensures |VotersOf(voters, s', e, c)| >= Quorum(voters)
    {
      assert VotersOf(voters, s', e, c) == VotersOf(voters, s, e, c);
    }
    QuietKeeps(voters, s, s');
  }

  lemma StartKeepsNetwork(voters: set<NodeId>, s: System, n: NodeId)
    requires LocalInv(voters, s) && NetworkInv(s) && Enabled(voters, s, Start(n))
    ensures NetworkInv(Next(voters, s, Start(n)))
  {
    hide MessageInv;
    var s' := Next(voters, s, Start(n));
    assert Grown(s, s');
    forall m | m in s'.network ensures MessageInv(s', m)
    {
      RequestsKept(voters, s, n, m);
      if m in s.network && m.Ack? { MessageKept(s, s', m); }
    }
  }

  lemma RequestsKept(voters: set<NodeId>, s: System, n: NodeId, m: Message)
    requires LocalInv(voters, s) && Enabled(voters, s, Start(n)) && m in Next(voters, s, Start(n)).network
    requires m in s.network ==> MessageInv(s, m)
    ensures m.Ack? ==> m in s.network && Next(voters, s, Start(n)).network[m] == s.network[m]
    ensures m.Request? ==> MessageInv(Next(voters, s, Start(n)), m)
  {
    var s' := Next(voters, s, Start(n));
    var asked := multiset(Requests(voters, n, s.nodes[n].currentEpoch + 1));
    assert s'.network == s.network + asked;
    if m !in s.network {
      assert m in asked;
      assert m in Requests(voters, n, s.nodes[n].currentEpoch + 1);
    }
    if m.Ack? {
      assert m !in Requests(voters, n, s.nodes[n].currentEpoch + 1);
    }
  }

  lemma StartKeeps(voters: set<NodeId>, s: System, n: NodeId)
    requires Inv(voters, s) && Enabled(voters, s, Start(n)) && Clean(voters, s, Start(n))
    ensures Inv(voters, Next(voters, s, Start(n)))
  {
    hide WinInv, MessageInv;
    var s' := Next(voters, s, Start(n));
    WinsKept(voters, s, s');
    GrantsKept(voters, s, s');
    StartKeepsNetwork(voters, s, n);
    hide GrantInv;
    assert CountInv(voters, s, n) && s.counted[n] == {};
    forall c | c in s'.nodes ensures CountInv(voters, s', c)
    {
      if c != n { StartKeepsCount(voters, s, n, c); }
    }
  }

  lemma StartKeepsCount(voters: set<NodeId>, s: System, n: NodeId, c: NodeId)
    requires LocalInv(voters, s) && Enabled(voters, s, Start(n)) && c in s.nodes && c != n && CountInv(voters, s, c)
    ensures CountInv(voters, Next(voters, s, Start(n)), c)
  {
    var s' := Next(voters, s, Start(n));
    forall v, e: nat | v in s.counted[c] && Ack(v, c, e) in s'.network
      ensures Ack(v, c, e) in s.network
    {
      assert Ack(v, c, e) !in Requests(voters, n, s.nodes[n].currentEpoch + 1);
    }
    hide CountInv;
    CountKept(voters, s, s', c);
  }

  /** A voter never votes twice in an epoch: the vote it grants is new, and of the epoch asked for. */
  lemma VoteIsNew(voters: set<NodeId>, s: System, to: NodeId, epoch: nat, fit: bool)
    requires LocalInv(voters, s) && GrantInv(voters, s) && to in s.nodes
    requires Grants(Heard(s.nodes[to], epoch), epoch, fit)
    ensures (to, Heard(s.nodes[to], epoch).currentEpoch) !in s.granted
    ensures Heard(s.nodes[to], epoch).currentEpoch == epoch
  {
  }

  ghost predicate Granting(voters: set<NodeId>, s: System, from: NodeId, to: NodeId, epoch: nat)
  {
    && Inv(voters, s) && Enabled(voters, s, Deliver(Request(from, to, epoch), true))
    && to in voters && Grants(Heard(s.nodes[to], epoch), epoch, true)
  }

  /** What granting a vote changes. */
  lemma GrantEffect(voters: set<NodeId>, s: System, from: NodeId, to: NodeId, epoch: nat)
    requires Granting(voters, s, from, to, epoch)
    ensures var s' := DeliverRequest(voters, s, from, to, epoch, true);
            && LocalInv(voters, s') && Grown(s, s') && (to, epoch) !in s.granted
            && s'.granted == s.granted[(to, epoch) := from]
            && s'.network == s.network - multiset{Request(from, to, epoch)} + multiset{Ack(to, from, epoch)}
            && MessageInv(s, Request(from, to, epoch)) && s'.wins == s.wins && s'.counted == s.counted
            && s'.nodes[to].lastVoteEpoch == epoch
  {
    hide WinInv, CountInv, MessageInv;
    VoteIsNew(voters, s, to, epoch, true);
    assert MessageInv(s, Request(from, to, epoch));
  }

  lemma NotYetSent(s: System, to: NodeId, from: NodeId, epoch: nat)
    requires NetworkInv(s) && (to, epoch) !in s.granted
    ensures Ack(to, from, epoch) !in s.network
  {
    assert Ack(to, from, epoch) in s.network ==> MessageInv(s, Ack(to, from, epoch));
  }

  lemma FirstSent(s: System, s': System, from: NodeId, to: NodeId, epoch: nat)
    requires Ack(to, from, epoch) !in s.network && MessageInv(s, Request(from, to, epoch)) && Grown(s, s')
    requires s'.granted == s.granted[(to, epoch) := from]
    requires s'.network == s.network - multiset{Request(from, to, epoch)} + multiset{Ack(to, from, epoch)}
    ensures MessageInv(s', Ack(to, from, epoch))
  {
  }

  lemma GrantKeepsNetwork(voters: set<NodeId>, s: System, from: NodeId, to: NodeId, epoch: nat)
    requires Granting(voters, s, from, to, epoch)
    ensures NetworkInv(DeliverRequest(voters, s, from, to, epoch, true))
  {
    hide DeliverRequest, WinInv, CountInv, GrantInv, Grown, LocalInv, Grants;
    GrantEffect(voters, s, from, to, epoch);
    var s' := DeliverRequest(voters, s, from, to, epoch, true);
    var ack := Ack(to, from, epoch);
    NotYetSent(s, to, from, epoch);
    forall m | m in s'.network ensures MessageInv(s', m)
    {
      if m != ack { MessageKept(s, s', m); } else { FirstSent(s, s', from, to, epoch); }
    }
  }

  lemma GrantKeepsCount(voters: set<NodeId>, s: System, from: NodeId, to: NodeId, epoch: nat, c: NodeId)
    requires Granting(voters, s, from, to, epoch) && c in s.nodes
    ensures CountInv(voters, DeliverRequest(voters, s, from, to, epoch, true), c)
  {
    GrantEffect(voters, s, from, to, epoch);
    var s' := DeliverRequest(voters, s, from, to, epoch, true);
    assert Untouched(s, s', c);
    hide WinInv, GrantInv, NetworkInv, DeliverRequest, Grown;
    assert CountInv(voters, s, c);
    assert to in s.counted[c] ==> s.nodes[c].authEpoch != epoch;
    forall v | v in s.counted[c]
      ensures VotedFor(s', v, s.nodes[c].authEpoch, c) && Ack(v, c, s.nodes[c].authEpoch) !in s'.network
    {
      assert VotedFor(s, v, s.nodes[c].authEpoch, c);
    }
  }

  lemma GrantKeepsGrants(voters: set<NodeId>, s: System, from: NodeId, to: NodeId, epoch: nat)
    requires Granting(voters, s, from, to, epoch)
    ensures LocalInv(voters, DeliverRequest(voters, s, from, to, epoch, true))
    ensures GrantInv(voters, DeliverRequest(voters, s, from, to, epoch, true))
  {
    GrantEffect(voters, s, from, to, epoch);
    hide DeliverRequest, WinInv, CountInv, NetworkInv;
  }

  lemma GrantKeeps(voters: set<NodeId>, s: System, from: NodeId, to: NodeId, epoch: nat)
    requires Granting(voters, s, from, to, epoch)
    ensures Inv(voters, DeliverRequest(voters, s, from, to, epoch, true))
  {
    hide DeliverRequest, CountInv, NetworkInv, WinInv, GrantInv, MessageInv;
    var s' := DeliverRequest(voters, s, from, to, epoch, true);
    GrantEffect(voters, s, from, to, epoch);
    GrantKeepsGrants(voters, s, from, to, epoch);
    GrantKeepsNetwork(voters, s, from, to, epoch);
    WinsKept(voters, s, s');
    forall c | c in s'.nodes ensures CountInv(voters, s', c)
    {
      GrantKeepsCount(voters, s, from, to, epoch, c);
    }
  }

  ghost predicate Counting(voters: set<NodeId>, s: System, from: NodeId, to: NodeId, epoch: nat)
  {
    Inv(voters, s) && Enabled(voters, s, Deliver(Ack(from, to, epoch), true))
  }

  /** A vote that is counted is of the present election, and not counted before. */
  lemma CountedOnce(voters: set<NodeId>, s: System, from: NodeId, to: NodeId, epoch: nat)
    requires Inv(voters, s) && Enabled(voters, s, Deliver(Ack(from, to, epoch), true))
    requires s.nodes[to].authEpoch <= epoch
    ensures epoch == s.nodes[to].authEpoch && from !in s.counted[to] && VotedFor(s, from, epoch, to)
  {
    hide WinInv;
    assert MessageInv(s, Ack(from, to, epoch));
    assert CountInv(voters, s, to);
  }

  lemma AckGone(voters: set<NodeId>, s: System, from: NodeId, to: NodeId, epoch: nat)
    requires NetworkInv(s) && Enabled(voters, s, Deliver(Ack(from, to, epoch), true))
    ensures DeliverAck(voters, s, from, to, epoch).network <= s.network
    ensures Ack(from, to, epoch) !in DeliverAck(voters, s, from, to, epoch).network
  {
    assert MessageInv(s, Ack(from, to, epoch));
  }

  lemma AckEffect(voters: set<NodeId>, s: System, from: NodeId, to: NodeId, epoch: nat)
    requires LocalInv(voters, s) && Enabled(voters, s, Deliver(Ack(from, to, epoch), true))
    ensures var s' := DeliverAck(voters, s, from, to, epoch);
            && LocalInv(voters, s') && Grown(s, s') && s'.granted == s.granted && s'.wins == s.wins
            && (forall c :: c in s.nodes && c != to ==> Untouched(s, s', c))
  {
  }

  lemma AckKeepsCount(voters: set<NodeId>, s: System, from: NodeId, to: NodeId, epoch: nat)
    requires Enabled(voters, s, Deliver(Ack(from, to, epoch), true)) && CountInv(voters, s, to)
    requires from in voters && epoch == s.nodes[to].authEpoch && from !in s.counted[to] && VotedFor(s, from, epoch, to)
    requires Ack(from, to, epoch) !in DeliverAck(voters, s, from, to, epoch).network
    ensures CountInv(voters, DeliverAck(voters, s, from, to, epoch), to)
  {
  }

  lemma AckDropped(voters: set<NodeId>, s: System, from: NodeId, to: NodeId, epoch: nat)
    requires Enabled(voters, s, Deliver(Ack(from, to, epoch), true)) && CountInv(voters, s, to)
    requires !(from in voters && epoch >= s.nodes[to].authEpoch)
    ensures CountInv(voters, DeliverAck(voters, s, from, to, epoch), to)
  {
  }

  lemma AckKeepsOwnCount(voters: set<NodeId>, s: System, from: NodeId, to: NodeId, epoch: nat)
    requires Counting(voters, s, from, to, epoch)
    ensures CountInv(voters, DeliverAck(voters, s, from, to, epoch), to)
  {
    hide CountInv, NetworkInv, GrantInv, WinInv, VotedFor, DeliverAck;
    AckGone(voters, s, from, to, epoch);
    if from in voters && epoch >= s.nodes[to].authEpoch {
      CountedOnce(voters, s, from, to, epoch);
      AckKeepsCount(voters, s, from, to, epoch);
    } else {
      AckDropped(voters, s, from, to, epoch);
    }
  }

  lemma AckKeeps(voters: set<NodeId>, s: System, from: NodeId, to: NodeId, epoch: nat)
    requires Counting(voters, s, from, to, epoch)
    ensures Inv(voters, DeliverAck(voters, s, from, to, epoch))
  {
    hide WinInv, CountInv, NetworkInv, GrantInv, DeliverAck, Untouched;
    var s' := DeliverAck(voters, s, from, to, epoch);
    AckEffect(voters, s, from, to, epoch);
    AckGone(voters, s, from, to, epoch);
    WinsKept(voters, s, s');
    GrantsKept(voters, s, s');
    MessagesKept(s, s');
    forall c | c in s'.nodes ensures CountInv(voters, s', c)
    {
      if c == to { AckKeepsOwnCount(voters, s, from, to, epoch); } else { CountKept(voters, s, s', c); }
    }
  }

  lemma NextKeepsInv(voters: set<NodeId>, s: System, step: Step)
    requires Inv(voters, s) && Enabled(voters, s, step) && Clean(voters, s, step)
    ensures Inv(voters, Next(voters, s, step))
  {
    match step
    case Hear(n, epoch) => HearKeeps(voters, s, n, epoch);
    case Schedule(n) => ScheduleKeeps(voters, s, n);
    case Start(n) => StartKeeps(voters, s, n);
    case Win(n) => WinKeeps(voters, s, n);
    case Lose(m) => LoseKeeps(voters, s, m);
    case Deliver(m, fit) =>
      hide Inv, Grants;
      if m.Ack? {
        AckKeeps(voters, s, m.from, m.to, m.epoch);
      } else if Grants(Heard(s.nodes[m.to], m.epoch), m.epoch, fit && m.to in voters) {
        FitGrants(Heard(s.nodes[m.to], m.epoch), m.epoch, fit && m.to in voters);
        GrantKeeps(voters, s, m.from, m.to, m.epoch);
      } else {
        RefuseKeeps(voters, s, m.from, m.to, m.epoch, fit);
      }
  }

  lemma FitGrants(n: Local, epoch: nat, fit: bool)
    requires Grants(n, epoch, fit)
    ensures fit && Grants(n, epoch, true)
  {
  }

  // ---------------------------------------------------------------- runs

  /** The states a run passes through; each step is enabled where it is taken. */
  ghost predicate IsRun(voters: set<NodeId>, states: seq<System>, steps: seq<Step>)
  {
    && |states| == |steps| + 1
    && Init(voters, states[0])
    && forall i :: 0 <= i < |steps| ==>
      Enabled(voters, states[i], steps[i]) && states[i + 1] == Next(voters, states[i], steps[i])
  }

  ghost predicate CleanRun(voters: set<NodeId>, states: seq<System>, steps: seq<Step>)
    requires IsRun(voters, states, steps)
  {
    forall i :: 0 <= i < |steps| ==> Clean(voters, states[i], steps[i])
  }

  lemma {:induction false} RunInv(voters: set<NodeId>, states: seq<System>, steps: seq<Step>, i: nat)
    requires IsRun(voters, states, steps) && CleanRun(voters, states, steps) && i < |states|
    ensures Inv(voters, states[i])
  {
    if i == 0 {
      InitInv(voters, states[0]);
    } else {
      RunInv(voters, states, steps, i - 1);
      hide Inv;
      NextKeepsInv(voters, states[i - 1], steps[i - 1]);
    }
  }

  lemma {:induction false} WinsGrow(voters: set<NodeId>, states: seq<System>, steps: seq<Step>, i: nat, j: nat)
    requires IsRun(voters, states, steps) && i <= j < |states|
    ensures states[i].wins <= states[j].wins
    decreases j
  {
    if i < j {
      WinsGrow(voters, states, steps, i, j - 1);
      assert states[j] == Next(voters, states[j - 1], steps[j - 1]);
    }
  }

  /** Election safety: in one run, two slaves that win elections of the same epoch are the same slave. */
  lemma ElectionSafety(voters: set<NodeId>, states: seq<System>, steps: seq<Step>, i: nat, j: nat)
    requires IsRun(voters, states, steps) && CleanRun(voters, states, steps)
    requires i <= j < |steps| && steps[i].Win? && steps[j].Win?
    requires states[i].nodes[steps[i].node].authEpoch == states[j].nodes[steps[j].node].authEpoch
    ensures steps[i].node == steps[j].node
  {
    var epoch := states[j].nodes[steps[j].node].authEpoch;
    var last := states[j + 1];
    assert (epoch, steps[i].node) in states[i + 1].wins;
    assert (epoch, steps[j].node) in last.wins by { assert states[j + 1] == Next(voters, states[j], steps[j]); }
    WinsGrow(voters, states, steps, i + 1, j + 1);
    RunInv(voters, states, steps, j + 1);
    OneWinner(voters, last, epoch, steps[i].node, steps[j].node);
  }

  // ---------------------------------------------------------------- the epoch a winner takes

  /**
   What a run made of the epochs it started with: a node's configEpoch is the one
   it started with or that of an election it won, and no lower than any of these.
   */
  ghost predicate WonInv(start: System, s: System)
  {
    && start.nodes.Keys == s.nodes.Keys
    && (forall n :: n in s.nodes ==>
          var a, b := start.nodes[n], s.nodes[n];
          && a.currentEpoch <= b.currentEpoch && a.configEpoch <= b.configEpoch && b.authEpoch <= b.currentEpoch
          && (b.authSent ==> a.currentEpoch < b.authEpoch)
          && (b.configEpoch == a.configEpoch || (b.configEpoch, n) in s.wins))
    && forall e: nat, n: NodeId :: (e, n) in s.wins ==>
      n in s.nodes && start.nodes[n].currentEpoch < e <= s.nodes[n].authEpoch && e <= s.nodes[n].configEpoch
  }

  /** Only node n changes, without a win, and its epochs only rise. */
  ghost predicate Raised(s: System, s': System, n: NodeId)
  {
    && n in s.nodes && n in s'.nodes && s'.nodes == s.nodes[n := s'.nodes[n]] && s'.wins == s.wins
    && var b, b' := s.nodes[n], s'.nodes[n];
       && b'.configEpoch == b.configEpoch && b.currentEpoch <= b'.currentEpoch
       && (b.authEpoch <= b.currentEpoch ==> b.authEpoch <= b'.authEpoch <= b'.currentEpoch)
       && (b'.authSent ==> b.authSent || b.currentEpoch < b'.authEpoch)
  }

  lemma RaisedKeepsWon(start: System, s: System, s': System, n: NodeId)
    requires WonInv(start, s) && Raised(s, s', n)
    ensures WonInv(start, s')
  {
  }

  lemma HandlerRaises(voters: set<NodeId>, s: System, step: Step)
    requires Enabled(voters, s, step) && (step.Hear? || step.Schedule? || step.Start?)
    ensures Raised(s, Next(voters, s, step), step.node)
  {
    hide Requests;
  }

  lemma DeliveryRaises(voters: set<NodeId>, s: System, m: Message, fit: bool)
    requires Enabled(voters, s, Deliver(m, fit))
    ensures Raised(s, Next(voters, s, Deliver(m, fit)), m.to)
  {
  }

  lemma WinKeepsWon(voters: set<NodeId>, start: System, s: System, n: NodeId)
    requires WonInv(start, s) && Enabled(voters, s, Win(n))
    ensures WonInv(start, Next(voters, s, Win(n)))
  {
    hide Quorum;
    var s' := Next(voters, s, Win(n));
    var w := Promoted(s.nodes[n]);
    assert s'.nodes == s.nodes[n := w] && s'.wins == s.wins + {(s.nodes[n].authEpoch, n)};
    assert w == s.nodes[n].(configEpoch := w.configEpoch);
    hide Next, Enabled, Promoted;
    forall e: nat, c: NodeId | (e, c) in s'.wins
      ensures c in s'.nodes && start.nodes[c].currentEpoch < e <= s'.nodes[c].authEpoch && e <= s'.nodes[c].configEpoch
    {
      if (e, c) in s.wins { assert c in s.nodes; }
    }
  }

  lemma LoseKeepsWon(voters: set<NodeId>, start: System, s: System, m: Message)
    requires WonInv(start, s) && m in s.network
    ensures WonInv(start, Next(voters, s, Lose(m)))
  {
  }

  lemma NextKeepsWon(voters: set<NodeId>, start: System, s: System, step: Step)
    requires WonInv(start, s) && Enabled(voters, s, step)
    ensures WonInv(start, Next(voters, s, step))
  {
    if step.Win? {
      WinKeepsWon(voters, start, s, step.node);
    } else if step.Lose? {
      LoseKeepsWon(voters, start, s, step.message);
    } else {
      hide Next, Enabled, WonInv, Raised;
      var s' := Next(voters, s, step);
      if step.Deliver? {
        DeliveryRaises(voters, s, step.message, step.fit);
        RaisedKeepsWon(start, s, s', step.message.to);
      } else {
        HandlerRaises(voters, s, step);
        RaisedKeepsWon(start, s, s', step.node);
      }
    }
  }

  lemma {:induction false} RunWon(voters: set<NodeId>, states: seq<System>, steps: seq<Step>, i: nat)
    requires IsRun(voters, states, steps) && i < |states|
    ensures WonInv(states[0], states[i])
  {
    if i > 0 {
      RunWon(voters, states, steps, i - 1);
      hide WonInv, Next;
      NextKeepsWon(voters, states[0], states[i - 1], steps[i - 1]);
    }
  }

  /**
   In every run, winning sets the winner's configEpoch to the epoch of its
   election unless it had a greater one, and nobody else's. It had no greater
   one, whatever it won before, if it started with a configEpoch no greater than
   its currentEpoch.
   */
  lemma WinTakesEpoch(voters: set<NodeId>, states: seq<System>, steps: seq<Step>, i: nat)
    requires IsRun(voters, states, steps) && i < |steps| && steps[i].Win?
    ensures var n := steps[i].node;
            var before, after := states[i].nodes[n], states[i + 1].nodes[n];
            && states[i + 1].nodes == states[i].nodes[n := after]
            && after == before.(configEpoch := after.configEpoch)
            && after.configEpoch >= before.authEpoch && after.configEpoch >= before.configEpoch
            && after.configEpoch in {before.authEpoch, before.configEpoch}
            && n in states[0].nodes
            && (states[0].nodes[n].configEpoch <= states[0].nodes[n].currentEpoch ==> after.configEpoch == before.authEpoch)
  {
    RunWon(voters, states, steps, i);
    hide Init;
  }

  /**
   In every run in which elections start clean, two slaves that have won, each
   an election of a greater epoch than the configEpoch it started with, have
   different configEpochs. So no two of their claims to a slot are tied.
   */
  lemma WinnersDiffer(voters: set<NodeId>, states: seq<System>, steps: seq<Step>, i: nat, m: NodeId, n: NodeId, em: nat, en: nat)
    requires IsRun(voters, states, steps) && CleanRun(voters, states, steps) && i < |states|
    requires m != n && (em, m) in states[i].wins && (en, n) in states[i].wins
    requires m in states[0].nodes && states[0].nodes[m].configEpoch < em
    requires n in states[0].nodes && states[0].nodes[n].configEpoch < en
    ensures m in states[i].nodes && n in states[i].nodes && states[i].nodes[m].configEpoch != states[i].nodes[n].configEpoch
  {
    RunWon(voters, states, steps, i);
    RunInv(voters, states, steps, i);
    hide Init, Next, Enabled, LocalInv, GrantInv, NetworkInv, CountInv, WinInv;
    var s := states[i];
    var e := s.nodes[m].configEpoch;
    if e == s.nodes[n].configEpoch {
      OneWinner(voters, s, e, m, n);
    }
  }

  // ---------------------------------------------------------------- why elections must start clean

  /**
   Exactly the votes that arrive outside that window are honest: when a vote is
   counted, the election it counts for (the one running, or the one about to
   start) has no more counted votes than voters who voted for it if and only if
   the request for votes was out.
   */
  lemma StaleVoteCounted(voters: set<NodeId>, s: System, from: NodeId, to: NodeId, epoch: nat)
    requires Inv(voters, s) && Enabled(voters, s, Deliver(Ack(from, to, epoch), true))
    requires from in voters && s.nodes[to].authEpoch <= epoch && to !in voters
    ensures var s1 := DeliverAck(voters, s, from, to, epoch);
            && to in s1.nodes && (!s.nodes[to].authSent ==> Enabled(voters, s1, Start(to)))
            && var s2 := if s.nodes[to].authSent then s1 else Next(voters, s1, Start(to));
               to in s2.nodes && (s2.nodes[to].authCount <= |VotersOf(voters, s2, s2.nodes[to].authEpoch, to)|
                                  <==> s.nodes[to].authSent)
  {
    hide WinInv;
    var s1 := DeliverAck(voters, s, from, to, epoch);
    if s.nodes[to].authSent {
      AckKeeps(voters, s, from, to, epoch);
      assert CountInv(voters, s1, to);
      SubsetSize(s1.counted[to], VotersOf(voters, s1, s1.nodes[to].authEpoch, to));
    } else {
      var s2 := Next(voters, s1, Start(to));
      CountedOnce(voters, s, from, to, epoch);
      NobodyVotedYet(voters, s, s2, to, s2.nodes[to].authEpoch);
    }
  }

  /** No slave counts more votes than voters voted for it in its epoch. */
  ghost predicate Honest(voters: set<NodeId>, s: System)
  {
    forall n :: n in s.nodes ==> s.nodes[n].authCount <= |VotersOf(voters, s, s.nodes[n].authEpoch, n)|
  }

  lemma InvHonest(voters: set<NodeId>, s: System)
    requires Inv(voters, s)
    ensures Honest(voters, s)
  {
    hide WinInv, NetworkInv, GrantInv;
    forall n | n in s.nodes ensures s.nodes[n].authCount <= |VotersOf(voters, s, s.nodes[n].authEpoch, n)|
    {
      assert CountInv(voters, s, n);
      SubsetSize(s.counted[n], VotersOf(voters, s, s.nodes[n].authEpoch, n));
    }
  }

  /** An election that starts with a vote counted has one nobody gave. */
  lemma UncleanStart(voters: set<NodeId>, s: System, step: Step)
    requires Inv(voters, s) && Enabled(voters, s, step) && !Clean(voters, s, step)
    ensures !Honest(voters, Next(voters, s, step))
  {
    hide WinInv, NetworkInv;
    var n, s' := step.node, Next(voters, s, step);
    NobodyVotedYet(voters, s, s', n, s'.nodes[n].authEpoch);
    assert s'.nodes[n].authCount > |VotersOf(voters, s', s'.nodes[n].authEpoch, n)|;
  }

  /** An honest run is clean as far as it goes. */
  lemma {:induction false} HonestSoFar(voters: set<NodeId>, states: seq<System>, steps: seq<Step>, k: nat)
    requires IsRun(voters, states, steps) && k < |states| && forall i :: 0 <= i < |states| ==> Honest(voters, states[i])
    ensures Inv(voters, states[k]) && forall i :: 0 <= i < k ==> Clean(voters, states[i], steps[i])
    decreases k
  {
    if k == 0 {
      InitInv(voters, states[0]);
    } else {
      HonestSoFar(voters, states, steps, k - 1);
      hide Inv, Honest, Next, Clean;
      assert Honest(voters, states[k]);
      if !Clean(voters, states[k - 1], steps[k - 1]) { UncleanStart(voters, states[k - 1], steps[k - 1]); }
      NextKeepsInv(voters, states[k - 1], steps[k - 1]);
    }
  }

  /**
   Over whole runs: no slave ever counts more votes than it was given in its
   epoch, if and only if no election is started with a vote already counted.
   */
  lemma CountsHonest(voters: set<NodeId>, states: seq<System>, steps: seq<Step>)
    requires IsRun(voters, states, steps)
    ensures (forall i :: 0 <= i < |states| ==> Honest(voters, states[i])) <==> CleanRun(voters, states, steps)
  {
    hide Honest, Inv;
    if CleanRun(voters, states, steps) {
      forall i: nat | i < |states| ensures Honest(voters, states[i])
      {
        RunInv(voters, states, steps, i);
        InvHonest(voters, states[i]);
      }
    }
    if forall i :: 0 <= i < |states| ==> Honest(voters, states[i]) {
      HonestSoFar(voters, states, steps, |steps|);
    }
  }

  /** No vote is counted while a slave has none out. */
  ghost predicate Timely(voters: set<NodeId>, s: System, step: Step)
    requires Enabled(voters, s, step)
  {
    step.Deliver? && step.message.Ack? && step.message.from in voters
    && step.message.epoch >= s.nodes[step.message.to].authEpoch
    ==> s.nodes[step.message.to].authSent
  }

  ghost predicate NothingEarly(s: System)
  {
    forall n :: n in s.nodes && !s.nodes[n].authSent ==> s.nodes[n].authCount == 0
  }

  lemma NothingEarlyKept(s: System, s': System, n: NodeId)
    requires NothingEarly(s) && n in s.nodes && n in s'.nodes && s'.nodes == s.nodes[n := s'.nodes[n]]
    requires !s'.nodes[n].authSent ==> s'.nodes[n].authCount == 0 || (!s.nodes[n].authSent && s'.nodes[n].authCount == s.nodes[n].authCount)
    ensures NothingEarly(s')
  {
  }

  lemma NothingEarlyNext(voters: set<NodeId>, s: System, step: Step)
    requires NothingEarly(s) && Enabled(voters, s, step) && Timely(voters, s, step)
    ensures NothingEarly(Next(voters, s, step))
  {
    hide Requests, Quorum, NothingEarly;
    if step.Lose? {
      assert NothingEarly(s.(network := s.network - multiset{step.message})) by { NothingEarlySame(s, step.message); }
    } else {
      NothingEarlyKept(s, Next(voters, s, step), if step.Deliver? then step.message.to else step.node);
    }
  }

  lemma NothingEarlySame(s: System, m: Message)
    requires NothingEarly(s)
    ensures NothingEarly(s.(network := s.network - multiset{m}))
  {
  }

  lemma {:induction false} NothingEarlySoFar(voters: set<NodeId>, states: seq<System>, steps: seq<Step>, k: nat)
    requires IsRun(voters, states, steps) && k < |states|
    requires forall i :: 0 <= i < |steps| ==> Timely(voters, states[i], steps[i])
    ensures NothingEarly(states[k])
    decreases k
  {
    if k > 0 {
      hide Next, Enabled, Timely, NothingEarly, Init;
      NothingEarlySoFar(voters, states, steps, k - 1);
      NothingEarlyNext(voters, states[k - 1], steps[k - 1]);
    }
  }

  /** Elections start clean in particular when no vote arrives between scheduling one and starting it. */
  lemma TimelyIsClean(voters: set<NodeId>, states: seq<System>, steps: seq<Step>)
    requires IsRun(voters, states, steps)
    requires forall i :: 0 <= i < |steps| ==> Timely(voters, states[i], steps[i])
    ensures CleanRun(voters, states, steps)
  {
    forall i | 0 <= i < |steps| ensures Clean(voters, states[i], steps[i])
    {
      NothingEarlySoFar(voters, states, steps, i);
    }
  }

  lemma NobodyVotedYet(voters: set<NodeId>, s: System, s2: System, n: NodeId, epoch: nat)
    requires LocalInv(voters, s) && GrantInv(voters, s) && n in s.nodes
    requires s2.granted == s.granted && s.nodes[n].currentEpoch < epoch
    ensures VotersOf(voters, s2, epoch, n) == {}
  {
    assert forall v :: VotedFor(s2, v, epoch, n) == VotedFor(s, v, epoch, n);
  }

  const Masters: set<NodeId> := {1, 2, 3}

  ghost predicate Runs(states: seq<System>, steps: seq<Step>)
  {
    |states| == |steps| + 1 && IsRun(Masters, states, steps)
  }

  lemma OneStep(states: seq<System>, steps: seq<Step>, step: Step)
    returns (states': seq<System>, steps': seq<Step>)
    requires Runs(states, steps) && Enabled(Masters, states[|steps|], step)
    ensures Runs(states', steps') && steps' == steps + [step]
    ensures states' == states + [Next(Masters, states[|steps|], step)]
  {
    hide Enabled, Next, Init;
    states' := states + [Next(Masters, states[|steps|], step)];
    steps' := steps + [step];
  }

  /** Master v votes for n. */
  lemma VoteStep(s: System, v: NodeId, n: NodeId, epoch: nat)
    requires v in Masters && v in s.nodes && v in s.counted && Request(n, v, epoch) in s.network
    requires s.nodes[v].lastVoteEpoch <= s.nodes[v].currentEpoch < epoch
    ensures Enabled(Masters, s, Deliver(Request(n, v, epoch), true))
    ensures var s' := Next(Masters, s, Deliver(Request(n, v, epoch), true));
            && s'.nodes == s.nodes[v := s.nodes[v].(currentEpoch := epoch, lastVoteEpoch := epoch)]
            && s'.network == s.network - multiset{Request(n, v, epoch)} + multiset{Ack(v, n, epoch)}
            && s'.counted == s.counted
  {
  }

  /** Slave n counts the vote of master v. */
  lemma CountStep(s: System, v: NodeId, n: NodeId, epoch: nat)
    requires v in Masters && n in s.nodes && n in s.counted && Ack(v, n, epoch) in s.network
    requires s.nodes[n].authEpoch == epoch <= s.nodes[n].currentEpoch
    ensures Enabled(Masters, s, Deliver(Ack(v, n, epoch), true))
    ensures var s' := Next(Masters, s, Deliver(Ack(v, n, epoch), true));
            && s'.nodes == s.nodes[n := s.nodes[n].(authCount := s.nodes[n].authCount + 1)]
            && s'.network == s.network - multiset{Ack(v, n, epoch)}
            && s'.counted.Keys == s.counted.Keys
  {
  }

  /** Masters 1 and 2 vote for n. */
  lemma TwoVote(states: seq<System>, steps: seq<Step>, n: NodeId, epoch: nat)
    returns (states': seq<System>, steps': seq<Step>)
    requires Runs(states, steps)
    requires var s := states[|steps|];
             && 1 in s.nodes && 2 in s.nodes && 1 in s.counted && 2 in s.counted
             && Request(n, 1, epoch) in s.network && Request(n, 2, epoch) in s.network
             && s.nodes[1].lastVoteEpoch <= s.nodes[1].currentEpoch < epoch
             && s.nodes[2].lastVoteEpoch <= s.nodes[2].currentEpoch < epoch
    ensures Runs(states', steps') && steps <= steps' && states <= states'
    ensures var s, s' := states[|steps|], states'[|steps'|];
            && Ack(1, n, epoch) in s'.network && Ack(2, n, epoch) in s'.network && s'.counted == s.counted
            && s'.nodes == s.nodes[1 := s.nodes[1].(currentEpoch := epoch, lastVoteEpoch := epoch)]
                                  [2 := s.nodes[2].(currentEpoch := epoch, lastVoteEpoch := epoch)]
  {
    hide Next, Enabled, IsRun;
    VoteStep(states[|steps|], 1, n, epoch);
    states', steps' := OneStep(states, steps, Deliver(Request(n, 1, epoch), true));
    VoteStep(states'[|steps'|], 2, n, epoch);
    states', steps' := OneStep(states', steps', Deliver(Request(n, 2, epoch), true));
  }

  /** Slave n counts the votes of masters 1 and 2. */
  lemma TwoCount(states: seq<System>, steps: seq<Step>, n: NodeId, epoch: nat)
    returns (states': seq<System>, steps': seq<Step>)
    requires Runs(states, steps)
    requires var s := states[|steps|];
             && n in s.nodes && n in s.counted && s.nodes[n].authEpoch == epoch <= s.nodes[n].currentEpoch
             && Ack(1, n, epoch) in s.network && Ack(2, n, epoch) in s.network
    ensures Runs(states', steps') && steps <= steps' && states <= states'
    ensures var s, s' := states[|steps|], states'[|steps'|];
            && s'.nodes == s.nodes[n := s.nodes[n].(authCount := s.nodes[n].authCount + 2)]
            && s'.counted.Keys == s.counted.Keys
  {
    hide Next, Enabled, IsRun;
    CountStep(states[|steps|], 1, n, epoch);
    states', steps' := OneStep(states, steps, Deliver(Ack(1, n, epoch), true));
    CountStep(states'[|steps'|], 2, n, epoch);
    states', steps' := OneStep(states', steps', Deliver(Ack(2, n, epoch), true));
  }

  /** Slave n starts an election and gets the votes of masters 1 and 2. */
  lemma Campaign(states: seq<System>, steps: seq<Step>, n: NodeId, epoch: nat)
    returns (states': seq<System>, steps': seq<Step>)
    requires Runs(states, steps)
    requires var s := states[|steps|];
             && 1 in s.nodes && 2 in s.nodes && 1 in s.counted && 2 in s.counted
             && n in s.nodes && n !in Masters && s.nodes[n].currentEpoch + 1 == epoch && !s.nodes[n].authSent
             && s.nodes[1].lastVoteEpoch <= s.nodes[1].currentEpoch < epoch
             && s.nodes[2].lastVoteEpoch <= s.nodes[2].currentEpoch < epoch
    ensures Runs(states', steps') && steps <= steps' && states <= states'
    ensures var s, s' := states[|steps|], states'[|steps'|];
            && Ack(1, n, epoch) in s'.network && Ack(2, n, epoch) in s'.network && s'.counted == s.counted
            && s'.nodes == s.nodes[1 := s.nodes[1].(currentEpoch := epoch, lastVoteEpoch := epoch)]
                                  [2 := s.nodes[2].(currentEpoch := epoch, lastVoteEpoch := epoch)]
                                  [n := Started(s.nodes[n])]
  {
    hide IsRun;
    states', steps' := OneStep(states, steps, Start(n));
    assert Request(n, 1, epoch) in Requests(Masters, n, epoch) && Request(n, 2, epoch) in Requests(Masters, n, epoch);
    states', steps' := TwoVote(states', steps', n, epoch);
  }

  function Fresh(): System
  {
    var n := Local(0, 0, 0, 0, false, 0);
    System(map[1 := n, 2 := n, 3 := n, 4 := n, 5 := n], multiset{}, map[],
           map[1 := {}, 2 := {}, 3 := {}, 4 := {}, 5 := {}], {})
  }

  /** Slave 4 gets two votes for epoch 1, but counts them only after scheduling its next election. */
  lemma StaleVotes() returns (states: seq<System>, steps: seq<Step>)
    ensures Runs(states, steps)
    ensures var s := states[|steps|];
            && s.counted.Keys == {1, 2, 3, 4, 5}
            && s.nodes == Fresh().nodes[1 := Local(1, 1, 0, 0, false, 0)][2 := Local(1, 1, 0, 0, false, 0)]
                                       [4 := Local(1, 0, 0, 1, false, 2)]
  {
    states, steps := [Fresh()], [];
    assert Runs(states, steps);
    hide IsRun;
    states, steps := Campaign(states, steps, 4, 1);
    states, steps := OneStep(states, steps, Schedule(4));
    states, steps := TwoCount(states, steps, 4, 1);
  }

  /** So it wins epoch 2 without a vote, and slave 5 can win the same epoch with two. */
  lemma DoubleWin() returns (states: seq<System>, steps: seq<Step>, i: nat, j: nat)
    ensures Runs(states, steps) && i < j < |steps| && steps[i] == Win(4) && steps[j] == Win(5)
    ensures states[i].nodes[4].authEpoch == states[j].nodes[5].authEpoch
  {
    states, steps := StaleVotes();
    hide IsRun, Requests;
    states, steps := OneStep(states, steps, Start(4));
    i := |steps|;
    states, steps := OneStep(states, steps, Win(4));
    states, steps := OneStep(states, steps, Hear(5, 1));
    j, states, steps := SecondWin(states, steps);
  }

  lemma SecondWin(states: seq<System>, steps: seq<Step>)
    returns (j: nat, states': seq<System>, steps': seq<Step>)
    requires Runs(states, steps)
    requires var s := states[|steps|];
             && 1 in s.nodes && 2 in s.nodes && 5 in s.nodes && 1 in s.counted && 2 in s.counted && 5 in s.counted
             && s.nodes[1] == s.nodes[2] == Local(1, 1, 0, 0, false, 0) && s.nodes[5] == Local(1, 0, 0, 0, false, 0)
    ensures Runs(states', steps') && steps <= steps' && states <= states' && |steps| <= j < |steps'|
    ensures steps'[j] == Win(5) && 5 in states'[j].nodes && states'[j].nodes[5].authEpoch == 2
  {
    hide IsRun;
    states', steps' := Campaign(states, steps, 5, 2);
    states', steps' := TwoCount(states', steps', 5, 2);
    j := |steps'|;
    states', steps' := OneStep(states', steps', Win(5));
  }
}
