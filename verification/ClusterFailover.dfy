/**
 The handlers behind an election (cluster.c), as methods of the state they
 update, and the proof that they take the steps of ClusterElection and no others.
 */
module ClusterFailover {
  import opened Basics
  import opened ClusterBitmap
  import opened ClusterSlots
  import opened ClusterElection

  /** The AUTH_REQUEST packet. */
  datatype AuthRequest = AuthRequest(currentEpoch: nat, configEpoch: nat, claimed: Bitmap, forceAck: bool)

  /** What the voter knows of the node that asks, and of its master. */
  datatype Applicant = Applicant(isMaster: bool, masterKnown: bool, masterFailed: bool, votedTime: int)

  /** No claimed slot is held under an epoch greater than the one the request shows. */
  ghost predicate ClaimsUpToDate(nodes: map<NodeId, Node>, owners: Owners, claimed: Bitmap, epoch: nat, upTo: nat)
    requires |owners| == CLUSTER_SLOTS && Whole(claimed) && upTo <= CLUSTER_SLOTS
  {
    forall j: nat :: j < upTo && TestBit(claimed, j) && owners[j].Some? ==>
      owners[j].value in nodes && nodes[owners[j].value].configEpoch <= epoch
  }

  /** Everything but the epochs that a vote depends on. */
  ghost predicate Fit(canVote: bool, a: Applicant, r: AuthRequest, nodes: map<NodeId, Node>, owners: Owners, now: int, timeout: nat)
    requires |owners| == CLUSTER_SLOTS && Whole(r.claimed)
  {
    && canVote && !a.isMaster && a.masterKnown && (a.masterFailed || r.forceAck)
    && now - a.votedTime >= timeout * 2
    && ClaimsUpToDate(nodes, owners, r.claimed, r.configEpoch, CLUSTER_SLOTS)
  }

  datatype Action = Nothing | Schedules | Starts | Wins

  /** The longest time an election may last. */
  function AuthTimeout(nodeTimeout: nat): nat
  {
    if nodeTimeout * 2 < 2000 then 2000 else nodeTimeout * 2
  }

  /** What each outcome of clusterHandleSlaveFailover does, and what it takes. */
  ghost predicate Consequence(n: Local, n': Local, size: nat, action: Action)
  {
    match action
    case Nothing => n' == n
    case Schedules => n' == Scheduled(n)
    case Starts => n' == Started(n) && !n.authSent
    case Wins => n' == Promoted(n) && n.authSent && n.authCount >= size / 2 + 1
  }

  class Elections {
    var currentEpoch: nat
    var lastVoteEpoch: nat
    var configEpoch: nat
    var failoverAuthTime: int
    var failoverAuthEpoch: nat
    var failoverAuthSent: bool
    var failoverAuthCount: nat
    var failoverAuthRank: nat

    function Fields(): Local
      reads this
    {
      Local(currentEpoch, lastVoteEpoch, configEpoch, failoverAuthEpoch, failoverAuthSent, failoverAuthCount)
    }

    /** clusterProcessPacket, the epochs in the header of a packet from a known node. */
    method ProcessHeader(senderCurrentEpoch: nat)
      modifies this`currentEpoch
      ensures Fields() == Heard(old(Fields()), senderCurrentEpoch)
      ensures currentEpoch >= old(currentEpoch) && currentEpoch >= senderCurrentEpoch
      ensures currentEpoch in {old(currentEpoch), senderCurrentEpoch}
    {
      if senderCurrentEpoch > currentEpoch { currentEpoch := senderCurrentEpoch; }
    }

    /** clusterSendFailoverAuthIfNeeded */
    method SendFailoverAuthIfNeeded(
      canVote: bool, a: Applicant, r: AuthRequest, nodes: map<NodeId, Node>, owners: Owners, now: int, timeout: nat)
      returns (granted: bool, votedTime: int)
      requires Consistent(nodes, owners) && Whole(r.claimed)
      modifies this`lastVoteEpoch
      ensures |owners| == CLUSTER_SLOTS
      ensures granted <==> Grants(old(Fields()), r.currentEpoch, Fit(canVote, a, r, nodes, owners, now, timeout))
      ensures Fields() == Asked(old(Fields()), r.currentEpoch, Fit(canVote, a, r, nodes, owners, now, timeout))
      ensures granted <==>
                && canVote && r.currentEpoch >= old(currentEpoch) && old(lastVoteEpoch) != old(currentEpoch)
                && !a.isMaster && a.masterKnown && (a.masterFailed || r.forceAck) && now >= a.votedTime + 2 * timeout
                && forall j: nat :: j < CLUSTER_SLOTS && TestBit(r.claimed, j) && owners[j].Some? ==>
                     owners[j].value in nodes && nodes[owners[j].value].configEpoch <= r.configEpoch
      ensures lastVoteEpoch == if granted then currentEpoch else old(lastVoteEpoch)
      ensures votedTime == if granted then now else a.votedTime
    {
      hide Agrees, TestBit;
      granted, votedTime := false, a.votedTime;
      if !canVote { return; }
      if r.currentEpoch < currentEpoch { return; }
      if lastVoteEpoch == currentEpoch { return; }
      if a.isMaster || !a.masterKnown || (!a.masterFailed && !r.forceAck) { return; }
      if now - a.votedTime < timeout * 2 { return; }
      var j := 0;
      while j < CLUSTER_SLOTS
        invariant 0 <= j <= CLUSTER_SLOTS == |owners| && Fields() == old(Fields()) && !granted && votedTime == a.votedTime
        invariant ClaimsUpToDate(nodes, owners, r.claimed, r.configEpoch, j)
      {
        if TestBit(r.claimed, j) {
          if owners[j].Some? && nodes[owners[j].value].configEpoch > r.configEpoch { return; }
        }
        j := j + 1;
      }
      lastVoteEpoch := currentEpoch;
      return true, now;
    }

    /** clusterProcessPacket, AUTH_ACK, its header already processed. */
    method ProcessAuthAck(senderVotes: bool, senderCurrentEpoch: nat)
      modifies this`failoverAuthCount
      ensures Fields() == Acked(old(Fields()), senderCurrentEpoch, senderVotes)
      ensures failoverAuthCount ==
                old(failoverAuthCount) + if senderVotes && senderCurrentEpoch >= failoverAuthEpoch then 1 else 0
    {
      if senderVotes && senderCurrentEpoch >= failoverAuthEpoch {
        failoverAuthCount := failoverAuthCount + 1;
      }
    }

    /**
     clusterHandleSlaveFailover. mayFailOver stands for the conditions on roles
     and configuration, freshData for the age of the data; delay is the random
     part of the delay before the election; manual says a manual failover is on.
     */
    method HandleSlaveFailover(
      mayFailOver: bool, freshData: bool, manual: bool, size: nat, rank: nat, now: int, nodeTimeout: nat, delay: nat)
      returns (action: Action)
      modifies this
      ensures Consequence(old(Fields()), Fields(), size, action)
      ensures var able := mayFailOver && freshData;
              var age := now - old(failoverAuthTime);
              var timeout := if nodeTimeout < 1000 then 2000 else 2 * nodeTimeout;
              var late := age > 2 * timeout;
              var open := failoverAuthTime <= now && age <= timeout;
              && (action.Schedules? <==> able && late)
              && (action.Starts? <==> able && !late && open && !old(failoverAuthSent))
              && (action.Wins? <==> able && !late && open && old(failoverAuthSent) && old(failoverAuthCount) >= size / 2 + 1)
              && failoverAuthTime ==
                 (if !able then old(failoverAuthTime)
                  else if late then (if manual then now else now + 500 + delay + rank * 1000)
                  else if old(failoverAuthSent) || manual || rank <= old(failoverAuthRank) then old(failoverAuthTime)
                  else old(failoverAuthTime) + (rank - old(failoverAuthRank)) * 1000)
              && failoverAuthRank ==
                 (if !able then old(failoverAuthRank)
                  else if late then (if manual then 0 else rank)
                  else if old(failoverAuthSent) || manual || rank <= old(failoverAuthRank) then old(failoverAuthRank)
                  else rank)
      ensures configEpoch == if action.Wins? then Max(old(configEpoch), old(failoverAuthEpoch)) else old(configEpoch)
      ensures currentEpoch == old(currentEpoch) + if action.Starts? then 1 else 0
      ensures failoverAuthEpoch == if action.Starts? then old(currentEpoch) + 1 else old(failoverAuthEpoch)
      ensures failoverAuthSent <==> action.Starts? || (old(failoverAuthSent) && !action.Schedules?)
      ensures failoverAuthCount == if action.Schedules? then 0 else old(failoverAuthCount)
      ensures lastVoteEpoch == old(lastVoteEpoch)
    {
      action := Nothing;
      var authAge := now - failoverAuthTime;
      var authTimeout := AuthTimeout(nodeTimeout);
      var authRetryTime := authTimeout * 2;
      if !mayFailOver || !freshData { return; }
      if authAge > authRetryTime {
        failoverAuthTime := now + 500 + delay;
        failoverAuthCount := 0;
        failoverAuthSent := false;
        failoverAuthRank := rank;
        failoverAuthTime := failoverAuthTime + failoverAuthRank * 1000;
        if manual {
          failoverAuthTime := now;
          failoverAuthRank := 0;
        }
        return Schedules;
      }
      if !failoverAuthSent && !manual {
        if rank > failoverAuthRank {
          failoverAuthTime := failoverAuthTime + (rank - failoverAuthRank) * 1000;
          failoverAuthRank := rank;
        }
      }
      if now < failoverAuthTime { return; }
      if authAge > authTimeout { return; }
      if !failoverAuthSent {
        currentEpoch := currentEpoch + 1;
        failoverAuthEpoch := currentEpoch;
        failoverAuthSent := true;
        return Starts;
      }
      if failoverAuthCount >= size / 2 + 1 {
        if configEpoch < failoverAuthEpoch { configEpoch := failoverAuthEpoch; }
        return Wins;
      }
    }
  }

  // ---------------------------------------------------------------- the handlers take the protocol's steps

  function StepOf(n: NodeId, action: Action, epoch: nat): Step
  {
    match action
    case Nothing => Hear(n, epoch)
    case Schedules => Schedule(n)
    case Starts => Start(n)
    case Wins => Win(n)
  }

  /** What HandleSlaveFailover did at a slave is an enabled step of the protocol, and has its effect there. */
  lemma HandlerTakesStep(voters: set<NodeId>, s: System, n: NodeId, n': Local, action: Action)
    requires LocalInv(voters, s) && n in s.nodes && n !in voters
    requires Consequence(s.nodes[n], n', |voters|, action)
    ensures var step := StepOf(n, action, s.nodes[n].currentEpoch);
            && Enabled(voters, s, step) && Next(voters, s, step).nodes == s.nodes[n := n']
            && (Clean(voters, s, step) <==> !(action.Starts? && s.nodes[n].authCount > 0))
  {
  }

  /** So does the answer of a voter, header first: it sends an ACK exactly when the step does. */
  lemma AnswerTakesStep(voters: set<NodeId>, s: System, m: Message, fit: bool)
    requires m.Request? && m in s.network && m.to in voters && m.to in s.nodes && m.to in s.counted
    ensures var step := Deliver(m, fit);
            var n := Heard(s.nodes[m.to], m.epoch);
            && Enabled(voters, s, step)
            && Next(voters, s, step).nodes == s.nodes[m.to := Asked(n, m.epoch, fit)]
            && (Grants(n, m.epoch, fit) <==> Ack(m.to, m.from, n.currentEpoch) in Next(voters, s, step).network - s.network)
  {
    var n := Heard(s.nodes[m.to], m.epoch);
    var s' := Next(voters, s, Deliver(m, fit));
    var ack := Ack(m.to, m.from, n.currentEpoch);
    assert Grants(n, m.epoch, fit) ==> s'.network[ack] == s.network[ack] + 1;
    assert !Grants(n, m.epoch, fit) ==> s'.network == s.network - multiset{m};
  }

  lemma VoteTakesStep(voters: set<NodeId>, s: System, m: Message, fit: bool)
    requires m.Ack? && m in s.network && m.to in s.nodes && m.to in s.counted
    ensures Enabled(voters, s, Deliver(m, fit))
    ensures Next(voters, s, Deliver(m, fit)).nodes
            == s.nodes[m.to := Acked(Heard(s.nodes[m.to], m.epoch), m.epoch, m.from in voters)]
  {
  }
}
