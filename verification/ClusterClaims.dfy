/**
 How slot claims spread (cluster.c, clusterProcessPacket): headers, PING or PONG
 packets and UPDATE packets about masters with fixed claims, received in any
 order and any number of times, by one node.
 */
module ClusterClaims {
  import opened Basics
  import opened ClusterBitmap
  import opened ClusterSlots

  /** What a master claims: its configEpoch and its slots. */
  datatype Claim = Claim(epoch: nat, slots: Bitmap)

  type Claims = map<NodeId, Claim>

  /** A packet: any packet of m carries its epochs; PING and PONG also its slots; UPDATE is sent by others about m. */
  datatype Packet = Header(about: NodeId) | Ping(about: NodeId) | Update(about: NodeId)

  /** What the receiving node knows. */
  datatype View = View(nodes: map<NodeId, Node>, owners: Owners)

  /** The header: the sender's configEpoch is raised, never lowered. */
  function Heard(nodes: map<NodeId, Node>, m: NodeId, epoch: nat): map<NodeId, Node>
    requires m in nodes
  {
    nodes[m := nodes[m].(configEpoch := Max(nodes[m].configEpoch, epoch))]
  }

  /** clusterUpdateSlotsConfigWith on the whole table, with no slot importing. */
  function Claimed(nodes: map<NodeId, Node>, owners: Owners, m: NodeId, c: Claim): Owners
    requires |owners| == CLUSTER_SLOTS && Whole(c.slots)
  {
    seq(|owners|, j requires 0 <= j < |owners| => Rebound(nodes, owners[j], false, TestBit(c.slots, j), m, c.epoch))
  }

  ghost predicate Known(v: View, claims: Claims)
  {
    && |v.owners| == CLUSTER_SLOTS
    && forall m :: m in claims ==> m in v.nodes && Whole(claims[m].slots)
  }

  function Receive(v: View, claims: Claims, p: Packet): View
    requires Known(v, claims)
  {
    if p.about !in claims then v
    else
      var m, c := p.about, claims[p.about];
      match p
      case Header(_) => v.(nodes := Heard(v.nodes, m, c.epoch))
      case Ping(_) =>
        var nodes := Heard(v.nodes, m, c.epoch);
        View(nodes, Claimed(nodes, v.owners, m, c))
      case Update(_) =>
        if v.nodes[m].configEpoch >= c.epoch then v
        else
          var nodes := v.nodes[m := v.nodes[m].(configEpoch := c.epoch)];
          View(nodes, Claimed(nodes, v.owners, m, c))
  }

  function ReceiveAll(v: View, claims: Claims, packets: seq<Packet>): View
    requires Known(v, claims)
    decreases |packets|
  {
    if packets == [] then v
    else
      KnownKept(v, claims, packets[0]);
      ReceiveAll(Receive(v, claims, packets[0]), claims, packets[1..])
  }

  lemma KnownKept(v: View, claims: Claims, p: Packet)
    requires Known(v, claims)
    ensures Known(Receive(v, claims, p), claims)
  {
    hide TestBit, Rebound;
  }

  // ---------------------------------------------------------------- a bound slot never goes back

  /** The epoch under which a slot is held, as the receiver knows it; an unbound slot has none. */
  function HeldAt(v: View, j: nat): int
    requires j < |v.owners|
  {
    if v.owners[j].Some? && v.owners[j].value in v.nodes then v.nodes[v.owners[j].value].configEpoch else -1
  }

  /** No packet lowers the epoch under which a slot is held; a packet that moves a bound slot raises it. */
  lemma HeldOnlyRises(v: View, claims: Claims, p: Packet, j: nat)
    requires Known(v, claims) && j < CLUSTER_SLOTS
    requires v.owners[j].Some? ==> v.owners[j].value in v.nodes
    ensures Known(Receive(v, claims, p), claims)
    ensures var v' := Receive(v, claims, p);
            && HeldAt(v, j) <= HeldAt(v', j)
            && (v'.owners[j] != v.owners[j] ==> HeldAt(v, j) < HeldAt(v', j))
  {
    KnownKept(v, claims, p);
    hide TestBit;
  }

  // ---------------------------------------------------------------- convergence

  predicate Wants(claims: Claims, m: NodeId, j: nat)
    requires j < CLUSTER_SLOTS
  {
    m in claims && Whole(claims[m].slots) && TestBit(claims[m].slots, j)
  }

  /** Slot j is held, if at all, by a node that claims it; every claim already applied to it has been met or beaten. */
  ghost predicate SlotInv(v: View, claims: Claims, applied: set<NodeId>, j: nat)
    requires j < |v.owners| == CLUSTER_SLOTS
  {
    && (v.owners[j].Some? ==> Wants(claims, v.owners[j].value, j) && v.owners[j].value in v.nodes)
    && forall m :: m in applied && Wants(claims, m, j) ==> claims[m].epoch <= HeldAt(v, j)
  }

  ghost predicate EpochInv(v: View, claims: Claims)
  {
    forall m :: m in claims ==> m in v.nodes && v.nodes[m].configEpoch <= claims[m].epoch
  }

  /** Does receiving p in view v apply the claim it is about? */
  predicate Effective(v: View, claims: Claims, p: Packet)
  {
    p.about in claims && p.about in v.nodes &&
    (p.Ping? || (p.Update? && v.nodes[p.about].configEpoch < claims[p.about].epoch))
  }

  lemma ReceiveKeepsEpochs(v: View, claims: Claims, p: Packet)
    requires Known(v, claims) && EpochInv(v, claims)
    ensures EpochInv(Receive(v, claims, p), claims)
  {
    hide Claimed;
  }

  lemma ReceiveKeepsSlot(v: View, claims: Claims, applied: set<NodeId>, p: Packet, j: nat)
    requires Known(v, claims) && EpochInv(v, claims) && j < CLUSTER_SLOTS && SlotInv(v, claims, applied, j)
    ensures Known(Receive(v, claims, p), claims)
    ensures SlotInv(Receive(v, claims, p), claims, if Effective(v, claims, p) then applied + {p.about} else applied, j)
  {
    HeldOnlyRises(v, claims, p, j);
    hide TestBit;
  }

  function Pinged(packets: seq<Packet>): set<NodeId>
  {
    set p | p in packets && p.Ping? :: p.about
  }

  lemma SlotInvFewer(v: View, claims: Claims, more: set<NodeId>, fewer: set<NodeId>, j: nat)
    requires j < |v.owners| == CLUSTER_SLOTS && SlotInv(v, claims, more, j) && fewer * claims.Keys <= more
    ensures SlotInv(v, claims, fewer, j)
  {
    hide TestBit, HeldAt;
  }

  /** Every claim pinged at least once has been applied, whatever else was received and in whatever order. */
  lemma {:induction false} ReceiveAllKeeps(v: View, claims: Claims, applied: set<NodeId>, packets: seq<Packet>, j: nat)
    requires Known(v, claims) && EpochInv(v, claims) && j < CLUSTER_SLOTS && SlotInv(v, claims, applied, j)
    ensures var v' := ReceiveAll(v, claims, packets);
            Known(v', claims) && EpochInv(v', claims) && SlotInv(v', claims, applied + Pinged(packets), j)
    decreases |packets|
  {
    hide SlotInv, Receive, EpochInv, Known;
    if packets == [] {
      assert applied + Pinged(packets) == applied;
    } else {
      var p, rest := packets[0], packets[1..];
      var v1 := Receive(v, claims, p);
      var applied1 := if Effective(v, claims, p) then applied + {p.about} else applied;
      KnownKept(v, claims, p);
      ReceiveKeepsEpochs(v, claims, p);
      ReceiveKeepsSlot(v, claims, applied, p, j);
      ReceiveAllKeeps(v1, claims, applied1, rest, j);
      var v' := ReceiveAll(v1, claims, rest);
      assert (applied + Pinged(packets)) * claims.Keys <= applied1 + Pinged(rest) by {
        PingedFirst(packets);
        KnownAbout(v, claims, p);
      }
      KnownSize(v', claims);
      SlotInvFewer(v', claims, applied1 + Pinged(rest), applied + Pinged(packets), j);
    }
  }

  lemma PingedFirst(packets: seq<Packet>)
    requires packets != []
    ensures Pinged(packets) == Pinged(packets[1..]) + if packets[0].Ping? then {packets[0].about} else {}
  {
    assert packets == [packets[0]] + packets[1..];
  }

  lemma KnownAbout(v: View, claims: Claims, p: Packet)
    requires Known(v, claims)
    ensures p.Ping? && p.about in claims ==> Effective(v, claims, p)
  {
  }

  lemma KnownSize(v: View, claims: Claims)
    requires Known(v, claims)
    ensures |v.owners| == CLUSTER_SLOTS
  {
  }

  ghost predicate DistinctEpochs(claims: Claims)
  {
    forall m, n :: m in claims && n in claims && m != n ==> claims[m].epoch != claims[n].epoch
  }

  /** The claimant of slot j with the greatest configEpoch. */
  ghost predicate Wins(claims: Claims, m: NodeId, j: nat)
    requires j < CLUSTER_SLOTS
  {
    Wants(claims, m, j) && forall n :: Wants(claims, n, j) ==> claims[n].epoch <= claims[m].epoch
  }

  /**
   Slot claims converge: after any packets in which every claimant pinged at
   least once, or had its claim in the table from the start, every slot belongs
   to its claimant of greatest configEpoch, and an unclaimed slot to nobody.
   */
  lemma Converges(v: View, claims: Claims, applied: set<NodeId>, packets: seq<Packet>, j: nat, winner: NodeId)
    requires Known(v, claims) && EpochInv(v, claims) && j < CLUSTER_SLOTS && SlotInv(v, claims, applied, j)
    requires DistinctEpochs(claims) && claims.Keys <= applied + Pinged(packets)
    ensures var owner := ReceiveAll(v, claims, packets).owners;
            && |owner| == CLUSTER_SLOTS
            && (Wins(claims, winner, j) ==> owner[j] == Some(winner))
            && ((forall m :: !Wants(claims, m, j)) ==> owner[j] == None)
  {
    ReceiveAllKeeps(v, claims, applied, packets, j);
    hide ReceiveAll, TestBit;
    var v' := ReceiveAll(v, claims, packets);
    if Wins(claims, winner, j) {
      assert winner in applied + Pinged(packets);
      var o := v'.owners[j].value;
      assert Wants(claims, o, j);
    }
  }

  /** The start: nothing bound yet. */
  lemma NothingBound(v: View, claims: Claims, j: nat)
    requires Known(v, claims) && j < CLUSTER_SLOTS && v.owners[j] == None
    ensures SlotInv(v, claims, {}, j)
  {
  }

  function Claimants(claims: Claims, j: nat): set<NodeId>
    requires j < CLUSTER_SLOTS
  {
    set m | m in claims && Wants(claims, m, j)
  }

  /** Some claimant of a finite set has the greatest epoch. */
  lemma {:induction false} GreatestOf(claims: Claims, ms: set<NodeId>) returns (w: NodeId)
    requires ms <= claims.Keys && ms != {}
    ensures w in ms && forall m :: m in ms ==> claims[m].epoch <= claims[w].epoch
    decreases |ms|
  {
    var m :| m in ms;
    w := m;
    if ms != {m} {
      assert ms - {m} != {};
      var v := GreatestOf(claims, ms - {m});
      if claims[m].epoch < claims[v].epoch { w := v; }
    }
  }

  /** A slot that somebody claims has a winner. */
  lemma SomebodyWins(claims: Claims, j: nat) returns (w: NodeId)
    requires j < CLUSTER_SLOTS && exists m :: Wants(claims, m, j)
    ensures Wins(claims, w, j)
  {
    hide TestBit;
    var m :| Wants(claims, m, j);
    assert m in Claimants(claims, j);
    w := GreatestOf(claims, Claimants(claims, j));
    forall n | Wants(claims, n, j) ensures claims[n].epoch <= claims[w].epoch
    {
      assert n in Claimants(claims, j);
    }
  }

  /** Two nodes that start with unbound tables and hear every claimant end with the same owner, in any two orders. */
  lemma OrderIrrelevant(a: View, b: View, claims: Claims, p: seq<Packet>, q: seq<Packet>, j: nat)
    requires Known(a, claims) && Known(b, claims) && EpochInv(a, claims) && EpochInv(b, claims) && j < CLUSTER_SLOTS
    requires a.owners[j] == None && b.owners[j] == None && DistinctEpochs(claims)
    requires claims.Keys <= Pinged(p) && claims.Keys <= Pinged(q)
    ensures Known(ReceiveAll(a, claims, p), claims) && Known(ReceiveAll(b, claims, q), claims)
    ensures ReceiveAll(a, claims, p).owners[j] == ReceiveAll(b, claims, q).owners[j]
  {
    NothingBound(a, claims, j);
    NothingBound(b, claims, j);
    hide ReceiveAll, SlotInv, Wants;
    ReceiveAllKeeps(a, claims, {}, p, j);
    ReceiveAllKeeps(b, claims, {}, q, j);
    var winner := 0;
    if exists m :: Wants(claims, m, j) { winner := SomebodyWins(claims, j); }
    Converges(a, claims, {}, p, j, winner);
    Converges(b, claims, {}, q, j, winner);
  }

  /** The start of a master whose table binds nothing but its own slots: its own claim is applied. */
  lemma OwnSlotsBound(v: View, claims: Claims, me: NodeId, j: nat)
    requires Known(v, claims) && Consistent(v.nodes, v.owners) && j < CLUSTER_SLOTS && me in v.nodes && me in claims
    requires claims[me] == Claim(v.nodes[me].configEpoch, v.nodes[me].slots)
    requires v.owners[j] == None || v.owners[j] == Some(me)
    ensures SlotInv(v, claims, {me}, j)
  {
    BitIsOwner(v.nodes, v.owners, me, j);
    hide TestBit, Consistent;
  }

  // ---------------------------------------------------------------- exactly when the winner gets its slot

  /** The first packet about m, if any. */
  function FirstAbout(packets: seq<Packet>, m: NodeId): Option<Packet>
  {
    if packets == [] then None
    else if packets[0].about == m then Some(packets[0])
    else FirstAbout(packets[1..], m)
  }

  /** Do the packets apply the claim of m, whose epoch is still to be learnt or not? */
  predicate Applies(packets: seq<Packet>, m: NodeId, behind: bool)
  {
    Ping(m) in packets || (behind && FirstAbout(packets, m) == Some(Update(m)))
  }

  predicate Behind(v: View, claims: Claims, m: NodeId)
    requires m in claims && m in v.nodes
  {
    v.nodes[m].configEpoch < claims[m].epoch
  }

  /** What one packet leaves to the others. */
  lemma AppliesFirst(packets: seq<Packet>, m: NodeId, behind: bool)
    requires packets != []
    ensures var p, rest := packets[0], packets[1..];
            Applies(packets, m, behind) <==>
              if p.about != m then Applies(rest, m, behind)
              else p.Ping? || (p.Update? && behind) || Applies(rest, m, false)
  {
    assert packets == [packets[0]] + packets[1..];
  }

  /** The slot is w's only under the epoch w claims it with. */
  ghost predicate HeldFirmly(v: View, claims: Claims, w: NodeId, j: nat)
    requires j < |v.owners| && w in claims && w in v.nodes
  {
    v.owners[j] == Some(w) ==> !Behind(v, claims, w)
  }

  lemma ReboundByOther(v: View, claims: Claims, p: Packet, j: nat, w: NodeId)
    requires Known(v, claims) && EpochInv(v, claims) && j < CLUSTER_SLOTS && SlotInv(v, claims, {}, j)
    requires Wins(claims, w, j) && HeldFirmly(v, claims, w, j) && p.about != w
    ensures Known(Receive(v, claims, p), claims)
    ensures Receive(v, claims, p).owners[j] == Some(w) <==> v.owners[j] == Some(w)
    ensures Receive(v, claims, p).nodes[w] == v.nodes[w]
  {
    KnownKept(v, claims, p);
    hide TestBit;
  }

  lemma ReboundByWinner(v: View, claims: Claims, p: Packet, j: nat, w: NodeId)
    requires Known(v, claims) && EpochInv(v, claims) && j < CLUSTER_SLOTS && SlotInv(v, claims, {}, j)
    requires Wins(claims, w, j) && DistinctEpochs(claims) && HeldFirmly(v, claims, w, j) && p.about == w
    ensures Known(Receive(v, claims, p), claims)
    ensures Receive(v, claims, p).owners[j] == Some(w)
            <==> v.owners[j] == Some(w) || p.Ping? || (p.Update? && Behind(v, claims, w))
    ensures !Behind(Receive(v, claims, p), claims, w)
  {
    KnownKept(v, claims, p);
    hide TestBit;
    if v.owners[j].Some? && v.owners[j] != Some(w) {
      var o := v.owners[j].value;
      assert Wants(claims, o, j) && claims[o].epoch != claims[w].epoch;
    }
  }

  /**
   The claimant of greatest configEpoch ends with the slot if and only if it had
   it, or some packet is a PING or PONG of it, or its epoch was still to be
   learnt and the first packet about it is an UPDATE.
   */
  lemma {:induction false} WinnerIff(v: View, claims: Claims, packets: seq<Packet>, j: nat, w: NodeId)
    requires Known(v, claims) && EpochInv(v, claims) && j < CLUSTER_SLOTS && SlotInv(v, claims, {}, j)
    requires Wins(claims, w, j) && DistinctEpochs(claims) && HeldFirmly(v, claims, w, j)
    ensures |ReceiveAll(v, claims, packets).owners| == CLUSTER_SLOTS
    ensures ReceiveAll(v, claims, packets).owners[j] == Some(w)
            <==> v.owners[j] == Some(w) || Applies(packets, w, Behind(v, claims, w))
    decreases |packets|
  {
    hide Receive, SlotInv, DistinctEpochs, TestBit;
    if packets != [] {
      var p, rest := packets[0], packets[1..];
      var v1 := Receive(v, claims, p);
      KnownKept(v, claims, p);
      ReceiveKeepsEpochs(v, claims, p);
      ReceiveKeepsSlot(v, claims, {}, p, j);
      SlotInvFewer(v1, claims, if Effective(v, claims, p) then {} + {p.about} else {}, {}, j);
      AppliesFirst(packets, w, Behind(v, claims, w));
      if p.about == w { ReboundByWinner(v, claims, p, j, w); } else { ReboundByOther(v, claims, p, j, w); }
      hide Applies, Wins;
      WinnerIff(v1, claims, rest, j, w);
    }
  }

  /** From an unbound slot, the condition is one on the packets and the epoch known at the start. */
  lemma UnboundWinnerIff(v: View, claims: Claims, packets: seq<Packet>, j: nat, w: NodeId)
    requires Known(v, claims) && EpochInv(v, claims) && j < CLUSTER_SLOTS && v.owners[j] == None
    requires Wins(claims, w, j) && DistinctEpochs(claims)
    ensures |ReceiveAll(v, claims, packets).owners| == CLUSTER_SLOTS
    ensures ReceiveAll(v, claims, packets).owners[j] == Some(w)
            <==> Ping(w) in packets
                 || (v.nodes[w].configEpoch < claims[w].epoch && FirstAbout(packets, w) == Some(Update(w)))
  {
    NothingBound(v, claims, j);
    hide ReceiveAll, SlotInv, Wins, FirstAbout;
    WinnerIff(v, claims, packets, j, w);
  }

  /**
   The failing case, concretely: once a mere header raised the known epoch of m,
   an UPDATE about m is ignored, and the slots it claims stay unbound.
   */
  lemma UpdateAfterHeader(v: View, claims: Claims, m: NodeId, j: nat)
    requires Known(v, claims) && j < CLUSTER_SLOTS && Wants(claims, m, j) && v.owners[j] == None
    ensures Known(ReceiveAll(v, claims, [Header(m), Update(m)]), claims)
    ensures ReceiveAll(v, claims, [Header(m), Update(m)]).owners[j] == None
  {
    var v1 := Receive(v, claims, Header(m));
    KnownKept(v, claims, Header(m));
    KnownKept(v1, claims, Update(m));
    hide Claimed, TestBit;
    var packets := [Header(m), Update(m)];
    assert packets[1..] == [Update(m)] && [Update(m)][1..] == [];
    assert ReceiveAll(v, claims, packets) == ReceiveAll(v1, claims, [Update(m)]);
    assert ReceiveAll(v1, claims, [Update(m)]) == ReceiveAll(Receive(v1, claims, Update(m)), claims, []);
  }

  // ---------------------------------------------------------------- the handler

  /** Only the bitmaps, which follow the table, tell the two views apart. */
  ghost predicate SameView(v: View, w: View)
  {
    v.owners == w.owners && SameConfig(v.nodes, w.nodes)
  }

  lemma SameClaimed(a: map<NodeId, Node>, b: map<NodeId, Node>, owners: Owners, m: NodeId, c: Claim)
    requires SameConfig(a, b) && |owners| == CLUSTER_SLOTS && Whole(c.slots)
    ensures Claimed(a, owners, m, c) == Claimed(b, owners, m, c)
  {
    hide TestBit, Rebound;
    forall j | 0 <= j < |owners|
      ensures Rebound(a, owners[j], false, TestBit(c.slots, j), m, c.epoch) == Rebound(b, owners[j], false, TestBit(c.slots, j), m, c.epoch)
    {
      ReboundSame(a, b, owners[j], false, TestBit(c.slots, j), m, c.epoch);
    }
  }

  lemma SameRaised(a: map<NodeId, Node>, b: map<NodeId, Node>, m: NodeId, e: nat)
    requires SameConfig(a, b) && m in a
    ensures SameConfig(a[m := a[m].(configEpoch := e)], b[m := b[m].(configEpoch := e)])
  {
  }

  lemma SameReceived(v: View, w: View, claims: Claims, p: Packet)
    requires Known(v, claims) && SameView(v, w)
    ensures Known(w, claims) && SameView(Receive(v, claims, p), Receive(w, claims, p))
  {
    if p.about in claims {
      hide Claimed;
      var m, c := p.about, claims[p.about];
      var e := if p.Update? then c.epoch else Max(v.nodes[m].configEpoch, c.epoch);
      SameRaised(v.nodes, w.nodes, m, e);
      SameClaimed(v.nodes[m := v.nodes[m].(configEpoch := e)], w.nodes[m := w.nodes[m].(configEpoch := e)], v.owners, m, c);
    }
  }

  ghost predicate NothingImporting(owners: Owners)
  {
    forall j :: 0 <= j < |owners| ==> owners[j] == None
  }

  lemma ClaimedIs(nodes: map<NodeId, Node>, owners: Owners, importing: Owners, m: NodeId, c: Claim, slots: Owners)
    requires |owners| == |slots| == |importing| == CLUSTER_SLOTS && Whole(c.slots) && NothingImporting(importing)
    requires forall j :: 0 <= j < CLUSTER_SLOTS ==>
               slots[j] == Rebound(nodes, owners[j], importing[j].Some?, TestBit(c.slots, j), m, c.epoch)
    ensures slots == Claimed(nodes, owners, m, c)
  {
    hide TestBit, Rebound;
  }

  /** The epoch of a known node is set. */
  method SetEpoch(st: ClusterState, m: NodeId, e: nat)
    requires st.Valid() && m in st.nodes
    modifies st`nodes
    ensures st.Valid() && st.nodes == old(st.nodes)[m := old(st.nodes)[m].(configEpoch := e)]
  {
    hide Consistent;
    RoleConsistent(st.nodes, st.slots, m, st.nodes[m].(configEpoch := e));
    st.nodes := st.nodes[m := st.nodes[m].(configEpoch := e)];
  }

  /** clusterProcessPacket, for a packet about another master: the table does what Receive says. */
  method ReceivePacket(st: ClusterState, claims: Claims, p: Packet, hasKeys: seq<bool>)
    requires st.Valid() && Known(View(st.nodes, st.slots), claims) && NothingImporting(st.importingSlotsFrom)
    requires p.about != st.myself && |hasKeys| == CLUSTER_SLOTS
    modifies st`nodes, st`slots
    ensures st.Valid()
    ensures SameView(Receive(View(old(st.nodes), old(st.slots)), claims, p), View(st.nodes, st.slots))
  {
    hide Claimed, TestBit, Rebound, NothingImporting, Agrees;
    var m := p.about;
    if m !in claims { return; }
    var c := claims[m];
    ghost var heard := Heard(st.nodes, m, c.epoch);
    match p
    case Header(_) =>
      if st.nodes[m].configEpoch < c.epoch { SetEpoch(st, m, c.epoch); }
      assert st.nodes == heard;
    case Ping(_) =>
      if st.nodes[m].configEpoch < c.epoch { SetEpoch(st, m, c.epoch); }
      assert st.nodes == heard;
      ghost var raised, owners := st.nodes, st.slots;
      st.ProcessClaim(m, c.epoch, c.slots, hasKeys);
      ClaimedIs(raised, owners, st.importingSlotsFrom, m, c, st.slots);
    case Update(_) =>
      if st.nodes[m].configEpoch >= c.epoch { return; }
      SetEpoch(st, m, c.epoch);
      ghost var raised, owners := st.nodes, st.slots;
      var _, _ := st.UpdateSlotsConfigWith(m, c.epoch, c.slots, hasKeys);
      ClaimedIs(raised, owners, st.importingSlotsFrom, m, c, st.slots);
  }

  lemma {:induction false} ReceiveLast(v: View, claims: Claims, packets: seq<Packet>, p: Packet)
    requires Known(v, claims)
    ensures Known(ReceiveAll(v, claims, packets), claims)
    ensures ReceiveAll(v, claims, packets + [p]) == Receive(ReceiveAll(v, claims, packets), claims, p)
    decreases |packets|
  {
    hide Receive, Known;
    KnownKept(v, claims, p);
    if packets == [] {
      assert [] + [p] == [p] && [p][1..] == [];
      assert ReceiveAll(v, claims, [p]) == ReceiveAll(Receive(v, claims, p), claims, []);
    } else {
      KnownKept(v, claims, packets[0]);
      assert (packets + [p])[1..] == packets[1..] + [p];
      ReceiveLast(Receive(v, claims, packets[0]), claims, packets[1..], p);
    }
  }

  /** Any packets, one after the other: the table ends as ReceiveAll says, so all of the above holds of it. */
  method ReceivePackets(st: ClusterState, claims: Claims, packets: seq<Packet>, hasKeys: seq<bool>)
    requires st.Valid() && Known(View(st.nodes, st.slots), claims) && NothingImporting(st.importingSlotsFrom)
    requires (forall p :: p in packets ==> p.about != st.myself) && |hasKeys| == CLUSTER_SLOTS
    modifies st`nodes, st`slots
    ensures st.Valid()
    ensures SameView(ReceiveAll(View(old(st.nodes), old(st.slots)), claims, packets), View(st.nodes, st.slots))
  {
    hide Consistent, Receive, ReceiveAll, Known, NothingImporting;
    ghost var v := View(st.nodes, st.slots);
    var i := 0;
    NoPackets(v, claims);
    assert packets[..0] == [];
    while i < |packets|
      invariant 0 <= i <= |packets| && st.Valid() && Known(View(st.nodes, st.slots), claims)
      invariant SameView(ReceiveAll(v, claims, packets[..i]), View(st.nodes, st.slots))
    {
      ghost var before, w := ReceiveAll(v, claims, packets[..i]), View(st.nodes, st.slots);
      ReceiveLast(v, claims, packets[..i], packets[i]);
      assert packets[..i + 1] == packets[..i] + [packets[i]];
      SameReceived(before, w, claims, packets[i]);
      KnownKept(w, claims, packets[i]);
      ReceivePacket(st, claims, packets[i], hasKeys);
      SameTwice(Receive(before, claims, packets[i]), Receive(w, claims, packets[i]), View(st.nodes, st.slots), claims);
      i := i + 1;
    }
    assert packets[..i] == packets;
  }

  lemma NoPackets(v: View, claims: Claims)
    requires Known(v, claims)
    ensures ReceiveAll(v, claims, []) == v && SameView(v, v)
  {
  }

  lemma SameTwice(u: View, v: View, w: View, claims: Claims)
    requires SameView(u, v) && SameView(v, w) && Known(v, claims)
    ensures SameView(u, w) && Known(w, claims)
  {
  }
}
