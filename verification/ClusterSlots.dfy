/**
 The slot table of a cluster node (cluster.c), kept twice: an owner for every
 slot, and a bitmap and a counter in every node record.
 */
module ClusterSlots {
  import opened Basics
  import opened ClusterBitmap

  /** Node names, in the order of memcmp. */
  type NodeId = nat

  /** What a node keeps about a node it knows, itself included. */
  datatype Node = Node(slots: Bitmap, numslots: int, configEpoch: nat, isMaster: bool, slaveof: Option<NodeId>)

  type Owners = seq<Option<NodeId>>

  function OwnedBy(owners: Owners, n: NodeId): set<nat>
  {
    set j: nat | j < |owners| && owners[j] == Some(n)
  }

  /** One node record says exactly what the owner table says. */
  ghost predicate Agrees(node: Node, owners: Owners, n: NodeId)
  {
    Whole(node.slots) && Slots(node.slots) == OwnedBy(owners, n) && node.numslots == |Slots(node.slots)|
  }

  /** The two forms of the slot table are the same relation, and no slot has an unknown owner. */
  ghost predicate Consistent(nodes: map<NodeId, Node>, owners: Owners)
  {
    && |owners| == CLUSTER_SLOTS
    && (forall j :: 0 <= j < |owners| && owners[j].Some? ==> owners[j].value in nodes)
    && (forall n :: n in nodes ==> Agrees(nodes[n], owners, n))
  }

  /** Epochs and roles are as they were. */
  ghost predicate SameConfig(a: map<NodeId, Node>, b: map<NodeId, Node>)
  {
    && a.Keys == b.Keys
    && forall n :: n in a ==> b[n] == a[n].(slots := b[n].slots, numslots := b[n].numslots)
  }

  function WithBit(node: Node, slot: nat): Node
    requires Whole(node.slots) && slot < CLUSTER_SLOTS
  {
    node.(slots := SetBit(node.slots, slot),
          numslots := if TestBit(node.slots, slot) then node.numslots else node.numslots + 1)
  }

  function WithoutBit(node: Node, slot: nat): Node
    requires Whole(node.slots) && slot < CLUSTER_SLOTS
  {
    node.(slots := ClearBit(node.slots, slot),
          numslots := if TestBit(node.slots, slot) then node.numslots - 1 else node.numslots)
  }

  lemma BitIsOwner(nodes: map<NodeId, Node>, owners: Owners, n: NodeId, j: nat)
    requires Consistent(nodes, owners) && n in nodes && j < CLUSTER_SLOTS
    ensures TestBit(nodes[n].slots, j) <==> owners[j] == Some(n)
  {
    assert j in Slots(nodes[n].slots) <==> j in OwnedBy(owners, n);
  }

  lemma OthersKeep(owners: Owners, j: nat, was: Option<NodeId>, now: Option<NodeId>, m: NodeId)
    requires j < |owners| && owners[j] == was && was != Some(m) && now != Some(m)
    ensures OwnedBy(owners[j := now], m) == OwnedBy(owners, m)
  {
  }

  lemma AddAgrees(node: Node, owners: Owners, n: NodeId, slot: nat)
    requires Agrees(node, owners, n) && slot < |owners| == CLUSTER_SLOTS && owners[slot] == None
    ensures Agrees(WithBit(node, slot), owners[slot := Some(n)], n)
  {
    hide TestBit, SetBit, ClearBit;
    SlotsChange(node.slots, slot);
    assert TestBit(node.slots, slot) <==> slot in Slots(node.slots);
    assert OwnedBy(owners[slot := Some(n)], n) == OwnedBy(owners, n) + {slot};
  }

  lemma DelAgrees(node: Node, owners: Owners, n: NodeId, slot: nat)
    requires Agrees(node, owners, n) && slot < |owners| == CLUSTER_SLOTS && owners[slot] == Some(n)
    ensures Agrees(WithoutBit(node, slot), owners[slot := None], n) && TestBit(node.slots, slot)
  {
    hide TestBit, SetBit, ClearBit;
    SlotsChange(node.slots, slot);
    assert TestBit(node.slots, slot) <==> slot in Slots(node.slots);
    assert slot in OwnedBy(owners, n);
    assert OwnedBy(owners[slot := None], n) == OwnedBy(owners, n) - {slot};
  }

  lemma AddConsistent(nodes: map<NodeId, Node>, owners: Owners, n: NodeId, slot: nat)
    requires Consistent(nodes, owners) && n in nodes && slot < CLUSTER_SLOTS && owners[slot] == None
    ensures Consistent(nodes[n := WithBit(nodes[n], slot)], owners[slot := Some(n)])
  {
    hide Agrees, WithBit;
    AddAgrees(nodes[n], owners, n, slot);
    forall m | m in nodes && m != n
      ensures Agrees(nodes[m], owners[slot := Some(n)], m)
    {
      OtherAgrees(nodes[m], owners, slot, None, Some(n), m);
    }
  }

  lemma DelConsistent(nodes: map<NodeId, Node>, owners: Owners, n: NodeId, slot: nat)
    requires Consistent(nodes, owners) && n in nodes && slot < CLUSTER_SLOTS && owners[slot] == Some(n)
    ensures Consistent(nodes[n := WithoutBit(nodes[n], slot)], owners[slot := None])
  {
    hide Agrees, WithoutBit;
    DelAgrees(nodes[n], owners, n, slot);
    forall m | m in nodes && m != n
      ensures Agrees(nodes[m], owners[slot := None], m)
    {
      OtherAgrees(nodes[m], owners, slot, Some(n), None, m);
    }
  }

  lemma OtherAgrees(node: Node, owners: Owners, j: nat, was: Option<NodeId>, now: Option<NodeId>, m: NodeId)
    requires Agrees(node, owners, m)
    requires j < |owners| && owners[j] == was && was != Some(m) && now != Some(m)
    ensures Agrees(node, owners[j := now], m)
  {
    OthersKeep(owners, j, was, now, m);
  }

  // ---------------------------------------------------------------- what the handlers do to the owner table

  /** May a claim with this epoch take a slot from its owner? */
  predicate Yields(nodes: map<NodeId, Node>, owner: Option<NodeId>, epoch: nat)
  {
    owner.None? || (owner.value in nodes && nodes[owner.value].configEpoch < epoch)
  }

  /** The owner of a slot after sender claimed it, or not, with the given epoch. */
  function Rebound(nodes: map<NodeId, Node>, owner: Option<NodeId>, importing: bool, claims: bool, sender: NodeId, epoch: nat): Option<NodeId>
  {
    if claims && !importing && Yields(nodes, owner, epoch) then Some(sender) else owner
  }

  class ClusterState {
    const myself: NodeId
    var nodes: map<NodeId, Node>
    var slots: Owners
    var importingSlotsFrom: Owners
    var migratingSlotsTo: Owners

    ghost predicate Valid()
      reads this
    {
      && Consistent(nodes, slots) && myself in nodes
      && |importingSlotsFrom| == CLUSTER_SLOTS && |migratingSlotsTo| == CLUSTER_SLOTS
    }

    /** clusterInit: a node that knows only itself. */
    constructor (myself: NodeId)
      ensures Valid() && this.myself == myself && nodes.Keys == {myself}
      ensures forall j :: 0 <= j < CLUSTER_SLOTS ==> slots[j] == importingSlotsFrom[j] == migratingSlotsTo[j] == None
    {
      var blank: Owners := seq(CLUSTER_SLOTS, _ => None);
      var bits: Bitmap := seq(CLUSTER_SLOTS / 8, _ => 0);
      BlankAgrees(bits, blank, myself, true);
      this.myself := myself;
      nodes := map[myself := Node(bits, 0, 0, true, None)];
      slots, importingSlotsFrom, migratingSlotsTo := blank, blank, blank;
    }

    /** clusterAddSlot */
    method AddSlot(n: NodeId, slot: nat) returns (ok: bool)
      requires Valid() && n in nodes && slot < CLUSTER_SLOTS
      modifies this`nodes, this`slots
      ensures Valid() && SameConfig(old(nodes), nodes)
      ensures ok == old(slots)[slot].None?
      ensures slots == if ok then old(slots)[slot := Some(n)] else old(slots)
    {
      hide WithBit, Agrees;
      if slots[slot].Some? { return false; }
      AddConsistent(nodes, slots, n, slot);
      assert Agrees(nodes[n], slots, n);
      AgreesWhole(nodes[n], slots, n);
      WithBitKeeps(nodes[n], slot);
      nodes := nodes[n := WithBit(nodes[n], slot)];
      slots := slots[slot := Some(n)];
      return true;
    }

    /** clusterDelSlot; the assertion that the owner's bit was set cannot fail. */
    method DelSlot(slot: nat) returns (ok: bool)
      requires Valid() && slot < CLUSTER_SLOTS
      modifies this`nodes, this`slots
      ensures Valid() && SameConfig(old(nodes), nodes)
      ensures ok == old(slots)[slot].Some? && slots == old(slots)[slot := None]
      ensures forall m :: m in nodes && old(slots)[slot] != Some(m) ==> nodes[m] == old(nodes)[m]
    {
      hide WithoutBit, Agrees;
      if slots[slot].None? { return false; }
      var n := slots[slot].value;
      assert Agrees(nodes[n], slots, n);
      AgreesWhole(nodes[n], slots, n);
      DelAgrees(nodes[n], slots, n, slot);
      assert TestBit(nodes[n].slots, slot); // serverAssert
      DelConsistent(nodes, slots, n, slot);
      WithBitKeeps(nodes[n], slot);
      nodes := nodes[n := WithoutBit(nodes[n], slot)];
      slots := slots[slot := None];
      return true;
    }

    /** clusterDelNodeSlots */
    method DelNodeSlots(n: NodeId) returns (deleted: nat)
      requires Valid() && n in nodes
      modifies this`nodes, this`slots
      ensures Valid() && SameConfig(old(nodes), nodes)
      ensures forall j :: 0 <= j < CLUSTER_SLOTS ==> slots[j] == if old(slots)[j] == Some(n) then None else old(slots)[j]
      ensures deleted == |OwnedBy(old(slots), n)|
    {
      hide Agrees;
      deleted := 0;
      ghost var gone: set<nat> := {};
      var j := 0;
      while j < CLUSTER_SLOTS
        invariant 0 <= j <= CLUSTER_SLOTS && Valid() && SameConfig(old(nodes), nodes)
        invariant forall i :: 0 <= i < CLUSTER_SLOTS ==>
                    slots[i] == if i < j && old(slots)[i] == Some(n) then None else old(slots)[i]
        invariant forall i :: i in gone <==> 0 <= i < j && old(slots)[i] == Some(n)
        invariant deleted == |gone|
      {
        BitIsOwner(nodes, slots, n, j);
        NodeWhole(nodes, slots, n);
        if TestBit(nodes[n].slots, j) {
          var _ := DelSlot(j);
          gone := gone + {j};
          deleted := deleted + 1;
        }
        j := j + 1;
      }
      assert gone == OwnedBy(old(slots), n);
    }

    /** The body of the loop of clusterUpdateSlotsConfigWith for one slot. */
    method RebindSlot(sender: NodeId, senderConfigEpoch: nat, claims: bool, slot: nat) returns (moved: bool)
      requires Valid() && sender in nodes && slot < CLUSTER_SLOTS
      modifies this`nodes, this`slots
      ensures Valid() && SameConfig(old(nodes), nodes)
      ensures var owner := Rebound(old(nodes), old(slots)[slot], importingSlotsFrom[slot].Some?, claims, sender, senderConfigEpoch);
              slots == old(slots)[slot := owner] && (moved <==> owner != old(slots)[slot])
      ensures moved <==>
                && claims && importingSlotsFrom[slot].None? && old(slots)[slot] != Some(sender)
                && (old(slots)[slot].Some? ==>
                      old(slots)[slot].value in old(nodes) && old(nodes)[old(slots)[slot].value].configEpoch < senderConfigEpoch)
      ensures slots == if moved then old(slots)[slot := Some(sender)] else old(slots)
    {
      hide Agrees;
      moved := false;
      if claims && slots[slot] != Some(sender) && importingSlotsFrom[slot].None?
         && (slots[slot].None? || nodes[slots[slot].value].configEpoch < senderConfigEpoch)
      {
        var _ := DelSlot(slot);
        var _ := AddSlot(sender, slot);
        moved := true;
      }
    }

    /** clusterUpdateSlotsConfigWith, up to its consequences for this node: lost slots with keys, and a new master. */
    method UpdateSlotsConfigWith(sender: NodeId, senderConfigEpoch: nat, claimed: Bitmap, hasKeys: seq<bool>)
      returns (dirtySlots: seq<nat>, newMaster: bool)
      requires Valid() && sender in nodes && Whole(claimed) && |hasKeys| == CLUSTER_SLOTS
      modifies this`nodes, this`slots
      ensures Valid() && SameConfig(old(nodes), nodes)
      ensures sender == myself ==> slots == old(slots)
      ensures sender != myself ==> forall j :: 0 <= j < CLUSTER_SLOTS ==>
                slots[j] == Rebound(old(nodes), old(slots)[j], importingSlotsFrom[j].Some?, TestBit(claimed, j), sender, senderConfigEpoch)
      ensures forall j: nat :: j in dirtySlots <==> j < CLUSTER_SLOTS && old(slots)[j] == Some(myself) != slots[j] && hasKeys[j]
      ensures newMaster <==> exists j: nat :: j < CLUSTER_SLOTS && old(slots)[j] == old(MyMaster()) != slots[j]
    {
      hide Agrees, TestBit, Rebound, Consistent, SameConfig;
      var curMaster := MyMaster();
      dirtySlots, newMaster := [], false;
      var j := 0;
      NodeCount(nodes, slots);
      ConfigKept(nodes, nodes, nodes);
      if sender == myself { return; }
      while j < CLUSTER_SLOTS
        invariant 0 <= j <= CLUSTER_SLOTS == |slots| && Valid() && SameConfig(old(nodes), nodes)
        invariant forall i :: j <= i < CLUSTER_SLOTS ==> slots[i] == old(slots)[i]
        invariant forall i :: 0 <= i < j ==>
                    slots[i] == Rebound(old(nodes), old(slots)[i], importingSlotsFrom[i].Some?, TestBit(claimed, i), sender, senderConfigEpoch)
        invariant forall i: nat :: i in dirtySlots <==> i < j && old(slots)[i] == Some(myself) != slots[i] && hasKeys[i]
        invariant newMaster <==> exists i: nat :: i < j && old(slots)[i] == curMaster != slots[i]
      {
        ReboundSame(old(nodes), nodes, slots[j], importingSlotsFrom[j].Some?, TestBit(claimed, j), sender, senderConfigEpoch);
        var owner := slots[j];
        ghost var before := nodes;
        ConfigKnows(old(nodes), nodes, sender);
        var moved := RebindSlot(sender, senderConfigEpoch, TestBit(claimed, j), j);
        ConfigKept(old(nodes), before, nodes);
        if moved && owner == Some(myself) && hasKeys[j] { dirtySlots := dirtySlots + [j]; }
        if moved && owner == curMaster { newMaster := true; }
        j := j + 1;
      }
    }

    /** clusterProcessPacket, slots of a PING or PONG from a master: the update is skipped when the bitmaps compare equal. */
    method ProcessClaim(sender: NodeId, senderConfigEpoch: nat, claimed: Bitmap, hasKeys: seq<bool>)
      requires Valid() && sender in nodes && sender != myself && Whole(claimed) && |hasKeys| == CLUSTER_SLOTS
      modifies this`nodes, this`slots
      ensures Valid() && SameConfig(old(nodes), nodes)
      ensures forall j :: 0 <= j < CLUSTER_SLOTS ==>
                slots[j] == Rebound(old(nodes), old(slots)[j], importingSlotsFrom[j].Some?, TestBit(claimed, j), sender, senderConfigEpoch)
    {
      hide Agrees, TestBit, Rebound;
      if nodes[sender].slots != claimed {
        var _, _ := UpdateSlotsConfigWith(sender, senderConfigEpoch, claimed, hasKeys);
      } else {
        forall j | 0 <= j < CLUSTER_SLOTS
          ensures slots[j] == Rebound(nodes, slots[j], importingSlotsFrom[j].Some?, TestBit(claimed, j), sender, senderConfigEpoch)
        {
          BitIsOwner(nodes, slots, sender, j);
          ReboundOwn(nodes, slots[j], importingSlotsFrom[j].Some?, TestBit(claimed, j), sender, senderConfigEpoch);
        }
      }
    }

    /** clusterFailoverReplaceYourMaster: the slots of the master move to this node, which is now a master. */
    method FailoverReplaceYourMaster()
      requires Valid()
      modifies this`nodes, this`slots
      ensures Valid()
      ensures var me := old(nodes)[myself];
              if me.isMaster || me.slaveof.None? || me.slaveof.value !in old(nodes) then slots == old(slots) && nodes == old(nodes)
              else
                && SameConfig(old(nodes)[myself := me.(isMaster := true, slaveof := None)], nodes)
                && forall j :: 0 <= j < CLUSTER_SLOTS ==>
                     slots[j] == if old(slots)[j] == me.slaveof then Some(myself) else old(slots)[j]
    {
      hide Agrees;
      var me := nodes[myself];
      if me.isMaster || me.slaveof.None? || me.slaveof.value !in nodes { return; }
      var oldMaster := me.slaveof.value;
      RoleConsistent(nodes, slots, myself, me.(isMaster := true, slaveof := None));
      nodes := nodes[myself := me.(isMaster := true, slaveof := None)];
      ghost var start := nodes;
      var j := 0;
      while j < CLUSTER_SLOTS
        invariant 0 <= j <= CLUSTER_SLOTS && Valid() && SameConfig(start, nodes)
        invariant forall i :: 0 <= i < CLUSTER_SLOTS ==>
                    slots[i] == if i < j && old(slots)[i] == Some(oldMaster) then Some(myself) else old(slots)[i]
      {
        BitIsOwner(nodes, slots, oldMaster, j);
        NodeWhole(nodes, slots, oldMaster);
        if TestBit(nodes[oldMaster].slots, j) {
          var _ := DelSlot(j);
          var _ := AddSlot(myself, j);
        }
        j := j + 1;
      }
    }

    /** One turn of the loop of clusterDelNode. */
    method LetGoSlot(n: NodeId, j: nat)
      requires Valid() && n in nodes && |slots| == CLUSTER_SLOTS && j < CLUSTER_SLOTS
      modifies this`nodes, this`slots, this`importingSlotsFrom, this`migratingSlotsTo
      ensures Valid() && SameConfig(old(nodes), nodes)
      ensures slots == old(slots)[j := Without(old(slots)[j], n)]
      ensures importingSlotsFrom == old(importingSlotsFrom)[j := Without(old(importingSlotsFrom)[j], n)]
      ensures migratingSlotsTo == old(migratingSlotsTo)[j := Without(old(migratingSlotsTo)[j], n)]
      ensures forall m :: m in nodes && m != n ==> nodes[m] == old(nodes)[m]
    {
      hide Agrees, Consistent;
      if importingSlotsFrom[j] == Some(n) { importingSlotsFrom := importingSlotsFrom[j := None]; }
      if migratingSlotsTo[j] == Some(n) { migratingSlotsTo := migratingSlotsTo[j := None]; }
      if slots[j] == Some(n) { var _ := DelSlot(j); }
    }

    /** The loop of clusterDelNode: no slot, open or bound, refers to the node any more. */
    method LetGo(n: NodeId)
      requires Valid() && n in nodes
      modifies this`nodes, this`slots, this`importingSlotsFrom, this`migratingSlotsTo
      ensures Valid() && SameConfig(old(nodes), nodes)
      ensures slots == AllWithout(old(slots), n, CLUSTER_SLOTS)
      ensures importingSlotsFrom == AllWithout(old(importingSlotsFrom), n, CLUSTER_SLOTS)
      ensures migratingSlotsTo == AllWithout(old(migratingSlotsTo), n, CLUSTER_SLOTS)
      ensures forall m :: m in nodes && m != n ==> nodes[m] == old(nodes)[m]
    {
      NodeCount(nodes, slots);
      hide Agrees, Consistent, AllWithout;
      AllWithoutNext(slots, n, 0);
      AllWithoutNext(importingSlotsFrom, n, 0);
      AllWithoutNext(migratingSlotsTo, n, 0);
      var j := 0;
      while j < CLUSTER_SLOTS
        invariant 0 <= j <= CLUSTER_SLOTS && Valid() && |slots| == CLUSTER_SLOTS && SameConfig(old(nodes), nodes)
        invariant slots == AllWithout(old(slots), n, j)
        invariant importingSlotsFrom == AllWithout(old(importingSlotsFrom), n, j)
        invariant migratingSlotsTo == AllWithout(old(migratingSlotsTo), n, j)
        invariant forall m :: m in nodes && m != n ==> nodes[m] == old(nodes)[m]
      {
        AllWithoutNext(old(slots), n, j);
        AllWithoutNext(old(importingSlotsFrom), n, j);
        AllWithoutNext(old(migratingSlotsTo), n, j);
        LetGoSlot(n, j);
        j := j + 1;
      }
    }

    /** clusterDelNode: its slots become unassigned, and nothing refers to it any more. */
    method DelNode(n: NodeId)
      requires Valid() && n in nodes && n != myself
      modifies this`nodes, this`slots, this`importingSlotsFrom, this`migratingSlotsTo
      ensures Valid() && nodes.Keys == old(nodes).Keys - {n}
      ensures forall m :: m in nodes ==>
                nodes[m] == old(nodes)[m].(slaveof := if old(nodes)[m].slaveof == Some(n) then None else old(nodes)[m].slaveof)
      ensures slots == AllWithout(old(slots), n, CLUSTER_SLOTS)
      ensures importingSlotsFrom == AllWithout(old(importingSlotsFrom), n, CLUSTER_SLOTS)
      ensures migratingSlotsTo == AllWithout(old(migratingSlotsTo), n, CLUSTER_SLOTS)
    {
      hide Agrees, Consistent, AllWithout;
      NodeCount(nodes, slots);
      AllGone(slots, n);
      LetGo(n);
      FreeConsistent(nodes, slots, n);
      nodes := Forgetting(nodes, n);
    }

    /** createClusterNode and clusterAddNode: a node that was not known comes without slots; a known one is refused. */
    method AddNode(n: NodeId, isMaster: bool) returns (ok: bool)
      requires Valid()
      modifies this`nodes
      ensures Valid() && ok == (n !in old(nodes))
      ensures !ok ==> nodes == old(nodes)
      ensures ok ==> n in nodes && nodes == old(nodes)[n := nodes[n]] && Slots(nodes[n].slots) == {}
                     && nodes[n] == Node(nodes[n].slots, 0, 0, isMaster, None)
    {
      if n in nodes { return false; }
      var bits: Bitmap := seq(CLUSTER_SLOTS / 8, _ => 0);
      UnknownAgrees(bits, nodes, slots, n, isMaster);
      hide Agrees;
      nodes := nodes[n := Node(bits, 0, 0, isMaster, None)];
      return true;
    }

    /** One slot of CLUSTER ADDSLOTS or DELSLOTS: adding or freeing it cannot fail. */
    method ChangeSlot(j: nat, del: bool)
      requires Valid() && |slots| == CLUSTER_SLOTS && j < CLUSTER_SLOTS && slots[j].Some? == del
      modifies this`nodes, this`slots, this`importingSlotsFrom
      ensures Valid() && SameConfig(old(nodes), nodes)
      ensures slots == old(slots)[j := if del then None else Some(myself)]
      ensures importingSlotsFrom == old(importingSlotsFrom)[j := None]
    {
      hide Agrees, Consistent;
      if importingSlotsFrom[j].Some? { importingSlotsFrom := importingSlotsFrom[j := None]; }
      var done;
      if del { done := DelSlot(j); } else { done := AddSlot(myself, j); }
      assert done; // serverAssertWithInfo
    }

    /** CLUSTER ADDSLOTS and DELSLOTS: refused if a slot is in the wrong state; otherwise every call succeeds. */
    method AddOrDelSlots(wanted: seq<bool>, del: bool) returns (ok: bool)
      requires Valid() && |wanted| == CLUSTER_SLOTS
      modifies this`nodes, this`slots, this`importingSlotsFrom
      ensures Valid() && SameConfig(old(nodes), nodes)
      ensures ok <==> forall j :: 0 <= j < CLUSTER_SLOTS && wanted[j] ==> old(slots)[j].Some? == del
      ensures forall j :: 0 <= j < CLUSTER_SLOTS ==>
                && slots[j] == (if ok && wanted[j] then (if del then None else Some(myself)) else old(slots)[j])
                && importingSlotsFrom[j] == (if ok && wanted[j] then None else old(importingSlotsFrom)[j])
    {
      hide Agrees, Consistent;
      NodeCount(nodes, slots);
      var j := 0;
      while j < CLUSTER_SLOTS
        invariant 0 <= j <= CLUSTER_SLOTS
        invariant forall i :: 0 <= i < j && wanted[i] ==> slots[i].Some? == del
      {
        if wanted[j] && slots[j].Some? != del { return false; }
        j := j + 1;
      }
      j := 0;
      while j < CLUSTER_SLOTS
        invariant 0 <= j <= CLUSTER_SLOTS == |slots| && Valid() && SameConfig(old(nodes), nodes)
        invariant forall i :: 0 <= i < CLUSTER_SLOTS ==>
                    && slots[i] == (if i < j && wanted[i] then (if del then None else Some(myself)) else old(slots)[i])
                    && importingSlotsFrom[i] == (if i < j && wanted[i] then None else old(importingSlotsFrom)[i])
      {
        if wanted[j] {
          ChangeSlot(j, del);
        }
        j := j + 1;
      }
      return true;
    }

    /** This node if it is a master, its master otherwise. */
    function MyMaster(): Option<NodeId>
      requires myself in nodes
      reads this
    {
      if nodes[myself].isMaster then Some(myself) else nodes[myself].slaveof
    }
  }

  lemma AgreesWhole(node: Node, owners: Owners, n: NodeId)
    requires Agrees(node, owners, n)
    ensures Whole(node.slots)
  {
  }

  lemma NodeWhole(nodes: map<NodeId, Node>, owners: Owners, n: NodeId)
    requires Consistent(nodes, owners) && n in nodes
    ensures Whole(nodes[n].slots)
  {
  }

  lemma WithBitKeeps(node: Node, slot: nat)
    requires Whole(node.slots) && slot < CLUSTER_SLOTS
    ensures var r := WithBit(node, slot); r == node.(slots := r.slots, numslots := r.numslots)
    ensures var r := WithoutBit(node, slot); r == node.(slots := r.slots, numslots := r.numslots)
  {
  }

  lemma NodeCount(nodes: map<NodeId, Node>, owners: Owners)
    requires Consistent(nodes, owners)
    ensures |owners| == CLUSTER_SLOTS
  {
  }

  lemma ConfigKept(a: map<NodeId, Node>, b: map<NodeId, Node>, c: map<NodeId, Node>)
    ensures SameConfig(a, a) && (SameConfig(a, b) && SameConfig(b, c) ==> SameConfig(a, c))
  {
  }

  lemma ConfigKnows(a: map<NodeId, Node>, b: map<NodeId, Node>, n: NodeId)
    requires SameConfig(a, b) && n in a
    ensures n in b
  {
  }

  /** The outcome of a claim depends on the epochs only. */
  lemma ReboundSame(a: map<NodeId, Node>, b: map<NodeId, Node>, owner: Option<NodeId>, importing: bool, claims: bool, sender: NodeId, epoch: nat)
    requires SameConfig(a, b)
    ensures Rebound(a, owner, importing, claims, sender, epoch) == Rebound(b, owner, importing, claims, sender, epoch)
  {
  }

  function Without(o: Option<NodeId>, n: NodeId): Option<NodeId> { if o == Some(n) then None else o }

  /** The first j entries without references to n. */
  function AllWithout(o: Owners, n: NodeId, j: nat): (r: Owners)
    ensures |r| == |o| && forall i :: 0 <= i < |o| ==> r[i] == if i < j then Without(o[i], n) else o[i]
  {
    seq(|o|, i requires 0 <= i < |o| => if i < j then Without(o[i], n) else o[i])
  }

  lemma AllWithoutNext(o: Owners, n: NodeId, j: nat)
    requires j < |o|
    ensures AllWithout(o, n, 0) == o
    ensures AllWithout(o, n, j + 1) == AllWithout(o, n, j)[j := Without(AllWithout(o, n, j)[j], n)]
  {
  }

  /** A slot that the sender already owns stays where it is, and one it does not claim is left alone. */
  lemma ReboundOwn(nodes: map<NodeId, Node>, owner: Option<NodeId>, importing: bool, claims: bool, sender: NodeId, epoch: nat)
    requires claims <==> owner == Some(sender)
    ensures Rebound(nodes, owner, importing, claims, sender, epoch) == owner
  {
  }

  lemma RoleConsistent(nodes: map<NodeId, Node>, owners: Owners, n: NodeId, node: Node)
    requires Consistent(nodes, owners) && n in nodes
    requires node.slots == nodes[n].slots && node.numslots == nodes[n].numslots
    ensures Consistent(nodes[n := node], owners)
  {
  }

  /** The nodes without n, and without slaves of it. */
  function Forgetting(nodes: map<NodeId, Node>, n: NodeId): map<NodeId, Node>
  {
    map m | m in nodes && m != n :: nodes[m].(slaveof := if nodes[m].slaveof == Some(n) then None else nodes[m].slaveof)
  }

  /** A node without slots can be removed: no slot is left with a dangling owner. */
  lemma FreeConsistent(nodes: map<NodeId, Node>, owners: Owners, n: NodeId)
    requires Consistent(nodes, owners) && n in nodes
    requires forall j :: 0 <= j < |owners| ==> owners[j] != Some(n)
    ensures Consistent(Forgetting(nodes, n), owners)
  {
    hide Agrees;
    forall m | m in Forgetting(nodes, n) ensures Agrees(Forgetting(nodes, n)[m], owners, m)
    {
      RoleAgrees(nodes[m], Forgetting(nodes, n)[m], owners, m);
    }
  }

  lemma RoleAgrees(node: Node, node': Node, owners: Owners, m: NodeId)
    requires Agrees(node, owners, m) && node'.slots == node.slots && node'.numslots == node.numslots
    ensures Agrees(node', owners, m)
  {
  }

  lemma AllGone(o: Owners, n: NodeId)
    requires |o| == CLUSTER_SLOTS
    ensures forall j :: 0 <= j < |AllWithout(o, n, CLUSTER_SLOTS)| ==> AllWithout(o, n, CLUSTER_SLOTS)[j] != Some(n)
  {
  }

  lemma NoSlots(bits: Bitmap)
    requires Whole(bits) && forall i :: 0 <= i < |bits| ==> bits[i] == 0
    ensures Slots(bits) == {}
  {
    forall q: nat | q < CLUSTER_SLOTS
      ensures !TestBit(bits, q)
    {
      assert bits[q / 8] == 0;
      ZeroByte(q % 8);
    }
  }

  /** A blank record agrees with a table that does not name the node. */
  lemma BlankAgrees(bits: Bitmap, owners: Owners, n: NodeId, isMaster: bool)
    requires Whole(bits) && (forall i :: 0 <= i < |bits| ==> bits[i] == 0) && forall j :: 0 <= j < |owners| ==> owners[j] != Some(n)
    ensures Agrees(Node(bits, 0, 0, isMaster, None), owners, n) && Slots(bits) == {}
  {
    NoSlots(bits);
    hide Slots;
    assert OwnedBy(owners, n) == {};
  }

  lemma UnknownAgrees(bits: Bitmap, nodes: map<NodeId, Node>, owners: Owners, n: NodeId, isMaster: bool)
    requires Whole(bits) && (forall i :: 0 <= i < |bits| ==> bits[i] == 0) && Consistent(nodes, owners) && n !in nodes
    ensures Consistent(nodes[n := Node(bits, 0, 0, isMaster, None)], owners) && Slots(bits) == {}
  {
    hide Agrees, Slots;
    BlankAgrees(bits, owners, n, isMaster);
  }

  lemma ZeroByte(k: nat)
    requires k < 8
    ensures !ByteHas(0, k)
  {
  }
}
