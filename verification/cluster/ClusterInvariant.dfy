/** What every run of cluster operations keeps. */
module ClusterInvariant {
  import opened FixedPoint
  import opened DuoLadder
  import opened LinkMask
  import opened ClusterSpec

  predicate NodeOk(n: Node, i: nat) {
    if n.present then n.id == i && n.energy <= PPM && n.health <= PPM else n == NO_NODE
  }

  predicate NodesOk(nodes: seq<Node>) {
    |nodes| == MAX_NODES && forall i :: 0 <= i < MAX_NODES ==> NodeOk(nodes[i], i)
  }

  /** Masks are symmetric, without self bits, and name present nodes only. */
  ghost predicate Symmetric(nodes: seq<Node>)
    requires |nodes| == MAX_NODES
  {
    forall a: nat, b: nat {:trigger Bit(nodes[a].links, b)} ::
      a < MAX_NODES && Bit(nodes[a].links, b) ==>
        b < MAX_NODES && a != b && nodes[a].present && nodes[b].present && Bit(nodes[b].links, a)
  }

  /** A pair names two different slots, its fields are in range, and its cached ladder is current. */
  predicate PairOk(p: Pair) {
    && p.active && p.a != p.b && p.a < MAX_NODES && p.b < MAX_NODES
    && InRange(p.Knobs()) && p.simplex == Ladder(Word32, p.Knobs())
    && p.lastValue <= PPM
  }

  ghost predicate Inv(s: State) {
    && NodesOk(s.nodes) && Symmetric(s.nodes)
    && |s.pairs| <= MAX_PAIRS && forall i :: 0 <= i < |s.pairs| ==> PairOk(s.pairs[i])
  }

  lemma InvSize(s: State)
    requires Inv(s)
    ensures |s.nodes| == MAX_NODES
  {
  }

  // ----- the link graph

  predicate SameLinks(n: Node, m: Node) {
    n.links == m.links && n.present == m.present
  }

  lemma SymmetricFrame(nodes: seq<Node>, nodes': seq<Node>)
    requires |nodes| == |nodes'| == MAX_NODES && Symmetric(nodes)
    requires forall i :: 0 <= i < MAX_NODES ==> SameLinks(nodes[i], nodes'[i])
    ensures Symmetric(nodes')
  {
    hide Bit;
    forall a: nat, b: nat | a < MAX_NODES && Bit(nodes'[a].links, b)
      ensures b < MAX_NODES && a != b && nodes'[a].present && nodes'[b].present && Bit(nodes'[b].links, a)
    {
      assert SameLinks(nodes[a], nodes'[a]);
      assert Bit(nodes[a].links, b);
      assert SameLinks(nodes[b], nodes'[b]);
    }
  }

  lemma AddKeepsSymmetric(nodes: seq<Node>, id: nat, n: Node)
    requires |nodes| == MAX_NODES && id < MAX_NODES && Symmetric(nodes) && !nodes[id].present
    requires n.links == 0 && n.present
    ensures Symmetric(nodes[id := n])
  {
    hide Bit;
    var r := nodes[id := n];
    forall a: nat, b: nat {:trigger Bit(r[a].links, b)} | a < MAX_NODES && Bit(r[a].links, b)
      ensures b < MAX_NODES && a != b && r[a].present && r[b].present && Bit(r[b].links, a)
    {
      ZeroBit(b);
      assert a != id;
      assert Bit(nodes[a].links, b);
    }
  }

  lemma UnlinkingBit(nodes: seq<Node>, id: nat, a: nat, b: nat)
    requires id < MAX_NODES && a < |nodes|
    ensures Bit(Unlinking(nodes, id)[a].links, b) == (b != id && Bit(nodes[a].links, b))
  {
    hide Bit, ClearBit;
    ClearBitIs(nodes[a].links, id, b);
  }

  lemma DelKeepsSymmetric(nodes: seq<Node>, id: nat)
    requires |nodes| == MAX_NODES && id < MAX_NODES && Symmetric(nodes)
    ensures Symmetric(Unlinking(nodes, id)[id := NO_NODE])
  {
    hide Bit, ClearBit;
    var r := Unlinking(nodes, id)[id := NO_NODE];
    forall a: nat, b: nat {:trigger Bit(r[a].links, b)} | a < MAX_NODES && Bit(r[a].links, b)
      ensures b < MAX_NODES && a != b && r[a].present && r[b].present && Bit(r[b].links, a)
    {
      ZeroBit(b);
      assert a != id;
      UnlinkingBit(nodes, id, a, b);
      assert Bit(nodes[a].links, b);
      UnlinkingBit(nodes, id, b, a);
    }
  }

  /** Linking toggles exactly the two bits of the pair of nodes. */
  lemma RelinkedBit(nodes: seq<Node>, a: u32, b: u32, enable: bool, x: nat, y: nat)
    requires a < MAX_NODES && b < MAX_NODES && a != b && |nodes| == MAX_NODES && x < MAX_NODES
    ensures Bit(Relinked(nodes, a, b, enable)[x].links, y)
            == if (x == a && y == b) || (x == b && y == a) then enable else Bit(nodes[x].links, y)
    ensures Relinked(nodes, a, b, enable)[x] == nodes[x].(links := Relinked(nodes, a, b, enable)[x].links)
  {
    hide Bit, SetBit, ClearBit;
    SetBitIs(nodes[a].links, b, y);
    ClearBitIs(nodes[a].links, b, y);
    SetBitIs(nodes[b].links, a, y);
    ClearBitIs(nodes[b].links, a, y);
  }

  lemma LinkKeepsSymmetric(nodes: seq<Node>, a: u32, b: u32, enable: bool)
    requires |nodes| == MAX_NODES && Symmetric(nodes) && a != b && Found(nodes, a) && Found(nodes, b)
    ensures Symmetric(Relinked(nodes, a, b, enable))
  {
    hide Bit, Relinked;
    var r := Relinked(nodes, a, b, enable);
    forall x: nat, y: nat {:trigger Bit(r[x].links, y)} | x < MAX_NODES && Bit(r[x].links, y)
      ensures y < MAX_NODES && x != y && r[x].present && r[y].present && Bit(r[y].links, x)
    {
      RelinkedBit(nodes, a, b, enable, x, y);
      assert (x == a && y == b) || (x == b && y == a) || Bit(nodes[x].links, y);
      RelinkedBit(nodes, a, b, enable, y, x);
    }
  }

  // ----- single nodes

  lemma TickKeepsNode(n: Node, i: nat)
    requires NodeOk(n, i)
    ensures NodeOk(TickNode(n), i) && SameLinks(n, TickNode(n))
  {
    hide Weight;
  }

  lemma FedKeepsNode(n: Node, energy: u32, i: nat)
    requires NodeOk(n, i) && n.present
    ensures NodeOk(Fed(n, energy), i) && SameLinks(n, Fed(n, energy))
  {
  }

  lemma FedNodesOk(nodes: seq<Node>, a: u32, b: u32, energy: u32)
    requires NodesOk(nodes) && Symmetric(nodes) && a != b && Found(nodes, a) && Found(nodes, b)
    ensures NodesOk(FedNodes(nodes, a, b, energy)) && Symmetric(FedNodes(nodes, a, b, energy))
  {
    hide Fed, Symmetric;
    FedKeepsNode(nodes[a], energy, a);
    FedKeepsNode(nodes[b], energy, b);
    SymmetricFrame(nodes, FedNodes(nodes, a, b, energy));
  }

  // ----- single pairs

  lemma FreshPairOk(id: u32, a: u32, b: u32, mode: u32)
    requires a != b && a < MAX_NODES && b < MAX_NODES
    ensures PairOk(Recomputed(FreshPair(id, a, b, mode)))
  {
    hide Ladder;
  }

  lemma PulsedPairOk(p: Pair, na: Node, nb: Node, v: u32)
    requires PairOk(p) && v <= PPM
    ensures PairOk(Recomputed(PulsedPair(p, na, nb, v)))
    ensures PulsedPair(p, na, nb, v).id == p.id
  {
    hide Ladder, Fit;
  }

  // ----- every operation keeps the invariant

  lemma NodeUpdateKeepsInv(s: State, id: u32, n: Node, g: u32)
    requires Inv(s) && Found(s.nodes, id) && NodeOk(n, id) && SameLinks(s.nodes[id], n)
    ensures Inv(s.(nodes := s.nodes[id := n], generation := g))
  {
    hide Symmetric, PairOk;
    SymmetricFrame(s.nodes, s.nodes[id := n]);
  }

  lemma AddNodeKeepsInv(s: State, id: u32, name: string)
    requires Inv(s)
    ensures Inv(AddNode(s, id, name).state)
  {
    hide Symmetric, PairOk, Truncated;
    if id < MAX_NODES && !s.nodes[id].present {
      AddKeepsSymmetric(s.nodes, id, NewNode(id, name));
    }
  }

  lemma DelNodeKeepsInv(s: State, id: u32)
    requires Inv(s)
    ensures Inv(DelNode(s, id).state)
  {
    hide Symmetric, PairOk, ClearBit;
    if id < MAX_NODES && s.nodes[id].present {
      DelKeepsSymmetric(s.nodes, id);
      var r := Unlinking(s.nodes, id)[id := NO_NODE];
      forall i | 0 <= i < MAX_NODES ensures NodeOk(r[i], i) {
        assert NodeOk(s.nodes[i], i);
        AbsentStaysZero(s.nodes[i], id);
      }
    }
  }

  /** Clearing a bit of an empty slot leaves it empty. */
  lemma AbsentStaysZero(n: Node, id: nat)
    requires n == NO_NODE || n.present
    ensures id < MAX_NODES && !n.present ==> n.(links := ClearBit(n.links, id)) == n
  {
    if id < MAX_NODES && !n.present {
      ZeroAndNot(Mask(id));
    }
  }

  lemma ZeroAndNot(x: bv64)
    ensures AndNot(0, x) == 0
  {
  }

  lemma LinkKeepsInv(s: State, a: u32, b: u32, enable: bool)
    requires Inv(s)
    ensures Inv(Link(s, a, b, enable).state)
  {
    hide Symmetric, PairOk, Relinked;
    if a != b && Found(s.nodes, a) && Found(s.nodes, b) {
      LinkKeepsSymmetric(s.nodes, a, b, enable);
      var r := Relinked(s.nodes, a, b, enable);
      forall i | 0 <= i < MAX_NODES ensures NodeOk(r[i], i) {
        RelinkedBit(s.nodes, a, b, enable, i, 0);
        RelinkedElsewhere(s.nodes, a, b, enable, i);
        assert NodeOk(s.nodes[i], i);
      }
    }
  }

  lemma RelinkedElsewhere(nodes: seq<Node>, a: u32, b: u32, enable: bool, i: nat)
    requires a < MAX_NODES && b < MAX_NODES && |nodes| == MAX_NODES && i < MAX_NODES
    ensures i != a && i != b ==> Relinked(nodes, a, b, enable)[i] == nodes[i]
  {
    hide SetBit, ClearBit;
  }

  lemma TickKeepsInv(s: State)
    requires Inv(s)
    ensures Inv(Tick(s).state)
  {
    hide Symmetric, PairOk, TickNode;
    forall i | 0 <= i < MAX_NODES
      ensures NodeOk(TickNode(s.nodes[i]), i) && SameLinks(s.nodes[i], TickNode(s.nodes[i]))
    {
      assert NodeOk(s.nodes[i], i);
      TickKeepsNode(s.nodes[i], i);
    }
    SymmetricFrame(s.nodes, TickNodes(s.nodes));
  }

  lemma AddPairKeepsInv(s: State, a: u32, b: u32, mode: u32)
    requires Inv(s)
    ensures Inv(AddPair(s, a, b, mode).state)
  {
    hide Symmetric, PairOk, NodesOk, FreshPair, Recomputed;
    if a != b && Found(s.nodes, a) && Found(s.nodes, b) {
      FreshPairOk(Succ32(s.nextPairId), a, b, mode);
    }
  }

  lemma DelPairKeepsInv(s: State, pair: u32)
    requires Inv(s)
    ensures Inv(DelPair(s, pair).state)
  {
    hide Symmetric, PairOk, NodesOk;
  }

  lemma PulseKeepsInv(s: State, pair: u32, value: u32)
    requires Inv(s)
    ensures Inv(Pulse(s, pair, value).state)
  {
    hide Symmetric, NodesOk, FedNodes, PulsedPair, Recomputed, InRange, Ladder;
    var i := FindPair(s.pairs, pair);
    if i < |s.pairs| {
      var p := s.pairs[i];
      assert PairOk(p);
      if Found(s.nodes, p.a) && Found(s.nodes, p.b) {
        var v := Clamp(value, 0, 1000000);
        var q := PulsedPair(p, s.nodes[p.a], s.nodes[p.b], v);
        PulsedPairOk(p, s.nodes[p.a], s.nodes[p.b], v);
        FedNodesOk(s.nodes, p.a, p.b, q.energy);
      }
    }
  }

  lemma SetKeepsInv(s: State, id: u32, online: bool, value: u32)
    requires Inv(s)
    ensures Inv(SetOnline(s, id, online).state)
    ensures Inv(SetEnergy(s, id, value).state) && Inv(SetHealth(s, id, value).state)
  {
    hide Inv, Symmetric, PairOk;
    if Found(s.nodes, id) {
      FoundOk(s, id);
      var n, v := s.nodes[id], Clamp(value, 0, 1000000);
      NodeUpdateKeepsInv(s, id, n.(online := online), Succ32(s.generation));
      NodeUpdateKeepsInv(s, id, n.(energy := v), Succ32(s.generation));
      NodeUpdateKeepsInv(s, id, n.(health := v), Succ32(s.generation));
    }
  }

  lemma FoundOk(s: State, id: u32)
    requires Inv(s) && Found(s.nodes, id)
    ensures NodeOk(s.nodes[id], id)
  {
  }

  lemma StepOnNodes(s: State, op: Op)
    requires |s.nodes| == MAX_NODES
    ensures op.DoAddNode? ==> Step(s, op) == AddNode(s, op.id, op.name)
    ensures op.DoDelNode? ==> Step(s, op) == DelNode(s, op.id)
    ensures op.DoLink? ==> Step(s, op) == Link(s, op.a, op.b, op.enable)
    ensures op.DoOnline? ==> Step(s, op) == SetOnline(s, op.id, op.online)
    ensures op.DoEnergy? ==> Step(s, op) == SetEnergy(s, op.id, op.value)
    ensures op.DoHealth? ==> Step(s, op) == SetHealth(s, op.id, op.value)
    ensures op.DoTick? ==> Step(s, op) == Tick(s)
  {
    hide AddNode, DelNode, Link, SetOnline, SetEnergy, SetHealth, Tick, AddPair, DelPair, Pulse;
  }

  lemma StepOnPairs(s: State, op: Op)
    requires |s.nodes| == MAX_NODES
    ensures op.DoAddPair? ==> Step(s, op) == AddPair(s, op.a, op.b, op.mode)
    ensures op.DoDelPair? ==> Step(s, op) == DelPair(s, op.pair)
    ensures op.DoPulse? ==> Step(s, op) == Pulse(s, op.pair, op.value)
  {
    hide AddNode, DelNode, Link, SetOnline, SetEnergy, SetHealth, Tick, AddPair, DelPair, Pulse;
  }

  /** Any operation, accepted or refused, keeps the invariant. */
  lemma StepKeepsInv(s: State, op: Op)
    requires Inv(s)
    ensures Inv(Step(s, op).state)
  {
    hide Inv, Step, AddNode, DelNode, Link, SetOnline, SetEnergy, SetHealth, Tick, AddPair, DelPair, Pulse;
    InvSize(s);
    StepOnNodes(s, op);
    StepOnPairs(s, op);
    match op {
      case DoAddNode(id, name) => AddNodeKeepsInv(s, id, name);
      case DoDelNode(id) => DelNodeKeepsInv(s, id);
      case DoLink(a, b, enable) => LinkKeepsInv(s, a, b, enable);
      case DoOnline(id, online) => SetKeepsInv(s, id, online, 0);
      case DoEnergy(id, value) => SetKeepsInv(s, id, true, value);
      case DoHealth(id, value) => SetKeepsInv(s, id, true, value);
      case DoTick => TickKeepsInv(s);
      case DoAddPair(a, b, mode) => AddPairKeepsInv(s, a, b, mode);
      case DoDelPair(pair) => DelPairKeepsInv(s, pair);
      case DoPulse(pair, value) => PulseKeepsInv(s, pair, value);
    }
  }

  /** The invariant holds along every run. */
  lemma {:induction false} RunKeepsInv(s: State, ops: seq<Op>)
    requires Inv(s)
    ensures Inv(Run(s, ops))
    decreases ops
  {
    hide Inv, Step;
    InvSize(s);
    if ops != [] {
      StepKeepsInv(s, ops[0]);
      RunKeepsInv(Step(s, ops[0]).state, ops[1..]);
    }
  }

  lemma BlankInv()
    ensures Inv(BLANK)
  {
    hide Bit;
    forall b: nat ensures !Bit(0, b) {
      ZeroBit(b);
    }
  }

  /** Every state the module can reach after init is sound: symmetric masks, zeroed absent nodes,
      pairs in range with current ladders. */
  lemma ReachableInv(ops: seq<Op>)
    ensures Inv(Run(Run(BLANK, BOOT), ops))
  {
    hide Inv, Run;
    BlankInv();
    RunKeepsInv(BLANK, BOOT);
    RunKeepsInv(Run(BLANK, BOOT), ops);
  }
}
