/** What single cluster operations do to the fields they are about, and what the event log says of it. */
module ClusterEffects {
  import opened FixedPoint
  import opened DuoLadder
  import opened LinkMask
  import opened ClusterSpec
  import opened ClusterInvariant
  import opened ClusterEdges
  import ClusterPairs
  import DuoAccuracy

  // ----- nodes

  /** Every slot but `id` is as before. */
  predicate OthersSame(nodes: seq<Node>, nodes': seq<Node>, id: nat) {
    |nodes'| == |nodes| && forall i :: 0 <= i < |nodes| && i != id ==> nodes'[i] == nodes[i]
  }

  /** An add is accepted exactly for a free slot of the 64; the new node is present and online with half of
      full energy, full health and no links, under at most 31 characters of its name. */
  lemma AddNodeMakes(s: State, id: u32, name: string)
    requires |s.nodes| == MAX_NODES
    ensures var e := AddNode(s, id, name);
            && (e.code == OK <==> id < 64 && !s.nodes[id].present)
            && (e.code == EEXIST <==> id < 64 && s.nodes[id].present) && (e.code == EINVAL <==> id >= 64)
            && (e.code == OK ==>
                  && OthersSame(s.nodes, e.state.nodes, id) && e.state.pairs == s.pairs
                  && var n := e.state.nodes[id];
                     && n.id == id && n.present && n.online && n.energy == 500000 && n.health == 1000000 && n.links == 0
                     && n.name <= name && |n.name| == (if |name| <= 31 then |name| else 31))
  {
  }

  /** The three setters change one field of one present node, energy and health cut at 10^6. */
  lemma SettersSet(s: State, id: u32, online: bool, v: u32)
    requires |s.nodes| == MAX_NODES
    ensures var e := SetOnline(s, id, online);
            && (e.code == OK <==> Found(s.nodes, id))
            && (e.code == OK ==> OthersSame(s.nodes, e.state.nodes, id)
                                 && e.state.nodes[id] == s.nodes[id].(online := online))
    ensures var e := SetEnergy(s, id, v);
            && (e.code == OK <==> Found(s.nodes, id))
            && (e.code == OK ==> OthersSame(s.nodes, e.state.nodes, id)
                                 && e.state.nodes[id] == s.nodes[id].(energy := if v > 1000000 then 1000000 else v))
    ensures var e := SetHealth(s, id, v);
            && (e.code == OK <==> Found(s.nodes, id))
            && (e.code == OK ==> OthersSame(s.nodes, e.state.nodes, id)
                                 && e.state.nodes[id] == s.nodes[id].(health := if v > 1000000 then 1000000 else v))
  {
  }

  // ----- pairs

  /** An add of a pair is accepted exactly when there is room and it joins two different present nodes; the
      new pair starts at half energy and half pressure, unpulsed, with the tuning of its mode, and with a
      ladder close to the real one. */
  lemma AddPairMakes(s: State, a: u32, b: u32, mode: u32)
    ensures var e := AddPair(s, a, b, mode);
            && (e.code == OK <==> |s.pairs| < 128 && a != b && Found(s.nodes, a) && Found(s.nodes, b))
            && (e.code == ENOSPC <==> |s.pairs| >= 128)
            && (e.code == EINVAL <==> |s.pairs| < 128 && a == b)
            && (e.code == OK ==>
                  && |e.state.pairs| == |s.pairs| + 1 && e.state.pairs[..|s.pairs|] == s.pairs && e.state.nodes == s.nodes
                  && FreshOne(e.state.pairs[|s.pairs|], a, b, mode))
  {
    hide Ladder, DuoAccuracy.LadderNear;
    DuoAccuracy.LadderIsNear(FreshPair(0, a, b, mode).Knobs());
    SameKnobs(Succ32(s.nextPairId), a, b, mode);
  }

  lemma SameKnobs(id: u32, a: u32, b: u32, mode: u32)
    ensures FreshPair(id, a, b, mode).Knobs() == FreshPair(0, a, b, mode).Knobs()
  {
  }

  predicate FreshOne(p: Pair, a: u32, b: u32, mode: u32) {
    && p.a == a && p.b == b && p.mode == mode && p.active
    && p.energy == 500000 && p.pressure == 500000 && p.pulses == 0 && p.lastValue == 0
    && p.quotient == (if mode == 1 || mode == 2 then 1000000 else if mode == 3 then 1250000 else 0)
    && p.refraction == (if mode == 1 then 1010200 else if mode == 2 then 1020300 else if mode == 3 then 1044400 else 1000000)
    && DuoAccuracy.LadderNear(p.simplex, p.Knobs())
  }

  // ----- ticks

  /** The undirected edges that end at slot `a`. */
  ghost function EdgesAt(nodes: seq<Node>, a: nat): set<(nat, nat)>
    requires |nodes| == MAX_NODES
  {
    set e | e in Edges(nodes, MAX_NODES) && (e.0 == a || e.1 == a)
  }

  function Ordered(x: nat, a: nat): (nat, nat) {
    if x < a then (x, a) else (a, x)
  }

  ghost function Star(nodes: seq<Node>, a: nat, m: nat): set<(nat, nat)>
    requires a < |nodes|
  {
    set x: nat | x < m && Bit(nodes[a].links, x) :: Ordered(x, a)
  }

  lemma {:induction false} StarSize(nodes: seq<Node>, a: nat, m: nat)
    requires a < |nodes|
    ensures |Star(nodes, a, m)| == WeightBelow(nodes[a].links, m)
    decreases m
  {
    hide Bit;
    if m == 0 {
      assert Star(nodes, a, 0) == {};
    } else {
      StarSize(nodes, a, m - 1);
      var r := Star(nodes, a, m - 1);
      assert Ordered(m - 1, a) !in r;
      assert Star(nodes, a, m) == if Bit(nodes[a].links, m - 1) then r + {Ordered(m - 1, a)} else r;
    }
  }

  lemma StarIsEdgesAt(nodes: seq<Node>, a: nat)
    requires |nodes| == MAX_NODES && Symmetric(nodes) && a < MAX_NODES
    ensures Star(nodes, a, MAX_NODES) == EdgesAt(nodes, a)
  {
    hide Bit;
    var r, s := Star(nodes, a, MAX_NODES), EdgesAt(nodes, a);
    forall e | e in r ensures e in s {
      var x: nat :| x < MAX_NODES && Bit(nodes[a].links, x) && e == Ordered(x, a);
      assert Bit(nodes[x].links, a);
    }
    forall e | e in s ensures e in r {
      assert Bit(nodes[e.1].links, e.0) && e.0 < e.1 < MAX_NODES;
      assert Bit(nodes[e.0].links, e.1);
      var x := if e.0 == a then e.1 else e.0;
      assert e == Ordered(x, a);
    }
  }

  /** One tick of an online node: it gains 1000 and 5000 for every edge that ends at it, up to 10^6 and to at
      least 10000, and loses 250 health while that is above 250000. */
  lemma TickGain(s: State, i: nat)
    requires Inv(s) && i < MAX_NODES && s.nodes[i].present && s.nodes[i].online
    ensures |Tick(s).state.nodes| == MAX_NODES
    ensures var n, m := s.nodes[i], Tick(s).state.nodes[i];
            var gained := n.energy + 1000 + 5000 * |EdgesAt(s.nodes, i)|;
            && m.energy == (if gained > 1000000 then 1000000 else if gained < 10000 then 10000 else gained)
            && m.health == (if n.health > 250000 then n.health - 250 else n.health)
            && m == n.(energy := m.energy, health := m.health)
  {
    hide Symmetric, PairOk, Weight, Edges;
    assert NodeOk(s.nodes[i], i);
    DegreeIs(s.nodes, i);
  }

  lemma DegreeIs(nodes: seq<Node>, i: nat)
    requires |nodes| == MAX_NODES && Symmetric(nodes) && i < MAX_NODES
    ensures Weight(nodes[i].links) == |EdgesAt(nodes, i)|
  {
    hide Symmetric, WeightBelow, Star, EdgesAt;
    StarSize(nodes, i, MAX_NODES);
    StarIsEdgesAt(nodes, i);
  }

  // ----- the generation counter

  /** The operations that count: everything accepted that is not about pairs. */
  function Counted(s: State, op: Op): nat
    requires |s.nodes| == MAX_NODES
  {
    if Step(s, op).code == OK && !op.DoAddPair? && !op.DoDelPair? && !op.DoPulse? then 1 else 0
  }

  function CountedRun(s: State, ops: seq<Op>): nat
    requires |s.nodes| == MAX_NODES
    decreases ops
  {
    if ops == [] then 0 else Counted(s, ops[0]) + CountedRun(Step(s, ops[0]).state, ops[1..])
  }

  lemma StepCounts(s: State, op: Op)
    requires |s.nodes| == MAX_NODES
    ensures Step(s, op).state.generation == (s.generation + Counted(s, op)) % 0x1_0000_0000
  {
    hide TickNodes, TickEvents, Relinked, Unlinking, NewNode, Truncated, PulsedPair, FedNodes, Recomputed, FreshPair, FindPair;
  }

  /** Over every run the generation is the number of accepted operations on nodes, modulo 2^32. */
  lemma {:induction false} GenerationCounts(s: State, ops: seq<Op>)
    requires |s.nodes| == MAX_NODES
    ensures Run(s, ops).generation == (s.generation + CountedRun(s, ops)) % 0x1_0000_0000
    decreases ops
  {
    hide Step, Counted;
    if ops != [] {
      StepCounts(s, ops[0]);
      GenerationCounts(Step(s, ops[0]).state, ops[1..]);
    }
  }
}
