/** The emitted events tell the whole story: nodes, links and pair ends can be rebuilt from them. */
module ClusterLog {
  import opened FixedPoint
  import DuoLadder
  import opened LinkMask
  import opened ClusterSpec
  import opened ClusterInvariant

  /** A pair as far as the log names it. */
  datatype Joined = Joined(pair: u32, a: u32, b: u32)

  /** What a reader of the log keeps: the node slots and the pairs in table order. */
  datatype View = View(nodes: seq<Node>, pairs: seq<Joined>)

  /** The first pair with the given id, or the number of pairs. */
  function Place(pairs: seq<Joined>, id: u32): (i: nat)
    ensures i <= |pairs| && (i < |pairs| ==> pairs[i].pair == id)
    ensures forall k :: 0 <= k < i ==> pairs[k].pair != id
  {
    if pairs == [] then 0 else if pairs[0].pair == id then 0 else 1 + Place(pairs[1..], id)
  }

  function Changed(v: View, id: u32, n: Node): View {
    if id < |v.nodes| then v.(nodes := v.nodes[id := n]) else v
  }

  /** The energy a pulsed pair leaves in one of its nodes. */
  function Halved(n: Node, energy: u32): Node {
    n.(energy := (n.energy + energy) / 2 % 0x1_0000_0000)
  }

  /** One event read. */
  function Read(v: View, e: Event): View {
    match e
    case Added(id, name) => Changed(v, id, Node(id, name, true, true, 500000, 1000000, 0))
    case Deleted(id) =>
      if id < |v.nodes| && id < WIDTH then v.(nodes := Unlinking(v.nodes, id)[id := NO_NODE]) else v
    case Linked(a, b) =>
      if a < |v.nodes| && b < |v.nodes| && a < WIDTH && b < WIDTH then
        var half := v.nodes[a := v.nodes[a].(links := SetBit(v.nodes[a].links, b))];
        v.(nodes := half[b := half[b].(links := SetBit(half[b].links, a))])
      else v
    case Unlinked(a, b) =>
      if a < |v.nodes| && b < |v.nodes| && a < WIDTH && b < WIDTH then
        var half := v.nodes[a := v.nodes[a].(links := ClearBit(v.nodes[a].links, b))];
        v.(nodes := half[b := half[b].(links := ClearBit(half[b].links, a))])
      else v
    case Onlined(id, online) => if id < |v.nodes| then Changed(v, id, v.nodes[id].(online := online)) else v
    case EnergySet(id, value) => if id < |v.nodes| then Changed(v, id, v.nodes[id].(energy := value)) else v
    case HealthSet(id, value) => if id < |v.nodes| then Changed(v, id, v.nodes[id].(health := value)) else v
    case Ticked(id, energy, health, _) =>
      if id < |v.nodes| then Changed(v, id, v.nodes[id].(energy := energy, health := health)) else v
    case DuoAdded(pair, a, b, _) => v.(pairs := v.pairs + [Joined(pair, a, b)])
    case DuoDeleted(pair) =>
      var i := Place(v.pairs, pair);
      if i < |v.pairs| then v.(pairs := v.pairs[..i] + v.pairs[i + 1..]) else v
    case DuoPulsed(pair, _, energy, _) =>
      var i := Place(v.pairs, pair);
      if i < |v.pairs| && v.pairs[i].a < |v.nodes| && v.pairs[i].b < |v.nodes| then
        var half := v.nodes[v.pairs[i].a := Halved(v.nodes[v.pairs[i].a], energy)];
        v.(nodes := half[v.pairs[i].b := Halved(half[v.pairs[i].b], energy)])
      else v
  }

  function ReadAll(v: View, es: seq<Event>): View
    decreases |es|
  {
    if es == [] then v else Read(ReadAll(v, es[..|es| - 1]), es[|es| - 1])
  }

  function Ends(pairs: seq<Pair>): (r: seq<Joined>)
    ensures |r| == |pairs|
  {
    seq(|pairs|, i requires 0 <= i < |pairs| => Joined(pairs[i].id, pairs[i].a, pairs[i].b))
  }

  function ViewOf(s: State): View {
    View(s.nodes, Ends(s.pairs))
  }

  // ----- every operation logs what it does

  lemma ReadOne(v: View, e: Event)
    ensures ReadAll(v, []) == v && ReadAll(v, [e]) == Read(v, e)
  {
    hide Read;
    assert [e][..0] == [];
  }

  lemma ReadSnoc(v: View, es: seq<Event>, e: Event)
    ensures ReadAll(v, es + [e]) == Read(ReadAll(v, es), e)
  {
    hide Read;
    assert (es + [e])[..|es|] == es;
  }

  lemma {:induction false} ReadJoins(v: View, a: seq<Event>, b: seq<Event>)
    ensures ReadAll(v, a + b) == ReadAll(ReadAll(v, a), b)
    decreases |b|
  {
    hide Read;
    if b == [] {
      assert a + b == a;
    } else {
      var c := b[..|b| - 1];
      assert (a + b)[..|a + b| - 1] == a + c;
      ReadJoins(v, a, c);
    }
  }

  lemma AddLogged(s: State, id: u32, name: string)
    requires |s.nodes| == MAX_NODES
    ensures ReadAll(ViewOf(s), AddNode(s, id, name).events) == ViewOf(AddNode(s, id, name).state)
  {
    hide ReadAll, Truncated, Ends;
    ReadOne(ViewOf(s), Added(id, Truncated(name)));
  }

  lemma SettersLogged(s: State, id: u32, online: bool, value: u32)
    requires |s.nodes| == MAX_NODES
    ensures ReadAll(ViewOf(s), SetOnline(s, id, online).events) == ViewOf(SetOnline(s, id, online).state)
    ensures ReadAll(ViewOf(s), SetEnergy(s, id, value).events) == ViewOf(SetEnergy(s, id, value).state)
    ensures ReadAll(ViewOf(s), SetHealth(s, id, value).events) == ViewOf(SetHealth(s, id, value).state)
  {
    hide ReadAll, Ends;
    ReadOne(ViewOf(s), Onlined(id, online));
    ReadOne(ViewOf(s), EnergySet(id, Clamp(value, 0, 1000000)));
    ReadOne(ViewOf(s), HealthSet(id, Clamp(value, 0, 1000000)));
  }

  lemma LinksLogged(s: State, a: u32, b: u32, enable: bool)
    requires Inv(s)
    ensures ReadAll(ViewOf(s), Link(s, a, b, enable).events) == ViewOf(Link(s, a, b, enable).state)
    ensures ReadAll(ViewOf(s), DelNode(s, a).events) == ViewOf(DelNode(s, a).state)
  {
    InvSize(s);
    hide ReadAll, Inv, SetBit, ClearBit, Ends, Unlinking;
    ReadOne(ViewOf(s), if enable then Linked(a, b) else Unlinked(a, b));
    ReadOne(ViewOf(s), Deleted(a));
  }

  lemma {:induction false} TicksLogged(s: State, n: nat)
    requires NodesOk(s.nodes) && n <= MAX_NODES
    ensures ReadAll(ViewOf(s), TickEvents(s.nodes, n)) == View(TickNodes(s.nodes)[..n] + s.nodes[n..], Ends(s.pairs))
    decreases n
  {
    hide TickNode, ReadAll, Ends;
    var ticked := TickNodes(s.nodes);
    if n == 0 {
      ReadOne(ViewOf(s), Deleted(0));
      assert ticked[..0] + s.nodes[0..] == s.nodes;
    } else {
      TicksLogged(s, n - 1);
      var t := TickNode(s.nodes[n - 1]);
      var before, after := ticked[..n - 1] + s.nodes[n - 1..], ticked[..n] + s.nodes[n..];
      assert before[n - 1 := t] == after;
      TickKeeps(s.nodes[n - 1], n - 1);
      if t.present && t.online {
        ReadSnoc(ViewOf(s), TickEvents(s.nodes, n - 1), Ticked(t.id, t.energy, t.health, Weight(t.links)));
      } else {
        assert TickEvents(s.nodes, n - 1) + [] == TickEvents(s.nodes, n - 1);
      }
    }
  }

  lemma TickKeeps(n: Node, i: nat)
    requires NodeOk(n, i)
    ensures var t := TickNode(n);
            && t == n.(energy := t.energy, health := t.health) && (!(t.present && t.online) ==> t == n)
            && (t.present ==> t.id == i)
  {
    hide Weight;
  }

  lemma PlaceIsFind(pairs: seq<Pair>, id: u32)
    ensures Place(Ends(pairs), id) == FindPair(pairs, id)
  {
    var i, j := Place(Ends(pairs), id), FindPair(pairs, id);
    if i < |pairs| {
      assert pairs[i].id == id;
    }
    if j < |pairs| {
      assert Ends(pairs)[j].pair == id;
    }
  }

  lemma PairsLogged(s: State, a: u32, b: u32, mode: u32, id: u32)
    requires Inv(s)
    ensures ReadAll(ViewOf(s), AddPair(s, a, b, mode).events) == ViewOf(AddPair(s, a, b, mode).state)
    ensures ReadAll(ViewOf(s), DelPair(s, id).events) == ViewOf(DelPair(s, id).state)
  {
    hide ReadAll, Inv, Place, FindPair;
    PlaceIsFind(s.pairs, id);
    ReadOne(ViewOf(s), DuoAdded(Succ32(s.nextPairId), a, b, mode));
    ReadOne(ViewOf(s), DuoDeleted(id));
    var p := Recomputed(FreshPair(Succ32(s.nextPairId), a, b, mode));
    EndsOfFresh(Succ32(s.nextPairId), a, b, mode);
    hide Recomputed, FreshPair;
    assert Ends(s.pairs + [p]) == Ends(s.pairs) + [Joined(p.id, p.a, p.b)];
    var i := FindPair(s.pairs, id);
    if i < |s.pairs| {
      assert Ends(s.pairs[..i] + s.pairs[i + 1..]) == Ends(s.pairs)[..i] + Ends(s.pairs)[i + 1..];
    }
  }

  lemma EndsOfFresh(id: u32, a: u32, b: u32, mode: u32)
    ensures var p := Recomputed(FreshPair(id, a, b, mode));
            p.id == id && p.a == a && p.b == b
  {
    hide DuoLadder.Ladder;
  }

  lemma FedIsHalved(n: Node, i: nat, energy: u32)
    requires NodeOk(n, i) && energy <= PPM
    ensures Fed(n, energy) == Halved(n, energy)
  {
  }

  /** What a pulse keeps of its pair. */
  lemma PulsedEnds(p: Pair, na: Node, nb: Node, v: u32)
    requires v <= PPM
    ensures var q := PulsedPair(p, na, nb, v);
            && q.energy <= PPM && q.id == p.id
            && Recomputed(q).id == p.id && Recomputed(q).a == p.a && Recomputed(q).b == p.b
  {
    hide DuoLadder.Ladder, Fit;
  }

  lemma PulseLogged(s: State, id: u32, value: u32)
    requires Inv(s)
    ensures ReadAll(ViewOf(s), Pulse(s, id, value).events) == ViewOf(Pulse(s, id, value).state)
  {
    hide ReadAll, Pulse, Inv, ViewOf;
    PulseRefusal(s, id, value);
    if Pulse(s, id, value).code == OK {
      PulseRead(s, id, value);
    } else {
      ReadOne(ViewOf(s), Deleted(0));
    }
  }

  lemma PulseRefusal(s: State, id: u32, value: u32)
    ensures var e := Pulse(s, id, value);
            e.code != OK ==> e.state == s && e.events == []
  {
    hide FindPair, PulsedPair, FedNodes, Recomputed;
  }

  /** The pair an accepted pulse is for. */
  lemma PulsePair(s: State, id: u32, value: u32)
    requires Inv(s) && Pulse(s, id, value).code == OK
    ensures var i := FindPair(s.pairs, id);
            && i < |s.pairs| && var p := s.pairs[i];
            && p.a != p.b && p.a < |s.nodes| && p.b < |s.nodes|
            && NodeOk(s.nodes[p.a], p.a) && NodeOk(s.nodes[p.b], p.b)
  {
    hide Symmetric, FindPair, PulsedPair, FedNodes, Recomputed, DuoLadder.InRange;
    assert PairOk(s.pairs[FindPair(s.pairs, id)]);
  }

  /** What an accepted pulse of value `v` on slot `i` leaves and logs. */
  predicate PulseLeaves(s: State, i: nat, v: u32, e: Effect) {
    && v <= PPM && i < |s.pairs| && s.pairs[i].a < |s.nodes| && s.pairs[i].b < |s.nodes|
    && var p := s.pairs[i];
       var q := PulsedPair(p, s.nodes[p.a], s.nodes[p.b], v);
       && e.state.nodes == FedNodes(s.nodes, p.a, p.b, q.energy)
       && e.state.pairs == s.pairs[i := Recomputed(q)]
       && e.events == [DuoPulsed(q.id, v, q.energy, q.pressure)]
  }

  lemma PulseIs(s: State, id: u32, value: u32)
    requires Pulse(s, id, value).code == OK
    ensures PulseLeaves(s, FindPair(s.pairs, id), Clamp(value, 0, 1000000), Pulse(s, id, value))
  {
    hide FindPair, PulsedPair, FedNodes, Recomputed;
  }

  lemma PulseRead(s: State, id: u32, value: u32)
    requires Inv(s) && Pulse(s, id, value).code == OK
    ensures ReadAll(ViewOf(s), Pulse(s, id, value).events) == ViewOf(Pulse(s, id, value).state)
  {
    hide ReadAll, Place, FindPair, Inv, PulsedPair, Recomputed, Fed, FedNodes, Halved, Read, Pulse, NodeOk;
    PulsePair(s, id, value);
    PulseIs(s, id, value);
    var i, v := FindPair(s.pairs, id), Clamp(value, 0, 1000000);
    var p := s.pairs[i];
    var q := PulsedPair(p, s.nodes[p.a], s.nodes[p.b], v);
    PulsedEnds(p, s.nodes[p.a], s.nodes[p.b], v);
    FedIsHalved(s.nodes[p.a], p.a, q.energy);
    FedIsHalved(s.nodes[p.b], p.b, q.energy);
    ReadOne(ViewOf(s), DuoPulsed(q.id, v, q.energy, q.pressure));
    FoundId(s.pairs, id);
    ReadPulse(s, i, q.id, v, q.energy, q.pressure);
    assert Ends(s.pairs[i := Recomputed(q)]) == Ends(s.pairs);
  }

  lemma FoundId(pairs: seq<Pair>, id: u32)
    ensures FindPair(pairs, id) < |pairs| ==> pairs[FindPair(pairs, id)].id == id
  {
  }

  lemma ReadPulse(s: State, i: nat, id: u32, v: u32, energy: u32, pressure: u32)
    requires i < |s.pairs| && i == FindPair(s.pairs, id) && energy <= PPM
    requires var p := s.pairs[i];
             && p.a != p.b && p.a < |s.nodes| && p.b < |s.nodes|
             && Fed(s.nodes[p.a], energy) == Halved(s.nodes[p.a], energy)
             && Fed(s.nodes[p.b], energy) == Halved(s.nodes[p.b], energy)
    ensures var p := s.pairs[i];
            Read(ViewOf(s), DuoPulsed(id, v, energy, pressure))
            == View(FedNodes(s.nodes, p.a, p.b, energy), Ends(s.pairs))
  {
    hide Fed, Halved, FindPair, Place;
    PlaceIsFind(s.pairs, id);
  }

  lemma StepLogged(s: State, op: Op)
    requires Inv(s) && |s.nodes| == MAX_NODES
    ensures ReadAll(ViewOf(s), Step(s, op).events) == ViewOf(Step(s, op).state)
  {
    hide Inv, Step, ReadAll, AddNode, DelNode, Link, SetOnline, SetEnergy, SetHealth, Tick, AddPair, DelPair, Pulse, Ends;
    StepOnNodes(s, op);
    StepOnPairs(s, op);
    match op {
      case DoAddNode(id, name) => AddLogged(s, id, name);
      case DoDelNode(id) => LinksLogged(s, id, 0, true);
      case DoLink(a, b, enable) => LinksLogged(s, a, b, enable);
      case DoOnline(id, online) => SettersLogged(s, id, online, 0);
      case DoEnergy(id, value) => SettersLogged(s, id, true, value);
      case DoHealth(id, value) => SettersLogged(s, id, true, value);
      case DoTick => TickLogged(s);
      case DoAddPair(a, b, mode) => PairsLogged(s, a, b, mode, 0);
      case DoDelPair(pair) => PairsLogged(s, 0, 0, 0, pair);
      case DoPulse(pair, value) => PulseLogged(s, pair, value);
    }
  }

  lemma TickLogged(s: State)
    requires Inv(s)
    ensures ReadAll(ViewOf(s), Tick(s).events) == ViewOf(Tick(s).state)
  {
    hide Symmetric, PairOk, ReadAll, TickEvents, Ends;
    TicksLogged(s, MAX_NODES);
    var ticked := TickNodes(s.nodes);
    assert ticked[..MAX_NODES] + s.nodes[MAX_NODES..] == ticked;
  }

  /** Everything a run emits. */
  function RunEvents(s: State, ops: seq<Op>): seq<Event>
    requires |s.nodes| == MAX_NODES
    decreases ops
  {
    if ops == [] then [] else Step(s, ops[0]).events + RunEvents(Step(s, ops[0]).state, ops[1..])
  }

  /** From any sound state and over any run, reading the emitted events rebuilds every node slot, link mask
      and pair end, including the energies that pulses and ticks moved. */
  lemma {:induction false} LogTellsAll(s: State, ops: seq<Op>)
    requires Inv(s) && |s.nodes| == MAX_NODES
    ensures ReadAll(ViewOf(s), RunEvents(s, ops)) == ViewOf(Run(s, ops))
    decreases ops
  {
    hide Inv, Step, ReadAll, ViewOf;
    if ops == [] {
      ReadOne(ViewOf(s), Deleted(0));
    } else {
      var e := Step(s, ops[0]);
      StepKeepsInv(s, ops[0]);
      StepLogged(s, ops[0]);
      LogTellsAll(e.state, ops[1..]);
      ReadJoins(ViewOf(s), e.events, RunEvents(e.state, ops[1..]));
    }
  }
}
