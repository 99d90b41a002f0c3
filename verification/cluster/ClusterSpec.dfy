/** The state of the DawnHex cluster and what each operation does to it (dawnhex_kmod.c). */
module ClusterSpec {
  import opened FixedPoint
  import opened DuoLadder
  import opened LinkMask

  const MAX_NODES: nat := 64
  const MAX_PAIRS: nat := 128
  const NAME_LEN: nat := 32

  datatype Node = Node(
    id: u32, name: string, present: bool, online: bool, energy: u32, health: u32, links: bv64)

  /** A node slot after memset. */
  const NO_NODE := Node(0, "", false, false, 0, 0, 0)

  datatype Pair = Pair(
    id: u32, a: u32, b: u32, mode: u32, active: bool,
    quotient: u32, refraction: u32, energy: u32, pressure: u32,
    pulses: u32, lastValue: u32, simplex: Simplex)
  {
    function Knobs(): Knobs {
      DuoLadder.Knobs(mode, quotient, refraction, energy, pressure)
    }
  }

  datatype State = State(nodes: seq<Node>, pairs: seq<Pair>, nextPairId: u32, generation: u32)

  /** The event lines, typed. */
  datatype Event =
    | Added(id: u32, name: string)
    | Deleted(id: u32)
    | Linked(a: u32, b: u32)
    | Unlinked(a: u32, b: u32)
    | Onlined(id: u32, online: bool)
    | EnergySet(id: u32, value: u32)
    | HealthSet(id: u32, value: u32)
    | Ticked(id: u32, energy: u32, health: u32, links: nat)
    | DuoAdded(pair: u32, a: u32, b: u32, mode: u32)
    | DuoDeleted(pair: u32)
    | DuoPulsed(pair: u32, value: u32, energy: u32, pressure: u32)

  datatype Code = OK | EINVAL | ENOENT | EEXIST | ENOSPC

  /** What one operation leaves behind. */
  datatype Effect = Effect(state: State, code: Code, events: seq<Event>)

  function Refused(s: State, code: Code): Effect {
    Effect(s, code, [])
  }

  function Succ32(x: u32): u32 {
    Fit(Word32, x + 1)
  }

  predicate Found(nodes: seq<Node>, id: u32) {
    id < MAX_NODES && id < |nodes| && nodes[id].present
  }

  // ----- nodes and links

  /** strscpy into a buffer of 32 bytes. */
  function Truncated(name: string): string {
    if |name| < NAME_LEN then name else name[..NAME_LEN - 1]
  }

  function NewNode(id: u32, name: string): Node {
    Node(id, Truncated(name), true, true, 500000, 1000000, 0)
  }

  function AddNode(s: State, id: u32, name: string): Effect
    requires |s.nodes| == MAX_NODES
  {
    if id >= MAX_NODES then Refused(s, EINVAL)
    else if s.nodes[id].present then Refused(s, EEXIST)
    else Effect(s.(nodes := s.nodes[id := NewNode(id, name)], generation := Succ32(s.generation)),
                OK, [Added(id, Truncated(name))])
  }

  function Unlinking(nodes: seq<Node>, id: u32): (r: seq<Node>)
    requires id < MAX_NODES
    ensures |r| == |nodes|
  {
    seq(|nodes|, i requires 0 <= i < |nodes| => nodes[i].(links := ClearBit(nodes[i].links, id)))
  }

  function DelNode(s: State, id: u32): Effect
    requires |s.nodes| == MAX_NODES
  {
    if id >= MAX_NODES then Refused(s, EINVAL)
    else if !s.nodes[id].present then Refused(s, ENOENT)
    else Effect(s.(nodes := Unlinking(s.nodes, id)[id := NO_NODE], generation := Succ32(s.generation)),
                OK, [Deleted(id)])
  }

  function Relinked(nodes: seq<Node>, a: u32, b: u32, enable: bool): (r: seq<Node>)
    requires a < MAX_NODES && b < MAX_NODES && |nodes| == MAX_NODES
    ensures |r| == |nodes|
  {
    var na := nodes[a].(links := if enable then SetBit(nodes[a].links, b) else ClearBit(nodes[a].links, b));
    var half := nodes[a := na];
    half[b := half[b].(links := if enable then SetBit(half[b].links, a) else ClearBit(half[b].links, a))]
  }

  function Link(s: State, a: u32, b: u32, enable: bool): Effect
    requires |s.nodes| == MAX_NODES
  {
    if a == b then Refused(s, EINVAL)
    else if !Found(s.nodes, a) || !Found(s.nodes, b) then Refused(s, ENOENT)
    else Effect(s.(nodes := Relinked(s.nodes, a, b, enable), generation := Succ32(s.generation)),
                OK, [if enable then Linked(a, b) else Unlinked(a, b)])
  }

  function SetOnline(s: State, id: u32, online: bool): Effect {
    if !Found(s.nodes, id) then Refused(s, ENOENT)
    else Effect(s.(nodes := s.nodes[id := s.nodes[id].(online := online)], generation := Succ32(s.generation)),
                OK, [Onlined(id, online)])
  }

  function SetEnergy(s: State, id: u32, value: u32): Effect {
    if !Found(s.nodes, id) then Refused(s, ENOENT)
    else
      var v := Clamp(value, 0, 1000000);
      Effect(s.(nodes := s.nodes[id := s.nodes[id].(energy := v)], generation := Succ32(s.generation)),
             OK, [EnergySet(id, v)])
  }

  function SetHealth(s: State, id: u32, value: u32): Effect {
    if !Found(s.nodes, id) then Refused(s, ENOENT)
    else
      var v := Clamp(value, 0, 1000000);
      Effect(s.(nodes := s.nodes[id := s.nodes[id].(health := v)], generation := Succ32(s.generation)),
             OK, [HealthSet(id, v)])
  }

  /** One tick of one slot. */
  function TickNode(n: Node): Node {
    if !n.present || !n.online then n
    else n.(energy := Clamp(Fit(Word32, Fit(Word32, n.energy + 1000) + Weight(n.links) * 5000), 10000, 1000000),
            health := if n.health > 250000 then n.health - 250 else n.health)
  }

  function TickNodes(nodes: seq<Node>): (r: seq<Node>)
    ensures |r| == |nodes|
  {
    seq(|nodes|, i requires 0 <= i < |nodes| => TickNode(nodes[i]))
  }

  function TickEvents(nodes: seq<Node>, n: nat): seq<Event>
    requires n <= |nodes|
  {
    if n == 0 then [] else
    var t := TickNode(nodes[n - 1]);
    TickEvents(nodes, n - 1)
    + (if t.present && t.online then [Ticked(t.id, t.energy, t.health, Weight(t.links))] else [])
  }

  function Tick(s: State): Effect {
    Effect(s.(nodes := TickNodes(s.nodes), generation := Succ32(s.generation)), OK,
           TickEvents(s.nodes, |s.nodes|))
  }

  // ----- duo pairs

  /** The first slot holding `id`, or the pair count. */
  function FindPair(pairs: seq<Pair>, id: u32): (i: nat)
    ensures i <= |pairs|
    ensures i < |pairs| ==> pairs[i].id == id
    ensures forall k :: 0 <= k < i ==> pairs[k].id != id
  {
    if pairs == [] then 0
    else if pairs[0].id == id then 0
    else 1 + FindPair(pairs[1..], id)
  }

  /** A pair as it is before its first recompute. */
  function FreshPair(id: u32, a: u32, b: u32, mode: u32): Pair {
    Pair(id, a, b, mode, true, DefaultQuotient(mode), DefaultRefraction(mode), 500000, 500000, 0, 0, NO_SIMPLEX)
  }

  /** A pair with its cached ladder brought up to date. */
  function Recomputed(p: Pair): Pair {
    p.(simplex := Ladder(Word32, p.Knobs()))
  }

  function AddPair(s: State, a: u32, b: u32, mode: u32): Effect {
    if |s.pairs| >= MAX_PAIRS then Refused(s, ENOSPC)
    else if a == b then Refused(s, EINVAL)
    else if !Found(s.nodes, a) || !Found(s.nodes, b) then Refused(s, ENOENT)
    else
      var id := Succ32(s.nextPairId);
      Effect(s.(pairs := s.pairs + [Recomputed(FreshPair(id, a, b, mode))], nextPairId := id),
             OK, [DuoAdded(id, a, b, mode)])
  }

  function DelPair(s: State, id: u32): Effect {
    var i := FindPair(s.pairs, id);
    if i == |s.pairs| then Refused(s, ENOENT)
    else Effect(s.(pairs := s.pairs[..i] + s.pairs[i + 1..]), OK, [DuoDeleted(id)])
  }

  /** The crossed transform on the pair's own fields. */
  function PulsedPair(p: Pair, na: Node, nb: Node, v: u32): Pair
    requires v <= PPM
  {
    var baseEnergy := Fit(Word32, na.energy + nb.energy) / 2;
    var basePressure := Fit(Word32, na.health + nb.health) / 2;
    p.(lastValue := v, pulses := Succ32(p.pulses),
       energy := Clamp(Fit(Word32, baseEnergy + v) / 2, 0, 1000000),
       pressure := Clamp(Fit(Word32, basePressure + (1000000 - v)) / 2, 0, 1000000))
  }

  /** The feedback of a pulsed pair into one of its nodes. */
  function Fed(n: Node, energy: u32): Node {
    n.(energy := Clamp(Fit(Word32, n.energy + energy) / 2, 0, 1000000))
  }

  function FedNodes(nodes: seq<Node>, a: u32, b: u32, energy: u32): (r: seq<Node>)
    requires a < |nodes| && b < |nodes|
    ensures |r| == |nodes|
  {
    var half := nodes[a := Fed(nodes[a], energy)];
    half[b := Fed(half[b], energy)]
  }

  function Pulse(s: State, id: u32, value: u32): Effect {
    var i := FindPair(s.pairs, id);
    if i == |s.pairs| || !s.pairs[i].active then Refused(s, ENOENT)
    else
      var p := s.pairs[i];
      if !Found(s.nodes, p.a) || !Found(s.nodes, p.b) then Refused(s, ENOENT)
      else
        var v := Clamp(value, 0, 1000000);
        var q := PulsedPair(p, s.nodes[p.a], s.nodes[p.b], v);
        Effect(s.(nodes := FedNodes(s.nodes, p.a, p.b, q.energy), pairs := s.pairs[i := Recomputed(q)]),
               OK, [DuoPulsed(q.id, v, q.energy, q.pressure)])
  }

  // ----- counts

  /** The sum of the mask weights of the present nodes among the first `n` slots. */
  function WeightSum(nodes: seq<Node>, n: nat): (r: nat)
    requires n <= |nodes|
    ensures r <= 64 * n
  {
    if n == 0 then 0 else WeightSum(nodes, n - 1) + (if nodes[n - 1].present then Weight(nodes[n - 1].links) else 0)
  }

  // ----- runs

  datatype Op =
    | DoAddNode(id: u32, name: string)
    | DoDelNode(id: u32)
    | DoLink(a: u32, b: u32, enable: bool)
    | DoOnline(id: u32, online: bool)
    | DoEnergy(id: u32, value: u32)
    | DoHealth(id: u32, value: u32)
    | DoTick
    | DoAddPair(a: u32, b: u32, mode: u32)
    | DoDelPair(pair: u32)
    | DoPulse(pair: u32, value: u32)

  function Step(s: State, op: Op): (e: Effect)
    requires |s.nodes| == MAX_NODES
    ensures |e.state.nodes| == MAX_NODES
    ensures e.code != OK ==> e.state == s && e.events == []
  {
    match op
    case DoAddNode(id, name) => AddNode(s, id, name)
    case DoDelNode(id) => DelNode(s, id)
    case DoLink(a, b, enable) => Link(s, a, b, enable)
    case DoOnline(id, online) => SetOnline(s, id, online)
    case DoEnergy(id, value) => SetEnergy(s, id, value)
    case DoHealth(id, value) => SetHealth(s, id, value)
    case DoTick => Tick(s)
    case DoAddPair(a, b, mode) => AddPair(s, a, b, mode)
    case DoDelPair(pair) => DelPair(s, pair)
    case DoPulse(pair, value) => Pulse(s, pair, value)
  }

  function Run(s: State, ops: seq<Op>): (r: State)
    requires |s.nodes| == MAX_NODES
    ensures |r.nodes| == MAX_NODES
    decreases ops
  {
    if ops == [] then s else Run(Step(s, ops[0]).state, ops[1..])
  }

  /** The zeroed module state. */
  const BLANK := State(seq(MAX_NODES, _ => NO_NODE), [], 0, 0)

  /** What module init does to it. */
  const BOOT: seq<Op> := [DoAddNode(0, "core"), DoAddNode(1, "mesh-a"), DoAddNode(2, "mesh-b"),
                          DoLink(0, 1, true), DoLink(0, 2, true)]
}
