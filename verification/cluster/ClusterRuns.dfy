/** Long runs of one operation: repeated pulses converge, repeated ticks reach a fixed point. */
module ClusterRuns {
  import opened FixedPoint
  import opened DuoLadder
  import opened LinkMask
  import opened ClusterSpec
  import opened ClusterInvariant

  // ----- pulses

  /** The node energies after one pulse of value `v`. */
  function PulsedEnergies(e: (nat, nat), v: nat): (nat, nat) {
    var pair := ((e.0 + e.1) / 2 + v) / 2;
    ((e.0 + pair) / 2, (e.1 + pair) / 2)
  }

  function AfterPulses(e: (nat, nat), v: nat, k: nat): (nat, nat) {
    if k == 0 then e else PulsedEnergies(AfterPulses(e, v, k - 1), v)
  }

  function Max3(a: int, b: int, c: int): int {
    if a >= b && a >= c then a else if b >= c then b else c
  }

  /** How far the higher energy lies above `v`, and the lower one below it. */
  function Excess(e: (nat, nat), v: nat): nat { Max3(e.0 - v, e.1 - v, 0) }
  function Deficit(e: (nat, nat), v: nat): nat { Max3(v - e.0, v - e.1, 0) }

  /** One pulse shrinks the excess to at most 3/4 (rounded down) and the deficit to at most 3/4
      (rounded up). */
  lemma PulseShrinks(e: (nat, nat), v: nat)
    ensures Excess(PulsedEnergies(e, v), v) <= 3 * Excess(e, v) / 4
    ensures Deficit(PulsedEnergies(e, v), v) <= (3 * Deficit(e, v) + 3) / 4
  {
    var base := (e.0 + e.1) / 2;
    var x, d := Excess(e, v), Deficit(e, v);
    assert v - d <= base <= v + x;
    var pair := (base + v) / 2;
    assert 2 * v - d - 1 <= 2 * pair <= 2 * v + x;
  }

  function ExcessBound(x: nat, k: nat): nat {
    if k == 0 then x else 3 * ExcessBound(x, k - 1) / 4
  }

  function DeficitBound(d: nat, k: nat): nat {
    if k == 0 then d else (3 * DeficitBound(d, k - 1) + 3) / 4
  }

  lemma {:induction false} PulsesShrink(e: (nat, nat), v: nat, k: nat)
    ensures Excess(AfterPulses(e, v, k), v) <= ExcessBound(Excess(e, v), k)
    ensures Deficit(AfterPulses(e, v, k), v) <= DeficitBound(Deficit(e, v), k)
  {
    hide PulsedEnergies, Excess, Deficit;
    if k > 0 {
      PulsesShrink(e, v, k - 1);
      PulseShrinks(AfterPulses(e, v, k - 1), v);
    }
  }

  lemma {:induction false} BoundsCompose(x: nat, j: nat, k: nat)
    ensures ExcessBound(x, j + k) == ExcessBound(ExcessBound(x, j), k)
    ensures DeficitBound(x, j + k) == DeficitBound(DeficitBound(x, j), k)
    decreases k
  {
    if k > 0 {
      BoundsCompose(x, j, k - 1);
    }
  }

  lemma BoundsStep(x: nat, d: nat, k: nat)
    ensures 4 * ExcessBound(x, k + 1) <= 3 * ExcessBound(x, k)
    ensures 4 * (DeficitBound(d, k + 1) - 3) <= 3 * (DeficitBound(d, k) - 3)
    ensures ExcessBound(x, 0) == x && DeficitBound(d, 0) == d
  {
  }

  /** Seven pulses shrink what is left by (3/4)^7 = 2187/16384. */
  lemma SevenSteps(x: nat, d: nat)
    ensures 16384 * ExcessBound(x, 7) <= 2187 * x
    ensures 16384 * (DeficitBound(d, 7) - 3) <= 2187 * (d - 3)
  {
    hide ExcessBound, DeficitBound;
    BoundsStep(x, d, 0);
    BoundsStep(x, d, 1);
    BoundsStep(x, d, 2);
    BoundsStep(x, d, 3);
    BoundsStep(x, d, 4);
    BoundsStep(x, d, 5);
    BoundsStep(x, d, 6);
  }

  /** `n` times seven pulses, from at most 10^6. */
  function Left(n: nat): nat {
    if n == 0 then 1000000 else 2187 * Left(n - 1) / 16384
  }

  lemma {:induction false} Sevens(x: nat, d: nat, n: nat)
    requires x <= 1000000 && d <= 1000000
    ensures ExcessBound(x, 7 * n) <= Left(n) && DeficitBound(d, 7 * n) <= Left(n) + 3
    decreases n
  {
    hide ExcessBound, DeficitBound;
    if n == 0 {
      BoundsStep(x, d, 0);
    } else {
      Sevens(x, d, n - 1);
      BoundsCompose(x, 7 * (n - 1), 7);
      BoundsCompose(d, 7 * (n - 1), 7);
      SevenSteps(ExcessBound(x, 7 * (n - 1)), DeficitBound(d, 7 * (n - 1)));
    }
  }

  /** From at most 10^6, 49 pulses leave no excess and a deficit of at most 3. */
  lemma FortyNine(x: nat, d: nat)
    requires x <= 1000000 && d <= 1000000
    ensures ExcessBound(x, 49) == 0 && DeficitBound(d, 49) <= 3
  {
    hide ExcessBound, DeficitBound;
    Sevens(x, d, 7);
    assert Left(3) == 2378;
    assert Left(7) == 0;
  }

  /** Small remainders do not come back. */
  lemma {:induction false} BoundsStay(d: nat, k: nat)
    requires d <= 3
    ensures ExcessBound(0, k) == 0 && DeficitBound(d, k) <= 3
  {
    if k > 0 {
      BoundsStay(d, k - 1);
    }
  }

  /** From the 49th pulse on both energies are in [v - 3, v]. */
  lemma PulsesConverge(e: (nat, nat), v: nat, k: nat)
    requires e.0 <= 1000000 && e.1 <= 1000000 && v <= 1000000 && k >= 49
    ensures v - 3 <= AfterPulses(e, v, k).0 <= v && v - 3 <= AfterPulses(e, v, k).1 <= v
  {
    hide ExcessBound, DeficitBound, AfterPulses;
    PulsesShrink(e, v, k);
    FortyNine(Excess(e, v), Deficit(e, v));
    BoundsCompose(Excess(e, v), 49, k - 49);
    BoundsCompose(Deficit(e, v), 49, k - 49);
    BoundsStay(DeficitBound(Deficit(e, v), 49), k - 49);
  }

  /** At any time both energies are inside the interval spanned by the starting energies and `v`. */
  lemma {:induction false} PulsesStayInside(e: (nat, nat), v: nat, k: nat)
    ensures var x, d := Excess(e, v), Deficit(e, v);
            var f := AfterPulses(e, v, k);
            v - d <= f.0 <= v + x && v - d <= f.1 <= v + x
  {
    hide PulsedEnergies, AfterPulses;
    AfterPulsesStep(e, v, k);
    if k > 0 {
      PulsesStayInside(e, v, k - 1);
      PulseShrinks(AfterPulses(e, v, k - 1), v);
    }
  }

  lemma AfterPulsesStep(e: (nat, nat), v: nat, k: nat)
    ensures k == 0 ==> AfterPulses(e, v, k) == e
    ensures k > 0 ==> AfterPulses(e, v, k) == PulsedEnergies(AfterPulses(e, v, k - 1), v)
  {
  }

  predicate Pulsable(s: State, id: u32) {
    var i := FindPair(s.pairs, id);
    i < |s.pairs| && s.pairs[i].active && Found(s.nodes, s.pairs[i].a) && Found(s.nodes, s.pairs[i].b)
  }

  /** The energies of the two nodes a pair joins. */
  function Ends(s: State, id: u32): (nat, nat)
    requires Pulsable(s, id)
  {
    var p := s.pairs[FindPair(s.pairs, id)];
    (s.nodes[p.a].energy, s.nodes[p.b].energy)
  }

  function PulseRun(s: State, id: u32, value: u32, k: nat): State {
    if k == 0 then s else Pulse(PulseRun(s, id, value, k - 1), id, value).state
  }

  lemma FindSame(pairs: seq<Pair>, i: nat, q: Pair)
    requires i < |pairs| && q.id == pairs[i].id && FindPair(pairs, q.id) == i
    ensures FindPair(pairs[i := q], q.id) == i
  {
    var r := pairs[i := q];
    var k := FindPair(r, q.id);
    assert r[i].id == q.id;
    assert forall j :: 0 <= j < i ==> r[j] == pairs[j];
  }

  /** What the pair itself keeps and gets. */
  lemma PairPulse(p: Pair, na: Node, nb: Node, v: u32)
    requires na.energy <= PPM && nb.energy <= PPM && v <= PPM
    ensures var q := PulsedPair(p, na, nb, v);
            && q.id == p.id && q.a == p.a && q.b == p.b && q.active == p.active
            && q.energy == ((na.energy + nb.energy) / 2 + v) / 2
            && (na.health <= PPM && nb.health <= PPM
                ==> q.pressure == ((na.health + nb.health) / 2 + (1000000 - v)) / 2)
  {
  }

  lemma RecomputedKeeps(p: Pair)
    ensures var q := Recomputed(p);
            q.id == p.id && q.a == p.a && q.b == p.b && q.active == p.active
  {
    hide Ladder;
  }

  lemma FedEnergy(n: Node, energy: u32)
    requires n.energy <= PPM && energy <= PPM
    ensures Fed(n, energy).energy == (n.energy + energy) / 2 && Fed(n, energy).present == n.present
  {
  }

  predicate EndsAre(s: State, id: u32, e: (nat, nat)) {
    Pulsable(s, id) && Ends(s, id) == e
  }

  /** A pulse on a pair whose ends are present moves their energies by the plain formula: no sum
      wraps and no clamp cuts. */
  lemma PulseMovesEnds(s: State, id: u32, value: u32)
    requires Inv(s) && Pulsable(s, id)
    ensures EndsAre(Pulse(s, id, value).state, id, PulsedEnergies(Ends(s, id), Clamp(value, 0, 1000000)))
  {
    hide PulsedPair, Recomputed, Fed, Symmetric, InRange, Ladder;
    var i := FindPair(s.pairs, id);
    var p := s.pairs[i];
    var v := Clamp(value, 0, 1000000);
    assert PairOk(p) && NodeOk(s.nodes[p.a], p.a) && NodeOk(s.nodes[p.b], p.b);
    hide Inv, PairOk, NodeOk;
    PairPulse(p, s.nodes[p.a], s.nodes[p.b], v);
    var q := PulsedPair(p, s.nodes[p.a], s.nodes[p.b], v);
    RecomputedKeeps(q);
    FindSame(s.pairs, i, Recomputed(q));
    FedEnergy(s.nodes[p.a], q.energy);
    FedEnergy(s.nodes[p.b], q.energy);
  }

  /** A pulse changes the energies of its two ends and nothing else about any node. */
  lemma PulseTouchesEndsOnly(s: State, id: u32, value: u32, i: nat)
    requires Inv(s) && i < |s.nodes|
    ensures var t := Pulse(s, id, value).state;
            && |t.nodes| == |s.nodes|
            && t.nodes[i] == s.nodes[i].(energy := t.nodes[i].energy)
            && (Pulsable(s, id) && i != s.pairs[FindPair(s.pairs, id)].a && i != s.pairs[FindPair(s.pairs, id)].b
                ==> t.nodes[i] == s.nodes[i])
            && (!Pulsable(s, id) ==> t == s)
  {
    hide PulsedPair, Recomputed, Symmetric, NodesOk, PairOk, FindPair, Clamp;
  }

  /** The slot of a pair after a pulse. */
  function PulsedSlot(s: State, id: u32, value: u32): Pair
    requires Pulsable(s, id)
  {
    var i := FindPair(s.pairs, id);
    var p := s.pairs[i];
    Recomputed(PulsedPair(p, s.nodes[p.a], s.nodes[p.b], Clamp(value, 0, 1000000)))
  }

  lemma PulseFillsSlot(s: State, id: u32, value: u32)
    requires Pulsable(s, id)
    ensures var i := FindPair(s.pairs, id);
            Pulse(s, id, value).state.pairs == s.pairs[i := PulsedSlot(s, id, value)]
  {
    hide PulsedPair, Recomputed, FedNodes;
  }

  /** What a pulse of value `v` makes of pair `p` between nodes `na` and `nb`. */
  predicate PairMoved(p: Pair, q: Pair, na: Node, nb: Node, v: u32) {
    && q.energy == ((na.energy + nb.energy) / 2 + v) / 2
    && q.pressure == ((na.health + nb.health) / 2 + (1000000 - v)) / 2
    && q == p.(energy := q.energy, pressure := q.pressure, pulses := Succ32(p.pulses), lastValue := v,
               simplex := q.simplex)
    && PairOk(q)
  }

  lemma SlotAfterPulse(p: Pair, na: Node, nb: Node, v: u32)
    requires PairOk(p) && NodeOk(na, p.a) && NodeOk(nb, p.b) && v <= PPM
    ensures PairMoved(p, Recomputed(PulsedPair(p, na, nb, v)), na, nb, v)
  {
    hide Ladder, Fit, InRange;
    PulsedPairOk(p, na, nb, v);
    PairPulse(p, na, nb, v);
  }

  /** A pulse sets the pair's energy and pressure by the plain averaging formulas, counts itself,
      keeps the other fields, and leaves the cached ladder current. */
  lemma PulseMovesPair(s: State, id: u32, value: u32)
    requires Inv(s) && Pulsable(s, id)
    ensures var i := FindPair(s.pairs, id);
            var pairs, p := Pulse(s, id, value).state.pairs, s.pairs[i];
            && |pairs| == |s.pairs|
            && PairMoved(p, pairs[i], s.nodes[p.a], s.nodes[p.b], Clamp(value, 0, 1000000))
  {
    hide PulsedPair, Recomputed, Symmetric, Pulse, InRange, Ladder;
    var i := FindPair(s.pairs, id);
    var p := s.pairs[i];
    assert PairOk(p) && NodeOk(s.nodes[p.a], p.a) && NodeOk(s.nodes[p.b], p.b);
    hide Inv, PairOk, NodeOk;
    PulseFillsSlot(s, id, value);
    SlotAfterPulse(p, s.nodes[p.a], s.nodes[p.b], Clamp(value, 0, 1000000));
  }

  /** The stronger of two pulses never leaves the pair with a higher retained value: base, every level,
      every mip and the recursive value of the cached ladder are at most those of the weaker one. */
  lemma StrongerPulseRetainsLess(s: State, id: u32, value: u32, value': u32)
    requires Inv(s) && Pulsable(s, id) && value <= value'
    ensures var i := FindPair(s.pairs, id);
            var t, t' := Pulse(s, id, value).state, Pulse(s, id, value').state;
            && i < |t.pairs| && i < |t'.pairs|
            && LadderBelow(t'.pairs[i].simplex, t.pairs[i].simplex)
  {
    hide Inv, Pulse, LadderBelow, Ladder, InRange, FindPair;
    PulseMovesPair(s, id, value);
    PulseMovesPair(s, id, value');
    var i := FindPair(s.pairs, id);
    var q, q' := Pulse(s, id, value).state.pairs[i], Pulse(s, id, value').state.pairs[i];
    LadderMonotone(q'.Knobs(), q.Knobs());
  }

  lemma {:induction false} PulseRunEnds(s: State, id: u32, value: u32, k: nat)
    requires Inv(s) && Pulsable(s, id)
    ensures Inv(PulseRun(s, id, value, k))
    ensures EndsAre(PulseRun(s, id, value, k), id, AfterPulses(Ends(s, id), Clamp(value, 0, 1000000), k))
    decreases k
  {
    hide Inv, Pulse, PulsedEnergies, AfterPulses, Ends, Pulsable;
    AfterPulsesStep(Ends(s, id), Clamp(value, 0, 1000000), k);
    if k > 0 {
      PulseRunEnds(s, id, value, k - 1);
      var t := PulseRun(s, id, value, k - 1);
      PulseMovesEnds(t, id, value);
      PulseKeepsInv(t, id, value);
    }
  }

  lemma EndsInRange(s: State, id: u32)
    requires Inv(s) && Pulsable(s, id)
    ensures Ends(s, id).0 <= 1000000 && Ends(s, id).1 <= 1000000
  {
    hide Symmetric, PairOk, FindPair;
    var p := s.pairs[FindPair(s.pairs, id)];
    assert NodeOk(s.nodes[p.a], p.a) && NodeOk(s.nodes[p.b], p.b);
  }

  /** Repeated pulses of one value on a pair with both ends present: the energies never leave the
      interval spanned by where they started and the clamped value, and from the 49th pulse on both
      are within 3 below it. */
  lemma PulseRunConverges(s: State, id: u32, value: u32, k: nat)
    requires Inv(s) && Pulsable(s, id)
    ensures exists f :: EndsAre(PulseRun(s, id, value, k), id, f)
                        && Settling(Ends(s, id), f, Clamp(value, 0, 1000000), k)
  {
    hide Inv, Pulsable, Ends, AfterPulses, PulseRun, EndsAre;
    var v := Clamp(value, 0, 1000000);
    var f := AfterPulses(Ends(s, id), v, k);
    PulseRunEnds(s, id, value, k);
    EndsInRange(s, id);
    PulsesStayInside(Ends(s, id), v, k);
    if k >= 49 {
      PulsesConverge(Ends(s, id), v, k);
    }
    assert Settling(Ends(s, id), f, v, k);
  }

  /** Where `k` pulses of value `v` may have taken the energies `e`. */
  predicate Settling(e: (nat, nat), f: (nat, nat), v: nat, k: nat) {
    && v - Deficit(e, v) <= f.0 <= v + Excess(e, v)
    && v - Deficit(e, v) <= f.1 <= v + Excess(e, v)
    && (k >= 49 ==> v - 3 <= f.0 <= v && v - 3 <= f.1 <= v)
  }

  // ----- ticks

  function TickRun(s: State, k: nat): State {
    if k == 0 then s else Tick(TickRun(s, k - 1)).state
  }

  /** A slot after `k` ticks. */
  function TickedNode(n: Node, k: nat): Node {
    if k == 0 then n else TickNode(TickedNode(n, k - 1))
  }

  function Least(a: int, b: int): int { if a < b then a else b }
  function Most(a: int, b: int): int { if a > b then a else b }

  /** An online node gains at least 1000 per tick up to 10^6 and loses 250 health down to 250000; it
      never loses energy, gains health, or changes in any other field. */
  lemma {:induction false} TickedOnline(n: Node, i: nat, k: nat)
    requires NodeOk(n, i) && n.present && n.online
    ensures var m := TickedNode(n, k);
            && m == n.(energy := m.energy, health := m.health)
            && Least(1000000, n.energy + 1000 * k) <= m.energy <= 1000000 && n.energy <= m.energy
            && m.health <= Most(250000, n.health - 250 * k) && m.health <= n.health
    decreases k
  {
    hide Weight;
    if k > 0 {
      TickedOnline(n, i, k - 1);
    }
  }

  lemma {:induction false} TickedIdle(n: Node, k: nat)
    requires !n.present || !n.online
    ensures TickedNode(n, k) == n
  {
    if k > 0 {
      TickedIdle(n, k - 1);
    }
  }

  lemma {:induction false} TickRunNodes(s: State, k: nat)
    ensures |TickRun(s, k).nodes| == |s.nodes| && TickRun(s, k).pairs == s.pairs
    ensures forall i :: 0 <= i < |s.nodes| ==> TickRun(s, k).nodes[i] == TickedNode(s.nodes[i], k)
  {
    hide TickNode;
    if k > 0 {
      TickRunNodes(s, k - 1);
    }
  }

  /** A node that has settled is not moved by a further tick. */
  lemma SettledNode(n: Node)
    requires !n.present || !n.online || (n.energy == 1000000 && n.health <= 250000)
    ensures TickNode(n) == n
  {
    hide Weight;
  }

  /** After 3000 ticks and nothing else, every online node has full energy and at most 250000 health,
      every other slot is as it was, energies never fell and healths never rose, and further ticks
      change no node. */
  lemma TicksSettle(s: State, k: nat)
    requires Inv(s) && k >= 3000
    ensures |TickRun(s, k).nodes| == |s.nodes| == MAX_NODES
    ensures forall i :: 0 <= i < MAX_NODES ==>
              var n, m := s.nodes[i], TickRun(s, k).nodes[i];
              if n.present && n.online
              then m == n.(energy := 1000000, health := m.health) && m.health <= 250000 && m.health <= n.health
              else m == n
    ensures Tick(TickRun(s, k)).state.nodes == TickRun(s, k).nodes
  {
    hide Symmetric, PairOk, TickNode, TickRun;
    TickRunNodes(s, k);
    var t := TickRun(s, k);
    forall i | 0 <= i < MAX_NODES
      ensures var n, m := s.nodes[i], t.nodes[i];
              if n.present && n.online
              then m == n.(energy := 1000000, health := m.health) && m.health <= 250000 && m.health <= n.health
              else m == n
      ensures TickNode(t.nodes[i]) == t.nodes[i]
    {
      var n := s.nodes[i];
      assert NodeOk(n, i);
      if n.present && n.online {
        TickedOnline(n, i, k);
      } else {
        TickedIdle(n, k);
      }
      SettledNode(t.nodes[i]);
    }
  }

  /** Between any two moments of a tick run, energies do not fall and healths do not rise. */
  lemma TickRunMonotone(s: State, k: nat, i: nat)
    requires Inv(s) && i < MAX_NODES
    ensures |TickRun(s, k).nodes| == |TickRun(s, k + 1).nodes| == MAX_NODES
    ensures TickRun(s, k).nodes[i].energy <= TickRun(s, k + 1).nodes[i].energy
    ensures TickRun(s, k).nodes[i].health >= TickRun(s, k + 1).nodes[i].health
  {
    assert |s.nodes| == MAX_NODES && NodeOk(s.nodes[i], i);
    hide Inv, TickRun, TickNode;
    TickRunNodes(s, k);
    TickRunNodes(s, k + 1);
    var n := s.nodes[i];
    if n.present && n.online {
      TickedOnline(n, i, k);
      OneMoreTick(TickedNode(n, k), i);
    } else {
      TickedIdle(n, k);
      TickedIdle(n, k + 1);
    }
  }

  lemma OneMoreTick(n: Node, i: nat)
    requires n.energy <= 1000000
    ensures TickNode(n).energy >= n.energy && TickNode(n).health <= n.health
  {
    hide Weight;
  }
}
