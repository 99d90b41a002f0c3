/** The DawnHex module state, changed in place, and its operations under the lock (dawnhex_kmod.c). */
module Cluster {
  import opened FixedPoint
  import opened DuoLadder
  import opened DuoLadderCode
  import opened LinkMask
  import opened EventRing
  import opened ClusterSpec
  import opened ClusterInvariant
  import ClusterEdges

  lemma PushedOne(q: seq<Event>, e: Event)
    ensures PushedAll(q, [e]) == Pushed(q, e) && PushedAll(q, []) == q
  {
    assert [e][1..] == [];
    assert PushedAll(Pushed(q, e), []) == Pushed(q, e);
  }

  class Module {
    const nodes: array<Node>
    const pairs: array<Pair>
    const ring: Ring<Event>
    var pairCount: nat
    var nextPairId: u32
    var generation: u32

    ghost predicate Valid()
      reads this, ring
    {
      && nodes.Length == MAX_NODES && pairs.Length == MAX_PAIRS && pairCount <= MAX_PAIRS
      && ring.Valid()
    }

    /** The cluster state in plain values. */
    ghost function Now(): State
      requires Valid()
      reads this, nodes, pairs, ring
    {
      State(nodes[..], pairs[..pairCount], nextPairId, generation)
    }

    /** The unread events. */
    ghost function Log(): seq<Event>
      requires Valid()
      reads this, ring, ring.slots
    {
      ring.Contents()
    }

    constructor ()
      ensures Valid() && fresh(nodes) && fresh(pairs) && fresh(ring) && fresh(ring.slots)
      ensures Now() == BLANK && Log() == []
    {
      nodes := new Node[MAX_NODES](_ => NO_NODE);
      pairs := new Pair[MAX_PAIRS](_ => FreshPair(0, 0, 0, 0));
      ring := new Ring<Event>();
      pairCount := 0;
      nextPairId := 0;
      generation := 0;
    }

    /** dh_add_node_locked */
    method AddNode(id: u32, name: string) returns (code: Code)
      requires Valid()
      modifies this, nodes, ring, ring.slots
      ensures Valid()
      ensures var e := ClusterSpec.AddNode(old(Now()), id, name);
              Now() == e.state && code == e.code && Log() == PushedAll(old(Log()), e.events)
    {
      hide Truncated, PushedAll;
      PushedOne(Log(), Added(id, Truncated(name)));
      if id >= MAX_NODES {
        return EINVAL;
      }
      if nodes[id].present {
        return EEXIST;
      }
      nodes[id] := Node(id, Truncated(name), true, true, 500000, 1000000, 0);
      generation := Succ32(generation);
      ring.Emit(Added(id, nodes[id].name));
      return OK;
    }

    /** The loop that takes bit `id` out of every mask. */
    method UnlinkAll(id: u32)
      requires Valid() && id < MAX_NODES
      modifies nodes
      ensures nodes[..] == Unlinking(old(nodes[..]), id)
    {
      hide ClearBit;
      var i := 0;
      while i < MAX_NODES
        invariant i <= MAX_NODES
        invariant forall k :: 0 <= k < i ==> nodes[k] == old(nodes[k]).(links := ClearBit(old(nodes[k]).links, id))
        invariant forall k :: i <= k < MAX_NODES ==> nodes[k] == old(nodes[k])
      {
        nodes[i] := nodes[i].(links := ClearBit(nodes[i].links, id));
        i := i + 1;
      }
    }

    /** dh_del_node_locked */
    method DelNode(id: u32) returns (code: Code)
      requires Valid()
      modifies this, nodes, ring, ring.slots
      ensures Valid()
      ensures var e := ClusterSpec.DelNode(old(Now()), id);
              Now() == e.state && code == e.code && Log() == PushedAll(old(Log()), e.events)
    {
      hide Unlinking, PushedAll;
      PushedOne(Log(), Deleted(id));
      if id >= MAX_NODES {
        return EINVAL;
      }
      if !nodes[id].present {
        return ENOENT;
      }
      UnlinkAll(id);
      nodes[id] := NO_NODE;
      generation := Succ32(generation);
      ring.Emit(Deleted(id));
      return OK;
    }

    /** Both mask updates of a link or unlink. */
    method LinkMasks(a: u32, b: u32, enable: bool)
      requires Valid() && a < MAX_NODES && b < MAX_NODES
      modifies nodes
      ensures nodes[..] == Relinked(old(nodes[..]), a, b, enable)
    {
      hide SetBit, ClearBit;
      if enable {
        nodes[a] := nodes[a].(links := SetBit(nodes[a].links, b));
        nodes[b] := nodes[b].(links := SetBit(nodes[b].links, a));
      } else {
        nodes[a] := nodes[a].(links := ClearBit(nodes[a].links, b));
        nodes[b] := nodes[b].(links := ClearBit(nodes[b].links, a));
      }
    }

    /** dh_link_locked */
    method Link(a: u32, b: u32, enable: bool) returns (code: Code)
      requires Valid()
      modifies this, nodes, ring, ring.slots
      ensures Valid()
      ensures var e := ClusterSpec.Link(old(Now()), a, b, enable);
              Now() == e.state && code == e.code && Log() == PushedAll(old(Log()), e.events)
    {
      hide Relinked, PushedAll, ClusterSpec.Link;
      PushedOne(Log(), if enable then Linked(a, b) else Unlinked(a, b));
      LinkIs(Now(), a, b, enable);
      if a == b {
        return EINVAL;
      }
      if a >= MAX_NODES || !nodes[a].present || b >= MAX_NODES || !nodes[b].present {
        return ENOENT;
      }
      LinkMasks(a, b, enable);
      if enable {
        ring.Emit(Linked(a, b));
      } else {
        ring.Emit(Unlinked(a, b));
      }
      generation := Succ32(generation);
      return OK;
    }

    /** The `online` command. */
    method SetOnline(id: u32, online: bool) returns (code: Code)
      requires Valid()
      modifies this, nodes, ring, ring.slots
      ensures Valid()
      ensures var e := ClusterSpec.SetOnline(old(Now()), id, online);
              Now() == e.state && code == e.code && Log() == PushedAll(old(Log()), e.events)
    {
      hide PushedAll;
      PushedOne(Log(), Onlined(id, online));
      if id >= MAX_NODES || !nodes[id].present {
        return ENOENT;
      }
      nodes[id] := nodes[id].(online := online);
      generation := Succ32(generation);
      ring.Emit(Onlined(id, online));
      return OK;
    }

    /** The `energy` command. */
    method SetEnergy(id: u32, value: u32) returns (code: Code)
      requires Valid()
      modifies this, nodes, ring, ring.slots
      ensures Valid()
      ensures var e := ClusterSpec.SetEnergy(old(Now()), id, value);
              Now() == e.state && code == e.code && Log() == PushedAll(old(Log()), e.events)
    {
      hide PushedAll;
      PushedOne(Log(), EnergySet(id, Clamp(value, 0, 1000000)));
      if id >= MAX_NODES || !nodes[id].present {
        return ENOENT;
      }
      nodes[id] := nodes[id].(energy := Clamp(value, 0, 1000000));
      generation := Succ32(generation);
      ring.Emit(EnergySet(id, nodes[id].energy));
      return OK;
    }

    /** The `health` command. */
    method SetHealth(id: u32, value: u32) returns (code: Code)
      requires Valid()
      modifies this, nodes, ring, ring.slots
      ensures Valid()
      ensures var e := ClusterSpec.SetHealth(old(Now()), id, value);
              Now() == e.state && code == e.code && Log() == PushedAll(old(Log()), e.events)
    {
      hide PushedAll;
      PushedOne(Log(), HealthSet(id, Clamp(value, 0, 1000000)));
      if id >= MAX_NODES || !nodes[id].present {
        return ENOENT;
      }
      nodes[id] := nodes[id].(health := Clamp(value, 0, 1000000));
      generation := Succ32(generation);
      ring.Emit(HealthSet(id, nodes[id].health));
      return OK;
    }

    /** The tick of one slot. */
    method TickSlot(i: nat)
      requires Valid() && i < MAX_NODES
      modifies nodes, ring, ring.slots
      ensures Valid() && nodes[..] == old(nodes[..])[i := TickNode(old(nodes[i]))]
      ensures Log() == if nodes[i].present && nodes[i].online
                       then Pushed(old(Log()),
                                   Ticked(nodes[i].id, nodes[i].energy, nodes[i].health, Weight(nodes[i].links)))
                       else old(Log())
    {
      hide Weight, Pushed;
      if !nodes[i].present || !nodes[i].online {
        return;
      }
      var linkFactor := Weight(nodes[i].links) * 5000;
      nodes[i] := nodes[i].(energy :=
        Clamp(Fit(Word32, Fit(Word32, nodes[i].energy + 1000) + linkFactor), 10000, 1000000));
      if nodes[i].health > 250000 {
        nodes[i] := nodes[i].(health := nodes[i].health - 250);
      }
      ring.Emit(Ticked(nodes[i].id, nodes[i].energy, nodes[i].health, Weight(nodes[i].links)));
    }

    /** dh_tick_once_locked */
    method TickOnce()
      requires Valid()
      modifies this, nodes, ring, ring.slots
      ensures Valid()
      ensures var e := ClusterSpec.Tick(old(Now()));
              Now() == e.state && Log() == PushedAll(old(Log()), e.events)
    {
      hide Weight, PushedAll, Pushed, TickEvents, TickNode;
      generation := Succ32(generation);
      ghost var before := nodes[..];
      var i := 0;
      NoTickEvents(before, Log());
      while i < MAX_NODES
        invariant i <= MAX_NODES && Valid()
        invariant pairCount == old(pairCount) && nextPairId == old(nextPairId)
        invariant generation == Succ32(old(generation))
        invariant forall k :: 0 <= k < i ==> nodes[k] == TickNode(before[k])
        invariant forall k :: i <= k < MAX_NODES ==> nodes[k] == before[k]
        invariant Log() == PushedAll(old(Log()), TickEvents(before, i))
      {
        NextTickEvent(before, i, old(Log()));
        TickKeepsFlags(before[i]);
        TickSlot(i);
        i := i + 1;
      }
      assert nodes[..] == TickNodes(before);
    }

    /** dh_duo_lookup_pair_locked, as the index of the slot. */
    method LookupPair(id: u32) returns (i: nat)
      requires Valid()
      ensures i == FindPair(pairs[..pairCount], id)
    {
      ghost var table := pairs[..pairCount];
      i := 0;
      while i < pairCount && pairs[i].id != id
        invariant i <= pairCount
        invariant forall k :: 0 <= k < i ==> table[k].id != id
      {
        i := i + 1;
      }
      FindPairIs(table, id, i);
    }

    /** dh_duo_add_pair_locked; `id` is the new pair's id when the code is OK. */
    method AddPair(a: u32, b: u32, mode: u32) returns (code: Code, id: u32)
      requires Valid()
      modifies this, pairs, ring, ring.slots
      ensures Valid()
      ensures var e := ClusterSpec.AddPair(old(Now()), a, b, mode);
              Now() == e.state && code == e.code && Log() == PushedAll(old(Log()), e.events)
      ensures code == OK ==> id == nextPairId
    {
      hide PushedAll, Ladder;
      id := 0;
      PushedOne(Log(), DuoAdded(Succ32(nextPairId), a, b, mode));
      if pairCount >= MAX_PAIRS {
        return ENOSPC, id;
      }
      if a == b {
        return EINVAL, id;
      }
      if a >= MAX_NODES || !nodes[a].present || b >= MAX_NODES || !nodes[b].present {
        return ENOENT, id;
      }
      ghost var table := pairs[..pairCount];
      nextPairId := Succ32(nextPairId);
      var p := FreshPair(nextPairId, a, b, mode);
      var simplex := RecomputeSimplex(p.Knobs());
      pairs[pairCount] := p.(simplex := simplex);
      pairCount := pairCount + 1;
      assert pairs[..pairCount] == table + [Recomputed(p)];
      id := nextPairId;
      ring.Emit(DuoAdded(id, a, b, mode));
      return OK, id;
    }

    /** The memmove of the later slots over slot `i`. */
    method MoveDown(i: nat)
      requires Valid() && i < pairCount
      modifies pairs
      ensures pairs[..pairCount - 1] == old(pairs[..])[..i] + old(pairs[..])[i + 1..pairCount]
    {
      ghost var before := pairs[..];
      var j := i;
      while j + 1 < pairCount
        invariant i <= j < pairCount
        invariant forall k :: 0 <= k < i ==> pairs[k] == before[k]
        invariant forall k :: i <= k < j ==> pairs[k] == before[k + 1]
        invariant forall k :: j <= k < MAX_PAIRS ==> pairs[k] == before[k]
      {
        pairs[j] := pairs[j + 1];
        j := j + 1;
      }
      MovedDown(before, pairs[..], i, pairCount);
      assert pairs[..pairCount - 1] == pairs[..][..pairCount - 1];
    }

    /** dh_duo_del_pair_locked */
    method DelPair(id: u32) returns (code: Code)
      requires Valid()
      modifies this, pairs, ring, ring.slots
      ensures Valid()
      ensures var e := ClusterSpec.DelPair(old(Now()), id);
              Now() == e.state && code == e.code && Log() == PushedAll(old(Log()), e.events)
    {
      hide PushedAll, FindPair;
      PushedOne(Log(), DuoDeleted(id));
      ghost var table := pairs[..pairCount];
      var i := LookupPair(id);
      if i == pairCount {
        return ENOENT;
      }
      assert table[..i] == pairs[..][..i] && table[i + 1..] == pairs[..][i + 1..pairCount];
      MoveDown(i);
      pairCount := pairCount - 1;
      ring.Emit(DuoDeleted(id));
      return OK;
    }

    /** dh_duo_pulse_locked, up to the registered hooks. */
    method Pulse(id: u32, value: u32) returns (code: Code)
      requires Valid()
      modifies this, nodes, pairs, ring, ring.slots
      ensures Valid()
      ensures var e := ClusterSpec.Pulse(old(Now()), id, value);
              Now() == e.state && code == e.code && Log() == PushedAll(old(Log()), e.events)
    {
      hide PushedAll, FindPair, Ladder, PulsedPair, Fed, Clamp;
      ghost var s := Now();
      var i := LookupPair(id);
      if i == pairCount || !pairs[i].active {
        assert PushedAll(Log(), []) == Log() by { PushedOne(Log(), DuoDeleted(id)); }
        return ENOENT;
      }
      var p := pairs[i];
      if p.a >= MAX_NODES || !nodes[p.a].present || p.b >= MAX_NODES || !nodes[p.b].present {
        assert PushedAll(Log(), []) == Log() by { PushedOne(Log(), DuoDeleted(id)); }
        return ENOENT;
      }
      var v := PulseValue(value);
      PulsedNames(p, nodes[p.a], nodes[p.b], v);
      p := PulsePair(p, nodes[p.a], nodes[p.b], v);
      nodes[p.a] := Fed(nodes[p.a], p.energy);
      nodes[p.b] := Fed(nodes[p.b], p.energy);
      var simplex := RecomputeSimplex(p.Knobs());
      pairs[i] := p.(simplex := simplex);
      assert pairs[..pairCount] == s.pairs[i := Recomputed(p)];
      PushedOne(Log(), DuoPulsed(p.id, v, p.energy, p.pressure));
      ring.Emit(DuoPulsed(p.id, v, p.energy, p.pressure));
      return OK;
    }

    /** dh_count_links_locked: exactly the number of undirected links, as long as the state is sound. */
    method CountLinks() returns (links: nat)
      requires Valid()
      ensures links == WeightSum(nodes[..], MAX_NODES) / 2
      ensures Inv(Now()) ==> links == |ClusterEdges.Edges(nodes[..], MAX_NODES)|
    {
      hide Weight, Inv, ClusterEdges.Edges;
      var i := 0;
      links := 0;
      while i < MAX_NODES
        invariant i <= MAX_NODES
        invariant links == WeightSum(nodes[..], i)
      {
        if nodes[i].present {
          links := links + Weight(nodes[i].links);
        }
        i := i + 1;
      }
      if Inv(Now()) {
        ClusterEdges.LinkCount(Now());
      }
      links := links / 2;
    }

    /** The part of module init that builds the first cluster. */
    method Boot()
      requires Valid() && Now() == BLANK
      modifies this, nodes, ring, ring.slots
      ensures Valid() && Now() == Run(BLANK, BOOT) && Inv(Now())
    {
      hide Inv, ClusterSpec.AddNode, ClusterSpec.Link, PushedAll, Run;
      RunStep(BLANK, BOOT);
      var code := AddNode(0, "core");
      RunStep(Now(), BOOT[1..]);
      code := AddNode(1, "mesh-a");
      RunStep(Now(), BOOT[1..][1..]);
      code := AddNode(2, "mesh-b");
      RunStep(Now(), BOOT[1..][1..][1..]);
      code := Link(0, 1, true);
      RunStep(Now(), BOOT[1..][1..][1..][1..]);
      code := Link(0, 2, true);
      RunStep(Now(), []);
      assert BOOT[1..][1..][1..][1..][1..] == [];
      BlankInv();
      RunKeepsInv(BLANK, BOOT);
    }

    /** The dequeue of dh_read. */
    method ReadEvent() returns (found: bool, e: Event)
      requires Valid()
      modifies ring
      ensures Valid() && Now() == old(Now()) && found == (old(Log()) != [])
      ensures if found then [e] + Log() == old(Log()) else Log() == []
    {
      found, e := ring.Read();
    }
  }

  lemma LinkIs(s: State, a: u32, b: u32, enable: bool)
    requires |s.nodes| == MAX_NODES
    ensures ClusterSpec.Link(s, a, b, enable)
            == if a == b then Refused(s, EINVAL)
               else if !Found(s.nodes, a) || !Found(s.nodes, b) then Refused(s, ENOENT)
               else Effect(s.(nodes := Relinked(s.nodes, a, b, enable), generation := Succ32(s.generation)),
                           OK, [if enable then Linked(a, b) else Unlinked(a, b)])
  {
    hide Relinked;
  }

  lemma RunStep(s: State, ops: seq<Op>)
    requires |s.nodes| == MAX_NODES
    ensures Run(s, ops) == if ops == [] then s else Run(Step(s, ops[0]).state, ops[1..])
  {
  }

  method PulseValue(value: u32) returns (v: u32)
    ensures v == Clamp(value, 0, 1000000) && v <= PPM
  {
    v := Clamp(value, 0, 1000000);
  }

  /** The pulse arithmetic on the pair's own fields, in words. */
  method PulsePair(p: Pair, na: Node, nb: Node, v: u32) returns (q: Pair)
    requires v <= PPM
    ensures q == PulsedPair(p, na, nb, v)
  {
    var baseEnergy := Fit(Word32, na.energy + nb.energy) / 2;
    var basePressure := Fit(Word32, na.health + nb.health) / 2;
    q := p.(lastValue := v);
    q := q.(pulses := Succ32(q.pulses));
    q := q.(energy := Clamp(Fit(Word32, baseEnergy + v) / 2, 0, 1000000));
    q := q.(pressure := Clamp(Fit(Word32, basePressure + (1000000 - v)) / 2, 0, 1000000));
  }

  lemma MovedDown(before: seq<Pair>, after: seq<Pair>, i: nat, n: nat)
    requires i < n <= |before| == |after|
    requires forall k :: 0 <= k < i ==> after[k] == before[k]
    requires forall k :: i <= k < n - 1 ==> after[k] == before[k + 1]
    ensures after[..n - 1] == before[..i] + before[i + 1..n]
  {
    var l, r := after[..n - 1], before[..i] + before[i + 1..n];
    assert |l| == |r| && forall k :: 0 <= k < n - 1 ==> l[k] == r[k];
  }

  lemma PulsedNames(p: Pair, na: Node, nb: Node, v: u32)
    requires v <= PPM
    ensures var q := PulsedPair(p, na, nb, v);
            q.id == p.id && q.a == p.a && q.b == p.b && q.Knobs() == PulsedPair(p, na, nb, v).Knobs()
  {
  }

  lemma FindPairIs(pairs: seq<Pair>, id: u32, i: nat)
    requires i <= |pairs| && (i < |pairs| ==> pairs[i].id == id)
    requires forall k :: 0 <= k < i ==> pairs[k].id != id
    ensures FindPair(pairs, id) == i
  {
  }

  lemma TickKeepsFlags(n: Node)
    ensures TickNode(n).present == n.present && TickNode(n).online == n.online
  {
    hide Weight;
  }

  lemma NoTickEvents(nodes: seq<Node>, q: seq<Event>)
    ensures PushedAll(q, TickEvents(nodes, 0)) == q
  {
  }

  lemma NextTickEvent(nodes: seq<Node>, n: nat, q: seq<Event>)
    requires n < |nodes|
    ensures var t := TickNode(nodes[n]);
            PushedAll(q, TickEvents(nodes, n + 1))
            == if nodes[n].present && nodes[n].online
               then Pushed(PushedAll(q, TickEvents(nodes, n)), Ticked(t.id, t.energy, t.health, Weight(t.links)))
               else PushedAll(q, TickEvents(nodes, n))
  {
    hide Weight;
    var t := TickNode(nodes[n]);
    if nodes[n].present && nodes[n].online {
      PushedAllSnoc(q, TickEvents(nodes, n), Ticked(t.id, t.energy, t.health, Weight(t.links)));
    } else {
      assert TickEvents(nodes, n) + [] == TickEvents(nodes, n);
    }
  }
}
