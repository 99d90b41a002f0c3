/** The duo pair table as a finite map, and the order of its ids. */
module ClusterPairs {
  import opened FixedPoint
  import opened DuoLadder
  import opened ClusterSpec
  import opened ClusterInvariant

  /** Ids strictly increase in table order and never exceed the last one handed out. */
  predicate IdsOrdered(s: State) {
    && (forall i, j :: 0 <= i < j < |s.pairs| ==> s.pairs[i].id < s.pairs[j].id)
    && (forall i :: 0 <= i < |s.pairs| ==> s.pairs[i].id <= s.nextPairId)
  }

  /** No two slots share an id. */
  predicate Distinct(pairs: seq<Pair>) {
    forall i, j :: 0 <= i < j < |pairs| ==> pairs[i].id != pairs[j].id
  }

  /** The table as a map from id to pair. */
  function Table(pairs: seq<Pair>): map<u32, Pair> {
    if pairs == [] then map[] else
    var n := |pairs| - 1;
    Table(pairs[..n])[pairs[n].id := pairs[n]]
  }

  lemma DistinctFront(pairs: seq<Pair>)
    requires Distinct(pairs) && pairs != []
    ensures Distinct(pairs[..|pairs| - 1])
  {
  }

  /** With distinct ids every slot is in the map under its id, and nothing else is. */
  lemma {:induction false} TableAt(pairs: seq<Pair>, id: u32)
    requires Distinct(pairs)
    ensures id in Table(pairs) ==> exists i: nat :: i < |pairs| && pairs[i].id == id
    ensures forall i: nat :: i < |pairs| && pairs[i].id == id ==> id in Table(pairs) && Table(pairs)[id] == pairs[i]
    decreases |pairs|
  {
    if pairs != [] {
      var front := pairs[..|pairs| - 1];
      DistinctFront(pairs);
      TableAt(front, id);
      if id in Table(front) {
        var i: nat :| i < |front| && front[i].id == id;
        assert pairs[i].id == id;
      }
      if pairs[|front|].id == id {
        assert pairs[|front|].id == id;
      }
      assert forall i: nat :: i < |front| ==> pairs[i] == front[i];
    }
  }

  /** Looking an id up in the table is looking it up in the map. */
  lemma LookupIsMap(pairs: seq<Pair>, id: u32)
    requires Distinct(pairs)
    ensures id in Table(pairs) <==> FindPair(pairs, id) < |pairs|
    ensures id in Table(pairs) ==> Table(pairs)[id] == pairs[FindPair(pairs, id)]
  {
    hide Table, Distinct;
    TableAt(pairs, id);
    var k := FindPair(pairs, id);
    if k < |pairs| {
      assert pairs[k].id == id;
    }
  }

  lemma TableSnoc(pairs: seq<Pair>, p: Pair)
    ensures Table(pairs + [p]) == Table(pairs)[p.id := p]
  {
    assert (pairs + [p])[..|pairs|] == pairs;
  }

  function Dropped(pairs: seq<Pair>, i: nat): seq<Pair>
    requires i < |pairs|
  {
    pairs[..i] + pairs[i + 1..]
  }

  lemma LastIsNew(pairs: seq<Pair>, n: nat)
    requires Distinct(pairs) && |pairs| == n + 1
    ensures pairs[n].id !in Table(pairs[..n])
    ensures forall i: nat :: i < n ==> pairs[i].id != pairs[n].id
  {
    hide Table;
    DistinctFront(pairs);
    TableAt(pairs[..n], pairs[n].id);
  }

  lemma RemoveNew<K, V>(m: map<K, V>, k: K, v: V)
    requires k !in m
    ensures m[k := v] - {k} == m
  {
  }

  lemma RemoveBeside<K, V>(m: map<K, V>, k: K, l: K, v: V)
    requires k != l
    ensures (m - {k})[l := v] == m[l := v] - {k}
  {
  }

  lemma UpdateTwice<K, V>(m: map<K, V>, k: K, u: V, v: V)
    ensures m[k := u][k := v] == m[k := v]
  {
  }

  lemma UpdateBeside<K, V>(m: map<K, V>, k: K, u: V, l: K, v: V)
    requires k != l
    ensures m[k := u][l := v] == m[l := v][k := u]
  {
  }

  lemma DroppedDistinct(pairs: seq<Pair>, i: nat)
    requires Distinct(pairs) && i < |pairs|
    ensures Distinct(Dropped(pairs, i))
  {
  }

  lemma UpdatedDistinct(pairs: seq<Pair>, i: nat, q: Pair)
    requires Distinct(pairs) && i < |pairs| && q.id == pairs[i].id
    ensures Distinct(pairs[i := q])
  {
  }

  /** Moving the later slots down over slot `i` takes that pair's id out of the map, nothing else. */
  lemma {:induction false} DropIsRemove(pairs: seq<Pair>, i: nat)
    requires Distinct(pairs) && i < |pairs|
    ensures Distinct(Dropped(pairs, i))
    ensures Table(Dropped(pairs, i)) == Table(pairs) - {pairs[i].id}
    decreases |pairs|
  {
    hide Table, Distinct;
    var n := |pairs| - 1;
    var front := pairs[..n];
    LastIsNew(pairs, n);
    TableSnoc(front, pairs[n]);
    assert pairs == front + [pairs[n]];
    if i == n {
      assert Dropped(pairs, i) == front;
      DistinctFront(pairs);
      RemoveNew(Table(front), pairs[n].id, pairs[n]);
    } else {
      DistinctFront(pairs);
      DropIsRemove(front, i);
      assert Dropped(pairs, i) == Dropped(front, i) + [pairs[n]];
      TableSnoc(Dropped(front, i), pairs[n]);
      DroppedDistinct(pairs, i);
      RemoveBeside(Table(front), pairs[i].id, pairs[n].id, pairs[n]);
    }
  }

  /** Changing a slot in place, id kept, changes the map at that id. */
  lemma {:induction false} UpdateIsUpdate(pairs: seq<Pair>, i: nat, q: Pair)
    requires Distinct(pairs) && i < |pairs| && q.id == pairs[i].id
    ensures Distinct(pairs[i := q])
    ensures Table(pairs[i := q]) == Table(pairs)[q.id := q]
    decreases |pairs|
  {
    hide Table, Distinct;
    var n := |pairs| - 1;
    var front := pairs[..n];
    LastIsNew(pairs, n);
    TableSnoc(front, pairs[n]);
    assert pairs == front + [pairs[n]];
    UpdatedDistinct(pairs, i, q);
    if i == n {
      assert pairs[i := q] == front + [q];
      TableSnoc(front, q);
      UpdateTwice(Table(front), q.id, pairs[n], q);
    } else {
      DistinctFront(pairs);
      UpdateIsUpdate(front, i, q);
      assert pairs[i := q] == front[i := q] + [pairs[n]];
      TableSnoc(front[i := q], pairs[n]);
      UpdateBeside(Table(front), q.id, q, pairs[n].id, pairs[n]);
    }
  }

  lemma OrderedDistinct(s: State)
    ensures IdsOrdered(s) ==> Distinct(s.pairs)
  {
  }

  /** An accepted add puts the pair into the map under its id, and keeps the ids distinct exactly when
      that id is not in the table. */
  lemma AddRefines(s: State, a: u32, b: u32, mode: u32)
    requires Distinct(s.pairs) && AddPair(s, a, b, mode).code == OK
    ensures var t, id := AddPair(s, a, b, mode).state, Succ32(s.nextPairId);
            && t.nextPairId == id
            && Table(t.pairs) == Table(s.pairs)[id := Recomputed(FreshPair(id, a, b, mode))]
            && (Distinct(t.pairs) <==> id !in Table(s.pairs))
  {
    hide Recomputed, Table, FreshPair, Distinct;
    var id := Succ32(s.nextPairId);
    var p := Recomputed(FreshPair(id, a, b, mode));
    RecomputedId(id, a, b, mode);
    TableSnoc(s.pairs, p);
    TableAt(s.pairs, id);
    SnocDistinct(s.pairs, p);
  }

  lemma SnocDistinct(pairs: seq<Pair>, p: Pair)
    requires Distinct(pairs)
    ensures Distinct(pairs + [p]) <==> forall i: nat :: i < |pairs| ==> pairs[i].id != p.id
  {
    var l := pairs + [p];
    if Distinct(l) {
      forall i: nat | i < |pairs| ensures pairs[i].id != p.id {
        assert l[i].id != l[|pairs|].id;
      }
    }
  }

  /** A pair added under an id that is still in the table cannot be reached: every lookup finds the slot
      it found before. */
  lemma CollidingAddIsShadowed(s: State, a: u32, b: u32, mode: u32, id: u32)
    requires Distinct(s.pairs) && AddPair(s, a, b, mode).code == OK && Succ32(s.nextPairId) in Table(s.pairs)
    ensures var t := AddPair(s, a, b, mode).state;
            var i := FindPair(s.pairs, id);
            if i < |s.pairs| then FindPair(t.pairs, id) == i else FindPair(t.pairs, id) == |t.pairs|
  {
    hide Recomputed, Table, FreshPair, Distinct;
    var q := Succ32(s.nextPairId);
    var p := Recomputed(FreshPair(q, a, b, mode));
    RecomputedId(q, a, b, mode);
    LookupIsMap(s.pairs, q);
    var t := AddPair(s, a, b, mode).state;
    assert t.pairs == s.pairs + [p];
    var i, k := FindPair(s.pairs, id), FindPair(t.pairs, id);
    assert forall j :: 0 <= j < |s.pairs| ==> t.pairs[j] == s.pairs[j];
    assert s.pairs[FindPair(s.pairs, q)].id == q;
    if i < |s.pairs| {
      assert t.pairs[i].id == id;
    }
  }

  lemma RecomputedId(id: u32, a: u32, b: u32, mode: u32)
    ensures Recomputed(FreshPair(id, a, b, mode)).id == id
  {
    hide Ladder;
  }

  /** Deleting a pair, which moves the later slots down, takes its id out of the map and nothing else. */
  lemma DelRefines(s: State, id: u32)
    requires Distinct(s.pairs)
    ensures Distinct(DelPair(s, id).state.pairs)
    ensures DelPair(s, id).code == OK <==> id in Table(s.pairs)
    ensures Table(DelPair(s, id).state.pairs) == Table(s.pairs) - {id}
  {
    hide Table, Distinct;
    LookupIsMap(s.pairs, id);
    var i := FindPair(s.pairs, id);
    if i < |s.pairs| {
      DropIsRemove(s.pairs, i);
    }
  }

  lemma DelKeepsOrder(s: State, id: u32)
    requires IdsOrdered(s)
    ensures IdsOrdered(DelPair(s, id).state)
  {
    hide FindPair;
  }

  /** A pulse changes the map at its own id only, and keeps every id. */
  lemma PulseRefines(s: State, id: u32, value: u32)
    requires Distinct(s.pairs)
    ensures var t := Pulse(s, id, value).state;
            && Distinct(t.pairs) && Table(t.pairs).Keys == Table(s.pairs).Keys
            && forall k: u32 :: k in Table(s.pairs) && k != id ==> Table(t.pairs)[k] == Table(s.pairs)[k]
  {
    hide Table, Pulse, FindPair, Distinct, IdsOrdered;
    var t := Pulse(s, id, value).state;
    var i := FindPair(s.pairs, id);
    PulsedIds(s, id, value);
    LookupIsMap(s.pairs, id);
    if t.pairs != s.pairs {
      UpdateIsUpdate(s.pairs, i, t.pairs[i]);
    }
  }

  lemma PulsedIds(s: State, id: u32, value: u32)
    ensures var t := Pulse(s, id, value).state;
            var i := FindPair(s.pairs, id);
            && t.nextPairId == s.nextPairId
            && (t.pairs == s.pairs || (i < |s.pairs| && |t.pairs| == |s.pairs|
                                       && t.pairs == s.pairs[i := t.pairs[i]] && t.pairs[i].id == s.pairs[i].id))
    ensures IdsOrdered(s) ==> IdsOrdered(Pulse(s, id, value).state)
  {
    hide Ladder, FedNodes;
  }

  // ----- runs: ids stay ordered for fewer than 2^32 adds, and the bound is exact

  /** How many of the operations of a run are accepted adds. */
  function Adds(s: State, ops: seq<Op>): nat
    requires |s.nodes| == MAX_NODES
    decreases ops
  {
    if ops == [] then 0 else
    (if ops[0].DoAddPair? && Step(s, ops[0]).code == OK then 1 else 0) + Adds(Step(s, ops[0]).state, ops[1..])
  }

  lemma StepKeepsIds(s: State, op: Op)
    requires |s.nodes| == MAX_NODES && IdsOrdered(s)
    ensures !(op.DoAddPair? && Step(s, op).code == OK) ==>
              IdsOrdered(Step(s, op).state) && Step(s, op).state.nextPairId == s.nextPairId
    ensures op.DoAddPair? && Step(s, op).code == OK && s.nextPairId < U32 - 1 ==>
              IdsOrdered(Step(s, op).state) && Step(s, op).state.nextPairId == s.nextPairId + 1
  {
    hide Step, Pulse, DelPair, AddPair, IdsOrdered, Table, FindPair;
    StepOnPairs(s, op);
    if op.DoDelPair? {
      DelKeepsOrder(s, op.pair);
      DelKeepsNext(s, op.pair);
    } else if op.DoPulse? {
      PulsedIds(s, op.pair, op.value);
    } else if op.DoAddPair? {
      AddKeepsIds(s, op.a, op.b, op.mode);
    } else {
      SamePairs(s, op);
    }
  }

  lemma AddKeepsIds(s: State, a: u32, b: u32, mode: u32)
    requires IdsOrdered(s)
    ensures var e := AddPair(s, a, b, mode);
            && (e.code != OK ==> e.state == s)
            && (e.code == OK && s.nextPairId < U32 - 1
                ==> IdsOrdered(e.state) && e.state.nextPairId == s.nextPairId + 1)
  {
    hide FreshPair, Recomputed;
    RecomputedId(Succ32(s.nextPairId), a, b, mode);
  }

  lemma DelKeepsNext(s: State, id: u32)
    ensures DelPair(s, id).state.nextPairId == s.nextPairId
  {
  }

  lemma OtherPairs(s: State, op: Op)
    requires |s.nodes| == MAX_NODES && !op.DoAddPair? && !op.DoDelPair? && !op.DoPulse?
    ensures Step(s, op).state.pairs == s.pairs && Step(s, op).state.nextPairId == s.nextPairId
  {
    hide TickNodes, Relinked, Unlinking, NewNode, Truncated;
  }

  lemma SamePairs(s: State, op: Op)
    requires |s.nodes| == MAX_NODES && IdsOrdered(s)
    requires !op.DoAddPair? && !op.DoDelPair? && !op.DoPulse?
    ensures Step(s, op).state.pairs == s.pairs && Step(s, op).state.nextPairId == s.nextPairId
    ensures IdsOrdered(Step(s, op).state)
  {
    hide Step;
    OtherPairs(s, op);
  }

  /** With fewer than 2^32 accepted adds, ids stay strictly increasing and bounded by the counter. */
  lemma {:induction false} RunKeepsIds(s: State, ops: seq<Op>)
    requires |s.nodes| == MAX_NODES && IdsOrdered(s)
    requires s.nextPairId + Adds(s, ops) < U32
    ensures IdsOrdered(Run(s, ops)) && Run(s, ops).nextPairId == s.nextPairId + Adds(s, ops)
    decreases ops
  {
    hide Step, IdsOrdered;
    if ops != [] {
      StepKeepsIds(s, ops[0]);
      RunKeepsIds(Step(s, ops[0]).state, ops[1..]);
    }
  }

  /** An accepted add keeps the order exactly when the id counter does not wrap, or the table was
      empty. */
  lemma AddKeepsIdsIff(s: State, a: u32, b: u32, mode: u32)
    requires IdsOrdered(s) && AddPair(s, a, b, mode).code == OK
    ensures IdsOrdered(AddPair(s, a, b, mode).state) <==> s.nextPairId != U32 - 1 || s.pairs == []
  {
    hide Ladder, FreshPair;
    var t := AddPair(s, a, b, mode).state;
    var n := |s.pairs|;
    if s.nextPairId < U32 - 1 {
      AddKeepsIds(s, a, b, mode);
    } else {
      FreshId(s, a, b, mode);
      assert t.pairs[n].id == 0;
      if n > 0 {
        assert t.pairs[0] == s.pairs[0];
      }
    }
  }

  lemma FreshId(s: State, a: u32, b: u32, mode: u32)
    requires AddPair(s, a, b, mode).code == OK
    ensures var t := AddPair(s, a, b, mode).state;
            && |t.pairs| == |s.pairs| + 1 && t.pairs[..|s.pairs|] == s.pairs
            && t.pairs[|s.pairs|].id == Succ32(s.nextPairId) == t.nextPairId
  {
    hide Ladder;
  }

  /** One operation breaks the distinctness of ids only by adding under an id that is in the table. */
  lemma StepKeepsDistinct(s: State, op: Op)
    requires |s.nodes| == MAX_NODES && Distinct(s.pairs)
    ensures Distinct(Step(s, op).state.pairs)
            <==> !(op.DoAddPair? && Step(s, op).code == OK && Succ32(s.nextPairId) in Table(s.pairs))
  {
    hide Step, Pulse, DelPair, AddPair, Distinct, Table, FindPair;
    StepOnPairs(s, op);
    if op.DoDelPair? {
      DelRefines(s, op.pair);
    } else if op.DoPulse? {
      PulseRefines(s, op.pair, op.value);
    } else if op.DoAddPair? {
      if Step(s, op).code == OK {
        AddRefines(s, op.a, op.b, op.mode);
      } else {
        RefusedAdd(s, op.a, op.b, op.mode);
      }
    } else {
      OtherPairs(s, op);
    }
  }

  lemma RefusedAdd(s: State, a: u32, b: u32, mode: u32)
    ensures AddPair(s, a, b, mode).code != OK ==> AddPair(s, a, b, mode).state == s
  {
    hide Recomputed, FreshPair;
  }

  // ----- the counter does wrap

  /** What the adds of a churn ask for. */
  datatype Pick = Pick(a: u32, b: u32, mode: u32)

  /** Adds of a pair between two nodes, each undone by a delete, from counter value `from` on. */
  function Churn(p: Pick, from: nat, k: nat): seq<Op>
    requires from + k < U32
    decreases k
  {
    if k == 0 then [] else [DoAddPair(p.a, p.b, p.mode), DoDelPair(from + 1)] + Churn(p, from + 1, k - 1)
  }

  /** Room for one more pair between the two nodes, and no pair has one of the next `k` ids. */
  predicate Ready(s: State, p: Pick, k: nat) {
    && |s.nodes| == MAX_NODES && p.a != p.b && Found(s.nodes, p.a) && Found(s.nodes, p.b) && |s.pairs| < MAX_PAIRS
    && s.nextPairId + k < U32
    && forall i :: 0 <= i < |s.pairs| ==> !(s.nextPairId < s.pairs[i].id <= s.nextPairId + k)
  }

  lemma AddThere(s: State, p: Pick, k: nat)
    requires Ready(s, p, k) && k > 0
    ensures var e, id := AddPair(s, p.a, p.b, p.mode), s.nextPairId + 1;
            e.code == OK && e.state == s.(pairs := s.pairs + [Recomputed(FreshPair(id, p.a, p.b, p.mode))], nextPairId := id)
  {
    hide Recomputed, FreshPair;
  }

  lemma FindLast(pairs: seq<Pair>, p: Pair)
    requires forall i :: 0 <= i < |pairs| ==> pairs[i].id != p.id
    ensures FindPair(pairs + [p], p.id) == |pairs|
  {
    var l := pairs + [p];
    assert l[|pairs|].id == p.id;
    assert forall i :: 0 <= i < |pairs| ==> l[i].id == pairs[i].id;
  }

  /** One add and the delete of the pair it made: only the counter has moved. */
  lemma AddDel(s: State, p: Pick, k: nat)
    requires Ready(s, p, k) && k > 0
    ensures var id := s.nextPairId + 1;
            DelPair(AddPair(s, p.a, p.b, p.mode).state, id).state == s.(nextPairId := id)
  {
    hide Recomputed, FreshPair, FindPair, AddPair;
    var id := s.nextPairId + 1;
    var q := Recomputed(FreshPair(id, p.a, p.b, p.mode));
    AddThere(s, p, k);
    RecomputedId(id, p.a, p.b, p.mode);
    FindLast(s.pairs, q);
    assert (s.pairs + [q])[..|s.pairs|] + (s.pairs + [q])[|s.pairs| + 1..] == s.pairs;
  }

  lemma RunTwo(s: State, a: Op, b: Op, rest: seq<Op>)
    requires |s.nodes| == MAX_NODES
    ensures Run(s, [a, b] + rest) == Run(Step(Step(s, a).state, b).state, rest)
  {
    hide Step;
    var ops := [a, b] + rest;
    assert ops[1..] == [b] + rest;
    assert ([b] + rest)[1..] == rest;
  }

  lemma ReadyAfter(s: State, p: Pick, k: nat)
    requires Ready(s, p, k) && k > 0
    ensures Ready(s.(nextPairId := s.nextPairId + 1), p, k - 1)
  {
  }

  lemma ReadySize(s: State, p: Pick, k: nat)
    requires Ready(s, p, k)
    ensures |s.nodes| == MAX_NODES && s.nextPairId + k < U32
  {
  }

  lemma ChurnStep(p: Pick, from: nat, k: nat)
    requires from + k < U32
    ensures k == 0 ==> Churn(p, from, k) == []
    ensures k > 0 ==> Churn(p, from, k) == [DoAddPair(p.a, p.b, p.mode), DoDelPair(from + 1)] + Churn(p, from + 1, k - 1)
  {
  }

  /** What the first add and delete of a churn do. */
  lemma ChurnOnce(s: State, p: Pick, k: nat, rest: seq<Op>)
    requires Ready(s, p, k) && k > 0
    ensures Run(s, [DoAddPair(p.a, p.b, p.mode), DoDelPair(s.nextPairId + 1)] + rest)
            == Run(s.(nextPairId := s.nextPairId + 1), rest)
  {
    hide Ready, Step, AddPair, DelPair, Run, Recomputed, FreshPair;
    ReadySize(s, p, k);
    AddThere(s, p, k);
    AddDel(s, p, k);
    var add, del := DoAddPair(p.a, p.b, p.mode), DoDelPair(s.nextPairId + 1);
    StepOnPairs(s, add);
    StepOnPairs(Step(s, add).state, del);
    RunTwo(s, add, del, rest);
  }

  /** A churn moves the counter and leaves everything else as it was. */
  lemma {:induction false} ChurnMovesCounter(s: State, p: Pick, k: nat)
    requires Ready(s, p, k)
    ensures Run(s, Churn(p, s.nextPairId, k)) == s.(nextPairId := s.nextPairId + k)
    decreases k
  {
    hide Ready, Run, Churn;
    ReadySize(s, p, k);
    ChurnStep(p, s.nextPairId, k);
    if k == 0 {
      RunNone(s);
    } else {
      ReadyAfter(s, p, k);
      ChurnOnce(s, p, k, Churn(p, s.nextPairId + 1, k - 1));
      ChurnMovesCounter(s.(nextPairId := s.nextPairId + 1), p, k - 1);
    }
  }

  lemma RunNone(s: State)
    requires |s.nodes| == MAX_NODES
    ensures Run(s, []) == s
  {
  }

  lemma {:induction false} RunJoins(s: State, before: seq<Op>, after: seq<Op>)
    requires |s.nodes| == MAX_NODES
    ensures Run(s, before + after) == Run(Run(s, before), after)
    decreases before
  {
    hide Step;
    if before == [] {
      assert before + after == after;
    } else {
      assert (before + after)[1..] == before[1..] + after;
      RunJoins(Step(s, before[0]).state, before[1..], after);
    }
  }

  lemma RunOne(s: State, op: Op)
    requires |s.nodes| == MAX_NODES
    ensures Run(s, [op]) == Step(s, op).state
  {
    hide Step;
    assert [op][1..] == [];
  }

  /** An add that is accepted, as a state. */
  lemma Accepted(s: State, p: Pick)
    requires p.a != p.b && Found(s.nodes, p.a) && Found(s.nodes, p.b) && |s.pairs| < MAX_PAIRS
    ensures var e, id := AddPair(s, p.a, p.b, p.mode), Succ32(s.nextPairId);
            e.code == OK && e.state == s.(pairs := s.pairs + [Recomputed(FreshPair(id, p.a, p.b, p.mode))], nextPairId := id)
  {
    hide Recomputed, FreshPair;
  }

  /** The next add breaks the order of ids, and the one after it makes two pairs share an id. */
  predicate Wraps(s: State, p: Pick) {
    var e := AddPair(s, p.a, p.b, p.mode);
    var f := AddPair(e.state, p.a, p.b, p.mode);
    && s.nextPairId == U32 - 1 && IdsOrdered(s)
    && e.code == OK && !IdsOrdered(e.state) && Distinct(e.state.pairs)
    && f.code == OK && !Distinct(f.state.pairs)
  }

  lemma WrapsWithFirst(s: State, p: Pick, q: Pair)
    requires p.a != p.b && Found(s.nodes, p.a) && Found(s.nodes, p.b)
    requires s.pairs == [q] && q.id == 1 && s.nextPairId == U32 - 1
    ensures Wraps(s, p)
  {
    hide Recomputed, FreshPair, AddPair;
    Accepted(s, p);
    RecomputedId(0, p.a, p.b, p.mode);
    var t := AddPair(s, p.a, p.b, p.mode).state;
    assert t.pairs[0].id == 1 && t.pairs[1].id == 0 && |t.pairs| == 2;
    Accepted(t, p);
    RecomputedId(1, p.a, p.b, p.mode);
    var u := AddPair(t, p.a, p.b, p.mode).state;
    assert u.pairs[0].id == u.pairs[2].id;
  }

  lemma ReachesWrap(s: State, p: Pick, k: nat)
    requires Ready(s, p, k + 1) && s.pairs == [] && s.nextPairId == 0 && k + 2 == U32
    ensures exists ops :: Wraps(Run(s, ops), p)
  {
    hide Run, Step, Churn, AddPair, Wraps, Recomputed, FreshPair;
    var add := DoAddPair(p.a, p.b, p.mode);
    AddThere(s, p, k + 1);
    RecomputedId(1, p.a, p.b, p.mode);
    StepOnPairs(s, add);
    RunOne(s, add);
    var t := Run(s, [add]);
    ChurnMovesCounter(t, p, k);
    RunJoins(s, [add], Churn(p, 1, k));
    var q := Recomputed(FreshPair(1, p.a, p.b, p.mode));
    assert t.pairs == [q];
    WrapsWithFirst(t.(nextPairId := 1 + k), p, q);
  }

  lemma NodeOpKeepsFound(s: State, op: Op, id: u32)
    requires |s.nodes| == MAX_NODES && (op.DoAddNode? || op.DoLink?)
    ensures Found(s.nodes, id) ==> Found(Step(s, op).state.nodes, id)
    ensures op.DoAddNode? && op.id == id < MAX_NODES ==> Found(Step(s, op).state.nodes, id)
    ensures Step(s, op).state.pairs == s.pairs && Step(s, op).state.nextPairId == s.nextPairId
  {
    hide Truncated;
  }

  lemma {:induction false} RunKeepsFound(s: State, ops: seq<Op>, id: u32)
    requires |s.nodes| == MAX_NODES && forall op :: op in ops ==> op.DoAddNode? || op.DoLink?
    ensures Found(s.nodes, id) ==> Found(Run(s, ops).nodes, id)
    ensures id < MAX_NODES && (exists op :: op in ops && op.DoAddNode? && op.id == id) ==> Found(Run(s, ops).nodes, id)
    ensures Run(s, ops).pairs == s.pairs && Run(s, ops).nextPairId == s.nextPairId
    decreases ops
  {
    hide Step, Found;
    if ops != [] {
      NodeOpKeepsFound(s, ops[0], id);
      RunKeepsFound(Step(s, ops[0]).state, ops[1..], id);
    }
  }

  lemma BootReady(p: Pick, k: nat)
    requires p.a == 0 && p.b == 1 && k < U32
    ensures var s := Run(BLANK, BOOT);
            Ready(s, p, k) && s.pairs == [] && s.nextPairId == 0
  {
    hide Run, Found;
    assert BOOT[0] in BOOT && BOOT[1] in BOOT;
    RunKeepsFound(BLANK, BOOT, 0);
    RunKeepsFound(BLANK, BOOT, 1);
  }

  /** After module init some run reaches a state with ordered ids whose next add breaks the order, and
      whose next but one makes two pairs share an id. */
  lemma CounterWraps(p: Pick)
    requires p.a == 0 && p.b == 1
    ensures exists ops :: Wraps(Run(Run(BLANK, BOOT), ops), p)
  {
    hide Run, Wraps;
    BootReady(p, U32 - 1);
    ReachesWrap(Run(BLANK, BOOT), p, U32 - 2);
  }
}
