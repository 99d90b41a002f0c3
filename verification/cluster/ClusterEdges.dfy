/** The link masks as an undirected graph, and the link count as the number of its edges. */
module ClusterEdges {
  import opened FixedPoint
  import opened LinkMask
  import opened ClusterSpec
  import opened ClusterInvariant

  /** The undirected edges among the first `n` slots, smaller end first. */
  ghost function Edges(nodes: seq<Node>, n: nat): set<(nat, nat)>
    requires n <= |nodes|
  {
    set x: nat, y: nat | x < y < n && Bit(nodes[y].links, x) :: (x, y)
  }

  /** The edges from slot `a` to the first `m` slots. */
  ghost function Row(nodes: seq<Node>, a: nat, m: nat): set<(nat, nat)>
    requires a < |nodes|
  {
    set x: nat | x < m && Bit(nodes[a].links, x) :: (x, a)
  }

  lemma {:induction false} RowSize(nodes: seq<Node>, a: nat, m: nat)
    requires a < |nodes|
    ensures |Row(nodes, a, m)| == WeightBelow(nodes[a].links, m)
    decreases m
  {
    hide Bit;
    if m == 0 {
      assert Row(nodes, a, 0) == {};
    } else {
      RowSize(nodes, a, m - 1);
      var r := Row(nodes, a, m - 1);
      assert (m - 1, a) !in r;
      assert Row(nodes, a, m) == if Bit(nodes[a].links, m - 1) then r + {(m - 1, a)} else r;
    }
  }

  /** How many edges run from each of the first `n` slots to smaller ones. */
  function LowerSum(nodes: seq<Node>, n: nat): nat
    requires n <= |nodes|
  {
    if n == 0 then 0 else LowerSum(nodes, n - 1) + WeightBelow(nodes[n - 1].links, n - 1)
  }

  lemma {:induction false} EdgesSize(nodes: seq<Node>, n: nat)
    requires n <= |nodes|
    ensures |Edges(nodes, n)| == LowerSum(nodes, n)
    decreases n
  {
    hide Edges, Row, WeightBelow;
    if n == 0 {
      NoEdges(nodes);
    } else {
      EdgesSplit(nodes, n - 1);
      EdgesSize(nodes, n - 1);
      RowSize(nodes, n - 1, n - 1);
    }
  }

  lemma NoEdges(nodes: seq<Node>)
    ensures Edges(nodes, 0) == {}
  {
  }

  lemma EdgesSplit(nodes: seq<Node>, n: nat)
    requires n < |nodes|
    ensures Edges(nodes, n + 1) == Edges(nodes, n) + Row(nodes, n, n) && Edges(nodes, n) !! Row(nodes, n, n)
  {
    hide Bit;
  }

  /** The bits below `m` in the masks of the first `n` slots. */
  function Square(nodes: seq<Node>, n: nat, m: nat): nat
    requires n <= |nodes|
  {
    if n == 0 then 0 else Square(nodes, n - 1, m) + WeightBelow(nodes[n - 1].links, m)
  }

  /** How many of the first `n` slots have bit `c` set. */
  function Column(nodes: seq<Node>, n: nat, c: nat): nat
    requires n <= |nodes|
  {
    if n == 0 then 0 else Column(nodes, n - 1, c) + (if Bit(nodes[n - 1].links, c) then 1 else 0)
  }

  lemma {:induction false} SquareWidens(nodes: seq<Node>, n: nat, m: nat)
    requires n <= |nodes|
    ensures Square(nodes, n, m + 1) == Square(nodes, n, m) + Column(nodes, n, m)
    decreases n
  {
    hide Bit;
    if n > 0 {
      SquareWidens(nodes, n - 1, m);
    }
  }

  lemma {:induction false} ColumnIsRow(nodes: seq<Node>, n: nat, c: nat)
    requires |nodes| == MAX_NODES && Symmetric(nodes) && n <= MAX_NODES && c < MAX_NODES
    ensures Column(nodes, n, c) == WeightBelow(nodes[c].links, n)
    decreases n
  {
    hide Bit;
    if n > 0 {
      ColumnIsRow(nodes, n - 1, c);
      assert Bit(nodes[n - 1].links, c) <==> Bit(nodes[c].links, n - 1);
    }
  }

  lemma {:induction false} SquareIsTwice(nodes: seq<Node>, n: nat)
    requires |nodes| == MAX_NODES && Symmetric(nodes) && n <= MAX_NODES
    ensures Square(nodes, n, n) == 2 * LowerSum(nodes, n)
    decreases n
  {
    hide Bit;
    if n > 0 {
      SquareIsTwice(nodes, n - 1);
      SquareWidens(nodes, n - 1, n - 1);
      ColumnIsRow(nodes, n - 1, n - 1);
      assert !Bit(nodes[n - 1].links, n - 1);
    }
  }

  lemma {:induction false} ZeroWeight(n: nat)
    ensures WeightBelow(0, n) == 0
  {
    hide Bit;
    if n > 0 {
      ZeroWeight(n - 1);
      ZeroBit(n - 1);
    }
  }

  lemma {:induction false} WeightSumIsSquare(nodes: seq<Node>, n: nat)
    requires NodesOk(nodes) && n <= MAX_NODES
    ensures WeightSum(nodes, n) == Square(nodes, n, MAX_NODES)
    decreases n
  {
    hide WeightBelow;
    if n > 0 {
      WeightSumIsSquare(nodes, n - 1);
      assert NodeOk(nodes[n - 1], n - 1);
      ZeroWeight(MAX_NODES);
    }
  }

  /** The weights of all masks add up to twice the number of undirected edges, so the sum is even and
      half of it is the exact link count. */
  lemma LinkCount(s: State)
    requires Inv(s)
    ensures WeightSum(s.nodes, MAX_NODES) == 2 * |Edges(s.nodes, MAX_NODES)|
  {
    hide Symmetric, Bit, NodeOk, PairOk;
    WeightSumIsSquare(s.nodes, MAX_NODES);
    SquareIsTwice(s.nodes, MAX_NODES);
    EdgesSize(s.nodes, MAX_NODES);
  }

  /** Linking two present nodes adds exactly their edge; unlinking removes exactly it. */
  lemma LinkChangesOneEdge(s: State, a: u32, b: u32, enable: bool)
    requires Inv(s) && a != b && Found(s.nodes, a) && Found(s.nodes, b)
    ensures var e := if a < b then (a, b) else (b, a);
            Edges(Link(s, a, b, enable).state.nodes, MAX_NODES)
            == if enable then Edges(s.nodes, MAX_NODES) + {e} else Edges(s.nodes, MAX_NODES) - {e}
  {
    hide Bit, Relinked, Inv;
    assert |s.nodes| == MAX_NODES by { InvSize(s); }
    var r := Relinked(s.nodes, a, b, enable);
    forall x: nat, y: nat | x < y < MAX_NODES
      ensures Bit(r[y].links, x)
              == if (y == a && x == b) || (y == b && x == a) then enable else Bit(s.nodes[y].links, x)
    {
      RelinkedBit(s.nodes, a, b, enable, y, x);
    }
  }

  /** Unlinking two nodes that were not linked before undoes linking them, bit for bit. */
  lemma UnlinkUndoesLink(s: State, a: u32, b: u32)
    requires Inv(s) && a != b && Found(s.nodes, a) && Found(s.nodes, b) && !Bit(s.nodes[a].links, b)
    ensures Link(Link(s, a, b, true).state, a, b, false).state.nodes == s.nodes
  {
    hide Bit, SetBit, ClearBit, PairOk, NodeOk;
    assert !Bit(s.nodes[b].links, a);
    ClearUnset(s.nodes[a].links, b);
    ClearUnset(s.nodes[b].links, a);
  }

  /** Deleting a node right after adding it leaves every node slot, masks included, as it was. */
  lemma DelUndoesAdd(s: State, id: u32, name: string)
    requires Inv(s) && AddNode(s, id, name).code == OK
    ensures DelNode(AddNode(s, id, name).state, id).code == OK
    ensures DelNode(AddNode(s, id, name).state, id).state.nodes == s.nodes
  {
    hide Bit, ClearBit, PairOk, Truncated;
    var n := s.nodes[id := NewNode(id, name)];
    assert NodeOk(s.nodes[id], id);
    forall i | 0 <= i < MAX_NODES && i != id ensures n[i].(links := ClearBit(n[i].links, id)) == s.nodes[i] {
      assert !Bit(s.nodes[i].links, id);
      ClearUnset(s.nodes[i].links, id);
    }
  }

  /** Deleting a node removes exactly the edges at it. */
  lemma DelRemovesItsEdges(s: State, id: u32)
    requires Inv(s) && Found(s.nodes, id)
    ensures Edges(DelNode(s, id).state.nodes, MAX_NODES)
            == set e | e in Edges(s.nodes, MAX_NODES) && e.0 != id && e.1 != id
  {
    hide Bit, Unlinking, Inv;
    assert |s.nodes| == MAX_NODES by { InvSize(s); }
    var r := Unlinking(s.nodes, id)[id := NO_NODE];
    forall x: nat, y: nat | x < y < MAX_NODES
      ensures Bit(r[y].links, x) == (x != id && y != id && Bit(s.nodes[y].links, x))
    {
      UnlinkingBit(s.nodes, id, y, x);
      ZeroBit(x);
    }
  }
}
