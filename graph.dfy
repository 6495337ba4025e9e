/**
 * The adjacency matrix of the spatial objects, and the neighbourhoods the graph-based fold
 * generators grow on it: the one-hop neighbourhood of a node list, breadth-first growth ring by
 * ring, and the number of non-empty rings.
 */
module Graph {
  import opened Seqs

  import opened Frames

  /**
   * A square adjacency matrix: its labels in column order, and for every row label the columns
   * holding a positive entry. Entries are weights that are never negative, so a column sum over
   * some rows is positive exactly when one of those rows has a positive entry in that column.
   */
  datatype Adjacency = Adjacency(labels: seq<Idx>, positive: map<Idx, set<Idx>>)

  ghost predicate Valid(g: Adjacency)
  {
    Distinct(g.labels) && g.positive.Keys == Elems(g.labels)
    && forall i :: i in g.positive ==> g.positive[i] <= g.positive.Keys
  }

  /** Some row of `s` has a positive entry in column `c`. */
  predicate Touches(g: Adjacency, s: seq<Idx>, c: Idx)
  {
    exists i :: i in s && i in g.positive && c in g.positive[i]
  }

  /**
   * The one-hop neighbourhood of the node list `s`: the columns, in column order, whose sum over
   * the rows `s` is positive, less the members of `s`. Every member of `s` must be a row label
   * (`adj_matrix.loc[s]` raises KeyError otherwise).
   */
  function Neighbors(g: Adjacency, s: seq<Idx>): (r: seq<Idx>)
    requires forall i :: i in s ==> i in g.positive
    ensures forall c :: c in r <==> c in g.labels && Touches(g, s, c) && c !in s
  {
    Filter(g.labels, c => Touches(g, s, c) && c !in s)
  }

  /** The neighbourhood lists every node once, and never a node of `s`. */
  lemma NeighborsDistinct(g: Adjacency, s: seq<Idx>)
    requires Valid(g)
    requires forall i :: i in s ==> i in g.positive
    ensures Distinct(Neighbors(g, s))
    ensures forall c :: c in Neighbors(g, s) ==> c !in s && c in g.positive
  {
    FilterOrder(g.labels, c => Touches(g, s, c) && c !in s);
  }

  /** `adj_matrix.loc[local, local]`: the rows and columns `local`, in the order of `local`. */
  function Restrict(g: Adjacency, local: seq<Idx>): (r: Adjacency)
    requires forall i :: i in local ==> i in g.positive
    ensures Distinct(local) && Valid(g) ==> Valid(r)
    ensures forall i :: i in r.positive <==> i in local
    ensures forall i, j :: i in r.positive ==> (j in r.positive[i] <==> j in g.positive[i] && j in local)
  {
    Adjacency(local, map i | i in Elems(local) :: g.positive[i] * Elems(local))
  }

  /** `s` followed by `k` breadth-first rings: the nodes within `k` hops of `s`, `s` first. */
  function Grow(g: Adjacency, s: seq<Idx>, k: nat): (r: seq<Idx>)
    requires forall i :: i in s ==> i in g.positive
    requires Valid(g)
    ensures forall i :: i in r ==> i in g.positive
    ensures |s| <= |r| && r[..|s|] == s
    decreases k
  {
    if k == 0 then s
    else
      var p := Grow(g, s, k - 1);
      NeighborsDistinct(g, p);
      p + Neighbors(g, p)
  }

  /** The ring of nodes first reached at exactly `k` hops from `s`. */
  function Ring(g: Adjacency, s: seq<Idx>, k: nat): (r: seq<Idx>)
    requires forall i :: i in s ==> i in g.positive
    requires Valid(g)
    requires k >= 1
  {
    Neighbors(g, Grow(g, s, k - 1))
  }

  /** Growing `k` rings is growing `k - 1` rings and appending the ring at `k` hops. */
  lemma GrowRing(g: Adjacency, s: seq<Idx>, k: nat)
    requires forall i :: i in s ==> i in g.positive
    requires Valid(g)
    requires k >= 1
    ensures Grow(g, s, k) == Grow(g, s, k - 1) + Ring(g, s, k)
    ensures forall x :: x in Grow(g, s, k) <==> x in Grow(g, s, k - 1) || x in Ring(g, s, k)
  {
  }

  /** Growth from a duplicate-free list lists every node once. */
  lemma {:induction false} GrowDistinct(g: Adjacency, s: seq<Idx>, k: nat)
    requires forall i :: i in s ==> i in g.positive
    requires Valid(g) && Distinct(s)
    ensures Distinct(Grow(g, s, k))
    decreases k
  {
    if k > 0 {
      GrowDistinct(g, s, k - 1);
      var p := Grow(g, s, k - 1);
      NeighborsDistinct(g, p);
      DistinctConcat(p, Neighbors(g, p));
    }
  }

  /** The number of non-empty breadth-first rings around `s`. */
  function Layers(g: Adjacency, s: seq<Idx>): nat
    requires forall i :: i in s ==> i in g.positive
    requires Valid(g)
    decreases Elems(g.labels) - Elems(s)
  {
    var n := Neighbors(g, s);
    if n == [] then 0
    else
      GrowthShrinks(g, s);
      1 + Layers(g, s + n)
  }

  /** A non-empty neighbourhood leaves strictly fewer unseen nodes. */
  lemma GrowthShrinks(g: Adjacency, s: seq<Idx>)
    requires forall i :: i in s ==> i in g.positive
    requires Valid(g)
    requires Neighbors(g, s) != []
    ensures forall i :: i in s + Neighbors(g, s) ==> i in g.positive
    ensures Elems(g.labels) - Elems(s + Neighbors(g, s)) < Elems(g.labels) - Elems(s)
    ensures |Elems(g.labels) - Elems(s + Neighbors(g, s))| < |Elems(g.labels) - Elems(s)|
  {
    var n := Neighbors(g, s);
    NeighborsDistinct(g, s);
    var h := n[0];
    assert h in n;
    var unseen := Elems(g.labels) - Elems(s);
    var left := Elems(g.labels) - Elems(s + n);
    assert h in unseen - left;
    assert left <= unseen;
    assert unseen == left + (unseen - left);
  }

  /** A node one hop from nodes within `c` hops of `t` is within `c + 1` hops of `t`. */
  lemma NeighborsWithinGrow(g: Adjacency, t: seq<Idx>, c: nat, s: seq<Idx>)
    requires forall i :: i in t ==> i in g.positive
    requires Valid(g)
    requires forall i :: i in s ==> i in g.positive && i in Grow(g, t, c)
    ensures forall x :: x in Neighbors(g, s) ==> x in Grow(g, t, c + 1)
  {
    var p := Grow(g, t, c);
    NeighborsDistinct(g, p);
    forall x | x in Neighbors(g, s) ensures x in Grow(g, t, c + 1) {
      var i :| i in s && i in g.positive && x in g.positive[i];
      if x !in p {
        assert i in p;
        assert Touches(g, p, x);
        assert x in Neighbors(g, p);
      }
    }
  }

  /** Growing `k` rings from `s` is growing `k - 1` rings from `s` and its first ring. */
  lemma {:induction false} GrowShift(g: Adjacency, s: seq<Idx>, k: nat)
    requires forall i :: i in s ==> i in g.positive
    requires Valid(g)
    requires k >= 1
    ensures Grow(g, s, k) == Grow(g, s + Neighbors(g, s), k - 1)
    decreases k
  {
    NeighborsDistinct(g, s);
    if k > 1 {
      GrowShift(g, s, k - 1);
    }
  }

  /** Growth only appends: fewer rounds give a prefix of more rounds. */
  lemma {:induction false} GrowPrefix(g: Adjacency, s: seq<Idx>, k: nat, m: nat)
    requires forall i :: i in s ==> i in g.positive
    requires Valid(g)
    requires k <= m
    ensures |Grow(g, s, k)| <= |Grow(g, s, m)| && Grow(g, s, m)[..|Grow(g, s, k)|] == Grow(g, s, k)
    decreases m
  {
    if k < m {
      GrowPrefix(g, s, k, m - 1);
      var p := Grow(g, s, m - 1);
      assert Grow(g, s, m)[..|p|] == p;
    }
  }

  /** A row within `k` hops is within any larger number of hops. */
  lemma GrowMonotone(g: Adjacency, s: seq<Idx>, k: nat, m: nat, rows: seq<Idx>)
    requires forall i :: i in s ==> i in g.positive
    requires Valid(g)
    requires k <= m
    requires forall i :: i in rows ==> i in Grow(g, s, k)
    ensures forall i :: i in rows ==> i in Grow(g, s, m)
  {
    GrowPrefix(g, s, k, m);
    var p := Grow(g, s, k);
    forall i | i in rows ensures i in Grow(g, s, m) {
      var j :| 0 <= j < |p| && p[j] == i;
      assert Grow(g, s, m)[j] == i;
    }
  }

  /**
   * The rings counted by `Layers` are the non-empty ones: rings 1 to `Layers(g, s)` are non-empty
   * and every later ring is empty.
   */
  lemma {:induction false} LayersAreRings(g: Adjacency, s: seq<Idx>, j: nat)
    requires forall i :: i in s ==> i in g.positive
    requires Valid(g)
    requires j >= 1
    ensures Ring(g, s, j) != [] <==> j <= Layers(g, s)
    decreases Elems(g.labels) - Elems(s), j
  {
    var n := Neighbors(g, s);
    NeighborsDistinct(g, s);
    if j > 1 {
      GrowShift(g, s, j - 1);
      assert Ring(g, s, j) == Ring(g, s + n, j - 1);
      if n == [] {
        assert s + n == s;
        LayersAreRings(g, s, j - 1);
        assert Ring(g, s, j - 1) == [];
      } else {
        GrowthShrinks(g, s);
        LayersAreRings(g, s + n, j - 1);
      }
    }
  }

  /** Every non-empty ring brings in a node not seen before, so there are at most as many as unseen nodes. */
  lemma {:induction false} LayersBound(g: Adjacency, s: seq<Idx>)
    requires forall i :: i in s ==> i in g.positive
    requires Valid(g)
    ensures Layers(g, s) <= |Elems(g.labels) - Elems(s)|
    decreases Elems(g.labels) - Elems(s)
  {
    var n := Neighbors(g, s);
    if n != [] {
      GrowthShrinks(g, s);
      LayersBound(g, s + n);
    }
  }

  /** Beyond as many hops as the graph has nodes, every ring is empty. */
  lemma RingsVanish(g: Adjacency, s: seq<Idx>, k: nat)
    requires forall i :: i in s ==> i in g.positive
    requires Valid(g)
    requires k > |g.labels|
    ensures Ring(g, s, k) == []
  {
    LayersBound(g, s);
    DistinctCard(g.labels);
    assert |Elems(g.labels) - Elems(s)| <= |Elems(g.labels)|;
    LayersAreRings(g, s, k);
  }
}
