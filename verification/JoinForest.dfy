/** When the conditions along a forest imply all join conditions of a query. Tables are
    numbers, each with a set of join attributes; two tables are joined on the attributes
    they share. Connectedness is expressed by cuts: a set of tables that has something to
    do with the rest is left by some edge. */
module JoinForest {

  type Edge = (nat, nat)

  function Flip(e: Edge): Edge { (e.1, e.0) }

  /** The attributes of every table. */
  type Attrs = seq<set<nat>>

  function Shared(attrs: Attrs, a: nat, b: nat): set<nat> {
    if a < |attrs| && b < |attrs| then attrs[a] * attrs[b] else {}
  }

  function Upto(n: nat): (s: set<nat>)
    ensures |s| == n && forall v: nat :: v in s <==> v < n
  {
    if n == 0 then {} else Upto(n - 1) + {n - 1}
  }

  function Tables(attrs: Attrs): set<nat> { Upto(|attrs|) }

  predicate Undirected(attrs: Attrs, edges: set<Edge>) {
    forall e :: e in edges ==> e.0 < |attrs| && e.1 < |attrs| && Flip(e) in edges
  }

  /** The only edge that leads out of `side` is `e`. */
  predicate Cuts(edges: set<Edge>, e: Edge, side: set<nat>) {
    && (e.0 in side) != (e.1 in side)
    && forall g :: g in edges && g != e && g != Flip(e) ==> (g.0 in side) == (g.1 in side)
  }

  ghost predicate NoCycle(edges: set<Edge>) {
    forall e :: e in edges ==> exists side :: Cuts(edges, e, side)
  }

  predicate Leaves(attrs: Attrs, edges: set<Edge>, x: nat, z: set<nat>) {
    exists e :: e in edges && e.0 in z && e.1 !in z && x in Shared(attrs, e.0, e.1)
  }

  predicate LeavesIfSplit(attrs: Attrs, edges: set<Edge>, x: nat, z: set<nat>, p: nat, q: nat) {
    p in z && q !in z && x in Shared(attrs, p, q) ==> Leaves(attrs, edges, x, z)
  }

  /** The tables that have attribute `x` are connected by edges between such tables. */
  ghost predicate Connected(attrs: Attrs, edges: set<Edge>) {
    forall x: nat, z: set<nat>, p: nat, q: nat :: LeavesIfSplit(attrs, edges, x, z, p, q)
  }

  /** A join forest of the query. A query that has one is called acyclic. */
  ghost predicate IsJoinForest(attrs: Attrs, edges: set<Edge>) {
    Undirected(attrs, edges) && NoCycle(edges) && Connected(attrs, edges)
  }

  ghost predicate AcyclicQuery(attrs: Attrs) {
    exists edges :: IsJoinForest(attrs, edges)
  }

  // ---- an edge on the way between two tables ----

  lemma OtherSide(attrs: Attrs, edges: set<Edge>, e: Edge, side: set<nat>)
    requires Undirected(attrs, edges) && e in edges && Cuts(edges, e, side)
    ensures Cuts(edges, e, Tables(attrs) - side)
  {
  }

  /** The side of an edge on which `u` lies. */
  ghost function Side(attrs: Attrs, edges: set<Edge>, e: Edge, u: nat): (side: set<nat>)
    requires Undirected(attrs, edges) && NoCycle(edges) && e in edges && u < |attrs|
    ensures u in side && Cuts(edges, e, side)
  {
    var x :| Cuts(edges, e, x);
    OtherSide(attrs, edges, e, x);
    if u in x then x else Tables(attrs) - x
  }

  /** No edge leads from `z` to the rest of `s`. */
  predicate ClosedIn(edges: set<Edge>, s: set<nat>, z: set<nat>) {
    z <= s && forall e :: e in edges && e.0 in z && e.1 in s ==> e.1 in z
  }

  ghost predicate Within(attrs: Attrs, edges: set<Edge>, z: set<nat>, u: nat)
    requires Undirected(attrs, edges) && NoCycle(edges) && u < |attrs|
  {
    forall e :: e in edges && e.0 in z && e.1 !in z ==> z <= Side(attrs, edges, e, u)
  }

  /** The part of `s` around `u`, on one side of each edge that leads out of it. */
  lemma {:induction false} Around(attrs: Attrs, edges: set<Edge>, s: set<nat>, u: nat,
                                  z: set<nat>) returns (core: set<nat>)
    requires Undirected(attrs, edges) && NoCycle(edges) && u < |attrs|
    requires u in z && ClosedIn(edges, s, z)
    ensures u in core && ClosedIn(edges, s, core) && Within(attrs, edges, core, u)
    decreases |z|
  {
    if Within(attrs, edges, z, u) {
      core := z;
    } else {
      var e :| e in edges && e.0 in z && e.1 !in z && !(z <= Side(attrs, edges, e, u));
      var side := Side(attrs, edges, e, u);
      var smaller := z * side;
      assert smaller < z;
      Smaller(smaller, z);
      assert ClosedIn(edges, s, smaller);
      core := Around(attrs, edges, s, u, smaller);
    }
  }

  lemma Smaller(a: set<nat>, b: set<nat>)
    requires a < b
    ensures |a| < |b|
  {
    assert b == a + (b - a);
    assert |b - a| > 0;
  }

  ghost predicate Between(edges: set<Edge>, f: Edge, side: set<nat>, u: nat, v: nat) {
    f in edges && Cuts(edges, f, side) && u in side && v !in side
  }

  ghost predicate Boundary(edges: set<Edge>, core: set<nat>, e: Edge) {
    e in edges && e.0 in core && e.1 !in core
  }

  /** The tables on the side of `u` of every edge that leads out of the core and does not
      separate `u` from `v`. */
  ghost predicate Inner(attrs: Attrs, edges: set<Edge>, core: set<nat>, u: nat, v: nat, w: nat)
    requires Undirected(attrs, edges) && NoCycle(edges) && u < |attrs|
  {
    w < |attrs| && forall g :: Boundary(edges, core, g) && v in Side(attrs, edges, g, u) ==>
      w in Side(attrs, edges, g, u)
  }

  lemma StaysInner(attrs: Attrs, edges: set<Edge>, core: set<nat>, u: nat, v: nat, e: Edge)
    requires Undirected(attrs, edges) && NoCycle(edges) && u < |attrs|
    requires e in edges && e.0 !in core && e.1 !in core && Inner(attrs, edges, core, u, v, e.0)
    ensures Inner(attrs, edges, core, u, v, e.1)
  {
    forall g | Boundary(edges, core, g) && v in Side(attrs, edges, g, u)
      ensures e.1 in Side(attrs, edges, g, u)
    {
      assert e != g && e != Flip(g);
    }
  }

  /** Some edge that leads out of the core separates `u` from `v`. */
  lemma WayOut(attrs: Attrs, edges: set<Edge>, core: set<nat>, u: nat, v: nat, x: nat) returns (f: Edge)
    requires IsJoinForest(attrs, edges) && u in core && v !in core && x in Shared(attrs, u, v)
    requires Within(attrs, edges, core, u)
    ensures Boundary(edges, core, f) && v !in Side(attrs, edges, f, u)
  {
    var rest := set w | w in Tables(attrs) && w !in core && Inner(attrs, edges, core, u, v, w);
    assert LeavesIfSplit(attrs, edges, x, rest, v, u);
    var e :| e in edges && e.0 in rest && e.1 !in rest;
    if e.1 !in core {
      StaysInner(attrs, edges, core, u, v, e);
    }
    f := Flip(e);
    assert core <= Side(attrs, edges, f, u);
  }

  /** If `u` in `s` and `v` outside of it share an attribute, some edge of the forest leads
      out of `s` and lies between them. */
  lemma EdgeBetween(attrs: Attrs, edges: set<Edge>, s: set<nat>, u: nat, v: nat, x: nat) returns (f: Edge,
                    side: set<nat>)
    requires IsJoinForest(attrs, edges) && u in s && v !in s && x in Shared(attrs, u, v)
    ensures Between(edges, f, side, u, v) && f.0 in s && f.1 !in s
  {
    var core := Around(attrs, edges, s, u, s);
    f := WayOut(attrs, edges, core, u, v, x);
    side := Side(attrs, edges, f, u);
  }

  // ---- exchanging an edge ----

  /** What `u` and `v` share, every edge between them shares. */
  lemma BetweenShares(attrs: Attrs, edges: set<Edge>, f: Edge, side: set<nat>, u: nat, v: nat)
    requires IsJoinForest(attrs, edges) && Between(edges, f, side, u, v)
    ensures Shared(attrs, u, v) <= Shared(attrs, f.0, f.1)
  {
    forall x | x in Shared(attrs, u, v)
      ensures x in Shared(attrs, f.0, f.1)
    {
      assert LeavesIfSplit(attrs, edges, x, side, u, v);
    }
  }

  function Exchange(edges: set<Edge>, f: Edge, e: Edge): set<Edge> {
    edges - {f, Flip(f)} + {e, Flip(e)}
  }

  lemma ExchangeNoCycle(edges: set<Edge>, f: Edge, side: set<nat>, e: Edge)
    requires NoCycle(edges) && Between(edges, f, side, e.0, e.1)
    ensures NoCycle(Exchange(edges, f, e))
  {
    var edges' := Exchange(edges, f, e);
    forall g | g in edges'
      ensures exists x :: Cuts(edges', g, x)
    {
      if g == e || g == Flip(e) {
        assert Cuts(edges', g, side);
      } else {
        var x :| Cuts(edges, g, x);
        if (e.0 in x) == (e.1 in x) {
          assert Cuts(edges', g, x);
        } else {
          var y := (x - side) + (side - x);
          assert (g.0 in side) == (g.1 in side);
          assert Cuts(edges', g, y);
        }
      }
    }
  }

  /** An edge other than `f` that leaves `z`, found by a cut that `f` does not cross. */
  lemma Detour(attrs: Attrs, edges: set<Edge>, f: Edge, side: set<nat>, x: nat, z: set<nat>, cut: set<nat>, p: nat,
               q: nat)
    requires Undirected(attrs, edges) && Connected(attrs, edges) && Cuts(edges, f, side)
    requires p in cut && q !in cut && x in Shared(attrs, p, q) && (f.0 in cut) == (f.1 in cut)
    requires cut == z - side || cut == z * side || cut == z + side || cut == z + (Tables(attrs) - side)
    ensures Leaves(attrs, edges - {f, Flip(f)}, x, z)
  {
    assert LeavesIfSplit(attrs, edges, x, cut, p, q);
    var g := LeavingEdge(attrs, edges, x, cut);
    assert g != f && g != Flip(f);
    assert g.0 in z && g.1 !in z;
    EdgeLeaves(attrs, edges - {f, Flip(f)}, x, z, g);
  }

  lemma ExchangeSplit(attrs: Attrs, edges: set<Edge>, f: Edge, side: set<nat>, e: Edge, x: nat, z: set<nat>, i: nat,
                      o: nat)
    requires IsJoinForest(attrs, edges) && Between(edges, f, side, e.0, e.1)
    requires x in Shared(attrs, f.0, f.1) && x in Shared(attrs, e.0, e.1)
    requires (f == (i, o) || f == (o, i)) && i in z && o !in z && (e.0 in z) == (e.1 in z)
    ensures Leaves(attrs, edges - {f, Flip(f)}, x, z)
  {
    var u, v := e.0, e.1;
    if u in z {
      if o in side {
        Detour(attrs, edges, f, side, x, z, z * side, u, o);
      } else {
        Detour(attrs, edges, f, side, x, z, z - side, v, o);
      }
    } else if i in side {
      Detour(attrs, edges, f, side, x, z, z + (Tables(attrs) - side), i, u);
    } else {
      Detour(attrs, edges, f, side, x, z, z + side, i, v);
    }
  }

  lemma LeavesMore(attrs: Attrs, edges: set<Edge>, more: set<Edge>, x: nat, z: set<nat>)
    requires Leaves(attrs, edges, x, z) && edges <= more
    ensures Leaves(attrs, more, x, z)
  {
    var e := LeavingEdge(attrs, edges, x, z);
    EdgeLeaves(attrs, more, x, z, e);
  }

  lemma ExchangeConnected(attrs: Attrs, edges: set<Edge>, f: Edge, side: set<nat>, e: Edge)
    requires IsJoinForest(attrs, edges) && Between(edges, f, side, e.0, e.1)
    requires Shared(attrs, f.0, f.1) == Shared(attrs, e.0, e.1)
    ensures Connected(attrs, Exchange(edges, f, e))
  {
    hide Exchange, Leaves, Between;
    var edges' := Exchange(edges, f, e);
    forall x: nat, z: set<nat>, p: nat, q: nat | p in z && q !in z && x in Shared(attrs, p, q)
      ensures Leaves(attrs, edges', x, z)
    {
      assert LeavesIfSplit(attrs, edges, x, z, p, q);
      var g := LeavingEdge(attrs, edges, x, z);
      ExchangeLeaves(attrs, edges, f, side, e, x, z, g);
    }
  }

  lemma LeavingEdge(attrs: Attrs, edges: set<Edge>, x: nat, z: set<nat>) returns (g: Edge)
    requires Leaves(attrs, edges, x, z)
    ensures g in edges && g.0 in z && g.1 !in z && x in Shared(attrs, g.0, g.1)
  {
    g :| g in edges && g.0 in z && g.1 !in z && x in Shared(attrs, g.0, g.1);
  }

  lemma EdgeLeaves(attrs: Attrs, edges: set<Edge>, x: nat, z: set<nat>, g: Edge)
    requires g in edges && g.0 in z && g.1 !in z && x in Shared(attrs, g.0, g.1)
    ensures Leaves(attrs, edges, x, z)
  {
  }

  lemma ExchangeLeaves(attrs: Attrs, edges: set<Edge>, f: Edge, side: set<nat>, e: Edge, x: nat, z: set<nat>, g: Edge)
    requires IsJoinForest(attrs, edges) && Between(edges, f, side, e.0, e.1)
    requires Shared(attrs, f.0, f.1) == Shared(attrs, e.0, e.1)
    requires g in edges && g.0 in z && g.1 !in z && x in Shared(attrs, g.0, g.1)
    ensures Leaves(attrs, Exchange(edges, f, e), x, z)
  {
    hide Connected, NoCycle, Leaves, Between;
    var edges' := Exchange(edges, f, e);
    if g != f && g != Flip(f) {
      EdgeLeaves(attrs, edges', x, z, g);
    } else {
      assert x in Shared(attrs, f.0, f.1);
      if e.0 in z && e.1 !in z {
        EdgeLeaves(attrs, edges', x, z, e);
      } else if e.1 in z && e.0 !in z {
        EdgeLeaves(attrs, edges', x, z, Flip(e));
      } else {
        ExchangeSplit(attrs, edges, f, side, e, x, z, g.0, g.1);
        LeavesMore(attrs, edges - {f, Flip(f)}, edges', x, z);
      }
    }
  }

  /** Of all pairs across the border of `s`, `e` shares the most. */
  predicate Heaviest(attrs: Attrs, s: set<nat>, e: Edge) {
    && e.0 in s && e.1 !in s && e.0 < |attrs| && e.1 < |attrs|
    && forall a, b :: a in s && a < |attrs| && b !in s && 0 <= b < |attrs| ==>
         |Shared(attrs, a, b)| <= |Shared(attrs, e.0, e.1)|
  }

  lemma BetweenEdge(edges: set<Edge>, f: Edge, side: set<nat>, u: nat, v: nat)
    requires Between(edges, f, side, u, v)
    ensures f in edges
  {
  }

  lemma SubsetFull(a: set<nat>, b: set<nat>)
    requires a <= b && |b| <= |a|
    ensures a == b
  {
    assert b == a + (b - a);
    assert |b| == |a| + |b - a|;
  }

  /** A heaviest edge across a border can always be made part of a join forest, without
      touching any edge on this side of the border. */
  lemma TakeHeaviest(attrs: Attrs, edges: set<Edge>, s: set<nat>, e: Edge) returns (edges': set<Edge>)
    requires IsJoinForest(attrs, edges) && Heaviest(attrs, s, e) && Shared(attrs, e.0, e.1) != {}
    ensures IsJoinForest(attrs, edges') && e in edges' && Flip(e) in edges'
    ensures forall g :: g in edges && (g.0 in s) == (g.1 in s) ==> g in edges'
  {
    hide Connected, NoCycle, Between;
    if e in edges {
      edges' := edges;
    } else {
      var x :| x in Shared(attrs, e.0, e.1);
      var f, side := EdgeBetween(attrs, edges, s, e.0, e.1, x);
      assert f in edges by { BetweenEdge(edges, f, side, e.0, e.1); }
      BetweenShares(attrs, edges, f, side, e.0, e.1);
      SubsetFull(Shared(attrs, e.0, e.1), Shared(attrs, f.0, f.1));
      edges' := Exchange(edges, f, e);
      ExchangeNoCycle(edges, f, side, e);
      ExchangeConnected(attrs, edges, f, side, e);
    }
  }
}
