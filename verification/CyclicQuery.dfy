/** Why the query has to be acyclic. Along trees that leave some attribute unconnected,
    rows can match everywhere and still break a condition of the query. So for every cyclic
    query there are tables that lose no row, although the query has no result. */
module CyclicQuery {
  import opened JoinTree
  import opened JoinForest
  import opened JoinOrder
  import opened PredicateTransfer
  import opened RobustTransfer

  // ---- rows that match along the trees only ----

  /** One for attribute `x` in the tables of `z`, and zero everywhere else. */
  function MarkedRow(names: Names, x: nat, z: set<nat>, v: nat): Row
    requires v < |names|
  {
    seq(|names[v]|, c requires 0 <= c < |names[v]| => if names[v][c] == x && v in z then 1 else 0)
  }

  function Marked(names: Names, order: seq<nat>, x: nat, z: set<nat>): seq<Row>
    requires forall k :: 0 <= k < |order| ==> order[k] < |names|
  {
    seq(|order|, k requires 0 <= k < |order| => MarkedRow(names, x, z, order[k]))
  }

  /** A condition between two tables holds of their rows, unless it is about `x` and just
      one of the tables is in `z`. */
  lemma PairMarked(g: Graph, names: Names, e: Edge, x: nat, z: set<nat>, i: nat)
    requires SchemaOk(g, names) && e in g.conds && e.0 < |names| && e.1 < |names| && i < |g.conds[e]|
    ensures var pair := g.conds[e][i];
      && pair.0 < |names[e.0]| && pair.1 < |names[e.1]| && names[e.0][pair.0] in Shared(AttrsOf(names), e.0, e.1)
      && (Cell(MarkedRow(names, x, z, e.0), pair.0) == Cell(MarkedRow(names, x, z, e.1), pair.1) <==>
            names[e.0][pair.0] != x || (e.0 in z) == (e.1 in z))
  {
    hide Natural;
    assert PairsOk(g, names, e);
    var pair := g.conds[e][i];
    assert names[e.0][pair.0] == names[e.1][pair.1];
  }

  /** An edge of the trees does not split the tables that have `x`. */
  lemma LinkMarked(g: Graph, names: Names, order: seq<nat>, links: seq<Link>, x: nat, z: set<nat>, k: nat)
    requires GraphOk(g) && SchemaOk(g, names) && Ordered(g, order, {}) && LinksOk(g, order, links) && Forest(links)
    requires !Leaves(AttrsOf(names), TreeEdges(order, links), x, z) && k < |links| && links[k].Child?
    ensures forall j :: 0 <= j < |order| ==> order[j] < |names|
    ensures Matches(links[k], Marked(names, order, x, z)[k], Marked(names, order, x, z)[links[k].parent])
  {
    hide Natural, PairsOk, MarkedRow, AttrsOf;
    assert LinkOk(g, order, links, k);
    var p := links[k].parent;
    var e := (order[p], order[k]);
    var t := Marked(names, order, x, z);
    var a, b := KeyOf(t[k], links[k].own), KeyOf(t[p], links[k].other);
    assert e in TreeEdges(order, links) && Flip(e) in TreeEdges(order, links);
    forall i | 0 <= i < |g.conds[e]|
      ensures a[i] == b[i]
    {
      PairMarked(g, names, e, x, z, i);
      if names[e.0][g.conds[e][i].0] == x {
        assert x in Shared(AttrsOf(names), e.0, e.1) && x in Shared(AttrsOf(names), e.1, e.0);
        SplitLeaves(AttrsOf(names), TreeEdges(order, links), x, z, e);
      }
    }
  }

  lemma SplitLeaves(attrs: Attrs, edges: set<Edge>, x: nat, z: set<nat>, e: Edge)
    requires e in edges && Flip(e) in edges && x in Shared(attrs, e.0, e.1) && x in Shared(attrs, e.1, e.0)
    requires !Leaves(attrs, edges, x, z)
    ensures (e.0 in z) == (e.1 in z)
  {
    assert e.0 in z && e.1 !in z ==> Leaves(attrs, edges, x, z);
    assert Flip(e).0 in z && Flip(e).1 !in z ==> Leaves(attrs, edges, x, z);
  }

  /** Two tables that share `x` on different sides break a condition. */
  lemma SplitBreaks(g: Graph, names: Names, order: seq<nat>, x: nat, z: set<nat>, p: nat, q: nat)
    requires GraphOk(g) && SchemaOk(g, names) && Ordered(g, order, {})
    requires (forall j :: 0 <= j < |order| ==> order[j] < |names|)
    requires p in z && q !in z && x in Shared(AttrsOf(names), p, q)
    ensures !AllConditions(g, order, Marked(names, order, x, z))
  {
    hide MarkedRow, PairsOk;
    var e, t := (p, q), Marked(names, order, x, z);
    assert Weight(g, p, q) == |Shared(AttrsOf(names), p, q)| > 0;
    assert PairsOk(g, names, e);
    var i := PairOf(g, names, e, x);
    PairMarked(g, names, e, x, z, i);
    assert p in order && q in order;
    var j :| 0 <= j < |order| && order[j] == p;
    var k :| 0 <= k < |order| && order[k] == q;
    assert !Agree(g, (order[j], order[k]), t[j], t[k]);
  }

  lemma PairOf(g: Graph, names: Names, e: Edge, x: nat) returns (i: nat)
    requires e in g.conds && e.0 < |names| && e.1 < |names| && PairsOk(g, names, e) && x in names[e.0]
    requires x in names[e.1]
    ensures i < |g.conds[e]| && g.conds[e][i].0 < |names[e.0]| && names[e.0][g.conds[e][i].0] == x
  {
    i :| 0 <= i < |g.conds[e]| && names[e.0][g.conds[e][i].0] == x;
  }

  /** If the trees leave an attribute unconnected, rows can match along them and break
      another condition. */
  lemma TreesMiss(g: Graph, names: Names, order: seq<nat>, links: seq<Link>) returns (t: seq<Row>)
    requires GraphOk(g) && SchemaOk(g, names) && Ordered(g, order, {}) && LinksOk(g, order, links) && Forest(links)
    requires !Connected(AttrsOf(names), TreeEdges(order, links))
    ensures Along(links, t) && !AllConditions(g, order, t)
  {
    hide MarkedRow, Matches, AllConditions, GraphOk, SchemaOk, Ordered, TreeEdges, AttrsOf, Leaves;
    var attrs, edges := AttrsOf(names), TreeEdges(order, links);
    var x: nat, z: set<nat>, p: nat, q: nat :| !LeavesIfSplit(attrs, edges, x, z, p, q);
    OrderInNames(g, names, order);
    t := Marked(names, order, x, z);
    forall k | 0 <= k < |links| && links[k].Child? && links[k].parent < k
      ensures Matches(links[k], t[k], t[links[k].parent])
    {
      LinkMarked(g, names, order, links, x, z, k);
    }
    SplitBreaks(g, names, order, x, z, p, q);
  }

  lemma OrderInNames(g: Graph, names: Names, order: seq<nat>)
    requires SchemaOk(g, names) && Ordered(g, order, {})
    ensures forall j :: 0 <= j < |order| ==> order[j] < |names|
  {
    hide Natural;
  }

  /** The conditions along the trees imply all conditions of the query if and only if the
      trees connect every attribute. */
  lemma ForestSufficesIff(g: Graph, names: Names, order: seq<nat>, links: seq<Link>)
    requires GraphOk(g) && SchemaOk(g, names) && Ordered(g, order, {}) && LinksOk(g, order, links) && Forest(links)
    ensures Connected(AttrsOf(names), TreeEdges(order, links)) <==>
      forall t: seq<Row> :: Along(links, t) ==> AllConditions(g, order, t)
  {
    hide Along, AllConditions, GraphOk, SchemaOk, Ordered, TreeEdges, AttrsOf, Connected;
    if Connected(AttrsOf(names), TreeEdges(order, links)) {
      forall t: seq<Row> | Along(links, t)
        ensures AllConditions(g, order, t)
      {
        ForestSuffices(g, names, order, links, t);
      }
    } else {
      var t := TreesMiss(g, names, order, links);
    }
  }

  // ---- tables that lose no row ----

  function OneRowEach(t: seq<Row>): seq<set<Row>> {
    seq(|t|, k requires 0 <= k < |t| => {t[k]})
  }

  /** Tables of one row each, which match along the trees: nothing is ever filtered out,
      whatever the filters, as long as they have no false negatives. */
  lemma NothingLost(links: seq<Link>, t: seq<Row>, left: seq<set<Row>>)
    requires Forest(links) && Along(links, t) && KeepsJoin(links, OneRowEach(t), left)
    ensures left == OneRowEach(t)
  {
    hide Matches;
    assert Joined(links, OneRowEach(t), t);
    assert Stays(left, t);
    forall k | 0 <= k < |links|
      ensures left[k] == OneRowEach(t)[k]
    {
      assert t[k] in left[k] && left[k] <= {t[k]};
    }
  }

  lemma OneRowReduced(links: seq<Link>, t: seq<Row>)
    requires Forest(links) && Along(links, t)
    ensures Reduced(links, OneRowEach(t)) && NoneEmpty(links, OneRowEach(t))
    ensures KeepsJoin(links, OneRowEach(t), OneRowEach(t))
  {
    hide Matches;
    var tables := OneRowEach(t);
    forall i | 0 <= i < |links| && links[i].Child?
      ensures Upward(links, tables, i) && Downward(links, tables, i)
    {
      assert Matches(links[i], t[i], t[links[i].parent]);
      assert tables[i] == {t[i]} && tables[links[i].parent] == {t[links[i].parent]};
    }
    forall k | 0 <= k < |links|
      ensures t[k] in tables[k]
    {
    }
  }

  lemma NoOtherResult(g: Graph, order: seq<nat>, t: seq<Row>, r: seq<Row>)
    requires !AllConditions(g, order, t)
    ensures !Result(g, order, OneRowEach(t), r)
  {
    hide AllConditions;
    if |r| == |t| && forall k :: 0 <= k < |r| ==> r[k] in OneRowEach(t)[k] {
      assert forall k :: 0 <= k < |r| ==> r[k] == t[k];
      assert r == t;
    }
  }

  /** For every cyclic query, and every choice of trees, there are tables of one row each
      that lose nothing to any filters, although the query has no result. */
  lemma CyclicKeepsAll(g: Graph, names: Names, order: seq<nat>, links: seq<Link>) returns (tables: seq<set<Row>>)
    requires GraphOk(g) && SchemaOk(g, names) && Built(g, order, links, {}) && Forest(links)
    requires !AcyclicQuery(AttrsOf(names))
    ensures |tables| == |links| && Reduced(links, tables) && NoneEmpty(links, tables)
    ensures KeepsJoin(links, tables, tables)
    ensures forall left :: KeepsJoin(links, tables, left) ==> left == tables
    ensures forall r :: !Result(g, order, tables, r)
  {
    hide GraphOk, TreeEdges, AttrsOf, Connected, AcyclicQuery, AllConditions, Along, KeepsJoin, Reduced, NoneEmpty;
    hide Result;
    assert Natural(g, AttrsOf(names)) && |links| == |order|;
    if Connected(AttrsOf(names), TreeEdges(order, links)) {
      TreesWitness(g, AttrsOf(names), order, links);
    }
    hide SchemaOk, Ordered, LinksOk, Apart;
    var t := TreesMiss(g, names, order, links);
    tables := OneRowEach(t);
    AlongLength(links, t);
    OneRowReduced(links, t);
    forall left | KeepsJoin(links, tables, left)
      ensures left == tables
    {
      NothingLost(links, t, left);
    }
    forall r
      ensures !Result(g, order, tables, r)
    {
      NoOtherResult(g, order, t, r);
    }
  }

  lemma AlongLength(links: seq<Link>, t: seq<Row>)
    requires Along(links, t)
    ensures |t| == |links|
  {
  }

  /** Every row that is left belongs to a result, whatever is in the tables. */
  ghost predicate LeavesOnlyResults(g: Graph, order: seq<nat>, links: seq<Link>)
    requires Forest(links)
  {
    forall left: seq<set<Row>>, i, row ::
      |left| == |links| && Reduced(links, left) && NoneEmpty(links, left) && 0 <= i < |links| && row in left[i] ==>
        exists t: seq<Row> :: Result(g, order, left, t) && t[i] == row
  }

  /** Reducing the tables along the chosen trees leaves nothing but rows of the result if
      and only if the query is acyclic. */
  lemma ReducesIff(g: Graph, names: Names, order: seq<nat>, links: seq<Link>)
    requires GraphOk(g) && SchemaOk(g, names) && Built(g, order, links, {}) && Forest(links) && |links| > 0
    requires AcyclicQuery(AttrsOf(names)) ==> Connected(AttrsOf(names), TreeEdges(order, links))
    ensures LeavesOnlyResults(g, order, links) <==> AcyclicQuery(AttrsOf(names))
  {
    hide GraphOk, SchemaOk, TreeEdges, AttrsOf, Connected, AcyclicQuery, Reduced, NoneEmpty, KeepsJoin, AllConditions;
    if AcyclicQuery(AttrsOf(names)) {
      forall left: seq<set<Row>>, i, row |
        |left| == |links| && Reduced(links, left) && NoneEmpty(links, left) && 0 <= i < |links| && row in left[i]
        ensures exists t: seq<Row> :: Result(g, order, left, t) && t[i] == row
      {
        var t := RowInResult(g, names, order, links, left, i, row);
      }
    } else {
      var tables := CyclicKeepsAll(g, names, order, links);
      var row := SomeRow(links, tables);
      assert row in tables[0];
    }
  }

  /** The trees the optimizer builds reduce the tables to rows of the result if and only if
      the query is acyclic. */
  method ChooseTrees(g: Graph, ghost names: Names) returns (order: seq<nat>, links: seq<Link>)
    requires GraphOk(g) && |g.cards| > 0
    ensures Built(g, order, links, {}) && Forest(links) && BestFirst(g, order, links, {})
    ensures SchemaOk(g, names) ==> (LeavesOnlyResults(g, order, links) <==> AcyclicQuery(AttrsOf(names)))
  {
    hide GraphOk, Natural, TreeEdges, AttrsOf, Connected, AcyclicQuery, BestFirst, LeavesOnlyResults;
    order, links := CreateForest(g, AttrsOf(names));
    assert |links| > 0 by { SomeTable(g, order, links); }
    if SchemaOk(g, names) {
      ReducesIff(g, names, order, links);
    }
  }

  lemma SomeTable(g: Graph, order: seq<nat>, links: seq<Link>)
    requires Built(g, order, links, {}) && |g.cards| > 0
    ensures |links| > 0
  {
    assert 0 in order;
  }

  lemma SomeRow(links: seq<Link>, tables: seq<set<Row>>) returns (row: Row)
    requires |links| > 0 && Forest(links) && NoneEmpty(links, tables)
    ensures row in tables[0]
  {
    assert links[0].Root?;
    row :| row in tables[0];
  }

  // ---- there are such queries ----

  /** Three tables with attributes 0 and 1, attributes 1 and 2, attributes 0 and 2. */
  const TRIANGLE: Graph := Graph([2, 2, 2],
    map[(0, 1) := [(1, 0)], (1, 0) := [(0, 1)], (1, 2) := [(1, 1)], (2, 1) := [(1, 1)], (0, 2) := [(0, 0)], (2,
      0) := [(0, 0)]])

  const NAMES: Names := [[0, 1], [1, 2], [0, 2]]

  lemma TriangleGraph()
    ensures GraphOk(TRIANGLE)
  {
    assert TRIANGLE.conds.Keys == {(0, 1), (1, 0), (1, 2), (2, 1), (0, 2), (2, 0)};
  }

  lemma TrianglePairs(e: Edge)
    requires e in TRIANGLE.conds
    ensures e.0 < 3 && e.1 < 3 && PairsOk(TRIANGLE, NAMES, e)
  {
    assert NAMES[e.0][TRIANGLE.conds[e][0].0] == NAMES[e.1][TRIANGLE.conds[e][0].1];
  }

  lemma TwoAttributes(v: nat)
    requires v < 3
    ensures |AttrsOf(NAMES)| == 3 && AttrsOf(NAMES)[v] == {NAMES[v][0], NAMES[v][1]}
  {
  }

  lemma SharedOne(a: nat, b: nat)
    requires a < 3 && b < 3 && a != b
    ensures Weight(TRIANGLE, a, b) == |Shared(AttrsOf(NAMES), a, b)|
  {
    hide AttrsOf;
    TwoAttributes(a);
    TwoAttributes(b);
    var x := if a == 1 || b == 1 then (if a == 0 || b == 0 then 1 else 2) else 0;
    assert Shared(AttrsOf(NAMES), a, b) == {x};
  }

  lemma TriangleSchema()
    ensures SchemaOk(TRIANGLE, NAMES)
  {
    hide PairsOk, Weight, Shared, AttrsOf;
    forall a: nat, b: nat | a < 3 && b < 3 && a != b
      ensures Weight(TRIANGLE, a, b) == |Shared(AttrsOf(NAMES), a, b)|
    {
      SharedOne(a, b);
    }
    forall e | e in TRIANGLE.conds
      ensures e.0 < 3 && e.1 < 3 && PairsOk(TRIANGLE, NAMES, e)
    {
      TrianglePairs(e);
    }
    TwoAttributes(0);
  }

  /** The edge between the two tables that have attribute `x` is in every forest that
      connects it. */
  lemma EdgeNeeded(edges: set<Edge>, x: nat, a: nat, b: nat)
    requires Connected(AttrsOf(NAMES), edges) && a < 3 && b < 3 && a != b
    requires forall v: nat :: v < 3 ==> (x in NAMES[v] <==> v == a || v == b)
    ensures (a, b) in edges
  {
    hide AttrsOf;
    TwoAttributes(a);
    TwoAttributes(b);
    TwoAttributes(3 - a - b);
    assert LeavesIfSplit(AttrsOf(NAMES), edges, x, {a}, a, b);
  }

  /** The triangle is cyclic. */
  lemma TriangleIsCyclic()
    ensures GraphOk(TRIANGLE) && SchemaOk(TRIANGLE, NAMES) && !AcyclicQuery(AttrsOf(NAMES))
  {
    hide AttrsOf, GraphOk, SchemaOk, Connected;
    TriangleGraph();
    TriangleSchema();
    if AcyclicQuery(AttrsOf(NAMES)) {
      var edges :| IsJoinForest(AttrsOf(NAMES), edges);
      EdgeNeeded(edges, 1, 0, 1);
      EdgeNeeded(edges, 2, 1, 2);
      EdgeNeeded(edges, 0, 0, 2);
      assert false;
    }
  }
}
