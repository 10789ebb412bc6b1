/** The whole optimization: choose the forest, then pass filters along it. For an acyclic
    query with exact filters nothing is left in any table but rows of the result. */
module RobustTransfer {
  import opened JoinTree
  import opened JoinForest
  import opened JoinOrder
  import opened PredicateTransfer

  /** The join attribute of every column of every table. */
  type Names = seq<seq<nat>>

  function AttrsOf(names: Names): Attrs {
    seq(|names|, v requires 0 <= v < |names| => (set c | 0 <= c < |names[v]| :: names[v][c]))
  }

  /** Columns of the same attribute are joined, and no others; no table has an attribute
      twice. */
  ghost predicate SchemaOk(g: Graph, names: Names) {
    && |names| == |g.cards|
    && (forall v, c, d :: 0 <= v < |names| && 0 <= c < d < |names[v]| ==> names[v][c] != names[v][d])
    && Natural(g, AttrsOf(names))
    && (forall e :: e in g.conds && e.0 < |names| && e.1 < |names| ==> PairsOk(g, names, e))
  }

  predicate PairsOk(g: Graph, names: Names, e: Edge)
    requires e in g.conds && e.0 < |names| && e.1 < |names|
  {
    var pairs := g.conds[e];
    && (forall i :: 0 <= i < |pairs| ==>
          pairs[i].0 < |names[e.0]| && pairs[i].1 < |names[e.1]| && names[e.0][pairs[i].0] == names[e.1][pairs[i].1])
    && (forall x :: x in names[e.0] && x in names[e.1] ==> exists i :: 0 <= i < |pairs| && names[e.0][pairs[i].0] == x)
  }

  /** Two tables agree on all conditions between them. */
  predicate Agree(g: Graph, e: Edge, r: Row, q: Row) {
    e in g.conds ==> forall i :: 0 <= i < |g.conds[e]| ==> Cell(r, g.conds[e][i].0) == Cell(q, g.conds[e][i].1)
  }

  /** All join conditions of the query, for rows in the order of the forest. */
  ghost predicate AllConditions(g: Graph, order: seq<nat>, t: seq<Row>) {
    |t| == |order| && forall j, k :: 0 <= j < |t| && 0 <= k < |t| && j != k ==>
      Agree(g, (order[j], order[k]), t[j], t[k])
  }

  /** The conditions along the forest are among the conditions of the query. */
  lemma ForestConditions(g: Graph, order: seq<nat>, links: seq<Link>, t: seq<Row>, k: nat)
    requires LinksOk(g, order, links) && AllConditions(g, order, t) && k < |links| && links[k].Child?
    ensures links[k].parent < k && Matches(links[k], t[k], t[links[k].parent])
  {
    assert LinkOk(g, order, links, k);
    var p := links[k].parent;
    assert Agree(g, (order[p], order[k]), t[p], t[k]);
    var a, b := KeyOf(t[k], links[k].own), KeyOf(t[p], links[k].other);
    assert |a| == |b|;
    forall i | 0 <= i < |a|
      ensures a[i] == b[i]
    {
    }
  }

  // ---- the conditions along a join forest imply all conditions ----

  /** The value of attribute `x` at table `v`. */
  function ValueOf(names: Names, v: nat, row: Row, x: nat): Value
    requires v < |names|
  {
    Cell(row, ColumnOf(names[v], x, 0))
  }

  function ColumnOf(columns: seq<nat>, x: nat, from: nat): nat
    requires from <= |columns|
    decreases |columns| - from
  {
    if from == |columns| || columns[from] == x then from else ColumnOf(columns, x, from + 1)
  }

  lemma {:induction false} ColumnIs(columns: seq<nat>, x: nat, from: nat, c: nat)
    requires from <= c < |columns| && columns[c] == x && forall i, j :: 0 <= i < j < |columns| ==>
      columns[i] != columns[j]
    ensures ColumnOf(columns, x, from) == c
    decreases |columns| - from
  {
    if from < c {
      ColumnIs(columns, x, from + 1, c);
    }
  }

  lemma PairValues(g: Graph, names: Names, e: Edge, i: nat, r: Row, q: Row)
    requires SchemaOk(g, names) && e in g.conds && e.0 < |names| && e.1 < |names| && i < |g.conds[e]|
    ensures var x := names[e.0][g.conds[e][i].0];
      && ValueOf(names, e.0, r, x) == Cell(r, g.conds[e][i].0)
      && ValueOf(names, e.1, q, x) == Cell(q, g.conds[e][i].1)
      && x in Shared(AttrsOf(names), e.0, e.1)
  {
    hide Natural;
    assert PairsOk(g, names, e);
    var x := names[e.0][g.conds[e][i].0];
    ColumnIs(names[e.0], x, 0, g.conds[e][i].0);
    ColumnIs(names[e.1], x, 0, g.conds[e][i].1);
  }

  /** A table and its parent have the same value of every attribute they share. */
  lemma LinkValues(g: Graph, names: Names, order: seq<nat>, links: seq<Link>, t: seq<Row>, k: nat, x: nat)
    requires GraphOk(g) && SchemaOk(g, names) && Ordered(g, order, {}) && LinksOk(g, order, links) && |t| == |links|
    requires k < |links| && links[k].Child? && links[k].parent < k && Matches(links[k], t[k], t[links[k].parent])
    requires x in Shared(AttrsOf(names), order[k], order[links[k].parent])
    ensures ValueOf(names, order[k], t[k], x) == ValueOf(names, order[links[k].parent], t[links[k].parent], x)
  {
    hide Natural;
    var p := links[k].parent;
    assert LinkOk(g, order, links, k);
    var e := (order[p], order[k]);
    assert PairsOk(g, names, e);
    assert x in names[e.0] && x in names[e.1];
    var i :| 0 <= i < |g.conds[e]| && names[e.0][g.conds[e][i].0] == x;
    PairValues(g, names, e, i, t[p], t[k]);
    assert KeyOf(t[k], links[k].own)[i] == KeyOf(t[p], links[k].other)[i];
  }

  ghost predicate Along(links: seq<Link>, t: seq<Row>) {
    |t| == |links| && forall k :: 0 <= k < |links| && links[k].Child? && links[k].parent < k ==>
      Matches(links[k], t[k], t[links[k].parent])
  }

  /** The tables that have attribute `x` with this value. */
  ghost function Having(names: Names, order: seq<nat>, t: seq<Row>, x: nat, value: Value): set<nat>
    requires |t| == |order| && forall k :: 0 <= k < |order| ==> order[k] < |names|
  {
    set k | 0 <= k < |order| && x in AttrsOf(names)[order[k]] && ValueOf(names, order[k], t[k], x) == value :: order[k]
  }

  lemma SameValue(g: Graph, names: Names, order: seq<nat>, links: seq<Link>, t: seq<Row>, x: nat, j: nat, k: nat)
    requires GraphOk(g) && SchemaOk(g, names) && Ordered(g, order, {}) && LinksOk(g, order, links) && Forest(links)
    requires Connected(AttrsOf(names), TreeEdges(order, links)) && Along(links, t)
    requires j < |order| && k < |order| && x in Shared(AttrsOf(names), order[j], order[k])
    ensures ValueOf(names, order[j], t[j], x) == ValueOf(names, order[k], t[k], x)
  {
    hide Natural, ValueOf, Matches;
    var value := ValueOf(names, order[j], t[j], x);
    var z := Having(names, order, t, x, value);
    var attrs := AttrsOf(names);
    InHaving(names, order, t, x, value, j);
    InHaving(names, order, t, x, value, k);
    if order[k] !in z {
      assert LeavesIfSplit(attrs, TreeEdges(order, links), x, z, order[j], order[k]);
      var e :| e in TreeEdges(order, links) && e.0 in z && e.1 !in z && x in Shared(attrs, e.0, e.1);
      var m := TreeLink(order, links, e);
      InHaving(names, order, t, x, value, m);
      InHaving(names, order, t, x, value, links[m].parent);
      hide Having, Connected, LinksOk, TreeEdges;
      LinkValues(g, names, order, links, t, m, x);
    }
  }

  lemma InHaving(names: Names, order: seq<nat>, t: seq<Row>, x: nat, value: Value, m: nat)
    requires |t| == |order| && (forall k :: 0 <= k < |order| ==> order[k] < |names|)
    requires forall i, j :: 0 <= i < j < |order| ==> order[i] != order[j]
    requires m < |order| && x in AttrsOf(names)[order[m]]
    ensures order[m] in Having(names, order, t, x, value) <==> ValueOf(names, order[m], t[m], x) == value
  {
    hide ValueOf;
  }

  /** Rows that match along a join forest satisfy every condition of the query. */
  lemma ForestSuffices(g: Graph, names: Names, order: seq<nat>, links: seq<Link>, t: seq<Row>)
    requires GraphOk(g) && SchemaOk(g, names) && Ordered(g, order, {}) && LinksOk(g, order, links) && Forest(links)
    requires Connected(AttrsOf(names), TreeEdges(order, links)) && Along(links, t)
    ensures AllConditions(g, order, t)
  {
    hide Connected, SchemaOk, Along, ValueOf, LinksOk, TreeEdges, AttrsOf;
    assert |t| == |order| && |names| == |g.cards| by { Lengths(g, names, order, links, t); }
    forall j, k | 0 <= j < |t| && 0 <= k < |t| && j != k
      ensures Agree(g, (order[j], order[k]), t[j], t[k])
    {
      var e := (order[j], order[k]);
      if e in g.conds {
        forall i | 0 <= i < |g.conds[e]|
          ensures Cell(t[j], g.conds[e][i].0) == Cell(t[k], g.conds[e][i].1)
        {
          PairValues(g, names, e, i, t[j], t[k]);
          SameValue(g, names, order, links, t, names[e.0][g.conds[e][i].0], j, k) by { InNames(g, names, e, i); }
        }
      }
    }
  }

  lemma InNames(g: Graph, names: Names, e: Edge, i: nat)
    requires SchemaOk(g, names) && e in g.conds && e.0 < |names| && e.1 < |names| && i < |g.conds[e]|
    ensures g.conds[e][i].0 < |names[e.0]|
  {
    hide Natural;
    assert PairsOk(g, names, e);
  }

  lemma Lengths(g: Graph, names: Names, order: seq<nat>, links: seq<Link>, t: seq<Row>)
    requires SchemaOk(g, names) && LinksOk(g, order, links) && Along(links, t)
    ensures |t| == |order| && |names| == |g.cards|
  {
  }

  // ---- the whole optimization ----

  function Arrange(tables: seq<set<Row>>, order: seq<nat>): seq<set<Row>>
    requires forall k :: 0 <= k < |order| ==> order[k] < |tables|
  {
    seq(|order|, k requires 0 <= k < |order| => tables[order[k]])
  }

  /** A result row of the query: a row of every table such that all conditions hold. */
  ghost predicate Result(g: Graph, order: seq<nat>, tables: seq<set<Row>>, t: seq<Row>) {
    |t| == |order| == |tables| && AllConditions(g, order, t) && forall k :: 0 <= k < |t| ==> t[k] in tables[k]
  }

  ghost predicate NoneEmpty(links: seq<Link>, tables: seq<set<Row>>) {
    |tables| == |links| && forall k :: 0 <= k < |links| && links[k].Root? ==> tables[k] != {}
  }

  lemma ResultStays(g: Graph, order: seq<nat>, links: seq<Link>, tables: seq<set<Row>>, left: seq<set<Row>>,
                    t: seq<Row>)
    requires LinksOk(g, order, links) && Forest(links) && |tables| == |links| && KeepsJoin(links, tables, left)
    requires Result(g, order, tables, t)
    ensures Result(g, order, left, t)
  {
    hide AllConditions, Matches;
    assert |t| == |order| by { ConditionsLength(g, order, t); }
    forall k | 0 <= k < |links| && links[k].Child?
      ensures Matches(links[k], t[k], t[links[k].parent])
    {
      ForestConditions(g, order, links, t, k);
    }
    assert Joined(links, tables, t);
    assert Stays(left, t);
  }

  lemma ConditionsLength(g: Graph, order: seq<nat>, t: seq<Row>)
    requires AllConditions(g, order, t)
    ensures |t| == |order|
  {
  }

  /** Every row that is left belongs to a result row of the query. */
  lemma RowInResult(g: Graph, names: Names, order: seq<nat>, links: seq<Link>, left: seq<set<Row>>, i: nat, row: Row)
    returns (t: seq<Row>)
    requires GraphOk(g) && SchemaOk(g, names) && Ordered(g, order, {}) && LinksOk(g, order, links) && Forest(links)
    requires Connected(AttrsOf(names), TreeEdges(order, links))
    requires |left| == |links| && Reduced(links, left) && NoneEmpty(links, left) && i < |links| && row in left[i]
    ensures Result(g, order, left, t) && t[i] == row
  {
    hide Connected, Matches, SchemaOk, AllConditions, Reduced;
    t := NoDanglingRow(links, left, i, row);
    ForestSuffices(g, names, order, links, t);
  }

  lemma RootsFull(g: Graph, order: seq<nat>, links: seq<Link>, left: seq<set<Row>>, t: seq<Row>)
    requires |left| == |links| && Result(g, order, left, t)
    ensures NoneEmpty(links, left)
  {
  }

  // ---- the query, without the forest ----

  /** All join conditions of the query, for a row of every table. */
  predicate Conditions(g: Graph, u: seq<Row>) {
    forall v, w :: 0 <= v < |u| && 0 <= w < |u| && v != w ==> Agree(g, (v, w), u[v], u[w])
  }

  predicate Answer(g: Graph, tables: seq<set<Row>>, u: seq<Row>) {
    |u| == |tables| && Conditions(g, u) && forall v :: 0 <= v < |u| ==> u[v] in tables[v]
  }

  /** The rows in the order of the forest. */
  function InOrder(u: seq<Row>, order: seq<nat>): seq<Row>
    requires forall k :: 0 <= k < |order| ==> order[k] < |u|
  {
    seq(|order|, k requires 0 <= k < |order| => u[order[k]])
  }

  function Elements(order: seq<nat>): (s: set<nat>)
    requires forall j, k :: 0 <= j < k < |order| ==> order[j] != order[k]
    ensures |s| == |order| && forall v :: v in s <==> v in order
  {
    if order == [] then {} else Elements(order[1..]) + {order[0]}
  }

  lemma OrderLength(g: Graph, order: seq<nat>)
    requires Ordered(g, order, {})
    ensures |order| == |g.cards|
  {
    assert Elements(order) == Upto(|g.cards|);
  }

  /** Every row for the tables is one for the forest. */
  lemma SameAnswer(g: Graph, order: seq<nat>, tables: seq<set<Row>>, u: seq<Row>)
    requires Ordered(g, order, {}) && |u| == |tables| == |g.cards|
    ensures AllConditions(g, order, InOrder(u, order)) <==> Conditions(g, u)
    ensures Result(g, order, Arrange(tables, order), InOrder(u, order)) <==> Answer(g, tables, u)
  {
    hide Agree;
    OrderLength(g, order);
    var t := InOrder(u, order);
    if AllConditions(g, order, t) {
      forall v, w | 0 <= v < |u| && 0 <= w < |u| && v != w
        ensures Agree(g, (v, w), u[v], u[w])
      {
        var j, k := Place(order, v), Place(order, w);
        assert Agree(g, (order[j], order[k]), t[j], t[k]);
      }
    }
    if forall k :: 0 <= k < |t| ==> t[k] in Arrange(tables, order)[k] {
      forall v | 0 <= v < |u|
        ensures u[v] in tables[v]
      {
        var k := Place(order, v);
        assert t[k] in Arrange(tables, order)[k];
      }
    }
  }

  /** And the other way round. */
  lemma FromOrder(g: Graph, order: seq<nat>, t: seq<Row>) returns (u: seq<Row>)
    requires Ordered(g, order, {}) && |t| == |order|
    ensures |u| == |g.cards| && InOrder(u, order) == t
  {
    u := seq(|g.cards|, v requires 0 <= v < |g.cards| => assert v in order; t[Place(order, v)]);
  }

  function Place(order: seq<nat>, v: nat): (k: nat)
    requires v in order
    ensures k < |order| && order[k] == v
  {
    if order[0] == v then 0 else Place(order[1..], v) + 1
  }

  /** Choose the forest and pass the filters. What is left of each table is part of it, and
      still holds its row of every answer to the query. If the query is acyclic and the
      filters are exact, each row that is left belongs to an answer, unless a tree was
      emptied; then there is no answer. */
  method ReduceQuery(g: Graph, tables: seq<set<Row>>, build: Builder, ghost names: Names)
    returns (order: seq<nat>, links: seq<Link>, left: seq<set<Row>>)
    requires GraphOk(g) && |tables| == |g.cards| && NoFalseNegatives(build)
    ensures Ordered(g, order, {}) && |left| == |order| == |links| == |tables|
    ensures forall k :: 0 <= k < |left| ==> left[k] <= tables[order[k]]
    ensures forall u: seq<Row> :: |u| == |tables| && Conditions(g, u) ==>
      ((forall v :: 0 <= v < |u| ==> u[v] in tables[v]) <==> forall k :: 0 <= k < |left| ==> u[order[k]] in left[k])
    ensures SchemaOk(g, names) && AcyclicQuery(AttrsOf(names)) && Exact(build) && NoneEmpty(links, left) ==>
      forall i, row :: 0 <= i < |left| && row in left[i] ==>
        exists u: seq<Row> :: Answer(g, tables, u) && u[order[i]] == row
    ensures !NoneEmpty(links, left) ==> forall u: seq<Row> :: !Answer(g, tables, u)
  {
    hide NoFalseNegatives, Exact, KeepsJoin, Reduced, Connected, AllConditions, Matches, AcyclicQuery, BestFirst;
    hide Answer, Result, Conditions;
    order, links := CreateForest(g, AttrsOf(names));
    OrderLength(g, order);
    var arranged := Arrange(tables, order);
    left := Transfer(links, arranged, build);
    KeptInside(links, arranged, left);
    forall u: seq<Row> | |u| == |tables| && Conditions(g, u)
      ensures (forall v :: 0 <= v < |u| ==> u[v] in tables[v]) <==>
        forall k :: 0 <= k < |left| ==> u[order[k]] in left[k]
      ensures Answer(g, tables, u) ==> NoneEmpty(links, left)
    {
      AnswerStays(g, order, links, tables, left, u);
    }
    forall u: seq<Row>
      ensures Answer(g, tables, u) ==> |u| == |tables| && Conditions(g, u)
    {
      AnswerShape(g, tables, u);
    }
    if SchemaOk(g, names) && AcyclicQuery(AttrsOf(names)) && Exact(build) && NoneEmpty(links, left) {
      forall i, row | 0 <= i < |left| && row in left[i]
        ensures exists u: seq<Row> :: Answer(g, tables, u) && u[order[i]] == row
      {
        var t := RowInResult(g, names, order, links, left, i, row);
        var u := ResultIsAnswer(g, order, tables, left, t);
        assert u[order[i]] == row;
      }
    }
  }

  lemma AnswerShape(g: Graph, tables: seq<set<Row>>, u: seq<Row>)
    ensures Answer(g, tables, u) <==>
      |u| == |tables| && Conditions(g, u) && forall v :: 0 <= v < |u| ==> u[v] in tables[v]
  {
  }

  /** A result of what is left is an answer to the query. */
  lemma ResultIsAnswer(g: Graph, order: seq<nat>, tables: seq<set<Row>>, left: seq<set<Row>>, t: seq<Row>)
    returns (u: seq<Row>)
    requires Ordered(g, order, {}) && |tables| == |g.cards| && Result(g, order, left, t)
    requires forall k :: 0 <= k < |left| ==> k < |order| && left[k] <= tables[order[k]]
    ensures Answer(g, tables, u) && |u| == |g.cards| && InOrder(u, order) == t
  {
    hide AllConditions, Answer;
    u := FromOrder(g, order, t);
    SameAnswer(g, order, tables, u);
    OrderLength(g, order);
  }

  lemma AnswerStays(g: Graph, order: seq<nat>, links: seq<Link>, tables: seq<set<Row>>, left: seq<set<Row>>,
                    u: seq<Row>)
    requires Ordered(g, order, {}) && LinksOk(g, order, links) && Forest(links)
    requires |u| == |tables| == |g.cards| && |left| == |links| == |order| && Conditions(g, u)
    requires KeepsJoin(links, Arrange(tables, order), left)
    requires forall k :: 0 <= k < |left| ==> left[k] <= tables[order[k]]
    ensures (forall v :: 0 <= v < |u| ==> u[v] in tables[v]) <==> forall k :: 0 <= k < |left| ==> u[order[k]] in left[k]
    ensures Answer(g, tables, u) ==> NoneEmpty(links, left)
  {
    hide AllConditions, Conditions, KeepsJoin, Agree, LinksOk;
    var t := InOrder(u, order);
    SameAnswer(g, order, tables, u);
    if Answer(g, tables, u) {
      ResultStays(g, order, links, Arrange(tables, order), left, t);
      RootsFull(g, order, links, left, t);
      assert forall k :: 0 <= k < |left| ==> t[k] in left[k];
    }
    if forall k :: 0 <= k < |left| ==> u[order[k]] in left[k] {
      forall v | 0 <= v < |u|
        ensures u[v] in tables[v]
      {
        assert v in order;
        assert u[order[Place(order, v)]] in left[Place(order, v)];
      }
    }
  }

  lemma KeptInside(links: seq<Link>, tables: seq<set<Row>>, left: seq<set<Row>>)
    requires Forest(links) && |tables| == |links| && KeepsJoin(links, tables, left)
    ensures |left| == |links| && forall k :: 0 <= k < |links| ==> left[k] <= tables[k]
  {
  }
}
