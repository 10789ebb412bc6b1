/** How the forest of a query is chosen: from the largest table on, always the edge with
    the most join conditions that leads to a new table, and among those the one to the
    largest table. */
module JoinOrder {
  import opened Wrappers
  import opened JoinTree
  import opened JoinForest

  /** Tables with their cardinalities, and the equality conditions between two tables as
      pairs of columns. */
  datatype Graph = Graph(cards: seq<nat>, conds: map<(nat, nat), seq<(nat, nat)>>)

  /** Conditions are filed under both orders of the two tables. */
  predicate GraphOk(g: Graph) {
    && (forall e :: e in g.conds ==> e.0 < |g.cards| && e.1 < |g.cards| && g.conds[e] != [] && (e.1, e.0) in g.conds)
    && (forall e :: e in g.conds ==> |g.conds[(e.1, e.0)]| == |g.conds[e]|)
  }

  function Weight(g: Graph, a: nat, b: nat): nat {
    if (a, b) in g.conds then |g.conds[(a, b)]| else 0
  }

  function Card(g: Graph, a: nat): nat {
    if a < |g.cards| then g.cards[a] else 0
  }

  /** The edge from `a` to `b` is no better than the one chosen. */
  predicate NoBetter(g: Graph, best: Option<(nat, nat)>, a: nat, b: nat) {
    (a, b) in g.conds ==>
      && best.Some?
      && (Weight(g, a, b) < Weight(g, best.value.0, best.value.1)
          || (Weight(g, a, b) == Weight(g, best.value.0, best.value.1) && Card(g, b) <= Card(g, best.value.1)))
  }

  ghost predicate Crosses(g: Graph, best: Option<(nat, nat)>, from: set<nat>, into: set<nat>) {
    best.Some? ==> best.value.0 in from && best.value.1 in into && best.value in g.conds
  }

  lemma Better(g: Graph, best: Option<(nat, nat)>, next: Option<(nat, nat)>, a: nat, b: nat)
    requires next.Some? && next.value in g.conds
    requires best.Some? ==> best.value in g.conds && NoBetter(g, next, best.value.0, best.value.1)
    requires NoBetter(g, best, a, b)
    ensures NoBetter(g, next, a, b)
  {
  }

  method FindEdge(g: Graph, from: set<nat>, into: set<nat>) returns (best: Option<(nat, nat)>)
    requires GraphOk(g)
    ensures Crosses(g, best, from, into)
    ensures forall a, b :: a in from && b in into ==> NoBetter(g, best, a, b)
    ensures forall a, b :: a in from && b in into && (a, b) in g.conds ==>
      && best.Some?
      && (|g.conds[(a, b)]| < |g.conds[best.value]|
          || (|g.conds[(a, b)]| == |g.conds[best.value]| && g.cards[b] <= g.cards[best.value.1]))
  {
    best := None;
    var maxWeight, maxCard := 0, 0;
    var rows := into;
    while rows != {}
      invariant rows <= into && Crosses(g, best, from, into)
      invariant maxWeight == (if best.Some? then Weight(g, best.value.0, best.value.1) else 0)
      invariant maxCard == (if best.Some? then Card(g, best.value.1) else 0)
      invariant forall a, b :: a in from && b in into - rows ==> NoBetter(g, best, a, b)
      decreases |rows|
    {
      var i :| i in rows;
      var columns := from;
      while columns != {}
        invariant columns <= from && Crosses(g, best, from, into)
        invariant maxWeight == (if best.Some? then Weight(g, best.value.0, best.value.1) else 0)
        invariant maxCard == (if best.Some? then Card(g, best.value.1) else 0)
        invariant forall a, b :: a in from && b in into - rows ==> NoBetter(g, best, a, b)
        invariant forall a :: a in from - columns ==> NoBetter(g, best, a, i)
        decreases |columns|
      {
        var j :| j in columns;
        columns := columns - {j};
        if (j, i) in g.conds {
          var card, weight := Card(g, i), |g.conds[(j, i)]|;
          if weight > maxWeight || (weight == maxWeight && card > maxCard) {
            ghost var before := best;
            maxWeight, maxCard, best := weight, card, Some((j, i));
            forall a, b | a in from && b in into && NoBetter(g, before, a, b)
              ensures NoBetter(g, best, a, b)
            {
              Better(g, before, best, a, b);
            }
          }
        }
      }
      rows := rows - {i};
    }
  }

  /** A table with the largest cardinality. */
  method PickRoot(g: Graph, left: set<nat>) returns (root: nat)
    requires left != {}
    ensures root in left && forall v :: v in left ==> Card(g, v) <= Card(g, root)
  {
    root :| root in left;
    var rest := left - {root};
    while rest != {}
      invariant rest <= left && root in left
      invariant forall v :: v in left - rest ==> Card(g, v) <= Card(g, root)
      decreases |rest|
    {
      var v :| v in rest;
      if Card(g, v) > Card(g, root) {
        root := v;
      }
      rest := rest - {v};
    }
  }

  // ---- the order and the links so far ----

  function Firsts(pairs: seq<(nat, nat)>): seq<nat> {
    seq(|pairs|, i requires 0 <= i < |pairs| => pairs[i].0)
  }

  function Seconds(pairs: seq<(nat, nat)>): seq<nat> {
    seq(|pairs|, i requires 0 <= i < |pairs| => pairs[i].1)
  }

  /** Every table is either in the order, once, or still left. */
  ghost predicate Ordered(g: Graph, order: seq<nat>, left: set<nat>) {
    && (forall k :: 0 <= k < |order| ==> order[k] < |g.cards| && order[k] !in left)
    && (forall j, k :: 0 <= j < k < |order| ==> order[j] != order[k])
    && (forall v :: v in left ==> v < |g.cards|)
    && (forall v: nat :: v < |g.cards| ==> v in left || v in order)
  }

  /** A table is linked to its parent by all conditions between the two. */
  predicate LinkOk(g: Graph, order: seq<nat>, links: seq<Link>, k: nat)
    requires k < |links| == |order|
  {
    links[k].Child? ==>
      && links[k].parent < k
      && (order[links[k].parent], order[k]) in g.conds
      && links[k].other == Firsts(g.conds[(order[links[k].parent], order[k])])
      && links[k].own == Seconds(g.conds[(order[links[k].parent], order[k])])
  }

  predicate LinksOk(g: Graph, order: seq<nat>, links: seq<Link>) {
    |links| == |order| && forall k :: 0 <= k < |links| ==> LinkOk(g, order, links, k)
  }

  /** No condition leads from a table before a root to one from the root on. */
  ghost predicate Apart(g: Graph, order: seq<nat>, links: seq<Link>, left: set<nat>) {
    && |links| == |order|
    && (forall r, a, b :: 0 <= a < r <= b < |order| && links[r].Root? ==> (order[a], order[b]) !in g.conds)
    && (forall r, a, v :: 0 <= a < r < |order| && links[r].Root? && v in left ==> (order[a], v) !in g.conds)
  }

  ghost predicate Built(g: Graph, order: seq<nat>, links: seq<Link>, left: set<nat>) {
    Ordered(g, order, left) && LinksOk(g, order, links) && Apart(g, order, links, left)
  }

  /** Positions `a` and `k` are in the same tree. */
  predicate NoRootBetween(links: seq<Link>, a: nat, k: nat) {
    forall j :: a < j <= k && j < |links| ==> links[j].Child?
  }

  /** A root is largest among the tables after it; a table is added by an edge that is
      best among those from its tree to the tables after. */
  ghost predicate BestFirst(g: Graph, order: seq<nat>, links: seq<Link>, left: set<nat>) {
    && |links| == |order|
    && (forall r, b :: 0 <= r <= b < |order| && links[r].Root? ==> Card(g, order[b]) <= Card(g, order[r]))
    && (forall r, v :: 0 <= r < |order| && links[r].Root? && v in left ==> Card(g, v) <= Card(g, order[r]))
    && (forall a, k, b ::
          0 <= a < k <= b < |order| && links[k].Child? && links[k].parent < k && NoRootBetween(links, a, k) ==>
          NoBetter(g, Some((order[links[k].parent], order[k])), order[a], order[b]))
    && (forall a, k, v ::
          0 <= a < k < |order| && links[k].Child? && links[k].parent < k && NoRootBetween(links, a, k) && v in left ==>
          NoBetter(g, Some((order[links[k].parent], order[k])), order[a], v))
  }

  lemma BestRoot(g: Graph, order: seq<nat>, links: seq<Link>, left: set<nat>, root: nat)
    requires BestFirst(g, order, links, left) && root in left && forall v :: v in left ==> Card(g, v) <= Card(g, root)
    ensures BestFirst(g, order + [root], links + [Root], left - {root})
  {
    hide NoBetter, Card;
    RootsStay(links, Root);
  }

  lemma BestChild(g: Graph, order: seq<nat>, links: seq<Link>, left: set<nat>, start: nat, p: nat, next: nat,
                  own: seq<nat>, other: seq<nat>)
    requires BestFirst(g, order, links, left) && start <= p < |order| && links[start].Root? && next in left
    requires forall a, b :: a in Since(order, start) && b in left ==> NoBetter(g, Some((order[p], next)), a, b)
    ensures BestFirst(g, order + [next], links + [Child(p, own, other)], left - {next})
  {
    hide NoBetter, Card;
    var links' := links + [Child(p, own, other)];
    RootsStay(links, Child(p, own, other));
    forall a | 0 <= a < |order| && NoRootBetween(links', a, |order|)
      ensures order[a] in Since(order, start)
    {
      assert links'[start].Root?;
    }
  }

  lemma RootsStay(links: seq<Link>, link: Link)
    ensures forall a, k :: 0 <= a < k < |links| ==>
      (NoRootBetween(links + [link], a, k) <==> NoRootBetween(links, a, k))
  {
    forall a, k | 0 <= a < k < |links|
      ensures NoRootBetween(links + [link], a, k) <==> NoRootBetween(links, a, k)
    {
      assert forall j :: 0 <= j < |links| ==> (links + [link])[j] == links[j];
    }
  }

  /** The tables of the tree that starts at position `start`. */
  function Since(order: seq<nat>, start: nat): set<nat>
    requires start <= |order|
  {
    set k | start <= k < |order| :: order[k]
  }

  lemma AddRoot(g: Graph, order: seq<nat>, links: seq<Link>, left: set<nat>, root: nat)
    requires Built(g, order, links, left) && root in left
    requires forall a, v :: 0 <= a < |order| && v in left ==> (order[a], v) !in g.conds
    ensures Built(g, order + [root], links + [Root], left - {root})
  {
    var order', links' := order + [root], links + [Root];
    forall k | 0 <= k < |links'|
      ensures LinkOk(g, order', links', k)
    {
      if k < |links| {
        assert LinkOk(g, order, links, k);
      }
    }
  }

  lemma AddChild(g: Graph, order: seq<nat>, links: seq<Link>, left: set<nat>, p: nat, v: nat)
    requires Built(g, order, links, left) && v in left && p < |order| && (order[p], v) in g.conds
    ensures var pairs := g.conds[(order[p], v)];
      Built(g, order + [v], links + [Child(p, Seconds(pairs), Firsts(pairs))], left - {v})
  {
    hide Ordered, Apart, Firsts, Seconds;
    var pairs := g.conds[(order[p], v)];
    var order', links' := order + [v], links + [Child(p, Seconds(pairs), Firsts(pairs))];
    forall k | 0 <= k < |links'|
      ensures LinkOk(g, order', links', k)
    {
      if k < |links| {
        assert LinkOk(g, order, links, k);
      }
    }
    AddOrdered(g, order, left, v);
    AddApart(g, order, links, left, p, v, links'[|links|]);
  }

  lemma AddOrdered(g: Graph, order: seq<nat>, left: set<nat>, v: nat)
    requires Ordered(g, order, left) && v in left
    ensures Ordered(g, order + [v], left - {v})
  {
  }

  lemma AddApart(g: Graph, order: seq<nat>, links: seq<Link>, left: set<nat>, p: nat, v: nat, link: Link)
    requires Apart(g, order, links, left) && v in left && link.Child?
    ensures Apart(g, order + [v], links + [link], left - {v})
  {
  }

  // ---- the forest is a join forest if there is one ----

  /** The conditions between two tables are the attributes they share. */
  ghost predicate Natural(g: Graph, attrs: Attrs) {
    && |attrs| == |g.cards|
    && forall a, b :: 0 <= a < |attrs| && 0 <= b < |attrs| && a != b ==> Weight(g, a, b) == |Shared(attrs, a, b)|
  }

  ghost predicate InForest(order: seq<nat>, links: seq<Link>, edges: set<Edge>)
    requires |links| == |order|
  {
    forall k :: 0 <= k < |links| && links[k].Child? && links[k].parent < |order| ==>
      (order[links[k].parent], order[k]) in edges && (order[k], order[links[k].parent]) in edges
  }

  /** What is known about the query, if it is natural and acyclic. */
  ghost predicate Follows(nice: bool, attrs: Attrs, order: seq<nat>, links: seq<Link>, edges: set<Edge>)
    requires |links| == |order|
  {
    nice ==> IsJoinForest(attrs, edges) && InForest(order, links, edges)
  }

  ghost predicate NoWay(g: Graph, order: seq<nat>, left: set<nat>) {
    forall a, v :: 0 <= a < |order| && v in left ==> (order[a], v) !in g.conds
  }

  /** The best edge from the tree to a table that is left is the heaviest across the
      border of the tree. */
  lemma BestIsHeaviest(g: Graph, attrs: Attrs, order: seq<nat>, links: seq<Link>, left: set<nat>, start: nat, e: Edge)
    requires GraphOk(g) && Natural(g, attrs) && Built(g, order, links, left) && start < |order| && links[start].Root?
    requires e.0 in Since(order, start) && e.1 in left && e in g.conds
    requires forall a, b :: a in Since(order, start) && b in left ==> NoBetter(g, Some(e), a, b)
    ensures Heaviest(attrs, Since(order, start), e) && Shared(attrs, e.0, e.1) != {}
  {
    hide LinksOk;
    var s := Since(order, start);
    forall a, b | a in s && a < |attrs| && b !in s && 0 <= b < |attrs|
      ensures |Shared(attrs, a, b)| <= |Shared(attrs, e.0, e.1)|
    {
      if b in left {
        assert NoBetter(g, Some(e), a, b);
        assert a != b;
      } else {
        var j :| 0 <= j < |order| && order[j] == b;
        var k :| start <= k < |order| && order[k] == a;
        assert j < start;
        assert (order[j], order[k]) !in g.conds;
        assert Weight(g, a, b) == 0;
      }
    }
    assert Weight(g, e.0, e.1) > 0;
  }

  lemma FollowEdge(g: Graph, nice: bool, attrs: Attrs, order: seq<nat>, links: seq<Link>, left: set<nat>, start: nat,
                   edges: set<Edge>, p: nat, v: nat) returns (edges': set<Edge>)
    requires GraphOk(g) && Built(g, order, links, left) && start < |order| && links[start].Root?
    requires nice ==> Natural(g, attrs)
    requires Follows(nice, attrs, order, links, edges) && Local(order, links, start)
    requires start <= p < |order| && v in left && (order[p], v) in g.conds
    requires forall a, b :: a in Since(order, start) && b in left ==> NoBetter(g, Some((order[p], v)), a, b)
    ensures var pairs := g.conds[(order[p], v)];
      Follows(nice, attrs, order + [v], links + [Child(p, Seconds(pairs), Firsts(pairs))], edges')
  {
    edges' := edges;
    if nice {
      BestIsHeaviest(g, attrs, order, links, left, start, (order[p], v));
      edges' := TakeHeaviest(attrs, edges, Since(order, start), (order[p], v));
      LocalKept(order, links, start, edges, edges');
    }
  }

  /** Links do not lead across the start of the tree. */
  predicate Local(order: seq<nat>, links: seq<Link>, start: nat) {
    && |links| == |order|
    && (forall j, k :: 0 <= j < k < |order| ==> order[j] != order[k])
    && (forall k :: 0 <= k < |links| && links[k].Child? ==>
         links[k].parent < k && (k < start <==> links[k].parent < start))
  }

  lemma LocalKept(order: seq<nat>, links: seq<Link>, start: nat, edges: set<Edge>, edges': set<Edge>)
    requires Local(order, links, start) && start < |order| && InForest(order, links, edges)
    requires forall g :: g in edges && (g.0 in Since(order, start)) == (g.1 in Since(order, start)) ==> g in edges'
    ensures InForest(order, links, edges')
  {
    forall k | 0 <= k < |links| && links[k].Child? && links[k].parent < |order|
      ensures (order[links[k].parent], order[k]) in edges' && (order[k], order[links[k].parent]) in edges'
    {
      InSince(order, start, k);
      InSince(order, start, links[k].parent);
    }
  }

  lemma InSince(order: seq<nat>, start: nat, k: nat)
    requires start <= |order| && k < |order| && forall i, j :: 0 <= i < j < |order| ==> order[i] != order[j]
    ensures order[k] in Since(order, start) <==> k >= start
  {
  }

  // ---- the choice ----

  /** Grows one tree, from a largest table that is left, until nothing left is joined to
      it. */
  method LargestRoot(g: Graph, order0: seq<nat>, links0: seq<Link>, left0: set<nat>,
                     ghost nice: bool, ghost attrs: Attrs, ghost edges0: set<Edge>)
    returns (order: seq<nat>, links: seq<Link>, left: set<nat>, ghost edges: set<Edge>)
    requires GraphOk(g) && Built(g, order0, links0, left0) && left0 != {} && NoWay(g, order0, left0)
    requires BestFirst(g, order0, links0, left0)
    requires (nice ==> Natural(g, attrs)) && Follows(nice, attrs, order0, links0, edges0)
    ensures Built(g, order, links, left) && left < left0 && NoWay(g, order, left) && BestFirst(g, order, links, left)
    ensures Follows(nice, attrs, order, links, edges)
  {
    hide NoBetter, IsJoinForest, Local, Since, Built, BestFirst;
    var root := PickRoot(g, left0);
    SameLength(g, order0, links0, left0);
    AddRoot(g, order0, links0, left0, root);
    BestRoot(g, order0, links0, left0, root);
    order, links, left, edges := order0 + [root], links0 + [Root], left0 - {root}, edges0;
    var start := |order0|;
    var tree := {root};
    LocalStart(g, order, links, left);
    while left != {}
      invariant Built(g, order, links, left) && left < left0 && |links| == |order| && BestFirst(g, order, links, left)
      invariant start < |order| && links[start].Root? && tree == Since(order, start) && Local(order, links, start)
      invariant Follows(nice, attrs, order, links, edges)
      invariant forall a, v :: 0 <= a < start && v in left ==> (order[a], v) !in g.conds
      decreases |left|
    {
      var best := FindEdge(g, tree, left);
      if best.None? {
        NothingMore(g, order, left, start, tree);
        return;
      }
      var from, next := best.value.0, best.value.1;
      var p :| start <= p < |order| && order[p] == from by { SinceHas(order, start, from); }
      var pairs := g.conds[best.value];
      edges := FollowEdge(g, nice, attrs, order, links, left, start, edges, p, next);
      AddChild(g, order, links, left, p, next);
      LocalMore(g, order, links, left, start, p, next);
      BestChild(g, order, links, left, start, p, next, Seconds(pairs), Firsts(pairs));
      order, links, left := order + [next], links + [Child(p, Seconds(pairs), Firsts(pairs))], left - {next};
      tree := tree + {next};
    }
  }

  lemma LocalStart(g: Graph, order: seq<nat>, links: seq<Link>, left: set<nat>)
    requires Built(g, order, links, left) && |order| > 0 && links[|order| - 1].Root?
    ensures Local(order, links, |order| - 1) && Since(order, |order| - 1) == {order[|order| - 1]}
  {
    forall k | 0 <= k < |links| && links[k].Child?
      ensures links[k].parent < k
    {
      assert LinkOk(g, order, links, k);
    }
  }

  lemma LocalMore(g: Graph, order: seq<nat>, links: seq<Link>, left: set<nat>, start: nat, p: nat, next: nat)
    requires Built(g, order, links, left) && Local(order, links, start) && start <= p < |order| && next in left
    ensures Since(order + [next], start) == Since(order, start) + {next}
    ensures forall own, other :: Local(order + [next], links + [Child(p, own, other)], start)
  {
    hide LinksOk, Apart;
    assert forall k :: start <= k < |order| ==> (order + [next])[k] == order[k];
    assert (order + [next])[|order|] == next;
  }

  lemma SinceHas(order: seq<nat>, start: nat, v: nat)
    requires start <= |order| && v in Since(order, start)
    ensures exists p :: start <= p < |order| && order[p] == v
  {
  }

  lemma NothingMore(g: Graph, order: seq<nat>, left: set<nat>, start: nat, tree: set<nat>)
    requires start <= |order| && tree == Since(order, start)
    requires forall a, v :: 0 <= a < start && v in left ==> (order[a], v) !in g.conds
    requires forall a, b :: a in tree && b in left ==> NoBetter(g, None, a, b)
    ensures NoWay(g, order, left)
  {
    forall a, v | 0 <= a < |order| && v in left
      ensures (order[a], v) !in g.conds
    {
      if a >= start {
        assert order[a] in tree;
        assert NoBetter(g, None, order[a], v);
      }
    }
  }

  /** Trees until no table is left. */
  method CreateForest(g: Graph, ghost attrs: Attrs) returns (order: seq<nat>, links: seq<Link>)
    requires GraphOk(g)
    ensures Built(g, order, links, {}) && Forest(links) && BestFirst(g, order, links, {})
    ensures Natural(g, attrs) ==> (Connected(attrs, TreeEdges(order, links)) <==> AcyclicQuery(attrs))
  {
    hide Natural, Built, IsJoinForest, Connected, BestFirst, TreeEdges;
    ghost var nice := Natural(g, attrs) && AcyclicQuery(attrs);
    ghost var edges: set<Edge> := {};
    if nice {
      edges :| IsJoinForest(attrs, edges);
    }
    var left := Upto(|g.cards|);
    order, links := [], [];
    NothingBuilt(g, left);
    while left != {}
      invariant Built(g, order, links, left) && NoWay(g, order, left) && BestFirst(g, order, links, left)
      invariant |order| == |links| && Follows(nice, attrs, order, links, edges)
      decreases |left|
    {
      ghost var before := left;
      order, links, left, edges := LargestRoot(g, order, links, left, nice, attrs, edges);
      assert |order| == |links| by { SameLength(g, order, links, left); }
      Smaller(left, before);
    }
    SameLength(g, order, links, left);
    if nice {
      TreesSuffice(g, attrs, order, links, edges);
    }
    if Natural(g, attrs) && Connected(attrs, TreeEdges(order, links)) {
      TreesWitness(g, attrs, order, links);
    }
  }

  lemma NothingBuilt(g: Graph, left: set<nat>)
    requires left == Upto(|g.cards|)
    ensures Built(g, [], [], left) && BestFirst(g, [], [], left)
  {
  }

  lemma SameLength(g: Graph, order: seq<nat>, links: seq<Link>, left: set<nat>)
    requires Built(g, order, links, left)
    ensures |order| == |links| && Forest(links)
  {
    forall k | 0 <= k < |links| && links[k].Child?
      ensures links[k].parent < k
    {
      assert LinkOk(g, order, links, k);
    }
  }

  function TreeEdges(order: seq<nat>, links: seq<Link>): set<Edge>
    requires |links| == |order| && Forest(links)
  {
    (set k | 0 <= k < |links| && links[k].Child? :: (order[links[k].parent], order[k]))
    + (set k | 0 <= k < |links| && links[k].Child? :: (order[k], order[links[k].parent]))
  }

  lemma TreeLink(order: seq<nat>, links: seq<Link>, e: Edge) returns (m: nat)
    requires |links| == |order| && Forest(links) && e in TreeEdges(order, links)
    ensures m < |links| && links[m].Child?
    ensures e == (order[links[m].parent], order[m]) || e == (order[m], order[links[m].parent])
  {
    m :| 0 <= m < |links| && links[m].Child?
      && (e == (order[links[m].parent], order[m]) || e == (order[m], order[links[m].parent]));
  }

  lemma LinkEdge(order: seq<nat>, links: seq<Link>, m: nat)
    requires |links| == |order| && Forest(links) && m < |links| && links[m].Child?
    ensures (order[links[m].parent], order[m]) in TreeEdges(order, links)
    ensures (order[m], order[links[m].parent]) in TreeEdges(order, links)
  {
  }

  /** Where the tree of position `k` starts. */
  function StartOf(links: seq<Link>, k: nat): (r: nat)
    requires k < |links| && Forest(links)
    ensures r <= k && links[r].Root?
    ensures forall j :: r < j <= k ==> links[j].Child?
  {
    if links[k].Root? then k else StartOf(links, k - 1)
  }

  lemma SameStart(g: Graph, order: seq<nat>, links: seq<Link>, j: nat, k: nat)
    requires Built(g, order, links, {}) && Forest(links) && j <= k < |links| && (order[j], order[k]) in g.conds
    ensures StartOf(links, j) == StartOf(links, k)
  {
    var r := StartOf(links, k);
    assert j >= r;
    StartWithin(links, j, k);
  }

  lemma {:induction false} StartWithin(links: seq<Link>, j: nat, k: nat)
    requires Forest(links) && j <= k < |links| && StartOf(links, k) <= j
    ensures StartOf(links, j) == StartOf(links, k)
    decreases k - j
  {
    if j < k {
      StartWithin(links, j, k - 1);
    }
  }

  /** If no link crosses a side, each tree lies on one side. */
  lemma {:induction false} OneSide(g: Graph, order: seq<nat>, links: seq<Link>, side: set<nat>, k: nat)
    requires Built(g, order, links, {}) && Forest(links) && k < |links|
    requires forall j :: 0 <= j < |links| && links[j].Child? ==> (order[links[j].parent] in side) == (order[j] in side)
    ensures (order[k] in side) == (order[StartOf(links, k)] in side)
    decreases k
  {
    if links[k].Child? {
      var p := links[k].parent;
      assert LinkOk(g, order, links, k);
      SameStart(g, order, links, p, k);
      OneSide(g, order, links, side, p);
    }
  }

  /** The trees hold every edge of the join forest that joins anything. */
  lemma EdgeInTree(g: Graph, attrs: Attrs, order: seq<nat>, links: seq<Link>, edges: set<Edge>, j: nat, k: nat)
    requires GraphOk(g) && Natural(g, attrs) && Built(g, order, links, {}) && Forest(links)
    requires IsJoinForest(attrs, edges) && InForest(order, links, edges)
    requires j < k < |links| && (order[j], order[k]) in edges && Shared(attrs, order[j], order[k]) != {}
    ensures (order[j], order[k]) in TreeEdges(order, links) && (order[k], order[j]) in TreeEdges(order, links)
  {
    hide Connected, TreeEdges;
    var e := (order[j], order[k]);
    assert Weight(g, e.0, e.1) > 0;
    SameStart(g, order, links, j, k);
    hide Natural, LinksOk, Apart, Ordered, GraphOk;
    var side :| Cuts(edges, e, side);
    if e !in TreeEdges(order, links) {
      forall i | 0 <= i < |links| && links[i].Child?
        ensures (order[links[i].parent] in side) == (order[i] in side)
      {
        var f := (order[links[i].parent], order[i]);
        LinkEdge(order, links, i);
        assert f in edges && f != e && f != Flip(e);
      }
      OneSide(g, order, links, side, j);
      OneSide(g, order, links, side, k);
    }
    var m := TreeLink(order, links, e);
    LinkEdge(order, links, m);
  }

  lemma PlaceOf(g: Graph, order: seq<nat>, v: nat) returns (k: nat)
    requires Ordered(g, order, {}) && v < |g.cards|
    ensures k < |order| && order[k] == v
  {
    assert v in order;
    k :| 0 <= k < |order| && order[k] == v;
  }

  /** If the query has a join forest, the trees are one. */
  lemma TreesSuffice(g: Graph, attrs: Attrs, order: seq<nat>, links: seq<Link>, edges: set<Edge>)
    requires GraphOk(g) && Natural(g, attrs) && Built(g, order, links, {}) && Forest(links)
    requires IsJoinForest(attrs, edges) && InForest(order, links, edges)
    ensures Connected(attrs, TreeEdges(order, links))
  {
    hide NoCycle, TreeEdges, InForest;
    var trees := TreeEdges(order, links);
    forall x: nat, z: set<nat>, p: nat, q: nat | p in z && q !in z && x in Shared(attrs, p, q)
      ensures Leaves(attrs, trees, x, z)
    {
      assert LeavesIfSplit(attrs, edges, x, z, p, q);
      var e := LeavingEdge(attrs, edges, x, z);
      var j := PlaceOf(g, order, e.0);
      var k := PlaceOf(g, order, e.1);
      assert Flip(e) in edges;
      if j < k {
        EdgeInTree(g, attrs, order, links, edges, j, k);
      } else {
        EdgeInTree(g, attrs, order, links, edges, k, j);
      }
      EdgeLeaves(attrs, trees, x, z, e);
    }
  }

  // ---- and only then ----

  /** Position `j` is in the branch that starts at `k`. */
  predicate Below(links: seq<Link>, k: nat, j: nat)
    requires j < |links| && Forest(links)
    decreases j
  {
    j == k || (links[j].Child? && Below(links, k, links[j].parent))
  }

  lemma {:induction false} BelowIsLater(links: seq<Link>, k: nat, j: nat)
    requires j < |links| && Forest(links) && Below(links, k, j)
    ensures k <= j
    decreases j
  {
    if j != k {
      BelowIsLater(links, k, links[j].parent);
    }
  }

  function Branch(order: seq<nat>, links: seq<Link>, k: nat): set<nat>
    requires |links| == |order| && Forest(links)
  {
    set j | 0 <= j < |links| && Below(links, k, j) :: order[j]
  }

  lemma InBranch(g: Graph, order: seq<nat>, links: seq<Link>, k: nat, j: nat)
    requires |links| == |order| && Forest(links) && Ordered(g, order, {}) && j < |links|
    ensures order[j] in Branch(order, links, k) <==> Below(links, k, j)
  {
    hide Below;
  }

  /** The only edge that leads out of a branch is the one at its start. */
  lemma BranchCuts(g: Graph, order: seq<nat>, links: seq<Link>, k: nat, e: Edge)
    requires |links| == |order| && Forest(links) && Ordered(g, order, {}) && k < |links| && links[k].Child?
    requires e == (order[links[k].parent], order[k]) || e == (order[k], order[links[k].parent])
    ensures Cuts(TreeEdges(order, links), e, Branch(order, links, k))
  {
    hide Branch, Ordered;
    var side := Branch(order, links, k);
    InBranch(g, order, links, k, k);
    InBranch(g, order, links, k, links[k].parent);
    assert !Below(links, k, links[k].parent) by {
      if Below(links, k, links[k].parent) {
        BelowIsLater(links, k, links[k].parent);
      }
    }
    forall f | f in TreeEdges(order, links) && f != e && f != Flip(e)
      ensures (f.0 in side) == (f.1 in side)
    {
      var j :| 0 <= j < |links| && links[j].Child?
        && (f == (order[links[j].parent], order[j]) || f == (order[j], order[links[j].parent]));
      InBranch(g, order, links, k, j);
      InBranch(g, order, links, k, links[j].parent);
    }
  }

  /** Trees whose attributes are connected show that the query is acyclic. */
  lemma TreesWitness(g: Graph, attrs: Attrs, order: seq<nat>, links: seq<Link>)
    requires Natural(g, attrs) && Built(g, order, links, {}) && |links| == |order| && Forest(links)
    requires Connected(attrs, TreeEdges(order, links))
    ensures AcyclicQuery(attrs)
  {
    hide Connected, Cuts, Branch, LinksOk, Apart, TreeEdges;
    var edges := TreeEdges(order, links);
    forall e | e in edges
      ensures e.0 < |attrs| && e.1 < |attrs| && Flip(e) in edges && exists side :: Cuts(edges, e, side)
    {
      var k := TreeLink(order, links, e);
      LinkEdge(order, links, k);
      BranchCuts(g, order, links, k, e);
    }
    assert IsJoinForest(attrs, edges);
  }
}
