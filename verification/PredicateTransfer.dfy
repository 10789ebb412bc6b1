/** Predicate transfer: each table passes a filter on its join columns to its parent,
    from the last table to the first, and then each parent passes one to its children,
    from the first table to the last. */
module PredicateTransfer {
  import opened JoinTree

  type Filter = Key -> bool

  /** Makes a filter from the keys of a table: the direction, the table it is meant for,
      and the keys it is built from. */
  type Builder = (bool, nat, set<Key>) -> Filter

  ghost predicate NoFalseNegatives(build: Builder) {
    forall back: bool, i: nat, keys: set<Key>, k: Key :: k in keys ==> build(back, i, keys)(k)
  }

  ghost predicate Exact(build: Builder) {
    forall back: bool, i: nat, keys: set<Key>, k: Key :: build(back, i, keys)(k) <==> k in keys
  }

  /** A filter that keeps the keys themselves. */
  function KeepKeys(back: bool, i: nat, keys: set<Key>): Filter {
    (k: Key) => k in keys
  }

  lemma KeysAreExact()
    ensures Exact(KeepKeys) && NoFalseNegatives(KeepKeys)
  {
  }

  function Keys(table: set<Row>, columns: seq<nat>): set<Key> {
    set r | r in table :: KeyOf(r, columns)
  }

  function Keep(table: set<Row>, f: Filter, columns: seq<nat>): set<Row> {
    set r | r in table && f(KeyOf(r, columns))
  }

  /** Every row that takes part in the join is still there. */
  ghost predicate KeepsJoin(links: seq<Link>, tables: seq<set<Row>>, left: seq<set<Row>>)
    requires Forest(links) && |tables| == |links|
  {
    && |left| == |links|
    && (forall k :: 0 <= k < |links| ==> left[k] <= tables[k])
    && (forall t: seq<Row> :: Joined(links, tables, t) ==> Stays(left, t))
  }

  predicate Stays(left: seq<set<Row>>, t: seq<Row>) {
    |t| == |left| && forall k :: 0 <= k < |t| ==> t[k] in left[k]
  }

  /** The filters passed on so far are those of the tables as they now stand. */
  ghost predicate FiltersUp(links: seq<Link>, left: seq<set<Row>>, build: Builder, up: map<nat, Filter>, i: nat)
    requires |left| == |links|
  {
    forall j :: i <= j < |links| && links[j].Child? ==> j in up && up[j] == build(false, j, Keys(left[j], links[j].own))
  }

  // ---- one table ----

  /** The use of all filters from the children of table `i`. */
  method UseFilters(links: seq<Link>, i: nat, table: set<Row>, up: map<nat, Filter>) returns (kept: set<Row>)
    requires i < |links| && Forest(links)
    requires forall j :: i < j < |links| && links[j].Child? ==> j in up
    ensures kept <= table
    ensures forall r :: r in table ==>
      (r in kept <==> forall j :: i < j < |links| && links[j].Child? && links[j].parent == i ==>
        up[j](KeyOf(r, links[j].other)))
  {
    hide KeyOf;
    kept := table;
    for n := i + 1 to |links|
      invariant kept <= table
      invariant forall r :: r in table ==>
        (r in kept <==> forall j :: i < j < n && links[j].Child? && links[j].parent == i ==>
          up[j](KeyOf(r, links[j].other)))
    {
      if links[n].Child? && links[n].parent == i {
        kept := Keep(kept, up[n], links[n].other);
      }
    }
  }

  /** A table loses no row of the join to the filters of its children. */
  lemma UsedKeepsJoin(links: seq<Link>, tables: seq<set<Row>>, left: seq<set<Row>>, build: Builder,
                      up: map<nat, Filter>, i: nat, kept: set<Row>)
    requires Forest(links) && |tables| == |links| && KeepsJoin(links, tables, left) && NoFalseNegatives(build)
    requires i < |links|
    requires FiltersUp(links, left, build, up, i + 1)
    requires kept <= left[i]
    requires forall r :: r in left[i] ==>
      (r in kept <==> forall j :: i < j < |links| && links[j].Child? && links[j].parent == i ==>
        up[j](KeyOf(r, links[j].other)))
    ensures KeepsJoin(links, tables, left[i := kept])
  {
    forall t: seq<Row> | Joined(links, tables, t)
      ensures Stays(left[i := kept], t)
    {
      assert Stays(left, t);
      forall j | i < j < |links| && links[j].Child? && links[j].parent == i
        ensures up[j](KeyOf(t[i], links[j].other))
      {
        assert KeyOf(t[j], links[j].own) in Keys(left[j], links[j].own);
      }
    }
  }

  /** With exact filters each row that is kept has a partner in every child. */
  lemma UsedReduces(links: seq<Link>, left: seq<set<Row>>, build: Builder, up: map<nat, Filter>, i: nat,
                    kept: set<Row>, j: nat)
    requires Forest(links) && |left| == |links| && Exact(build) && i < j < |links| && links[j].Child?
    requires links[j].parent == i
    requires FiltersUp(links, left, build, up, i + 1)
    requires kept <= left[i]
    requires forall r :: r in kept ==> up[j](KeyOf(r, links[j].other))
    ensures Downward(links, left[i := kept], j)
  {
    forall p | p in kept
      ensures exists r :: r in left[j] && Matches(links[j], r, p)
    {
      assert KeyOf(p, links[j].other) in Keys(left[j], links[j].own);
      var r :| r in left[j] && KeyOf(r, links[j].own) == KeyOf(p, links[j].other);
      assert Matches(links[j], r, p);
    }
  }

  // ---- from the last table to the first ----

  ghost predicate DownFrom(links: seq<Link>, left: seq<set<Row>>, i: nat)
    requires Forest(links) && |left| == |links|
  {
    forall j :: 0 <= j < |links| && links[j].Child? && links[j].parent >= i ==> Downward(links, left, j)
  }

  lemma DownStep(links: seq<Link>, left: seq<set<Row>>, build: Builder, up: map<nat, Filter>, i: nat, kept: set<Row>)
    requires Forest(links) && |left| == |links| && Exact(build) && i < |links| && DownFrom(links, left, i + 1)
    requires FiltersUp(links, left, build, up, i + 1)
    requires kept <= left[i]
    requires forall r :: r in left[i] ==>
      (r in kept <==> forall j :: i < j < |links| && links[j].Child? && links[j].parent == i ==>
        up[j](KeyOf(r, links[j].other)))
    ensures DownFrom(links, left[i := kept], i)
  {
    hide KeyOf, Matches, FiltersUp;
    var left' := left[i := kept];
    forall j | 0 <= j < |links| && links[j].Child? && links[j].parent >= i
      ensures Downward(links, left', j)
    {
      if links[j].parent == i {
        UsedReduces(links, left, build, up, i, kept, j);
      } else {
        assert Downward(links, left, j);
        assert left'[j] == left[j] && left'[links[j].parent] == left[links[j].parent];
      }
    }
  }

  method ForwardPass(links: seq<Link>, tables: seq<set<Row>>, build: Builder) returns (left: seq<set<Row>>)
    requires Forest(links) && |tables| == |links| && NoFalseNegatives(build)
    ensures KeepsJoin(links, tables, left)
    ensures Exact(build) ==> DownFrom(links, left, 0)
  {
    hide KeyOf, Matches, Joined, Downward, NoFalseNegatives, Exact, Keys;
    left := tables;
    var up: map<nat, Filter> := map[];
    var i := |links|;
    assert KeepsJoin(links, tables, left) by { Untouched(links, tables); }
    while i > 0
      invariant 0 <= i <= |links| && KeepsJoin(links, tables, left)
      invariant FiltersUp(links, left, build, up, i)
      invariant Exact(build) ==> DownFrom(links, left, i)
    {
      i := i - 1;
      var kept := UseFilters(links, i, left[i], up);
      UsedKeepsJoin(links, tables, left, build, up, i, kept);
      if Exact(build) {
        DownStep(links, left, build, up, i, kept);
      }
      left := left[i := kept];
      if links[i].Child? {
        up := up[i := build(false, i, Keys(left[i], links[i].own))];
      }
    }
  }

  lemma Untouched(links: seq<Link>, tables: seq<set<Row>>)
    requires Forest(links) && |tables| == |links|
    ensures KeepsJoin(links, tables, tables)
  {
    hide Matches;
  }

  // ---- from the first table to the last ----

  /** The tables before `i` are settled, those from `i` on are as the first pass left them. */
  ghost predicate Settled(links: seq<Link>, half: seq<set<Row>>, left: seq<set<Row>>, i: nat)
    requires Forest(links) && |half| == |left| == |links|
  {
    && (forall k :: 0 <= k < |links| ==> left[k] <= half[k])
    && (forall k :: i <= k < |links| ==> left[k] == half[k])
    && (DownFrom(links, half, 0) ==> forall j :: 0 <= j < i && j < |links| && links[j].Child? ==>
         Downward(links, left, j))
  }

  ghost predicate UpTo(links: seq<Link>, left: seq<set<Row>>, i: nat)
    requires Forest(links) && |left| == |links|
  {
    forall j :: 0 <= j < i && j < |links| && links[j].Child? ==> Upward(links, left, j)
  }

  ghost predicate FiltersDown(links: seq<Link>, left: seq<set<Row>>, build: Builder, down: map<nat, Filter>, i: nat)
    requires Forest(links) && |left| == |links|
  {
    forall j :: 0 <= j < |links| && links[j].Child? && links[j].parent < i ==>
      j in down && down[j] == build(true, j, Keys(left[links[j].parent], links[j].other))
  }

  /** What one table loses to the filter of its parent. */
  lemma ParentFilter(links: seq<Link>, tables: seq<set<Row>>, half: seq<set<Row>>, left: seq<set<Row>>, build: Builder,
                     f: Filter, i: nat)
    requires Forest(links) && |tables| == |half| == |left| == |links| && i < |links| && links[i].Child?
    requires KeepsJoin(links, tables, left) && NoFalseNegatives(build) && Settled(links, half, left, i)
    requires f == build(true, i, Keys(left[links[i].parent], links[i].other))
    ensures var left' := left[i := Keep(left[i], f, links[i].own)];
      && KeepsJoin(links, tables, left')
      && (DownFrom(links, half, 0) ==> Downward(links, left', i))
      && (Exact(build) ==> Upward(links, left', i))
  {
    hide DownFrom, Settled;
    var p := links[i].parent;
    var left' := left[i := Keep(left[i], f, links[i].own)];
    forall t: seq<Row> | Joined(links, tables, t)
      ensures Stays(left', t)
    {
      assert Stays(left, t);
      assert KeyOf(t[p], links[i].other) in Keys(left[p], links[i].other);
    }
    if DownFrom(links, half, 0) {
      forall r | r in left'[p]
        ensures exists c :: c in left'[i] && Matches(links[i], c, r)
      {
        var c := HalfPartner(links, half, left, i, r);
        assert KeyOf(r, links[i].other) in Keys(left[p], links[i].other);
      }
    }
    if Exact(build) {
      forall c | c in left'[i]
        ensures exists r :: r in left'[p] && Matches(links[i], c, r)
      {
        assert KeyOf(c, links[i].own) in Keys(left[p], links[i].other);
        var r :| r in left[p] && KeyOf(r, links[i].other) == KeyOf(c, links[i].own);
        assert Matches(links[i], c, r);
      }
    }
  }

  lemma HalfPartner(links: seq<Link>, half: seq<set<Row>>, left: seq<set<Row>>, i: nat, r: Row) returns (c: Row)
    requires Forest(links) && |half| == |left| == |links| && i < |links| && links[i].Child?
    requires Settled(links, half, left, i) && DownFrom(links, half, 0) && r in left[links[i].parent]
    ensures c in left[i] && Matches(links[i], c, r)
  {
    hide Matches;
    assert Downward(links, half, i);
    c :| c in half[i] && Matches(links[i], c, r);
  }

  lemma SettleStep(links: seq<Link>, half: seq<set<Row>>, left: seq<set<Row>>, i: nat, kept: set<Row>)
    requires Forest(links) && |half| == |left| == |links| && i < |links| && Settled(links, half, left, i)
    requires kept <= left[i]
    requires links[i].Child? && DownFrom(links, half, 0) ==> Downward(links, left[i := kept], i)
    ensures Settled(links, half, left[i := kept], i + 1)
    ensures UpTo(links, left, i) && (links[i].Child? ==> Upward(links, left[i := kept], i)) ==>
      UpTo(links, left[i := kept], i + 1)
  {
    hide Matches, DownFrom;
    var left' := left[i := kept];
    forall j | 0 <= j < i && links[j].Child?
      ensures Downward(links, left, j) ==> Downward(links, left', j)
      ensures Upward(links, left, j) ==> Upward(links, left', j)
    {
      assert left'[j] == left[j] && left'[links[j].parent] == left[links[j].parent];
    }
  }

  method BackwardPass(links: seq<Link>, tables: seq<set<Row>>, half: seq<set<Row>>, build: Builder)
    returns (left: seq<set<Row>>)
    requires Forest(links) && |tables| == |links| && NoFalseNegatives(build) && KeepsJoin(links, tables, half)
    ensures KeepsJoin(links, tables, left)
    ensures Exact(build) && DownFrom(links, half, 0) ==> Reduced(links, left)
  {
    hide KeyOf, Matches, Joined, Downward, Upward, NoFalseNegatives, Exact, Keys, Keep, DownFrom;
    left := half;
    var down: map<nat, Filter> := map[];
    for i := 0 to |links|
      invariant |left| == |links| && KeepsJoin(links, tables, left)
      invariant FiltersDown(links, left, build, down, i)
      invariant Settled(links, half, left, i)
      invariant Exact(build) ==> UpTo(links, left, i)
    {
      if links[i].Child? {
        var kept := Keep(left[i], down[i], links[i].own);
        ParentFilter(links, tables, half, left, build, down[i], i);
        SettleStep(links, half, left, i, kept) by { KeepSubset(left[i], down[i], links[i].own); }
        left := left[i := kept];
      } else {
        assert left[i := left[i]] == left;
        SettleStep(links, half, left, i, left[i]);
      }
      down := PassDown(links, i, left[i], build, down);
    }
  }

  lemma KeepSubset(table: set<Row>, f: Filter, columns: seq<nat>)
    ensures Keep(table, f, columns) <= table
  {
  }

  /** The filters a table makes for its children. */
  method PassDown(links: seq<Link>, i: nat, table: set<Row>, build: Builder, down: map<nat, Filter>)
    returns (more: map<nat, Filter>)
    requires Forest(links) && i < |links|
    ensures forall j :: j in down && !(j < |links| && links[j].Child? && links[j].parent == i) ==>
      j in more && more[j] == down[j]
    ensures forall j :: 0 <= j < |links| && links[j].Child? && links[j].parent == i ==>
      j in more && more[j] == build(true, j, Keys(table, links[j].other))
  {
    hide Keys;
    more := down;
    for n := i + 1 to |links|
      invariant forall j :: j in down && !(j < |links| && links[j].Child? && links[j].parent == i) ==>
        j in more && more[j] == down[j]
      invariant forall j :: 0 <= j < n && links[j].Child? && links[j].parent == i ==>
        j in more && more[j] == build(true, j, Keys(table, links[j].other))
    {
      if links[n].Child? && links[n].parent == i {
        more := more[n := build(true, n, Keys(table, links[n].other))];
      }
    }
  }

  // ---- both passes ----

  /** Predicate transfer keeps every row that takes part in the join, whatever the false
      positives of its filters. With exact filters it leaves no other row. */
  method Transfer(links: seq<Link>, tables: seq<set<Row>>, build: Builder) returns (left: seq<set<Row>>)
    requires Forest(links) && |tables| == |links| && NoFalseNegatives(build)
    ensures KeepsJoin(links, tables, left)
    ensures Exact(build) ==> Reduced(links, left)
  {
    hide Reduced, KeepsJoin, DownFrom, NoFalseNegatives, Exact;
    var half := ForwardPass(links, tables, build);
    assert |half| == |links| by { KeptLength(links, tables, half); }
    left := BackwardPass(links, tables, half, build);
  }

  lemma KeptLength(links: seq<Link>, tables: seq<set<Row>>, left: seq<set<Row>>)
    requires Forest(links) && |tables| == |links| && KeepsJoin(links, tables, left)
    ensures |left| == |links|
  {
  }

  // ---- what a query sees ----

  /** The result of the query: the rows along the forest, and whatever else the query asks
      of them, such as conditions that are not part of the forest. */
  predicate Answer(links: seq<Link>, tables: seq<set<Row>>, extra: seq<Row> -> bool, t: seq<Row>)
    requires Forest(links) && |tables| == |links|
  {
    Joined(links, tables, t) && extra(t)
  }

  /** The query has the same answers on what is left. */
  lemma SameAnswers(links: seq<Link>, tables: seq<set<Row>>, left: seq<set<Row>>, extra: seq<Row> -> bool, t: seq<Row>)
    requires Forest(links) && |tables| == |links| && KeepsJoin(links, tables, left)
    ensures |left| == |links| && (Answer(links, tables, extra, t) <==> Answer(links, left, extra, t))
  {
    hide Matches;
    if Joined(links, tables, t) {
      assert Stays(left, t);
    }
  }

  /** After a transfer with exact filters, a row is left if and only if it takes part in the
      join of the original tables, unless that join is empty. */
  lemma LeftIffJoined(links: seq<Link>, tables: seq<set<Row>>, left: seq<set<Row>>, i: nat, row: Row)
    requires Forest(links) && |tables| == |left| == |links| && KeepsJoin(links, tables, left) && Reduced(links, left)
    requires i < |links| && forall k :: 0 <= k < |links| && links[k].Root? ==> left[k] != {}
    ensures row in left[i] <==> exists t :: Joined(links, tables, t) && t[i] == row
  {
    hide Matches, Reduced;
    if row in left[i] {
      var t := NoDanglingRow(links, left, i, row);
      assert Joined(links, tables, t);
    }
    if t :| Joined(links, tables, t) && t[i] == row {
      assert Stays(left, t);
    }
  }
}
