/** A query over tables joined along a forest of equality conditions, and what it means
    for the tables to be reduced. */
module JoinTree {

  type Value = int
  type Row = seq<Value>
  type Key = seq<Value>

  /** How a table is joined to a table before it: the columns on its own side and the
      columns on the parent's side, condition by condition. */
  datatype Link = Root | Child(parent: nat, own: seq<nat>, other: seq<nat>)

  function Cell(row: Row, column: nat): (v: Value)
    ensures column < |row| ==> v == row[column]
  {
    if column < |row| then row[column] else 0
  }

  function KeyOf(row: Row, columns: seq<nat>): Key {
    seq(|columns|, i requires 0 <= i < |columns| => Cell(row, columns[i]))
  }

  /** Tables come in the order in which they were added to the forest. */
  predicate Forest(links: seq<Link>) {
    forall i :: 0 <= i < |links| && links[i].Child? ==> links[i].parent < i
  }

  predicate Matches(link: Link, row: Row, parent: Row)
    requires link.Child?
  {
    KeyOf(row, link.own) == KeyOf(parent, link.other)
  }

  /** A row of every table, such that all conditions along the forest hold. */
  predicate Joined(links: seq<Link>, tables: seq<set<Row>>, t: seq<Row>)
    requires Forest(links) && |tables| == |links|
  {
    && |t| == |links|
    && (forall i :: 0 <= i < |t| ==> t[i] in tables[i])
    && (forall i :: 0 <= i < |t| && links[i].Child? ==> Matches(links[i], t[i], t[links[i].parent]))
  }

  /** Each row finds a partner in the parent's table, and one in the table of each
      child. */
  predicate Upward(links: seq<Link>, tables: seq<set<Row>>, i: nat)
    requires Forest(links) && |tables| == |links| && i < |links| && links[i].Child?
  {
    forall r :: r in tables[i] ==> exists p :: p in tables[links[i].parent] && Matches(links[i], r, p)
  }

  predicate Downward(links: seq<Link>, tables: seq<set<Row>>, i: nat)
    requires Forest(links) && |tables| == |links| && i < |links| && links[i].Child?
  {
    forall p :: p in tables[links[i].parent] ==> exists r :: r in tables[i] && Matches(links[i], r, p)
  }

  predicate Reduced(links: seq<Link>, tables: seq<set<Row>>)
    requires Forest(links) && |tables| == |links|
  {
    forall i :: 0 <= i < |links| && links[i].Child? ==> Upward(links, tables, i) && Downward(links, tables, i)
  }

  // ---- every row of a reduced table takes part in the join ----

  /** Rows for some tables, with each table its parent. */
  predicate Partial(links: seq<Link>, tables: seq<set<Row>>, p: map<nat, Row>)
    requires Forest(links) && |tables| == |links|
  {
    && (forall i :: i in p ==> i < |links| && p[i] in tables[i])
    && (forall i :: i in p && links[i].Child? ==> links[i].parent in p && Matches(links[i], p[i], p[links[i].parent]))
  }

  lemma PartnerAbove(links: seq<Link>, tables: seq<set<Row>>, i: nat, row: Row) returns (above: Row)
    requires Forest(links) && |tables| == |links| && Reduced(links, tables)
    requires i < |links| && links[i].Child? && row in tables[i]
    ensures above in tables[links[i].parent] && Matches(links[i], row, above)
  {
    hide Matches;
    assert Upward(links, tables, i);
    above :| above in tables[links[i].parent] && Matches(links[i], row, above);
  }

  lemma PartnerBelow(links: seq<Link>, tables: seq<set<Row>>, i: nat, above: Row) returns (row: Row)
    requires Forest(links) && |tables| == |links| && Reduced(links, tables)
    requires i < |links| && links[i].Child? && above in tables[links[i].parent]
    ensures row in tables[i] && Matches(links[i], row, above)
  {
    hide Matches;
    assert Downward(links, tables, i);
    row :| row in tables[i] && Matches(links[i], row, above);
  }

  lemma AddBelow(links: seq<Link>, tables: seq<set<Row>>, p: map<nat, Row>, i: nat, row: Row)
    requires Forest(links) && |tables| == |links| && Partial(links, tables, p)
    requires i < |links| && row in tables[i] && i !in p
    requires links[i].Child? ==> links[i].parent in p && Matches(links[i], row, p[links[i].parent])
    requires forall k :: k in p && links[k].Child? ==> links[k].parent != i
    ensures Partial(links, tables, p[i := row])
  {
    hide Matches;
  }

  /** A partner for a row, from the table up to its root. */
  lemma {:induction false} ClimbUp(links: seq<Link>, tables: seq<set<Row>>, i: nat, row: Row) returns (p: map<nat, Row>)
    requires Forest(links) && |tables| == |links| && Reduced(links, tables)
    requires i < |links| && row in tables[i]
    ensures Partial(links, tables, p) && i in p && p[i] == row
    ensures forall k :: k in p ==> k <= i
    decreases i
  {
    hide Matches, Reduced, Partial;
    if links[i].Root? {
      p := map[i := row];
      assert Partial(links, tables, p) by { Alone(links, tables, i, row); }
    } else {
      var above := PartnerAbove(links, tables, i, row);
      p := ClimbUp(links, tables, links[i].parent, above);
      AddBelow(links, tables, p, i, row) by { PartialBounds(links, tables, p); }
      p := p[i := row];
    }
  }

  lemma Alone(links: seq<Link>, tables: seq<set<Row>>, i: nat, row: Row)
    requires Forest(links) && |tables| == |links| && i < |links| && row in tables[i] && links[i].Root?
    ensures Partial(links, tables, map[i := row])
  {
    hide Matches;
  }

  lemma PartialBounds(links: seq<Link>, tables: seq<set<Row>>, p: map<nat, Row>)
    requires Forest(links) && |tables| == |links| && Partial(links, tables, p)
    ensures forall k :: k in p ==> k < |links| && (links[k].Child? ==> links[k].parent < k)
  {
  }

  predicate Extends(links: seq<Link>, tables: seq<set<Row>>, p: map<nat, Row>, t: seq<Row>)
    requires Forest(links) && |tables| == |links|
  {
    && |t| <= |links|
    && (forall i :: 0 <= i < |t| ==> t[i] in tables[i] && (i in p ==> t[i] == p[i]))
    && (forall i :: 0 <= i < |t| && links[i].Child? ==> Matches(links[i], t[i], t[links[i].parent]))
  }

  /** Rows for the first `n` tables, in agreement with those chosen before. */
  lemma {:induction false} FillDown(links: seq<Link>, tables: seq<set<Row>>, p: map<nat, Row>,
                                    n: nat) returns (t: seq<Row>)
    requires Forest(links) && |tables| == |links| && Reduced(links, tables) && Partial(links, tables, p) && n <= |links|
    requires forall i :: 0 <= i < |links| && links[i].Root? ==> tables[i] != {}
    ensures |t| == n && Extends(links, tables, p, t)
    decreases n
  {
    hide Matches, Reduced;
    if n == 0 {
      t := [];
    } else {
      t := FillDown(links, tables, p, n - 1);
      var k := n - 1;
      var row: Row;
      if k in p {
        row := p[k];
      } else if links[k].Root? {
        row :| row in tables[k];
      } else {
        row := PartnerBelow(links, tables, k, t[links[k].parent]);
      }
      t := t + [row];
    }
  }

  /** In a reduced forest without an empty table no row is there in vain. */
  lemma NoDanglingRow(links: seq<Link>, tables: seq<set<Row>>, i: nat, row: Row) returns (t: seq<Row>)
    requires Forest(links) && |tables| == |links| && Reduced(links, tables)
    requires forall k :: 0 <= k < |links| && links[k].Root? ==> tables[k] != {}
    requires i < |links| && row in tables[i]
    ensures Joined(links, tables, t) && t[i] == row
  {
    var p := ClimbUp(links, tables, i, row);
    t := FillDown(links, tables, p, |links|);
  }
}
