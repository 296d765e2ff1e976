/**
 * The project counts shown above the list: the number of filtered rows and,
 * per project type, how many of them have that type
 * (`Project_Type.value_counts()`, which skips rows whose type is absent).
 */
module Counts {
  import opened Wrappers
  import opened Rows
  import opened Seqs

  predicate Typed(r: Row)
  {
    r.projectType.Some?
  }

  /** How many rows have the given type. */
  function CountOf(rows: seq<Row>, projectType: string): nat
  {
    |Where(rows, TypeIs(projectType))|
  }

  /** The distinct types present, in the order each is first seen. */
  function TypesSeen(rows: seq<Row>): (ts: seq<string>)
    ensures forall i, j :: 0 <= i < j < |ts| ==> ts[i] != ts[j]
    ensures forall t :: t in ts <==> exists i :: 0 <= i < |rows| && rows[i].projectType == Some(t)
  {
    if rows == [] then []
    else
      var init := rows[..|rows| - 1];
      var last := rows[|rows| - 1];
      var seen := TypesSeen(init);
      assert forall i :: 0 <= i < |init| ==> init[i] == rows[i];
      if last.projectType.Some? && last.projectType.value !in seen then seen + [last.projectType.value]
      else seen
  }

  /** `value_counts().to_dict()`: each present type mapped to its number of rows. */
  function TypeCounts(rows: seq<Row>): (m: map<string, nat>)
    ensures forall t :: t in m <==> exists i :: 0 <= i < |rows| && rows[i].projectType == Some(t)
    ensures forall t :: t in m ==> m[t] == CountOf(rows, t) && m[t] > 0
  {
    var seen := TypesSeen(rows);
    var m := map t | t in seen :: CountOf(rows, t);
    assert forall t :: t in m ==> m[t] > 0 by {
      forall t | t in m ensures m[t] > 0 {
        var i :| 0 <= i < |rows| && rows[i].projectType == Some(t);
        assert TypeIs(t)(rows[i]);
      }
    }
    m
  }

  /** The total and the per-type counts of a filtered list. */
  datatype Summary = Summary(total: nat, byType: map<string, nat>)

  function Aggregate(rows: seq<Row>): Summary
  {
    Summary(|rows|, TypeCounts(rows))
  }

  /** A type is counted iff some row has it. */
  lemma CountPositive(rows: seq<Row>, t: string)
    ensures CountOf(rows, t) > 0 <==> t in TypesSeen(rows)
  {
    if t in TypesSeen(rows) {
      var i :| 0 <= i < |rows| && rows[i].projectType == Some(t);
      assert TypeIs(t)(rows[i]);
    }
    if CountOf(rows, t) > 0 {
      var r := Where(rows, TypeIs(t))[0];
      var i :| 0 <= i < |rows| && rows[i] == r;
      assert rows[i].projectType == Some(t);
    }
  }

  /** Summing plain counts of distinct types, one row added: grows by one iff the row's type is among them. */
  lemma {:induction false} SumStep(types: seq<string>, rows: seq<Row>, x: Row)
    requires forall i, j :: 0 <= i < j < |types| ==> types[i] != types[j]
    ensures SumOf(types, rows + [x])
         == SumOf(types, rows) + (if x.projectType.Some? && x.projectType.value in types then 1 else 0)
  {
    if types != [] {
      var init := types[..|types| - 1];
      var t := types[|types| - 1];
      assert types == init + [t];
      SumStep(init, rows, x);
      WhereSnoc(rows, x, TypeIs(t));
      assert t !in init;
    }
  }

  /**
   * The sum of the counts of the given types; over `TypesSeen(rows)` it is the
   * sum of the values of `TypeCounts(rows)`, each of which is that type's `CountOf`.
   */
  ghost function SumOf(types: seq<string>, rows: seq<Row>): nat
  {
    if types == [] then 0
    else SumOf(types[..|types| - 1], rows) + CountOf(rows, types[|types| - 1])
  }

  /** The per-type counts add up to the number of rows that have a type. */
  lemma {:induction false} SumOfTypesSeen(rows: seq<Row>)
    ensures SumOf(TypesSeen(rows), rows) == |Where(rows, Typed)|
  {
    if rows != [] {
      var init := rows[..|rows| - 1];
      var x := rows[|rows| - 1];
      assert rows == init + [x];
      SumOfTypesSeen(init);
      WhereSnoc(init, x, Typed);
      var seen := TypesSeen(init);
      SumStep(seen, init, x);
      if x.projectType.Some? && x.projectType.value !in seen {
        var t := x.projectType.value;
        CountPositive(init, t);
        WhereSnoc(init, x, TypeIs(t));
        assert seen + [t] == TypesSeen(rows);
        assert (seen + [t])[..|seen + [t]| - 1] == seen;
        SumStep(seen, init, x);
      }
    }
  }

  /**
   * The total is the number of filtered rows, each per-type count is the
   * number of those rows with that type, and the counts add up to the number
   * of rows that have a type: the whole total when every row has one.
   */
  lemma AggregateSound(rows: seq<Row>)
    ensures Aggregate(rows).total == |rows|
    ensures forall t :: t in Aggregate(rows).byType ==> Aggregate(rows).byType[t] == |Where(rows, TypeIs(t))|
    ensures forall t :: t in Aggregate(rows).byType <==> t in TypesSeen(rows)
    ensures SumOf(TypesSeen(rows), rows) == |Where(rows, Typed)|
    ensures (forall i :: 0 <= i < |rows| ==> Typed(rows[i]))
            ==> SumOf(TypesSeen(rows), rows) == Aggregate(rows).total
  {
    SumOfTypesSeen(rows);
    if forall i :: 0 <= i < |rows| ==> Typed(rows[i]) {
      WhereAll(rows, Typed);
    }
  }
}
