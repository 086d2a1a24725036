/**
 * Ordering of a tied group of eliminated pilots by qualification order: the stable sorts
 * of the leaderboard builders, keyed by a pilot's index in the qualification list.
 */
module TieBreak {
  import opened Wrappers
  import opened StableSort
  import opened Records

  /** Python's `list.index`: the first position of `id` in `q`, or `|q|` when it is absent. */
  function FirstIndex(q: seq<int>, id: int): (i: nat)
    ensures i <= |q|
    ensures i == |q| <==> id !in q
    ensures i < |q| ==> q[i] == id && forall j :: 0 <= j < i ==> q[j] != id
  {
    if |q| == 0 then 0
    else if q[0] == id then 0
    else 1 + FirstIndex(q[1..], id)
  }

  /** The sort key of a row: its pilot's qualification index. */
  function QualificationKey(q: seq<int>): Row -> Key
  {
    (row: Row) => Key(FirstIndex(q, row.Id()), 0, 0)
  }

  /** Every row's pilot appears in the qualification order, so `index` cannot raise. */
  predicate AllQualified(group: seq<Row>, q: seq<int>)
  {
    forall i :: 0 <= i < |group| ==> group[i].Id() in q
  }

  /**
   * Sorts a tied group by qualification index; fails (as `ValueError` would) when a
   * pilot of the group is missing from the qualification order.
   */
  function SortByQualification(group: seq<Row>, q: seq<int>): (r: Option<seq<Row>>)
    ensures r.Some? <==> AllQualified(group, q)
    ensures r.Some? ==> |r.value| == |group|
  {
    if AllQualified(group, q) then Some(SortBy(group, QualificationKey(q))) else None
  }

  /** The sorted group is a permutation of the group. */
  lemma TieBreakPermutation(group: seq<Row>, q: seq<int>)
    requires AllQualified(group, q)
    ensures multiset(SortByQualification(group, q).value) == multiset(group)
  {
    SortByPermutation(group, QualificationKey(q));
  }

  /** The sorted group is non-decreasing in qualification index. */
  lemma TieBreakOrdered(group: seq<Row>, q: seq<int>)
    requires AllQualified(group, q)
    ensures var r := SortByQualification(group, q).value;
      forall i, j :: 0 <= i < j < |r| ==> FirstIndex(q, r[i].Id()) <= FirstIndex(q, r[j].Id())
  {
    SortBySorted(group, QualificationKey(q));
  }

  /**
   * Stable: the rows sharing one qualification index (several sentinels, or several
   * results of one pilot) come out in the order they went in.
   */
  lemma TieBreakStable(group: seq<Row>, q: seq<int>, index: nat)
    requires AllQualified(group, q)
    ensures var key := QualificationKey(q);
      Having(SortByQualification(group, q).value, key, Key(index, 0, 0)) == Having(group, key, Key(index, 0, 0))
  {
    SortByStable(group, QualificationKey(q), Key(index, 0, 0));
  }

  /** Sorting a group that is already in qualification order changes nothing. */
  lemma TieBreakIdempotent(group: seq<Row>, q: seq<int>)
    requires AllQualified(group, q)
    requires forall i, j :: 0 <= i < j < |group| ==> FirstIndex(q, group[i].Id()) <= FirstIndex(q, group[j].Id())
    ensures SortByQualification(group, q) == Some(group)
  {
    SortByIdempotent(group, QualificationKey(q));
  }

  /**
   * With the sentinel id 0 appended after a ranking that does not contain it, the
   * sentinels of a sorted group come after every row of a real, ranked pilot.
   */
  lemma {:induction false} SentinelsLast(group: seq<Row>, ranking: seq<int>)
    requires 0 !in ranking
    requires AllQualified(group, ranking + [0])
    ensures var r := SortByQualification(group, ranking + [0]).value;
      forall i, j :: 0 <= i < j < |r| && r[i].Id() == 0 ==> r[j].Id() == 0
  {
    var q := ranking + [0];
    var r := SortByQualification(group, q).value;
    TieBreakOrdered(group, q);
    TieBreakPermutation(group, q);
    forall i, j | 0 <= i < j < |r| && r[i].Id() == 0 ensures r[j].Id() == 0 {
      assert FirstIndex(q, 0) == |ranking| by {
        assert q[|ranking|] == 0;
      }
      assert r[j] in multiset(group);
      var m :| 0 <= m < |group| && group[m] == r[j];
      var fj := FirstIndex(q, r[j].Id());
      assert fj < |q|;
      assert fj == |ranking|;
      assert q[fj] == r[j].Id();
    }
  }
}
