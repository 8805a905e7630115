/** API scoring and ranking of Core's candidates (`retrieval_reranker.py`). */
module Reranker {
  import opened Text

  // ---------------------------------------------------------------- scoring

  datatype Index = IntIndex(i: int) | NotAnIndex
  datatype RowScore = Finite(r: real) | NonFinite | NotANumber
  datatype Row = Row(index: Index, score: RowScore) | NotAnObject

  predicate RowOk(row: Row, n: nat) {
    row.Row? && row.index.IntIndex? && 0 <= row.index.i < n && row.score.Finite?
  }

  predicate NamesIndex(row: Row, i: int) {
    row.Row? && row.index == IntIndex(i)
  }

  ghost predicate Covers(rows: seq<Row>, i: int) {
    exists row :: row in rows && NamesIndex(row, i)
  }

  /** The rows are a permutation of all document indices with finite scores. */
  ghost predicate FullScoring(rows: seq<Row>, n: nat) {
    && |rows| == n
    && (forall row :: row in rows ==> RowOk(row, n))
    && forall i :: 0 <= i < n ==> Covers(rows, i)
  }

  ghost predicate Carries(rows: seq<Row>, scores: seq<real>) {
    forall row :: row in rows ==> RowOk(row, |scores|) && scores[row.index.i] == row.score.r
  }

  /** `ApiReranker.score` on the rows of a response body for `n` documents. */
  method Score(rows: seq<Row>, n: nat) returns (scores: Option<seq<real>>)
    ensures scores.Some? <==> n == 0 || FullScoring(rows, n)
    ensures scores.Some? ==> |scores.value| == n && (n > 0 ==> Carries(rows, scores.value))
  {
    if n == 0 {
      return Some([]);
    }
    var slots := new Option<real>[n](_ => None);
    assert Filled(slots[..], []);
    for k := 0 to |rows|
      invariant Filled(slots[..], rows[..k])
    {
      var row := rows[k];
      if row.NotAnObject? || row.index.NotAnIndex? || row.index.i < 0 || row.index.i >= n || !row.score.Finite? {
        assert row in rows;
        return None;
      }
      if slots[row.index.i].Some? {
        SlotTaken(slots[..], rows, k);
        return None;
      }
      FilledStep(slots[..], rows[..k], row);
      ghost var before := slots[..];
      slots[row.index.i] := Some(row.score.r);
      assert slots[..] == before[row.index.i := Some(row.score.r)];
      assert rows[..k + 1] == rows[..k] + [row];
    }
    assert rows[..|rows|] == rows;
    var complete := forall i :: 0 <= i < n ==> slots[i].Some?;
    FilledIsFull(slots[..], rows);
    if !complete {
      return None;
    }
    scores := Some(seq(n, i requires 0 <= i < n && slots[i].Some? reads slots => slots[i].value));
  }

  /** The slots hold exactly the scores of the rows seen so far, no two of which name the same index. */
  ghost predicate Filled(slots: seq<Option<real>>, rows: seq<Row>) {
    && (forall j :: 0 <= j < |rows| ==> RowOk(rows[j], |slots|) && slots[rows[j].index.i] == Some(rows[j].score.r))
    && (forall i :: 0 <= i < |slots| && slots[i].Some? ==> Covers(rows, i))
    && Distinct(rows)
  }

  lemma FilledStep(slots: seq<Option<real>>, rows: seq<Row>, row: Row)
    requires Filled(slots, rows) && RowOk(row, |slots|) && slots[row.index.i].None?
    ensures Filled(slots[row.index.i := Some(row.score.r)], rows + [row])
  {
    var more := rows + [row];
    var after := slots[row.index.i := Some(row.score.r)];
    forall i | 0 <= i < |after| && after[i].Some? ensures Covers(more, i) {
      if i == row.index.i {
        assert row in more && NamesIndex(row, i);
      } else {
        assert Covers(rows, i);
        var r :| r in rows && NamesIndex(r, i);
        assert r in more;
      }
    }
    assert forall j :: 0 <= j < |rows| ==> rows[j].index != row.index;
  }

  lemma SlotTaken(slots: seq<Option<real>>, rows: seq<Row>, k: nat)
    requires k < |rows| && Filled(slots, rows[..k]) && RowOk(rows[k], |slots|) && slots[rows[k].index.i].Some?
    ensures !FullScoring(rows, |slots|)
  {
    assert Covers(rows[..k], rows[k].index.i);
    var r :| r in rows[..k] && NamesIndex(r, rows[k].index.i);
    var j :| 0 <= j < k && rows[..k][j] == r;
    RepeatedIsNotFull(rows, |slots|, j, k);
  }

  lemma FilledIsFull(slots: seq<Option<real>>, rows: seq<Row>)
    requires Filled(slots, rows)
    ensures FullScoring(rows, |slots|) <==> forall i :: 0 <= i < |slots| ==> slots[i].Some?
  {
    if FullScoring(rows, |slots|) {
      forall i | 0 <= i < |slots| ensures slots[i].Some? {
        assert Covers(rows, i);
        var r :| r in rows && NamesIndex(r, i);
        var j :| 0 <= j < |rows| && rows[j] == r;
      }
    }
    if forall i :: 0 <= i < |slots| ==> slots[i].Some? {
      DistinctCoverIsFull(rows, |slots|);
    }
  }

  ghost predicate Distinct(rows: seq<Row>) {
    forall i, j :: 0 <= i < j < |rows| ==> rows[i].Row? && rows[j].Row? && rows[i].index != rows[j].index
  }

  ghost function IndexSet(rows: seq<Row>): set<Index>
    requires forall j :: 0 <= j < |rows| ==> rows[j].Row?
  {
    if |rows| == 0 then {} else IndexSet(rows[..|rows| - 1]) + {rows[|rows| - 1].index}
  }

  ghost function Below(n: nat): set<Index> {
    set i | 0 <= i < n :: IntIndex(i)
  }

  lemma {:induction false} BelowSize(n: nat)
    ensures |Below(n)| == n
  {
    if n > 0 {
      BelowSize(n - 1);
      assert Below(n) == Below(n - 1) + {IntIndex(n - 1)};
      assert IntIndex(n - 1) !in Below(n - 1);
    }
  }

  lemma {:induction false} IndexSetHas(rows: seq<Row>, x: Index)
    requires forall j :: 0 <= j < |rows| ==> rows[j].Row?
    ensures x in IndexSet(rows) <==> exists j :: 0 <= j < |rows| && rows[j].index == x
  {
    if |rows| > 0 {
      IndexSetHas(rows[..|rows| - 1], x);
    }
  }

  /** The number of different indices is at most the number of rows, and equal to it only if none repeats. */
  lemma {:induction false} IndexSetSize(rows: seq<Row>)
    requires forall j :: 0 <= j < |rows| ==> rows[j].Row?
    ensures |IndexSet(rows)| <= |rows|
    ensures |IndexSet(rows)| == |rows| <==> Distinct(rows)
  {
    if |rows| > 0 {
      var last := |rows| - 1;
      var init := rows[..last];
      IndexSetSize(init);
      IndexSetHas(init, rows[last].index);
      assert Distinct(rows) ==> Distinct(init);
      if rows[last].index in IndexSet(init) {
        var j :| 0 <= j < last && init[j].index == rows[last].index;
        assert rows[j].index == rows[last].index;
        assert IndexSet(rows) == IndexSet(init);
      } else {
        assert forall j :: 0 <= j < last ==> rows[j].index == init[j].index != rows[last].index;
      }
    }
  }

  lemma CoverIndexSet(rows: seq<Row>, n: nat)
    requires forall row :: row in rows ==> RowOk(row, n)
    requires forall i :: 0 <= i < n ==> Covers(rows, i)
    ensures forall j :: 0 <= j < |rows| ==> rows[j].Row?
    ensures IndexSet(rows) == Below(n)
  {
    assert forall j :: 0 <= j < |rows| ==> rows[j] in rows;
    forall x ensures x in IndexSet(rows) <==> x in Below(n) {
      IndexSetHas(rows, x);
      if x in Below(n) {
        assert Covers(rows, x.i);
        var row :| row in rows && NamesIndex(row, x.i);
        var j :| 0 <= j < |rows| && rows[j] == row;
      }
    }
  }

  lemma RepeatedIsNotFull(rows: seq<Row>, n: nat, i: nat, j: nat)
    requires i < j < |rows| && rows[i].Row? && rows[j].Row? && rows[i].index == rows[j].index
    ensures !FullScoring(rows, n)
  {
    if FullScoring(rows, n) {
      CoverIndexSet(rows, n);
      BelowSize(n);
      IndexSetSize(rows);
    }
  }

  lemma DistinctCoverIsFull(rows: seq<Row>, n: nat)
    requires Distinct(rows) && (forall j :: 0 <= j < |rows| ==> RowOk(rows[j], n))
    requires forall i :: 0 <= i < n ==> Covers(rows, i)
    ensures FullScoring(rows, n)
  {
    CoverIndexSet(rows, n);
    BelowSize(n);
    IndexSetSize(rows);
  }

  /** Success and scores do not depend on the order in which the rows come back. */
  lemma OrderIndependent(rows: seq<Row>, other: seq<Row>, n: nat, scores: seq<real>, otherScores: seq<real>)
    requires multiset(rows) == multiset(other)
    ensures FullScoring(rows, n) <==> FullScoring(other, n)
    ensures (&& FullScoring(rows, n) && |scores| == |otherScores| == n
             && Carries(rows, scores) && Carries(other, otherScores)) ==> scores == otherScores
  {
    assert |rows| == |multiset(rows)| == |other|;
    forall row ensures row in rows <==> row in other {
      assert row in rows <==> row in multiset(rows);
      assert row in other <==> row in multiset(other);
    }
    forall i ensures Covers(rows, i) <==> Covers(other, i) {
    }
    if FullScoring(rows, n) && |scores| == |otherScores| == n && Carries(rows, scores) && Carries(other, otherScores) {
      forall i | 0 <= i < n ensures scores[i] == otherScores[i] {
        assert Covers(rows, i);
        var row :| row in rows && NamesIndex(row, i);
        assert row in other;
      }
    }
  }

  // ---------------------------------------------------------------- ranking

  /** The sort key order of `rank_items`: higher score first, then lower index. */
  predicate Before(scores: seq<real>, i: nat, j: nat)
    requires i < |scores| && j < |scores|
  {
    scores[i] > scores[j] || (scores[i] == scores[j] && i < j)
  }

  function InsertIndex(scores: seq<real>, sorted: seq<nat>, i: nat): seq<nat>
    requires i < |scores| && forall k :: 0 <= k < |sorted| ==> sorted[k] < |scores|
  {
    if |sorted| == 0 then [i]
    else if Before(scores, i, sorted[0]) then [i] + sorted
    else [sorted[0]] + InsertIndex(scores, sorted[1..], i)
  }

  /** `sorted(range(n), key=...)`. */
  function RankUpTo(scores: seq<real>, n: nat): (order: seq<nat>)
    requires n <= |scores|
    ensures |order| == n && forall k :: 0 <= k < n ==> order[k] < n
  {
    if n == 0 then []
    else
      InsertedIsPermuted(scores, RankUpTo(scores, n - 1), n - 1);
      InsertIndex(scores, RankUpTo(scores, n - 1), n - 1)
  }

  function Rank(scores: seq<real>): seq<nat> {
    RankUpTo(scores, |scores|)
  }

  lemma {:induction false} InsertedIsPermuted(scores: seq<real>, sorted: seq<nat>, i: nat)
    requires i < |scores| && forall k :: 0 <= k < |sorted| ==> sorted[k] < |scores|
    ensures multiset(InsertIndex(scores, sorted, i)) == multiset(sorted) + multiset{i}
    ensures |InsertIndex(scores, sorted, i)| == |sorted| + 1
    ensures forall k :: 0 <= k < |sorted| + 1 ==>
              InsertIndex(scores, sorted, i)[k] == i || InsertIndex(scores, sorted, i)[k] in sorted
  {
    if |sorted| > 0 {
      assert sorted == [sorted[0]] + sorted[1..];
      if !Before(scores, i, sorted[0]) {
        InsertedIsPermuted(scores, sorted[1..], i);
      }
    }
  }

  ghost predicate SortedBy(scores: seq<real>, order: seq<nat>) {
    && (forall k :: 0 <= k < |order| ==> order[k] < |scores|)
    && forall a, b :: 0 <= a < b < |order| ==> Before(scores, order[a], order[b])
  }

  lemma {:induction false} InsertedIsSorted(scores: seq<real>, sorted: seq<nat>, i: nat)
    requires i < |scores| && SortedBy(scores, sorted) && forall k :: 0 <= k < |sorted| ==> sorted[k] < i
    ensures SortedBy(scores, InsertIndex(scores, sorted, i))
  {
    InsertedIsPermuted(scores, sorted, i);
    if |sorted| > 0 {
      if Before(scores, i, sorted[0]) {
        var r := [i] + sorted;
        assert forall k :: 0 <= k < |sorted| ==> Before(scores, i, sorted[k]);
      } else {
        var rest := sorted[1..];
        assert forall a, b :: 0 <= a < b < |rest| ==> Before(scores, rest[a], rest[b]);
        InsertedIsSorted(scores, rest, i);
        InsertedIsPermuted(scores, rest, i);
        var tail := InsertIndex(scores, rest, i);
        forall k | 0 <= k < |tail| ensures Before(scores, sorted[0], tail[k]) {
          if tail[k] != i {
            var m :| 0 <= m < |rest| && rest[m] == tail[k];
            assert Before(scores, sorted[0], sorted[m + 1]);
          }
        }
      }
    }
  }

  /** The ranking lists every index once, by descending score, and in candidate order among equals. */
  lemma {:induction false} RankIsStableSort(scores: seq<real>, n: nat)
    requires n <= |scores|
    ensures SortedBy(scores, RankUpTo(scores, n))
    ensures multiset(RankUpTo(scores, n)) == multiset(Indices(n))
  {
    hide SortedBy, InsertIndex;
    if n > 0 {
      RankIsStableSort(scores, n - 1);
      var before := RankUpTo(scores, n - 1);
      InsertedIsSorted(scores, before, n - 1);
      InsertedIsPermuted(scores, before, n - 1);
      assert Indices(n) == Indices(n - 1) + [n - 1];
    } else {
      NothingSorted(scores);
    }
  }

  /** The candidates' own order. */
  function Indices(n: nat): seq<nat> {
    seq(n, i => i)
  }

  lemma NothingSorted(scores: seq<real>)
    ensures SortedBy(scores, [])
  {
  }

  /** There is only one such order, so any correct sort gives the same ranking. */
  lemma {:induction false} StableSortIsUnique(scores: seq<real>, a: seq<nat>, b: seq<nat>)
    requires SortedBy(scores, a) && SortedBy(scores, b) && multiset(a) == multiset(b)
    ensures a == b
  {
    assert |a| == |multiset(a)| == |b|;
    if |a| > 0 {
      SameFirst(scores, a, b);
      assert a == [a[0]] + a[1..] && b == [b[0]] + b[1..];
      assert multiset(a[1..]) == multiset(a) - multiset{a[0]};
      assert multiset(b[1..]) == multiset(b) - multiset{b[0]};
      SortedTail(scores, a);
      SortedTail(scores, b);
      StableSortIsUnique(scores, a[1..], b[1..]);
    }
  }

  lemma SortedTail(scores: seq<real>, a: seq<nat>)
    requires SortedBy(scores, a) && |a| > 0
    ensures SortedBy(scores, a[1..])
  {
  }

  lemma SameFirst(scores: seq<real>, a: seq<nat>, b: seq<nat>)
    requires SortedBy(scores, a) && SortedBy(scores, b) && multiset(a) == multiset(b) && |a| > 0 && |b| > 0
    ensures a[0] == b[0]
  {
    assert a[0] in multiset(b) && b[0] in multiset(a);
    var i :| 0 <= i < |b| && b[i] == a[0];
    var j :| 0 <= j < |a| && a[j] == b[0];
  }
}
