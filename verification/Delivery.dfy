/** Which of Core's candidates a retrieval delivers: reranked, packed, or as Core sent them (`api/context.py`). */
module Delivery {
  import opened Text
  import opened Reranker
  import opened TokenPattern
  import opened Injection
  import opened Packing

  /** What the configured scorer does with the candidates' documents. */
  datatype Scoring = Raises | Returns(scores: seq<RowScore>)
  datatype Status = Unranked | Reranked | CoreFallback

  ghost predicate DistinctIds(items: seq<Item>) {
    forall i, j :: 0 <= i < j < |items| ==> items[i].id != items[j].id
  }

  predicate UsableScores(scores: seq<RowScore>, n: nat) {
    |scores| == n && forall s :: s in scores ==> s.Finite?
  }

  function Values(scores: seq<RowScore>): seq<real>
    requires forall s :: s in scores ==> s.Finite?
  {
    seq(|scores|, i requires 0 <= i < |scores| => scores[i].r)
  }

  /** `rank_items`: None where it raises. */
  method RankItems(items: seq<Item>, scoring: Scoring) returns (ranked: Option<seq<Item>>)
    ensures ranked.Some? <==> DistinctIds(items) && scoring.Returns? && UsableScores(scoring.scores, |items|)
    ensures ranked.Some? ==> multiset(ranked.value) == multiset(items)
    ensures ranked.Some? ==> Rankable(items, scoring) && ranked.value == Pick(items, Rank(Values(scoring.scores)))
  {
    DistinctSize(items);
    if |IdSet(items)| != |items| || scoring.Raises? || |scoring.scores| != |items| {
      return None;
    }
    if exists score :: score in scoring.scores && (score.NonFinite? || score.NotANumber?) {
      return None;
    }
    var order := Rank(Values(scoring.scores));
    RankedPermutes(items, Values(scoring.scores));
    return Some(Pick(items, order));
  }

  ghost predicate Rankable(items: seq<Item>, scoring: Scoring) {
    scoring.Returns? && UsableScores(scoring.scores, |items|)
  }

  /** `set(ids)`. */
  function IdSet(items: seq<Item>): set<string> {
    if |items| == 0 then {} else IdSet(items[..|items| - 1]) + {items[|items| - 1].id}
  }

  lemma {:induction false} IdSetHas(items: seq<Item>, id: string)
    ensures id in IdSet(items) <==> exists i :: 0 <= i < |items| && items[i].id == id
  {
    if |items| > 0 {
      IdSetHas(items[..|items| - 1], id);
    }
  }

  /** Comparing `len(ids)` with `len(set(ids))` detects exactly the duplicates. */
  lemma {:induction false} DistinctSize(items: seq<Item>)
    ensures |IdSet(items)| <= |items|
    ensures |IdSet(items)| == |items| <==> DistinctIds(items)
  {
    if |items| > 0 {
      var last := |items| - 1;
      var init := items[..last];
      DistinctSize(init);
      IdSetHas(init, items[last].id);
      if items[last].id in IdSet(init) {
        var i :| 0 <= i < last && init[i].id == items[last].id;
        assert items[i].id == items[last].id;
        assert IdSet(items) == IdSet(init);
      } else {
        assert forall i :: 0 <= i < last ==> items[i].id == init[i].id != items[last].id;
        assert DistinctIds(items) <==> DistinctIds(init);
      }
    }
  }

  lemma SameElements(a: seq<nat>, b: seq<nat>, n: nat)
    requires multiset(a) == multiset(b) && forall j :: 0 <= j < |b| ==> b[j] < n
    ensures |a| == |b| && forall j :: 0 <= j < |a| ==> a[j] < n && a[j] in b
  {
    assert |a| == |multiset(a)| == |b|;
    forall j | 0 <= j < |a| ensures a[j] in b {
      assert a[j] in multiset(b);
    }
  }

  lemma {:induction false} PickPermuted<T>(s: seq<T>, a: seq<nat>, b: seq<nat>)
    requires multiset(a) == multiset(b) && forall j :: 0 <= j < |b| ==> b[j] < |s|
    ensures forall j :: 0 <= j < |a| ==> a[j] < |s|
    ensures multiset(Pick(s, a)) == multiset(Pick(s, b))
    decreases |a|
  {
    hide Pick, Without;
    SameElements(a, b, |s|);
    if |a| == 0 {
      assert a == b;
    } else {
      var j :| 0 <= j < |b| && b[j] == a[0];
      var less, rest := Without(a, 0), Without(b, j);
      WithoutOne(a, 0);
      WithoutOne(b, j);
      PickPermuted(s, less, rest);
      PickAround(s, b, j);
      PickAround(s, a, 0);
    }
  }

  lemma PickAround<T>(s: seq<T>, b: seq<nat>, j: nat)
    requires j < |b| && forall i :: 0 <= i < |b| ==> b[i] < |s|
    ensures multiset(Pick(s, b)) == multiset(Pick(s, Without(b, j))) + multiset{s[b[j]]}
  {
    var front, back := Pick(s, b[..j]), Pick(s, b[j + 1..]);
    assert Pick(s, b) == front + [s[b[j]]] + back;
    assert Pick(s, Without(b, j)) == front + back;
  }

  /** Ranking rearranges the items and loses none. */
  lemma RankedPermutes<T>(items: seq<T>, scores: seq<real>)
    requires |scores| == |items|
    ensures multiset(Pick(items, Rank(scores))) == multiset(items)
  {
    var all := Indices(|items|);
    RankIsStableSort(scores, |items|);
    PickPermuted(items, Rank(scores), all);
    assert Pick(items, all) == items;
  }

  /** A selection by increasing positions takes no item more often than it occurs. */
  lemma {:induction false} PickIncreasing<T>(s: seq<T>, kept: seq<nat>, n: nat)
    requires n <= |s| && Increasing(kept, n)
    ensures multiset(Pick(s, kept)) <= multiset(s[..n])
  {
    if |kept| > 0 {
      var last := |kept| - 1;
      var x := kept[last];
      PickIncreasing(s, kept[..last], x);
      assert Pick(s, kept) == Pick(s, kept[..last]) + [s[x]];
      assert s[..n] == s[..x] + [s[x]] + s[x + 1..n];
    }
  }

  lemma SubsetKeepsDistinct(some: seq<Item>, all: seq<Item>)
    requires multiset(some) <= multiset(all) && DistinctIds(all)
    ensures DistinctIds(some)
  {
    forall i, j | 0 <= i < j < |some| ensures some[i].id != some[j].id {
      assert some[i] in multiset(some) && some[j] in multiset(some);
      assert some[i] in multiset(all) && some[j] in multiset(all);
      var a :| 0 <= a < |all| && all[a] == some[i];
      var b :| 0 <= b < |all| && all[b] == some[j];
      if some[i].id == some[j].id {
        assert a == b;
        OccursTwice(some, i, j);
        OccursOnce(all, a);
      }
    }
  }

  lemma OccursTwice<T>(s: seq<T>, i: nat, j: nat)
    requires i < j < |s| && s[i] == s[j]
    ensures multiset(s)[s[i]] >= 2
  {
    assert s == s[..i] + [s[i]] + s[i + 1..j] + [s[j]] + s[j + 1..];
  }

  lemma OccursOnce(s: seq<Item>, i: nat)
    requires i < |s| && DistinctIds(s)
    ensures multiset(s)[s[i]] == 1
  {
    var front, back := s[..i], s[i + 1..];
    assert s == front + [s[i]] + back;
    forall j | 0 <= j < |front| ensures front[j] != s[i] {
      assert front[j] == s[j];
    }
    forall j | 0 <= j < |back| ensures back[j] != s[i] {
      assert back[j] == s[i + 1 + j];
    }
    assert s[i] !in front && s[i] !in back;
  }

  /**
   * The candidate, rerank, pack and deliver stages of one retrieval. Whatever the scorer returns and
   * whatever Core's legend holds, each delivered item is one of Core's candidates, taken at most as
   * often as Core sent it.
   */
  method Deliver(c: Classes, core: seq<Item>, reranker: Option<Scoring>, o: Original, p: Policy)
    returns (delivered: seq<Item>, status: Status, tokens: Option<nat>)
    requires Regular(c)
    ensures multiset(delivered) <= multiset(core)
    ensures DistinctIds(core) ==> DistinctIds(delivered)
    ensures core != [] ==> delivered != []
    ensures status == Unranked <==> reranker.None? || core == []
    ensures tokens.None? ==> delivered == core
    ensures status == Unranked ==> tokens.None?
    ensures status == Reranked <==>
              && tokens.Some? && reranker.Some?
              && DistinctIds(core) && Rankable(core, reranker.value)
    ensures tokens.Some? <==>
              && core != [] && reranker.Some? && p.minK >= 1 && p.softBudget >= 1 && Complete(core, o)
    ensures tokens.Some? ==>
              var text := Render(delivered, o, p.marker);
              text.Some? && tokens.value == Tokens(c, text.value)
    ensures tokens.Some? && |delivered| > p.minK ==> tokens.value <= p.softBudget
    ensures tokens.Some? ==> exists kept ::
              && var order := RankedOrder(core, reranker.value);
              && Greedy(c, order, o, p, kept, |core|)
              && delivered == Pick(order, kept)
  {
    hide Render, Tokens;
    if reranker.None? || core == [] {
      return core, Unranked, None;
    }
    var attempt := RankItems(core, reranker.value);
    var ranked := if attempt.Some? then attempt.value else core;
    assert ranked == RankedOrder(core, reranker.value);
    SameCompleteness(core, ranked, o);
    var packed, kept := PackItems(c, ranked, o, p);
    if packed.None? {
      return core, CoreFallback, None;
    }
    delivered := packed.value.selected;
    status := if attempt.Some? then Reranked else CoreFallback;
    tokens := Some(packed.value.tokens);
    PickIncreasing(ranked, kept, |ranked|);
    assert ranked[..|ranked|] == ranked;
    if DistinctIds(core) {
      SubsetKeepsDistinct(delivered, core);
    }
  }

  /** The ranking where one is available, and Core's own order otherwise. */
  ghost function RankedOrder(core: seq<Item>, scoring: Scoring): (order: seq<Item>) {
    if DistinctIds(core) && Rankable(core, scoring) then Pick(core, Rank(Values(scoring.scores))) else core
  }

  lemma SameCompleteness(a: seq<Item>, b: seq<Item>, o: Original)
    requires multiset(a) == multiset(b)
    ensures |a| == |b| && (Complete(a, o) <==> Complete(b, o))
  {
    assert |a| == |multiset(a)| == |b|;
    forall i | 0 <= i < |a| ensures a[i] in b { assert a[i] in multiset(b); }
    forall i | 0 <= i < |b| ensures b[i] in a { assert b[i] in multiset(a); }
  }
}
