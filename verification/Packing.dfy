/** Greedy packing of ranked items under the soft token budget (`pack_items`). */
module Packing {
  import opened Text
  import opened TokenPattern
  import opened Injection

  /** The items at the given positions, in that order. */
  function Pick<T>(items: seq<T>, kept: seq<nat>): seq<T>
    requires forall j :: 0 <= j < |kept| ==> kept[j] < |items|
  {
    seq(|kept|, j requires 0 <= j < |kept| => items[kept[j]])
  }

  /** Positions of a subsequence of n items. */
  ghost predicate Increasing(kept: seq<nat>, n: nat) {
    && (forall j :: 0 <= j < |kept| ==> kept[j] < n)
    && forall a, b :: 0 <= a < b < |kept| ==> kept[a] < kept[b]
  }

  datatype Packed = Packed(selected: seq<Item>, text: string, tokens: nat)
  datatype Policy = Policy(minK: int, softBudget: int, marker: string)

  ghost predicate Fits(c: Classes, items: seq<Item>, o: Original, p: Policy) {
    Complete(items, o) && Cost(c, items, o, p.marker) <= p.softBudget
  }

  ghost predicate Exceeds(c: Classes, items: seq<Item>, o: Original, p: Policy) {
    Complete(items, o) && Cost(c, items, o, p.marker) > p.softBudget
  }

  /** Position i did not fit behind the first m kept items, which are the kept ones before it. */
  ghost predicate TurnedDown(c: Classes, items: seq<Item>, o: Original, p: Policy, kept: seq<nat>, i: nat, m: nat) {
    && i < |items| && m <= |kept| && Increasing(kept, |items|)
    && (forall j :: 0 <= j < m ==> kept[j] < i)
    && (forall j :: m <= j < |kept| ==> i < kept[j])
    && Exceeds(c, Pick(items, kept[..m]) + [items[i]], o, p)
  }

  ghost predicate LeftOut(c: Classes, items: seq<Item>, o: Original, p: Policy, kept: seq<nat>, i: nat) {
    exists m: nat :: TurnedDown(c, items, o, p, kept, i, m)
  }

  /** The greedy selection among the first n items. */
  ghost predicate Greedy(c: Classes, items: seq<Item>, o: Original, p: Policy, kept: seq<nat>, n: nat) {
    && n <= |items| && Increasing(kept, n)
    && (p.minK <= |kept| || |kept| == n)
    && (forall i :: 0 <= i < p.minK && i < |kept| ==> kept[i] == i)
    && (forall m: nat :: p.minK < m <= |kept| ==> Fits(c, Pick(items, kept[..m]), o, p))
    && forall i: nat :: i < n && i !in kept ==> LeftOut(c, items, o, p, kept, i)
  }

  /**
   * `pack_items`; None where the source raises. The selection is a subsequence of the ranking, and
   * no skipped item could be appended to it within the budget.
   */
  method PackItems(c: Classes, items: seq<Item>, o: Original, p: Policy) returns (r: Option<Packed>, kept: seq<nat>)
    requires Regular(c)
    ensures r.Some? <==> p.minK >= 1 && p.softBudget >= 1 && (items == [] || Complete(items, o))
    ensures r.Some? ==> Greedy(c, items, o, p, kept, |items|) && r.value.selected == Pick(items, kept)
    ensures r.Some? ==> Render(r.value.selected, o, p.marker) == Some(r.value.text)
    ensures r.Some? ==> r.value.tokens == Tokens(c, r.value.text)
    ensures r.Some? && |r.value.selected| > p.minK ==> r.value.tokens <= p.softBudget
    ensures r.Some? ==> forall i :: 0 <= i < |items| && i !in kept ==> Exceeds(c, r.value.selected + [items[i]], o, p)
  {
    hide Tokens, Cost, Render;
    if p.minK < 1 || p.softBudget < 1 {
      return None, [];
    }
    var start := if p.minK < |items| then p.minK else |items|;
    kept := seq(start, i => i);
    var selected := items[..start];
    assert selected == Pick(items, kept);
    GreedyStart(c, items, o, p, kept);
    for n := start to |items|
      invariant Greedy(c, items, o, p, kept, n) && selected == Pick(items, kept)
      invariant if n == start then selected == items[..n] else Complete(items[..n], o)
    {
      var trial := selected + [items[n]];
      var rendered := RenderInjection(trial, o, p.marker);
      RenderFails(trial, o, p.marker);
      if rendered.None? {
        TrialIncomplete(items, kept, n, o);
        return None, [];
      }
      GrowComplete(items, selected, n, o);
      RenderCost(c, trial, o, p.marker);
      FoundAre(c, rendered.value);
      if |FindAll(c, rendered.value)| <= p.softBudget {
        GreedyKeep(c, items, o, p, kept, n);
        assert Pick(items, kept + [n]) == trial;
        kept := kept + [n];
        selected := trial;
      } else {
        GreedySkip(c, items, o, p, kept, n);
      }
    }
    assert items[..|items|] == items;
    var text := RenderInjection(selected, o, p.marker);
    RenderFails(selected, o, p.marker);
    if text.None? {
      PickedComplete(items, kept, o);
      return None, [];
    }
    if items != [] {
      assert kept[0] == 0;
      assert Complete(items, o);
      PickedComplete(items, kept, o);
      RenderCost(c, selected, o, p.marker);
      assert kept[..|kept|] == kept;
      forall i | 0 <= i < |items| && i !in kept ensures Exceeds(c, selected + [items[i]], o, p) {
        GreedyIsMaximal(c, items, o, p, kept, i);
      }
    }
    FoundAre(c, text.value);
    return Some(Packed(selected, text.value, |FindAll(c, text.value)|)), kept;
  }

  /** Rendering raises exactly for a nonempty selection with an incomplete legend. */
  lemma RenderFails(items: seq<Item>, o: Original, marker: string)
    ensures Render(items, o, marker).None? <==> items != [] && !Complete(items, o)
  {
  }

  lemma PickedComplete(items: seq<Item>, kept: seq<nat>, o: Original)
    requires forall j :: 0 <= j < |kept| ==> kept[j] < |items|
    ensures Complete(items, o) ==> Complete(Pick(items, kept), o)
  {
  }

  lemma TrialIncomplete(items: seq<Item>, kept: seq<nat>, n: nat, o: Original)
    requires n < |items| && forall j :: 0 <= j < |kept| ==> kept[j] < |items|
    requires !Complete(Pick(items, kept) + [items[n]], o)
    ensures !Complete(items, o)
  {
    PickedComplete(items, kept, o);
  }

  lemma GrowComplete(items: seq<Item>, selected: seq<Item>, n: nat, o: Original)
    requires n < |items| && Complete(selected + [items[n]], o)
    requires selected == items[..n] || Complete(items[..n], o)
    ensures Complete(items[..n + 1], o)
  {
    var trial := selected + [items[n]];
    assert trial[|selected|] == items[n];
    assert forall i :: 0 <= i < |selected| ==> trial[i] == selected[i];
  }

  lemma GreedyStart(c: Classes, items: seq<Item>, o: Original, p: Policy, kept: seq<nat>)
    requires |kept| <= |items| && |kept| <= p.minK && forall j :: 0 <= j < |kept| ==> kept[j] == j
    ensures Greedy(c, items, o, p, kept, |kept|)
  {
    forall i: nat | i < |kept| ensures i in kept {
      assert kept[i] == i;
    }
  }

  lemma LeftOutStays(c: Classes, items: seq<Item>, o: Original, p: Policy, kept: seq<nat>, n: nat, i: nat)
    requires Increasing(kept, n) && i < n < |items| && LeftOut(c, items, o, p, kept, i)
    ensures LeftOut(c, items, o, p, kept + [n], i)
  {
    var m: nat :| TurnedDown(c, items, o, p, kept, i, m);
    assert (kept + [n])[..m] == kept[..m];
    assert TurnedDown(c, items, o, p, kept + [n], i, m);
  }

  lemma GreedyKeep(c: Classes, items: seq<Item>, o: Original, p: Policy, kept: seq<nat>, n: nat)
    requires Greedy(c, items, o, p, kept, n) && n < |items|
    requires Fits(c, Pick(items, kept) + [items[n]], o, p)
    requires p.minK <= n
    ensures Greedy(c, items, o, p, kept + [n], n + 1)
  {
    hide Fits, LeftOut;
    var more := kept + [n];
    forall m: nat | p.minK < m <= |more| ensures Fits(c, Pick(items, more[..m]), o, p) {
      if m <= |kept| {
        assert more[..m] == kept[..m];
      } else {
        assert Pick(items, more[..m]) == Pick(items, kept) + [items[n]];
      }
    }
    forall i: nat | i < n + 1 && i !in more ensures LeftOut(c, items, o, p, more, i) {
      assert more[|kept|] == n;
      assert forall j :: 0 <= j < |kept| ==> more[j] == kept[j];
      assert i != n && i !in kept;
      LeftOutStays(c, items, o, p, kept, n, i);
    }
  }

  lemma GreedySkip(c: Classes, items: seq<Item>, o: Original, p: Policy, kept: seq<nat>, n: nat)
    requires Greedy(c, items, o, p, kept, n) && n < |items|
    requires Exceeds(c, Pick(items, kept) + [items[n]], o, p)
    requires p.minK <= n
    ensures Greedy(c, items, o, p, kept, n + 1)
  {
    hide Fits, Exceeds;
    assert kept[..|kept|] == kept;
    assert TurnedDown(c, items, o, p, kept, n, |kept|);
  }

  /** What did not fit when it was tried does not fit behind the final selection either. */
  lemma GreedyIsMaximal(c: Classes, items: seq<Item>, o: Original, p: Policy, kept: seq<nat>, i: nat)
    requires Greedy(c, items, o, p, kept, |items|) && Complete(items, o)
    requires i < |items| && i !in kept
    ensures Exceeds(c, Pick(items, kept) + [items[i]], o, p)
  {
    hide Cost;
    assert LeftOut(c, items, o, p, kept, i);
    var m: nat :| TurnedDown(c, items, o, p, kept, i, m);
    var front, back := Pick(items, kept[..m]), Pick(items, kept[m..]);
    assert front + back == Pick(items, kept);
    PickedComplete(items, kept, o);
    CostMonotone(c, front, back, items[i], o, p.marker);
  }

  /** The greedy selection is unique, so the packer's contract leaves it no choice. */
  lemma GreedyIsUnique(c: Classes, items: seq<Item>, o: Original, p: Policy, a: seq<nat>, b: seq<nat>, n: nat)
    requires Greedy(c, items, o, p, a, n) && Greedy(c, items, o, p, b, n)
    ensures a == b
  {
    GreedyAgree(c, items, o, p, a, b, n, |a|);
    GreedyAgree(c, items, o, p, b, a, n, |b|);
    assert a[..|a|] == a && b[..|b|] == b;
  }

  lemma {:induction false} GreedyAgree(
    c: Classes, items: seq<Item>, o: Original, p: Policy, a: seq<nat>, b: seq<nat>, n: nat, k: nat)
    requires Greedy(c, items, o, p, a, n) && Greedy(c, items, o, p, b, n) && k <= |a|
    ensures k <= |b| && a[..k] == b[..k]
  {
    if k > 0 {
      var j := k - 1;
      GreedyAgree(c, items, o, p, a, b, n, j);
      NextIsShared(c, items, o, p, a, b, n, j);
      if j < |b| {
        if b[j] < a[j] {
          NextIsShared(c, items, o, p, b, a, n, j);
        }
        assert a[..k] == a[..j] + [a[j]] && b[..k] == b[..j] + [b[j]];
      }
    }
  }

  /** After a common beginning, neither selection takes an earlier item than the other. */
  lemma NextIsShared(c: Classes, items: seq<Item>, o: Original, p: Policy, a: seq<nat>, b: seq<nat>, n: nat, j: nat)
    requires Greedy(c, items, o, p, a, n) && Greedy(c, items, o, p, b, n)
    requires j < |a| && j <= |b| && a[..j] == b[..j]
    ensures j < |b| && b[j] <= a[j]
  {
    hide Cost;
    var i := a[j];
    forall q | 0 <= q < j ensures b[q] < i {
      assert b[q] == b[..j][q] == a[..j][q] == a[q];
    }
    if j < p.minK {
      IncreasingLength(a, n);
    } else if i !in b {
      assert Pick(items, a[..j + 1]) == Pick(items, b[..j]) + [items[i]];
      assert Fits(c, Pick(items, a[..j + 1]), o, p);
      assert LeftOut(c, items, o, p, b, i);
      var m: nat :| TurnedDown(c, items, o, p, b, i, m);
      assert m < |b| ==> i < b[m];
      assert j <= m && m != j;
    }
  }

  lemma {:induction false} IncreasingLength(kept: seq<nat>, n: nat)
    requires Increasing(kept, n)
    ensures |kept| <= n
  {
    if |kept| > 0 {
      var last := |kept| - 1;
      IncreasingLength(kept[..last], kept[last]);
    }
  }
}
