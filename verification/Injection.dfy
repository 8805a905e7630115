/** Rendering of the memory injection, its token count, and greedy packing under a soft budget. */
module Injection {
  import opened Text
  import opened TokenPattern

  // ---------------------------------------------------------------- tokens of joined lines

  ghost function TokenSum(c: Classes, lines: seq<string>): nat {
    if |lines| == 0 then 0 else TokenSum(c, lines[..|lines| - 1]) + Tokens(c, lines[|lines| - 1])
  }

  /** Joining lines with newlines adds up their tokens. */
  lemma {:induction false} JoinedTokens(c: Classes, lines: seq<string>)
    requires Regular(c)
    ensures Tokens(c, Join(lines, '\n')) == TokenSum(c, lines)
  {
    if |lines| == 1 {
      assert lines[..0] == [];
    } else if |lines| > 1 {
      var rest := Join(lines[1..], '\n');
      JoinedTokens(c, lines[1..]);
      TokensSplit(c, lines[0], ['\n'] + rest);
      assert lines[0] + ['\n'] + rest == lines[0] + (['\n'] + rest);
      TokensBehindSpace(c, '\n', rest);
      TokenSumFirst(c, lines);
    }
  }

  lemma {:induction false} TokenSumFirst(c: Classes, lines: seq<string>)
    requires |lines| > 0
    ensures TokenSum(c, lines) == Tokens(c, lines[0]) + TokenSum(c, lines[1..])
  {
    if |lines| > 1 {
      var init := lines[..|lines| - 1];
      TokenSumFirst(c, init);
      assert init[1..] == lines[1..][..|lines| - 2];
    } else {
      assert lines[..0] == [] && lines[1..] == [];
    }
  }

  lemma {:induction false} TokenSumConcat(c: Classes, a: seq<string>, b: seq<string>)
    ensures TokenSum(c, a + b) == TokenSum(c, a) + TokenSum(c, b)
  {
    if |b| == 0 {
      assert a + b == a;
    } else {
      TokenSumConcat(c, a, b[..|b| - 1]);
      assert (a + b)[..|a + b| - 1] == a + b[..|b| - 1];
    }
  }

  // ---------------------------------------------------------------- rendering

  /** A candidate as the renderer sees it: content and conditions are already stripped. */
  datatype Item = Item(id: string, facet: string, objectName: string, content: string, conditions: seq<string>)

  /** Core's injection: its heading and its legend, a line per facet. */
  datatype Original = Original(heading: string, legend: map<string, string>)

  function Separated(parts: seq<string>): string {
    if |parts| == 0 then "" else if |parts| == 1 then parts[0] else parts[0] + "; " + Separated(parts[1..])
  }

  /** The part of an item line after "M<index>". */
  function LineBody(item: Item, marker: string): string {
    ": [" + item.facet + "] " + item.objectName + ": " + item.content
    + if item.conditions != [] then " | " + marker + " " + Separated(item.conditions) else ""
  }

  function Line(item: Item, index: nat, marker: string): string {
    "M" + Decimal(index) + LineBody(item, marker)
  }

  function Lines(items: seq<Item>, marker: string): seq<string> {
    seq(|items|, i requires 0 <= i < |items| => Line(items[i], i + 1, marker))
  }

  predicate Precedes(a: string, b: string) {
    b != "" && (a == "" || a[0] < b[0] || (a[0] == b[0] && Precedes(a[1..], b[1..])))
  }

  function InsertFacet(facets: seq<string>, f: string): seq<string> {
    if |facets| == 0 then [f]
    else if Precedes(f, facets[0]) then [f] + facets
    else [facets[0]] + InsertFacet(facets[1..], f)
  }

  /** `sorted({item facets})`. */
  function FacetList(items: seq<Item>): seq<string> {
    if |items| == 0 then []
    else
      var before := FacetList(items[..|items| - 1]);
      var f := items[|items| - 1].facet;
      if f in before then before else InsertFacet(before, f)
  }

  predicate Complete(items: seq<Item>, o: Original) {
    o.heading != "" && forall i :: 0 <= i < |items| ==> items[i].facet in o.legend
  }

  /** `render_injection`: None where the source raises because the legend is incomplete. */
  function Render(items: seq<Item>, o: Original, marker: string): Option<string> {
    if items == [] then Some("")
    else if !Complete(items, o) then None
    else
      FacetsOfItems(items, o);
      Some(Join([o.heading] + LegendLines(FacetList(items), o) + [""] + Lines(items, marker), '\n'))
  }

  function LegendLines(facets: seq<string>, o: Original): seq<string>
    requires forall i :: 0 <= i < |facets| ==> facets[i] in o.legend
  {
    seq(|facets|, i requires 0 <= i < |facets| => o.legend[facets[i]])
  }

  lemma {:induction false} InsertedFacet(facets: seq<string>, f: string)
    ensures multiset(InsertFacet(facets, f)) == multiset(facets) + multiset{f}
  {
    if |facets| > 0 {
      assert facets == [facets[0]] + facets[1..];
      InsertedFacet(facets[1..], f);
    }
  }

  ghost function Facets(items: seq<Item>): set<string> {
    set i | 0 <= i < |items| :: items[i].facet
  }

  /** The legend lists each facet of the items exactly once. */
  lemma {:induction false} FacetListIsFacets(items: seq<Item>)
    ensures multiset(FacetList(items)) == multiset(Facets(items))
  {
    hide Facets, FacetList, InsertFacet;
    if |items| == 0 {
      NoFacets();
    } else {
      var init, last := items[..|items| - 1], items[|items| - 1];
      FacetListIsFacets(init);
      FacetListStep(FacetList(init), last.facet, Facets(init));
      FacetsGrow(init, last);
      assert init + [last] == items;
      FacetListUnfolds(items);
    }
  }

  lemma NoFacets()
    ensures FacetList([]) == [] && Facets([]) == {}
  {
  }

  lemma FacetListUnfolds(items: seq<Item>)
    requires |items| > 0
    ensures var before, f := FacetList(items[..|items| - 1]), items[|items| - 1].facet;
      FacetList(items) == if f in before then before else InsertFacet(before, f)
  {
  }

  lemma FacetListStep(facets: seq<string>, f: string, all: set<string>)
    requires multiset(facets) == multiset(all)
    ensures multiset(if f in facets then facets else InsertFacet(facets, f)) == multiset(all + {f})
  {
    hide InsertFacet;
    InsertedFacet(facets, f);
    assert f in facets <==> f in multiset(facets);
    if f in facets {
      assert all + {f} == all;
    }
  }

  lemma FacetsGrow(items: seq<Item>, item: Item)
    ensures Facets(items + [item]) == Facets(items) + {item.facet}
  {
    var more := items + [item];
    assert forall i :: 0 <= i < |items| ==> more[i] == items[i];
    assert more[|items|] == item;
  }

  ghost predicate Ascending(facets: seq<string>) {
    forall a, b :: 0 <= a < b < |facets| ==> Precedes(facets[a], facets[b])
  }

  lemma {:induction false} PrecedesTotal(a: string, b: string)
    ensures Precedes(a, b) || a == b || Precedes(b, a)
  {
    if a != "" && b != "" && a[0] == b[0] {
      PrecedesTotal(a[1..], b[1..]);
      assert a == [a[0]] + a[1..] && b == [b[0]] + b[1..];
    }
  }

  lemma {:induction false} PrecedesTransitive(a: string, b: string, d: string)
    requires Precedes(a, b) && Precedes(b, d)
    ensures Precedes(a, d)
  {
    if a != "" && a[0] == b[0] == d[0] {
      PrecedesTransitive(a[1..], b[1..], d[1..]);
    }
  }

  lemma {:induction false} InsertedAscends(facets: seq<string>, f: string)
    requires Ascending(facets) && f !in facets
    ensures Ascending(InsertFacet(facets, f))
  {
    hide Precedes;
    if |facets| > 0 {
      var rest := facets[1..];
      if Precedes(f, facets[0]) {
        forall k | 0 <= k < |facets| ensures Precedes(f, facets[k]) {
          if k > 0 { PrecedesTransitive(f, facets[0], facets[k]); }
        }
      } else {
        PrecedesTotal(facets[0], f);
        InsertedAscends(rest, f);
        InsertedFacet(rest, f);
        var tail := InsertFacet(rest, f);
        forall k | 0 <= k < |tail| ensures Precedes(facets[0], tail[k]) {
          assert tail[k] in multiset(tail);
          if tail[k] != f {
            assert tail[k] in rest;
          }
        }
      }
    }
  }

  /** The legend lists the facets in ascending order. */
  lemma {:induction false} FacetListAscends(items: seq<Item>)
    ensures Ascending(FacetList(items))
  {
    if |items| > 0 {
      var before := FacetList(items[..|items| - 1]);
      FacetListAscends(items[..|items| - 1]);
      if items[|items| - 1].facet !in before {
        InsertedAscends(before, items[|items| - 1].facet);
      }
    }
  }

  /** `render_injection`, building the item lines one by one. */
  method RenderInjection(items: seq<Item>, o: Original, marker: string) returns (text: Option<string>)
    ensures text == Render(items, o, marker)
  {
    hide Line, FacetList, Join;
    if items == [] {
      return Some("");
    }
    if o.heading == "" || exists i :: 0 <= i < |items| && items[i].facet !in o.legend {
      return None;
    }
    FacetsOfItems(items, o);
    var lines: seq<string> := [];
    for index := 0 to |items|
      invariant lines == Lines(items, marker)[..index]
    {
      var line := ItemLine(items[index], index + 1, marker);
      assert Lines(items, marker)[index] == line;
      lines := lines + [line];
    }
    assert lines == Lines(items, marker);
    return Some(Join([o.heading] + LegendLines(FacetList(items), o) + [""] + lines, '\n'));
  }

  method ItemLine(item: Item, index: nat, marker: string) returns (line: string)
    ensures line == Line(item, index, marker)
  {
    line := "M" + Decimal(index) + ": [" + item.facet + "] " + item.objectName + ": " + item.content;
    if item.conditions != [] {
      line := line + (" | " + marker + " " + Separated(item.conditions));
    }
  }

  lemma FacetsOfItems(items: seq<Item>, o: Original)
    requires Complete(items, o)
    ensures forall i :: 0 <= i < |FacetList(items)| ==> FacetList(items)[i] in o.legend
  {
    FacetListIsFacets(items);
    forall i | 0 <= i < |FacetList(items)| ensures FacetList(items)[i] in o.legend {
      assert FacetList(items)[i] in multiset(FacetList(items));
    }
  }

  // ---------------------------------------------------------------- additive cost

  /** Tokens of the legend lines of a set of facets. */
  ghost function LegendCost(c: Classes, facets: set<string>, o: Original): nat
    requires facets <= o.legend.Keys
  {
    if facets == {} then 0
    else
      var f :| f in facets;
      Tokens(c, o.legend[f]) + LegendCost(c, facets - {f}, o)
  }

  lemma {:induction false} LegendCostRemove(c: Classes, facets: set<string>, f: string, o: Original)
    requires f in facets && facets <= o.legend.Keys
    ensures LegendCost(c, facets, o) == Tokens(c, o.legend[f]) + LegendCost(c, facets - {f}, o)
  {
    hide Tokens;
    var g :| g in facets && LegendCost(c, facets, o) == Tokens(c, o.legend[g]) + LegendCost(c, facets - {g}, o);
    if g != f {
      LegendCostRemove(c, facets - {g}, f, o);
      LegendCostRemove(c, facets - {f}, g, o);
      assert facets - {g} - {f} == facets - {f} - {g};
    }
  }

  lemma {:induction false} LegendCostMonotone(c: Classes, some: set<string>, all: set<string>, o: Original)
    requires some <= all <= o.legend.Keys
    ensures LegendCost(c, some, o) <= LegendCost(c, all, o)
    decreases |all|
  {
    hide Tokens, LegendCost;
    if some != all {
      var f :| f in all && f !in some;
      LegendCostRemove(c, all, f, o);
      LegendCostMonotone(c, some, all - {f}, o);
    }
  }

  /** Tokens of the legend lines, whatever order they are listed in. */
  lemma {:induction false} LegendLinesCost(c: Classes, facets: seq<string>, all: set<string>, o: Original)
    requires multiset(facets) == multiset(all) && all <= o.legend.Keys
    ensures forall i :: 0 <= i < |facets| ==> facets[i] in o.legend
    ensures TokenSum(c, LegendLines(facets, o)) == LegendCost(c, all, o)
  {
    hide Tokens, LegendCost;
    forall i | 0 <= i < |facets| ensures facets[i] in all {
      assert facets[i] in multiset(facets);
    }
    assert |facets| == |multiset(facets)| == |all|;
    if |facets| == 0 {
      EmptyLegend(c, o);
      assert all == {};
    } else {
      var last := |facets| - 1;
      var init, f := facets[..last], facets[last];
      assert facets == init + [f];
      assert multiset(init) == multiset(all) - multiset{f} == multiset(all - {f});
      LegendLinesCost(c, init, all - {f}, o);
      LegendCostRemove(c, all, f, o);
      assert LegendLines(facets, o)[..last] == LegendLines(init, o);
    }
  }

  lemma EmptyLegend(c: Classes, o: Original)
    ensures LegendCost(c, {}, o) == 0
  {
  }

  /** Tokens an item's line contributes, whatever its index. */
  ghost function ItemCost(c: Classes, item: Item, marker: string): nat {
    1 + Tokens(c, LineBody(item, marker))
  }

  ghost function BodyCost(c: Classes, items: seq<Item>, marker: string): nat {
    if |items| == 0 then 0
    else BodyCost(c, items[..|items| - 1], marker) + ItemCost(c, items[|items| - 1], marker)
  }

  /** The index of a line costs one token however many digits it has. */
  lemma LineCost(c: Classes, item: Item, index: nat, marker: string)
    requires Regular(c)
    ensures Tokens(c, Line(item, index, marker)) == ItemCost(c, item, marker)
  {
    hide Tokens;
    var head := "M" + Decimal(index);
    forall i | 0 <= i < |head| ensures c.word(head[i]) {
      if i > 0 { assert head[i] == Decimal(index)[i - 1]; }
    }
    OneWord(c, head);
    var body := LineBody(item, marker);
    assert body[0] == ':';
    TokensSplit(c, head, body);
  }

  lemma {:induction false} LinesCost(c: Classes, items: seq<Item>, marker: string)
    requires Regular(c)
    ensures TokenSum(c, Lines(items, marker)) == BodyCost(c, items, marker)
  {
    hide Tokens, Line, ItemCost;
    if |items| > 0 {
      var last := |items| - 1;
      LinesCost(c, items[..last], marker);
      LineCost(c, items[last], last + 1, marker);
      assert Lines(items, marker)[..last] == Lines(items[..last], marker);
    }
  }

  /** What the rendered injection of these items costs. */
  ghost function Cost(c: Classes, items: seq<Item>, o: Original, marker: string): nat
    requires Complete(items, o)
  {
    if items == [] then 0
    else
      assert Facets(items) <= o.legend.Keys;
      Tokens(c, o.heading) + LegendCost(c, Facets(items), o) + BodyCost(c, items, marker)
  }

  /**
   * Re-tokenizing the rendered text gives heading, plus one legend line per distinct facet,
   * plus the items' own lines.
   */
  lemma RenderCost(c: Classes, items: seq<Item>, o: Original, marker: string)
    requires Regular(c) && Complete(items, o)
    ensures Render(items, o, marker).Some?
    ensures Tokens(c, Render(items, o, marker).value) == Cost(c, items, o, marker)
  {
    if items != [] {
      FacetsOfItems(items, o);
      FacetListIsFacets(items);
      LegendLinesCost(c, FacetList(items), Facets(items), o);
      LinesCost(c, items, marker);
      var legend, lines := LegendLines(FacetList(items), o), Lines(items, marker);
      JoinedTokens(c, [o.heading] + legend + [""] + lines);
      FourParts(c, o.heading, legend, lines);
    }
  }

  lemma FourParts(c: Classes, heading: string, legend: seq<string>, lines: seq<string>)
    ensures TokenSum(c, [heading] + legend + [""] + lines)
              == Tokens(c, heading) + TokenSum(c, legend) + TokenSum(c, lines)
  {
    TokenSumConcat(c, [heading] + legend + [""], lines);
    TokenSumConcat(c, [heading] + legend, [""]);
    TokenSumConcat(c, [heading], legend);
    TokenSumOne(c, heading);
    TokenSumOne(c, "");
  }

  lemma TokenSumOne(c: Classes, line: string)
    ensures TokenSum(c, [line]) == Tokens(c, line)
  {
    hide Tokens;
    assert [line][..0] == [];
  }

  lemma {:induction false} BodyCostConcat(c: Classes, a: seq<Item>, b: seq<Item>, marker: string)
    ensures BodyCost(c, a + b, marker) == BodyCost(c, a, marker) + BodyCost(c, b, marker)
  {
    hide ItemCost;
    if |b| == 0 {
      assert a + b == a;
    } else {
      BodyCostConcat(c, a, b[..|b| - 1], marker);
      assert (a + b)[..|a + b| - 1] == a + b[..|b| - 1];
    }
  }

  /** Inserting items between the kept ones and a later one never makes the whole cheaper. */
  lemma CostMonotone(c: Classes, a: seq<Item>, b: seq<Item>, item: Item, o: Original, marker: string)
    requires Complete(a + b + [item], o)
    ensures Complete(a + [item], o)
    ensures Cost(c, a + [item], o, marker) <= Cost(c, a + b + [item], o, marker)
  {
    hide Tokens, LegendCost, BodyCost;
    var small, big := a + [item], a + b + [item];
    forall i | 0 <= i < |small| ensures small[i].facet in Facets(big) && small[i].facet in o.legend {
      var j := if i < |a| then i else |a| + |b|;
      assert big[j] == small[i];
    }
    assert Facets(small) <= Facets(big);
    LegendCostMonotone(c, Facets(small), Facets(big), o);
    BodyCostConcat(c, a, [item], marker);
    BodyCostConcat(c, a + b, [item], marker);
    BodyCostConcat(c, a, b, marker);
  }

  lemma {:induction false} BodyCostPermuted(c: Classes, a: seq<Item>, b: seq<Item>, marker: string)
    requires multiset(a) == multiset(b)
    ensures BodyCost(c, a, marker) == BodyCost(c, b, marker)
    decreases |a|
  {
    hide BodyCost;
    assert |a| == |multiset(a)| == |b|;
    if |a| == 0 {
      assert a == b;
    } else {
      assert a[0] in multiset(b);
      var j :| 0 <= j < |b| && b[j] == a[0];
      BodyCostWithout(c, a, 0, marker);
      BodyCostWithout(c, b, j, marker);
      WithoutOne(a, 0);
      WithoutOne(b, j);
      BodyCostPermuted(c, Without(a, 0), Without(b, j), marker);
    }
  }

  ghost function Without<T>(a: seq<T>, j: nat): (r: seq<T>)
    requires j < |a|
    ensures |r| == |a| - 1
    ensures forall i :: 0 <= i < |r| ==> r[i] == a[if i < j then i else i + 1]
  {
    a[..j] + a[j + 1..]
  }

  lemma WithoutOne<T>(a: seq<T>, j: nat)
    requires j < |a|
    ensures multiset(Without(a, j)) == multiset(a) - multiset{a[j]}
  {
    assert a == a[..j] + [a[j]] + a[j + 1..];
  }

  lemma BodyCostWithout(c: Classes, a: seq<Item>, j: nat, marker: string)
    requires j < |a|
    ensures BodyCost(c, a, marker) == BodyCost(c, Without(a, j), marker) + ItemCost(c, a[j], marker)
  {
    hide BodyCost;
    var front, x, back := a[..j], a[j], a[j + 1..];
    assert a == front + [x] + back && Without(a, j) == front + back;
    BodyCostConcat(c, front, back, marker);
    BodyCostConcat(c, front + [x], back, marker);
    BodyCostConcat(c, front, [x], marker);
    BodyCostOne(c, x, marker);
  }

  lemma BodyCostOne(c: Classes, x: Item, marker: string)
    ensures BodyCost(c, [x], marker) == ItemCost(c, x, marker)
  {
    hide ItemCost;
    assert [x][..0] == [];
  }

  /** Any two orders of the same items render to texts of the same token count. */
  lemma OrderDoesNotMatter(c: Classes, a: seq<Item>, b: seq<Item>, o: Original, marker: string)
    requires Regular(c) && multiset(a) == multiset(b) && Complete(a, o)
    ensures Complete(b, o) && Render(a, o, marker).Some? && Render(b, o, marker).Some?
    ensures Tokens(c, Render(a, o, marker).value) == Tokens(c, Render(b, o, marker).value)
  {
    hide Tokens, Render, BodyCost, LegendCost;
    forall item ensures item in a <==> item in b {
      assert item in a <==> item in multiset(a);
      assert item in b <==> item in multiset(b);
    }
    assert forall i :: 0 <= i < |b| ==> b[i] in a;
    assert forall i :: 0 <= i < |a| ==> a[i] in b;
    forall f ensures f in Facets(a) <==> f in Facets(b) {
    }
    assert |a| == |multiset(a)| == |b|;
    assert Facets(a) == Facets(b);
    BodyCostPermuted(c, a, b, marker);
    RenderCost(c, a, o, marker);
    RenderCost(c, b, o, marker);
  }
}
