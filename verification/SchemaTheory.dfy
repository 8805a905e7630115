/** What the schema checker's report means: conformance, and how reports under different limits relate. */
module SchemaTheory {
  import opened Text
  import opened JsonValues
  import opened SchemaMeaning
  import opened SchemaChecker
  import opened SchemaReading

  // ---------------------------------------------------------------- one layer

  /** A broken keyword is broken wherever the value stands. */
  lemma FaultMoves(value: Json, schema: Json, from: Path, to: Path, issue: Issue)
    requires LocalFault(value, schema, from, issue)
    ensures exists moved :: LocalFault(value, schema, to, moved)
  {
    hide Demands, ClosedTo, Excludes, Bound, Has, BreaksType, PyEq;
    if issue.code.MissingRequired? {
      var name :| issue.path == from + [Key(name)] && Demands(schema, name) && !Has(value, name);
      assert LocalFault(value, schema, to, Issue(to + [Key(name)], MissingRequired));
    } else if issue.code.UnknownField? {
      var name, fields :|
        issue.path == from + [Key(name)] && Has(value, name) && ClosedTo(schema, fields) && Lookup(fields, name).None?;
      assert LocalFault(value, schema, to, Issue(to + [Key(name)], UnknownField));
    } else {
      assert LocalFault(value, schema, to, Issue(to, issue.code));
    }
  }

  lemma OkMeansNoFault(value: Json, schema: Json, path: Path)
    ensures LocallyOk(value, schema) <==> forall issue :: !LocalFault(value, schema, path, issue)
  {
    hide LocalFault;
    if issue :| LocalFault(value, schema, path, issue) {
      FaultMoves(value, schema, path, [], issue);
    }
    if issue :| LocalFault(value, schema, [], issue) {
      FaultMoves(value, schema, [], path, issue);
    }
  }

  /** For a well-typed value, the keywords of one layer are silent exactly when none of them is broken. */
  lemma ShallowIffClean(value: Json, schema: Json, path: Path)
    requires TypeHolds(value, schema)
    ensures ShallowIssues(value, KeywordsOf(schema), path) == [] <==> LocallyOk(value, schema)
  {
    hide ShallowIssues, KeywordsOf;
    OkMeansNoFault(value, schema, path);
    var issues := ShallowIssues(value, KeywordsOf(schema), path);
    forall issue ensures issue in issues <==> LocalFault(value, schema, path, issue) {
      ShallowReads(value, schema, path, issue);
      NoWrongType(value, schema, path, issue);
      hide LocalFault, TypeHolds;
    }
    hide LocalFault, TypeHolds;
    if issues != [] {
      assert issues[0] in issues;
    }
  }

  lemma NoWrongType(value: Json, schema: Json, path: Path, issue: Issue)
    requires TypeHolds(value, schema)
    ensures LocalFault(value, schema, path, issue) ==> !issue.code.WrongType?
  {
  }

  lemma WrongTypeViolates(value: Json, schema: Json)
    requires !TypeHolds(value, schema)
    ensures !LocallyOk(value, schema)
  {
    var name :| Get(schema, "type") == Some(Str(name)) && BreaksType(value, name);
    assert LocalFault(value, schema, [], Issue([], WrongType(name)));
  }

  // ---------------------------------------------------------------- children

  ghost predicate PropertyOf(value: Json, node: Node, i: nat, v: Json, s: Json)
    requires node.Keywords?
  {
    && value.Obj? && i < |node.properties|
    && Lookup(value.fields, node.properties[i].key) == Some(v) && node.properties[i].value == s
  }

  ghost predicate ItemOf(value: Json, node: Node, i: nat, v: Json, s: Json)
    requires node.Keywords?
  {
    value.Arr? && i < |value.items| && value.items[i] == v && node.items == Some(s)
  }

  lemma PropertyIsChild(value: Json, schema: Json, i: nat, v: Json, s: Json)
    requires PropertyOf(value, KeywordsOf(schema), i, v, s)
    ensures ChildAt(value, schema, Key(KeywordsOf(schema).properties[i].key), v, s)
  {
    hide KeywordsOf, ChildAt;
    var properties := KeywordsOf(schema).properties;
    PropertiesDistinct(schema);
    PropertyReads(value, schema, properties[i].key, v, s);
    var found := Lookup(properties, properties[i].key);
    assert found.Some?;
    var j :| 0 <= j < |properties| && properties[j] == Field(properties[i].key, found.value);
  }

  lemma PropertiesDistinct(schema: Json)
    ensures var properties := KeywordsOf(schema).properties;
      forall i, j :: 0 <= i < j < |properties| ==> properties[i].key != properties[j].key
  {
  }

  lemma ChildIsProperty(value: Json, schema: Json, name: string, v: Json, s: Json) returns (i: nat)
    requires ChildAt(value, schema, Key(name), v, s)
    ensures PropertyOf(value, KeywordsOf(schema), i, v, s) && KeywordsOf(schema).properties[i].key == name
  {
    hide KeywordsOf, ChildAt;
    PropertyReads(value, schema, name, v, s);
    var properties := KeywordsOf(schema).properties;
    i :| 0 <= i < |properties| && properties[i] == Field(name, s);
  }

  lemma ItemIsChild(value: Json, schema: Json, i: nat, v: Json, s: Json)
    ensures ItemOf(value, KeywordsOf(schema), i, v, s) <==> ChildAt(value, schema, Index(i), v, s)
  {
    hide KeywordsOf, ChildAt;
    ItemReads(value, schema, i, v, s);
  }

  // ---------------------------------------------------------------- a report decides conformance

  /** With any limit but zero, a run that returns reports nothing or something as the value satisfies or violates. */
  lemma {:induction false} ReportDecides(root: Json, depth: nat, value: Json, schema: Json, path: Path, limit: Limit)
    requires limit != Some(0) && Report(root, depth, value, schema, path, limit).Some?
    ensures Decides(root, depth, value, schema, Report(root, depth, value, schema, path, limit).value)
    decreases depth, 1, 0
  {
    hide Report, NodeOf, Decides;
    NoDepth(root, value, schema, path, limit);
    if NodeOf(schema).Reference? {
      ReferenceDecides(root, depth - 1, value, schema, path, limit);
    } else if NodeOf(schema).Alternatives? {
      AlternativesDecide(root, depth - 1, value, schema, path, limit);
    } else {
      KeywordsDecide(root, depth - 1, value, schema, path, limit);
    }
  }

  lemma {:induction false} ReferenceDecides(root: Json, h: nat, value: Json, schema: Json, path: Path, limit: Limit)
    requires limit != Some(0) && Report(root, h + 1, value, schema, path, limit).Some? && NodeOf(schema).Reference?
    ensures Decides(root, h + 1, value, schema, Report(root, h + 1, value, schema, path, limit).value)
    decreases h, 2, 0
  {
    hide Report, NodeOf, Target, Decides, Take;
    RunOfReference(root, h, value, schema, path, limit);
    var target := Target(root, NodeOf(schema).pointer);
    if target.Some? {
      ReportDecides(root, h, value, target.value, path, limit);
      TargetDecides(root, h, value, schema, Report(root, h, value, target.value, path, limit).value);
    } else {
      UnresolvedDecides(root, h, value, schema, path, limit);
    }
  }

  lemma TargetDecides(root: Json, h: nat, value: Json, schema: Json, report: seq<Issue>)
    requires NodeOf(schema).Reference? && Target(root, NodeOf(schema).pointer).Some?
    requires Decides(root, h, value, Target(root, NodeOf(schema).pointer).value, report)
    ensures Decides(root, h + 1, value, schema, report)
  {
    hide NodeOf, Target, Satisfies, Violates;
    ByReference(root, h, value, schema);
  }

  lemma UnresolvedDecides(root: Json, h: nat, value: Json, schema: Json, path: Path, limit: Limit)
    requires limit != Some(0) && NodeOf(schema).Reference? && Target(root, NodeOf(schema).pointer).None?
    ensures Decides(root, h + 1, value, schema, Take([Issue(path, UnresolvedRef)], limit))
  {
    hide NodeOf, Target, Satisfies, Violates;
    ByReference(root, h, value, schema);
  }

  lemma {:induction false} AlternativesDecide(root: Json, h: nat, value: Json, schema: Json, path: Path, limit: Limit)
    requires limit != Some(0) && Report(root, h + 1, value, schema, path, limit).Some? && NodeOf(schema).Alternatives?
    ensures Decides(root, h + 1, value, schema, Report(root, h + 1, value, schema, path, limit).value)
    decreases h, 4, 0
  {
    hide Report, NodeOf, Decides, Matches, OneMatch, Mismatch, Take;
    RunOfAlternatives(root, h, value, schema, path, limit);
    MatchesDecide(root, h, value, NodeOf(schema).options, path);
    var count := Matches(root, h, value, NodeOf(schema).options, |NodeOf(schema).options|, path).value;
    MismatchDecides(root, h, value, schema, path, limit, count == 1);
  }

  lemma MismatchDecides(root: Json, h: nat, value: Json, schema: Json, path: Path, limit: Limit, one: bool)
    requires limit != Some(0) && NodeOf(schema).Alternatives?
    requires one ==> OneMatch(root, h, value, NodeOf(schema).options)
    requires !one ==> Mismatch(root, h, value, NodeOf(schema).options)
    ensures Decides(root, h + 1, value, schema, Take(When(!one, path, OneOfMismatch), limit))
  {
    hide NodeOf, Satisfies, Violates, OneMatch, Mismatch;
    ByAlternatives(root, h, value, schema);
  }

  lemma {:induction false} KeywordsDecide(root: Json, h: nat, value: Json, schema: Json, path: Path, limit: Limit)
    requires limit != Some(0) && Report(root, h + 1, value, schema, path, limit).Some? && NodeOf(schema).Keywords?
    ensures Decides(root, h + 1, value, schema, Report(root, h + 1, value, schema, path, limit).value)
    decreases h, 5, 0
  {
    hide Report, NodeOf, Satisfies, Violates, LocallyOk, AllSatisfied, SomeViolated, KeywordRun;
    hide KeywordsOf, IsPlain, Offers, RefersTo;
    RunOfKeywords(root, h, value, schema, path, limit);
    NodeReads(schema);
    ByKeywords(root, h, value, schema);
    NodeDecides(root, h, value, schema, path, limit);
  }

  ghost predicate Decides(root: Json, depth: nat, value: Json, schema: Json, report: seq<Issue>) {
    if report == [] then Satisfies(root, depth, value, schema) else Violates(root, depth, value, schema)
  }

  lemma ByReference(root: Json, h: nat, value: Json, schema: Json)
    requires NodeOf(schema).Reference?
    ensures var target := Target(root, NodeOf(schema).pointer);
      && (target.Some? && Satisfies(root, h, value, target.value) ==> Satisfies(root, h + 1, value, schema))
      && (target.None? || Violates(root, h, value, target.value) ==> Violates(root, h + 1, value, schema))
  {
    var pointer := NodeOf(schema).pointer;
    NodeReads(schema);
    TargetLeads(root, pointer);
    assert RefersTo(schema, pointer);
    ByTarget(root, h, value, pointer);
    hide NodeOf, Target, Leads, RefersTo, Offers, IsPlain, TargetSatisfied, TargetViolated;
  }

  lemma ByTarget(root: Json, h: nat, value: Json, pointer: string)
    requires forall target :: Leads(root, pointer, target) <==> Target(root, pointer) == Some(target)
    ensures var target := Target(root, pointer);
      && (target.Some? && Satisfies(root, h, value, target.value) ==> TargetSatisfied(root, h, value, pointer))
      && (target.None? || Violates(root, h, value, target.value) ==> TargetViolated(root, h, value, pointer))
  {
    hide Leads, Target, Satisfies, Violates;
    if Target(root, pointer).Some? {
      assert Leads(root, pointer, Target(root, pointer).value);
    }
  }

  lemma ByAlternatives(root: Json, h: nat, value: Json, schema: Json)
    requires NodeOf(schema).Alternatives?
    ensures var options := NodeOf(schema).options;
      && (OneMatch(root, h, value, options) ==> Satisfies(root, h + 1, value, schema))
      && (Mismatch(root, h, value, options) ==> Violates(root, h + 1, value, schema))
  {
    NodeReads(schema);
    assert Offers(schema, NodeOf(schema).options);
    hide NodeOf, OneMatch, Mismatch, RefersTo, Offers;
  }

  lemma ByKeywords(root: Json, h: nat, value: Json, schema: Json)
    requires IsPlain(schema)
    ensures LocallyOk(value, schema) && AllSatisfied(root, h, value, schema) ==> Satisfies(root, h + 1, value, schema)
    ensures !LocallyOk(value, schema) || SomeViolated(root, h, value, schema) ==> Violates(root, h + 1, value, schema)
  {
    hide IsPlain, LocallyOk, AllSatisfied, SomeViolated;
  }

  lemma {:induction false} NodeDecides(root: Json, depth: nat, value: Json, schema: Json, path: Path, limit: Limit)
    requires limit != Some(0) && KeywordRun(root, depth, value, KeywordsOf(schema), path, limit).Some?
    ensures var run := KeywordRun(root, depth, value, KeywordsOf(schema), path, limit).value;
      && (run == [] ==> LocallyOk(value, schema) && AllSatisfied(root, depth, value, schema))
      && (run != [] ==> !LocallyOk(value, schema) || SomeViolated(root, depth, value, schema))
    decreases depth, 4, 0
  {
    hide ShallowIssues, LocallyOk, TypeOk, ChildRun, AllSatisfied, SomeViolated, KeywordsOf, TypeHolds;
    TypeReads(value, schema);
    if !TypeHolds(value, schema) {
      WrongTypeViolates(value, schema);
    } else {
      ShallowIffClean(value, schema, path);
      var shallow := Take(ShallowIssues(value, KeywordsOf(schema), path), limit);
      ChildrenDecide(root, depth, value, schema, path, limit, shallow);
    }
  }

  lemma {:induction false} ChildrenDecide(
    root: Json, depth: nat, value: Json, schema: Json, path: Path, limit: Limit, issues: seq<Issue>)
    requires limit != Some(0)
    requires ChildRun(root, depth, value, KeywordsOf(schema), path, limit, issues).Some?
    ensures var run := ChildRun(root, depth, value, KeywordsOf(schema), path, limit, issues).value;
      && (run == [] ==> issues == [] && AllSatisfied(root, depth, value, schema))
      && (run != [] && issues == [] ==> SomeViolated(root, depth, value, schema))
    decreases depth, 3, 0
  {
    hide PropertyRun, ItemRun, Satisfies, Violates, KeywordsOf, ChildAt, PropertyOf, ItemOf;
    hide AllSatisfied, SomeViolated;
    var node := KeywordsOf(schema);
    if value.Obj? {
      PropertiesDecide(root, depth, value, node, 0, path, limit, issues);
      AllOfProperties(root, depth, value, schema);
    } else if value.Arr? && node.items.Some? {
      ItemsDecide(root, depth, value, node, 0, path, limit, issues);
      AllOfItems(root, depth, value, schema);
    } else {
      NoChildren(root, depth, value, schema);
    }
  }

  lemma AllOfProperties(root: Json, h: nat, value: Json, schema: Json)
    requires value.Obj?
    ensures (forall i: nat, v, s :: PropertyOf(value, KeywordsOf(schema), i, v, s) ==> Satisfies(root, h, v, s)) ==>
              AllSatisfied(root, h, value, schema)
    ensures (exists i: nat, v, s :: PropertyOf(value, KeywordsOf(schema), i, v, s) && Violates(root, h, v, s)) ==>
              SomeViolated(root, h, value, schema)
  {
    hide KeywordsOf, Satisfies, Violates, PropertyOf;
    var node := KeywordsOf(schema);
    forall segment, v, s | ChildAt(value, schema, segment, v, s)
      ensures exists i: nat :: PropertyOf(value, node, i, v, s)
    {
      var i := ChildIsProperty(value, schema, segment.name, v, s);
    }
    hide ChildAt;
    if i: nat, v, s :| PropertyOf(value, node, i, v, s) && Violates(root, h, v, s) {
      PropertyIsChild(value, schema, i, v, s);
    }
  }

  lemma AllOfItems(root: Json, h: nat, value: Json, schema: Json)
    requires value.Arr?
    ensures (forall i: nat, v, s :: ItemOf(value, KeywordsOf(schema), i, v, s) ==> Satisfies(root, h, v, s)) ==>
              AllSatisfied(root, h, value, schema)
    ensures (exists i: nat, v, s :: ItemOf(value, KeywordsOf(schema), i, v, s) && Violates(root, h, v, s)) ==>
              SomeViolated(root, h, value, schema)
  {
    hide KeywordsOf, Satisfies, Violates, ItemOf;
    var node := KeywordsOf(schema);
    forall segment, v, s | ChildAt(value, schema, segment, v, s)
      ensures exists i: nat :: ItemOf(value, node, i, v, s)
    {
      ItemIsChild(value, schema, segment.i, v, s);
    }
    hide ChildAt;
    if i: nat, v, s :| ItemOf(value, node, i, v, s) && Violates(root, h, v, s) {
      ItemIsChild(value, schema, i, v, s);
    }
  }

  lemma NoChildren(root: Json, h: nat, value: Json, schema: Json)
    requires !value.Obj? && !(value.Arr? && KeywordsOf(schema).items.Some?)
    ensures AllSatisfied(root, h, value, schema)
  {
    hide KeywordsOf, Satisfies, Violates, ChildAt;
    forall segment, v, s ensures !ChildAt(value, schema, segment, v, s) {
      NoChild(value, schema, segment, v, s);
    }
  }

  lemma NoChild(value: Json, schema: Json, segment: Segment, v: Json, s: Json)
    requires !value.Obj? && !(value.Arr? && KeywordsOf(schema).items.Some?)
    ensures !ChildAt(value, schema, segment, v, s)
  {
    hide KeywordsOf;
    if segment.Index? {
      ItemReads(value, schema, segment.i, v, s);
    }
  }

  lemma {:induction false} PropertiesDecide(
    root: Json, depth: nat, value: Json, node: Node, i: nat, path: Path, limit: Limit, issues: seq<Issue>)
    requires node.Keywords? && value.Obj? && i <= |node.properties| && limit != Some(0)
    requires PropertyRun(root, depth, value.fields, node.properties, i, path, limit, issues).Some?
    ensures var run := PropertyRun(root, depth, value.fields, node.properties, i, path, limit, issues).value;
      && (run == [] ==> issues == [] && forall j: nat, v, s ::
            i <= j && PropertyOf(value, node, j, v, s) ==> Satisfies(root, depth, v, s))
      && (run != [] && issues == [] ==>
            exists j: nat, v, s :: PropertyOf(value, node, j, v, s) && Violates(root, depth, v, s))
    decreases depth, 2, |node.properties| - i
  {
    hide Report, Satisfies, Violates, Lookup;
    if i < |node.properties| {
      var property := node.properties[i];
      var child := Lookup(value.fields, property.key);
      if child.None? {
        PropertiesDecide(root, depth, value, node, i + 1, path, limit, issues);
      } else {
        var at := path + [Key(property.key)];
        var more := Report(root, depth, child.value, property.value, at, Room(issues, limit)).value;
        assert PropertyOf(value, node, i, child.value, property.value);
        if issues == [] {
          ReportDecides(root, depth, child.value, property.value, path + [Key(property.key)], Room(issues, limit));
        }
        if !Full(issues + more, limit) {
          PropertiesDecide(root, depth, value, node, i + 1, path, limit, issues + more);
        }
      }
    }
  }

  lemma {:induction false} ItemsDecide(
    root: Json, depth: nat, value: Json, node: Node, i: nat, path: Path, limit: Limit, issues: seq<Issue>)
    requires node.Keywords? && value.Arr? && node.items.Some? && i <= |value.items| && limit != Some(0)
    requires ItemRun(root, depth, value.items, node.items.value, i, path, limit, issues).Some?
    ensures var run := ItemRun(root, depth, value.items, node.items.value, i, path, limit, issues).value;
      && (run == [] ==> issues == [] && forall j: nat, v, s ::
            i <= j && ItemOf(value, node, j, v, s) ==> Satisfies(root, depth, v, s))
      && (run != [] && issues == [] ==>
            exists j: nat, v, s :: ItemOf(value, node, j, v, s) && Violates(root, depth, v, s))
    decreases depth, 2, |value.items| - i
  {
    hide Report, Satisfies, Violates;
    if i < |value.items| {
      var more := Report(root, depth, value.items[i], node.items.value, path + [Index(i)], Room(issues, limit)).value;
      assert ItemOf(value, node, i, value.items[i], node.items.value);
      if issues == [] {
        ReportDecides(root, depth, value.items[i], node.items.value, path + [Index(i)], Room(issues, limit));
      }
      if !Full(issues + more, limit) {
        ItemsDecide(root, depth, value, node, i + 1, path, limit, issues + more);
      }
    }
  }

  // ---------------------------------------------------------------- counting alternatives

  function CountTrue(bs: seq<bool>): nat {
    if |bs| == 0 then 0
    else CountTrue(bs[..|bs| - 1]) + if bs[|bs| - 1] then 1 else 0
  }

  ghost predicate OnlyAt(bs: seq<bool>, i: nat) {
    i < |bs| && bs[i] && forall j :: 0 <= j < |bs| && j != i ==> !bs[j]
  }

  ghost predicate BothAt(bs: seq<bool>, i: nat, j: nat) {
    i < j < |bs| && bs[i] && bs[j]
  }

  /** A count of zero means nowhere, of one at exactly one place, and otherwise at two places at least. */
  lemma {:induction false} CountTrueMeans(bs: seq<bool>)
    ensures CountTrue(bs) == 0 ==> forall i :: 0 <= i < |bs| ==> !bs[i]
    ensures CountTrue(bs) == 1 ==> exists i: nat :: OnlyAt(bs, i)
    ensures CountTrue(bs) > 1 ==> exists i: nat, j: nat :: BothAt(bs, i, j)
  {
    if |bs| > 0 {
      var last := |bs| - 1;
      var init := bs[..last];
      CountTrueMeans(init);
      assert forall i :: 0 <= i < last ==> bs[i] == init[i];
      if CountTrue(init) == 0 {
        if bs[last] { assert OnlyAt(bs, last); }
      } else if CountTrue(init) == 1 {
        var i: nat :| OnlyAt(init, i);
        if bs[last] { assert BothAt(bs, i, last); } else { assert OnlyAt(bs, i); }
      } else {
        var i: nat, j: nat :| BothAt(init, i, j);
        assert BothAt(bs, i, j);
      }
    }
  }

  /** `bs` records which alternatives were clean under their inner limit. */
  lemma {:induction false} MatchesIsCount(
    root: Json, depth: nat, value: Json, options: seq<Json>, bs: seq<bool>, path: Path)
    requires |bs| <= |options| && Matches(root, depth, value, options, |bs|, path).Some?
    requires forall i :: 0 <= i < |bs| ==> bs[i] == (Report(root, depth, value, options[i], path, Some(1)) == Some([]))
    ensures Matches(root, depth, value, options, |bs|, path) == Some(CountTrue(bs))
    ensures forall i :: 0 <= i < |bs| ==> Report(root, depth, value, options[i], path, Some(1)).Some?
  {
    hide Report;
    if |bs| > 0 {
      MatchesIsCount(root, depth, value, options, bs[..|bs| - 1], path);
    }
  }

  lemma {:induction false} MatchesDecide(root: Json, depth: nat, value: Json, options: seq<Json>, path: Path)
    requires Matches(root, depth, value, options, |options|, path).Some?
    ensures var count := Matches(root, depth, value, options, |options|, path).value;
      && (count == 1 ==> OneMatch(root, depth, value, options))
      && (count != 1 ==> Mismatch(root, depth, value, options))
    decreases depth, 3, 0
  {
    hide Report, Satisfies, Violates, Matches, CountTrue, OneMatch, Mismatch;
    var bs := seq(|options|, i requires 0 <= i < |options| =>
      Report(root, depth, value, options[i], path, Some(1)) == Some([]));
    MatchesIsCount(root, depth, value, options, bs, path);
    forall i | 0 <= i < |options|
      ensures if bs[i] then Satisfies(root, depth, value, options[i]) else Violates(root, depth, value, options[i])
    {
      ReportDecides(root, depth, value, options[i], path, Some(1));
    }
    CountDecides(root, depth, value, options, bs);
  }

  lemma CountDecides(root: Json, h: nat, value: Json, options: seq<Json>, bs: seq<bool>)
    requires |bs| == |options|
    requires forall i :: 0 <= i < |options| ==>
               if bs[i] then Satisfies(root, h, value, options[i]) else Violates(root, h, value, options[i])
    ensures CountTrue(bs) == 1 ==> OneMatch(root, h, value, options)
    ensures CountTrue(bs) != 1 ==> Mismatch(root, h, value, options)
  {
    hide Satisfies, Violates, CountTrue, OneMatch, NoMatch, SeveralMatch;
    CountTrueMeans(bs);
    if CountTrue(bs) == 0 {
      NoneChosen(root, h, value, options, bs);
    } else if CountTrue(bs) == 1 {
      var i: nat :| OnlyAt(bs, i);
      OneChosen(root, h, value, options, bs, i);
    } else {
      var i: nat, j: nat :| BothAt(bs, i, j);
      TwoChosen(root, h, value, options, i, j);
    }
  }

  lemma NoneChosen(root: Json, h: nat, value: Json, options: seq<Json>, bs: seq<bool>)
    requires |bs| == |options| && forall i :: 0 <= i < |bs| ==> !bs[i]
    requires forall i :: 0 <= i < |options| ==> !bs[i] ==> Violates(root, h, value, options[i])
    ensures NoMatch(root, h, value, options)
  {
    hide Satisfies, Violates;
  }

  lemma OneChosen(root: Json, h: nat, value: Json, options: seq<Json>, bs: seq<bool>, i: nat)
    requires |bs| == |options| && OnlyAt(bs, i) && Satisfies(root, h, value, options[i])
    requires forall j :: 0 <= j < |options| ==> !bs[j] ==> Violates(root, h, value, options[j])
    ensures OneMatch(root, h, value, options)
  {
    hide Satisfies, Violates;
  }

  lemma TwoChosen(root: Json, h: nat, value: Json, options: seq<Json>, i: nat, j: nat)
    requires i < j < |options| && Satisfies(root, h, value, options[i]) && Satisfies(root, h, value, options[j])
    ensures SeveralMatch(root, h, value, options)
  {
    hide Satisfies, Violates;
  }

  /**
   With any limit of at least one, a run that returns is empty exactly for conforming values: neither
   truncation nor the inner limit of one issue per alternative can hide a violation.
   */
  lemma CleanIffConforms(root: Json, depth: nat, value: Json, schema: Json, path: Path, limit: Limit)
    requires limit != Some(0) && Report(root, depth, value, schema, path, limit).Some?
    ensures Report(root, depth, value, schema, path, limit).value == [] <==> Conforms(root, value, schema)
  {
    hide Report, Satisfies, Violates;
    ReportDecides(root, depth, value, schema, path, limit);
    if Violates(root, depth, value, schema) {
      ViolatingIsNotConforming(root, depth, value, schema);
    }
  }

  // ---------------------------------------------------------------- reports under different limits

  /** `small` is at most as generous as `large`; None is unlimited. */
  predicate AtMostAs(small: Limit, large: Limit) {
    large.None? || (small.Some? && small.value <= large.value)
  }

  /** A loop state of the tighter run is the truncation of the more generous one's. */
  lemma RoomKeepsOrder(issues: seq<Issue>, small: Limit, large: Limit)
    requires AtMostAs(small, large)
    ensures AtMostAs(Room(Take(issues, small), small), Room(issues, large))
  {
  }

  /** Truncating in two stages, the second to the remaining room, is truncating once. */
  lemma TakeExtend(all: seq<Issue>, limit: Limit, more: seq<Issue>)
    ensures Take(all, limit) + Take(more, Room(Take(all, limit), limit)) == Take(all + more, limit)
  {
  }

  lemma TakeLess(all: seq<Issue>, small: Limit, large: Limit)
    requires AtMostAs(small, large)
    ensures Take(Take(all, large), small) == Take(all, small)
  {
  }

  lemma TakeFull(all: seq<Issue>, limit: Limit, longer: seq<Issue>)
    requires Full(Take(all, limit), limit) && all <= longer
    ensures Take(longer, limit) == Take(all, limit)
  {
  }

  /**
   Where a more generous run returns, a tighter one returns its truncation; in particular a limited run
   gives exactly the first issues of the unlimited one.
   */
  lemma {:induction false} LimitsAgree(
    root: Json, depth: nat, value: Json, schema: Json, path: Path, small: Limit, large: Limit)
    requires AtMostAs(small, large) && Report(root, depth, value, schema, path, large).Some?
    ensures Report(root, depth, value, schema, path, small)
         == Some(Take(Report(root, depth, value, schema, path, large).value, small))
    decreases depth, 1, 0
  {
    hide Report, NodeOf, Target, Take, KeywordRun, Matches, When, AtMostAs;
    NoDepth(root, value, schema, path, large);
    var node, h := NodeOf(schema), depth - 1;
    if node.Reference? {
      RunOfReference(root, h, value, schema, path, small);
      RunOfReference(root, h, value, schema, path, large);
      var target := Target(root, node.pointer);
      if target.Some? {
        LimitsAgree(root, h, value, target.value, path, small, large);
      } else {
        TakeLess([Issue(path, UnresolvedRef)], small, large);
      }
    } else if node.Alternatives? {
      RunOfAlternatives(root, h, value, schema, path, small);
      RunOfAlternatives(root, h, value, schema, path, large);
      var matches := Matches(root, h, value, node.options, |node.options|, path);
      TakeLess(When(matches.value != 1, path, OneOfMismatch), small, large);
    } else {
      RunOfKeywords(root, h, value, schema, path, small);
      RunOfKeywords(root, h, value, schema, path, large);
      KeywordLimitsAgree(root, h, value, node, path, small, large);
    }
  }

  lemma {:induction false} KeywordLimitsAgree(
    root: Json, depth: nat, value: Json, node: Node, path: Path, small: Limit, large: Limit)
    requires node.Keywords? && AtMostAs(small, large) && KeywordRun(root, depth, value, node, path, large).Some?
    ensures KeywordRun(root, depth, value, node, path, small)
         == Some(Take(KeywordRun(root, depth, value, node, path, large).value, small))
    decreases depth, 4, 0
  {
    hide ShallowIssues, PropertyRun, ItemRun, Take, AtMostAs;
    if !TypeOk(value, node.expected) {
      TakeLess([Issue(path, WrongType(node.expected.value))], small, large);
    } else {
      var shallow := ShallowIssues(value, node, path);
      TakeLess(shallow, small, large);
      var issues := Take(shallow, large);
      if value.Obj? {
        PropertyLimitsAgree(root, depth, value.fields, node.properties, 0, path, small, large, issues);
        var run := PropertyRun(root, depth, value.fields, node.properties, 0, path, large, issues).value;
        TakeLess(run, small, large);
        TakeLess(run, small, small);
      } else if value.Arr? && node.items.Some? {
        ItemLimitsAgree(root, depth, value.items, node.items.value, 0, path, small, large, issues);
        var run := ItemRun(root, depth, value.items, node.items.value, 0, path, large, issues).value;
        TakeLess(run, small, large);
        TakeLess(run, small, small);
      } else {
        TakeLess(shallow, large, large);
        TakeLess(shallow, small, small);
      }
    }
  }

  lemma {:induction false} PropertyLimitsAgree(
    root: Json, depth: nat, fields: seq<Field>, properties: seq<Field>, i: nat, path: Path,
    small: Limit, large: Limit, issues: seq<Issue>)
    requires i <= |properties| && AtMostAs(small, large)
    requires PropertyRun(root, depth, fields, properties, i, path, large, issues).Some?
    ensures var run := PropertyRun(root, depth, fields, properties, i, path, large, issues).value;
      && issues <= run
      && PropertyRun(root, depth, fields, properties, i, path, small, Take(issues, small)) == Some(Take(run, small))
    decreases depth, 3, |properties| - i
  {
    hide Report, Lookup, Take, Room, AtMostAs, Full;
    if i < |properties| {
      var property := properties[i];
      var child := Lookup(fields, property.key);
      if child.None? {
        PropertyLimitsAgree(root, depth, fields, properties, i + 1, path, small, large, issues);
      } else {
        var at := path + [Key(property.key)];
        var more := Report(root, depth, child.value, property.value, at, Room(issues, large)).value;
        RoomKeepsOrder(issues, small, large);
        var tight := Room(Take(issues, small), small);
        LimitsAgree(root, depth, child.value, property.value, at, tight, Room(issues, large));
        TakeExtend(issues, small, more);
        if !Full(issues + more, large) {
          PropertyLimitsAgree(root, depth, fields, properties, i + 1, path, small, large, issues + more);
          var run := PropertyRun(root, depth, fields, properties, i + 1, path, large, issues + more).value;
          if Full(Take(issues + more, small), small) {
            TakeFull(issues + more, small, run);
          }
        } else {
          FullSooner(issues + more, small, large);
        }
      }
    }
  }

  lemma FullSooner(issues: seq<Issue>, small: Limit, large: Limit)
    requires AtMostAs(small, large) && Full(issues, large)
    ensures Full(Take(issues, small), small)
  {
  }

  lemma {:induction false} ItemLimitsAgree(
    root: Json, depth: nat, items: seq<Json>, schema: Json, i: nat, path: Path,
    small: Limit, large: Limit, issues: seq<Issue>)
    requires i <= |items| && AtMostAs(small, large)
    requires ItemRun(root, depth, items, schema, i, path, large, issues).Some?
    ensures var run := ItemRun(root, depth, items, schema, i, path, large, issues).value;
      && issues <= run
      && ItemRun(root, depth, items, schema, i, path, small, Take(issues, small)) == Some(Take(run, small))
    decreases depth, 3, |items| - i
  {
    hide Report, Take, Room, AtMostAs, Full;
    if i < |items| {
      var at := path + [Index(i)];
      var more := Report(root, depth, items[i], schema, at, Room(issues, large)).value;
      RoomKeepsOrder(issues, small, large);
      LimitsAgree(root, depth, items[i], schema, at, Room(Take(issues, small), small), Room(issues, large));
      TakeExtend(issues, small, more);
      if !Full(issues + more, large) {
        ItemLimitsAgree(root, depth, items, schema, i + 1, path, small, large, issues + more);
        var run := ItemRun(root, depth, items, schema, i + 1, path, large, issues + more).value;
        if Full(Take(issues + more, small), small) {
          TakeFull(issues + more, small, run);
        }
      } else {
        FullSooner(issues + more, small, large);
      }
    }
  }
}
