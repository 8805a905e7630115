/**
 When the checker returns: on every value exactly if no schema node it can reach lies on a cycle of
 `$ref` and `oneOf`.  A value that leads the checker into such a cycle is built along the way there.
 */
module SchemaTermination {
  import opened Text
  import opened JsonValues
  import opened SchemaMeaning
  import opened SchemaChecker

  /** The checker goes from `s` to `t` with the same value. */
  ghost predicate Unguarded(root: Json, s: Json, t: Json) {
    match NodeOf(s)
    case Reference(pointer) => Target(root, pointer) == Some(t)
    case Alternatives(options) => t in options
    case _ => false
  }

  /** The checker goes from `s` into a property by `t`; only where the node's type admits objects. */
  ghost predicate PropertyEdge(s: Json, i: nat, t: Json) {
    var node := NodeOf(s);
    node.Keywords? && TypeOk(Obj([]), node.expected) && i < |node.properties| && node.properties[i].value == t
  }

  /** The checker goes from `s` into the items by `t`; only where the node's type admits arrays. */
  ghost predicate ItemEdge(s: Json, t: Json) {
    var node := NodeOf(s);
    node.Keywords? && TypeOk(Arr([]), node.expected) && node.items == Some(t)
  }

  /** The checker goes from `s` to `t` with a part of the value. */
  ghost predicate Guarded(s: Json, t: Json) {
    (exists i: nat :: PropertyEdge(s, i, t)) || ItemEdge(s, t)
  }

  /** `rank` covers every schema node reachable from its keys and falls along unguarded edges. */
  ghost predicate Stratified(root: Json, rank: map<Json, nat>) {
    && (forall s, t :: s in rank && Unguarded(root, s, t) ==> t in rank && rank[t] < rank[s])
    && (forall s, t :: s in rank && Guarded(s, t) ==> t in rank)
  }

  ghost predicate Ranked(root: Json, rank: map<Json, nat>, schema: Json) {
    Stratified(root, rank) && schema in rank
  }

  ghost predicate Edge(root: Json, s: Json, t: Json) {
    Unguarded(root, s, t) || Guarded(s, t)
  }

  ghost predicate IsPath(root: Json, p: seq<Json>) {
    |p| > 0 && forall i :: 0 <= i < |p| - 1 ==> Edge(root, p[i], p[i + 1])
  }

  ghost predicate IsUnguardedPath(root: Json, p: seq<Json>) {
    |p| >= 2 && forall i :: 0 <= i < |p| - 1 ==> Unguarded(root, p[i], p[i + 1])
  }

  ghost predicate Reaches(root: Json, s: Json, t: Json) {
    exists p :: IsPath(root, p) && p[0] == s && p[|p| - 1] == t
  }

  /** `t` is reached from `s` by one or more `$ref`/`oneOf` steps. */
  ghost predicate Unfolds(root: Json, s: Json, t: Json) {
    exists p :: IsUnguardedPath(root, p) && p[0] == s && p[|p| - 1] == t
  }

  ghost predicate NoUnguardedCycle(root: Json, schema: Json) {
    forall t :: Reaches(root, schema, t) ==> !Unfolds(root, t, t)
  }

  // ---------------------------------------------------------------- every reachable node is a subterm

  ghost function Subterms(j: Json): set<Json>
    ensures j in Subterms(j)
  {
    {j} + match j
          case Arr(items) => set i, t | 0 <= i < |items| && t in Subterms(items[i]) :: t
          case Obj(fields) => set i, t | 0 <= i < |fields| && t in Subterms(fields[i].value) :: t
          case _ => {}
  }

  lemma {:induction false} SubtermsTransitive(j: Json, t: Json)
    requires t in Subterms(j)
    ensures Subterms(t) <= Subterms(j)
  {
    if t != j {
      match j {
        case Arr(items) =>
          var i :| 0 <= i < |items| && t in Subterms(items[i]);
          SubtermsTransitive(items[i], t);
        case Obj(fields) =>
          var i :| 0 <= i < |fields| && t in Subterms(fields[i].value);
          SubtermsTransitive(fields[i].value, t);
        case _ =>
      }
    }
  }

  lemma GetIsSubterm(j: Json, key: string)
    requires Get(j, key).Some?
    ensures Subterms(Get(j, key).value) <= Subterms(j)
  {
    var value := Get(j, key).value;
    var i :| 0 <= i < |j.fields| && j.fields[i] == Field(key, value);
    assert value in Subterms(j.fields[i].value);
    assert value in Subterms(j);
    SubtermsTransitive(j, value);
  }

  lemma {:induction false} WalkIsSubterm(node: Json, parts: seq<string>)
    requires Walk(node, parts).Some?
    ensures Walk(node, parts).value in Subterms(node)
    decreases |parts|
  {
    if |parts| > 0 {
      var key := DecodePart(parts[0]);
      GetIsSubterm(node, key);
      WalkIsSubterm(Get(node, key).value, parts[1..]);
    }
  }

  lemma UnguardedIsSubterm(root: Json, s: Json, t: Json)
    requires Unguarded(root, s, t)
    ensures t in Subterms(root) || t in Subterms(s)
  {
    match NodeOf(s) {
      case Reference(pointer) =>
        WalkIsSubterm(root, Split(pointer, '/'));
      case Alternatives(options) =>
        GetIsSubterm(s, "oneOf");
        var i :| 0 <= i < |options| && options[i] == t;
        assert t in Subterms(options[i]);
        assert t in Subterms(Arr(options));
      case _ =>
    }
  }

  lemma GuardedIsSubterm(s: Json, t: Json)
    requires Guarded(s, t)
    ensures t in Subterms(s)
  {
    if ItemEdge(s, t) {
      GetIsSubterm(s, "items");
    } else {
      var i: nat :| PropertyEdge(s, i, t);
      PropertyIsSubterm(s, i, t);
    }
  }

  lemma PropertyIsSubterm(s: Json, i: nat, t: Json)
    requires PropertyEdge(s, i, t)
    ensures t in Subterms(s)
  {
    var fields := Get(s, "properties").value.fields;
    GetIsSubterm(s, "properties");
    assert NodeOf(s).properties[i] in Entries(fields);
    var j :| 0 <= j < |fields| && fields[j] == NodeOf(s).properties[i];
    assert t in Subterms(fields[j].value);
    assert t in Subterms(Obj(fields));
  }

  lemma {:induction false} PathStaysInSubterms(root: Json, p: seq<Json>)
    requires IsPath(root, p)
    ensures p[|p| - 1] in Subterms(root) + Subterms(p[0])
  {
    hide Unguarded, Guarded, Subterms;
    if |p| > 1 {
      var init := p[..|p| - 1];
      assert forall i :: 0 <= i < |init| ==> init[i] == p[i];
      PathStaysInSubterms(root, init);
      var s, t := p[|p| - 2], p[|p| - 1];
      assert Edge(root, s, t);
      SubtermsOf(root, p[0], s);
      if Unguarded(root, s, t) { UnguardedIsSubterm(root, s, t); } else { GuardedIsSubterm(s, t); }
    }
  }

  lemma SubtermsOf(root: Json, start: Json, s: Json)
    requires s in Subterms(root) + Subterms(start)
    ensures Subterms(s) <= Subterms(root) + Subterms(start)
  {
    if s in Subterms(root) { SubtermsTransitive(root, s); } else { SubtermsTransitive(start, s); }
  }

  // ---------------------------------------------------------------- paths compose

  lemma ReachesStep(root: Json, start: Json, s: Json, t: Json)
    requires Reaches(root, start, s) && Edge(root, s, t)
    ensures Reaches(root, start, t)
  {
    hide Unguarded, Guarded;
    var p :| IsPath(root, p) && p[0] == start && p[|p| - 1] == s;
    var q := p + [t];
    assert IsPath(root, q) && q[0] == start && q[|q| - 1] == t;
  }

  lemma UnfoldsStep(root: Json, s: Json, t: Json, u: Json)
    requires Unguarded(root, s, t) && Unfolds(root, t, u)
    ensures Unfolds(root, s, u)
  {
    var p :| IsUnguardedPath(root, p) && p[0] == t && p[|p| - 1] == u;
    var q := [s] + p;
    assert IsUnguardedPath(root, q) && q[0] == s && q[|q| - 1] == u;
  }

  lemma UnfoldsOnce(root: Json, s: Json, t: Json)
    requires Unguarded(root, s, t)
    ensures Unfolds(root, s, t)
  {
    var p := [s, t];
    assert IsUnguardedPath(root, p) && p[0] == s && p[|p| - 1] == t;
  }

  // ---------------------------------------------------------------- a ranking without cycles

  /** The number of distinct nodes a node unfolds to is a rank when nothing unfolds to itself. */
  lemma RankFromAcyclicity(root: Json, schema: Json)
    requires NoUnguardedCycle(root, schema)
    ensures exists rank: map<Json, nat> :: Ranked(root, rank, schema)
  {
    hide Unguarded, Guarded;
    var all := Subterms(root) + Subterms(schema);
    var nodes := set t | t in all && Reaches(root, schema, t);
    forall t | Reaches(root, schema, t) ensures t in nodes {
      var p :| IsPath(root, p) && p[0] == schema && p[|p| - 1] == t;
      PathStaysInSubterms(root, p);
    }
    var rank := map s | s in nodes :: |Below(root, nodes, s)|;
    forall s, t | s in rank && Unguarded(root, s, t) ensures t in rank && rank[t] < rank[s] {
      ReachesStep(root, schema, s, t);
      BelowShrinks(root, nodes, s, t);
    }
    forall s, t | s in rank && Guarded(s, t) ensures t in rank {
      ReachesStep(root, schema, s, t);
    }
    assert IsPath(root, [schema]) && [schema][0] == schema && [schema][|[schema]| - 1] == schema;
    assert Ranked(root, rank, schema);
  }

  ghost function Below(root: Json, nodes: set<Json>, s: Json): set<Json> {
    set u | u in nodes && Unfolds(root, s, u)
  }

  lemma BelowShrinks(root: Json, nodes: set<Json>, s: Json, t: Json)
    requires Unguarded(root, s, t) && t in nodes && !Unfolds(root, t, t)
    ensures |Below(root, nodes, t)| < |Below(root, nodes, s)|
  {
    hide Unguarded, Unfolds;
    forall u | u in Below(root, nodes, t) ensures u in Below(root, nodes, s) {
      UnfoldsStep(root, s, t, u);
    }
    UnfoldsOnce(root, s, t);
    SmallerSet(Below(root, nodes, t), Below(root, nodes, s), t);
  }

  lemma SmallerSet(a: set<Json>, b: set<Json>, x: Json)
    requires a <= b && x in b && x !in a
    ensures |a| < |b|
  {
    SubsetCard(a, b - {x});
  }

  lemma {:induction false} SubsetCard(a: set<Json>, b: set<Json>)
    requires a <= b
    ensures |a| <= |b|
  {
    if a != {} {
      var x :| x in a;
      SubsetCard(a - {x}, b - {x});
    }
  }

  // ---------------------------------------------------------------- more depth changes nothing

  /** A run that returns gives the same report with any more depth. */
  lemma {:induction false} Deeper(root: Json, d: nat, e: nat, value: Json, schema: Json, path: Path, limit: Limit)
    requires d <= e && Report(root, d, value, schema, path, limit).Some?
    ensures Report(root, e, value, schema, path, limit) == Report(root, d, value, schema, path, limit)
    decreases d, 1, 0
  {
    hide Report, NodeOf;
    NoDepth(root, value, schema, path, limit);
    if NodeOf(schema).Reference? {
      DeeperReference(root, d - 1, e - 1, value, schema, path, limit);
    } else if NodeOf(schema).Alternatives? {
      DeeperAlternatives(root, d - 1, e - 1, value, schema, path, limit);
    } else {
      RunOfKeywords(root, d - 1, value, schema, path, limit);
      RunOfKeywords(root, e - 1, value, schema, path, limit);
      DeeperKeywords(root, d - 1, e - 1, value, NodeOf(schema), path, limit);
    }
  }

  lemma {:induction false} DeeperReference(
    root: Json, d: nat, e: nat, value: Json, schema: Json, path: Path, limit: Limit)
    requires d <= e && NodeOf(schema).Reference? && Report(root, d + 1, value, schema, path, limit).Some?
    ensures Report(root, e + 1, value, schema, path, limit) == Report(root, d + 1, value, schema, path, limit)
    decreases d, 2, 0
  {
    hide Report, NodeOf, Target, Take;
    RunOfReference(root, d, value, schema, path, limit);
    RunOfReference(root, e, value, schema, path, limit);
    var target := Target(root, NodeOf(schema).pointer);
    if target.Some? {
      Deeper(root, d, e, value, target.value, path, limit);
    }
  }

  lemma {:induction false} DeeperAlternatives(
    root: Json, d: nat, e: nat, value: Json, schema: Json, path: Path, limit: Limit)
    requires d <= e && NodeOf(schema).Alternatives? && Report(root, d + 1, value, schema, path, limit).Some?
    ensures Report(root, e + 1, value, schema, path, limit) == Report(root, d + 1, value, schema, path, limit)
    decreases d, 4, 0
  {
    hide Report, NodeOf, Take, When, Matches;
    RunOfAlternatives(root, d, value, schema, path, limit);
    RunOfAlternatives(root, e, value, schema, path, limit);
    DeeperMatches(root, d, e, value, NodeOf(schema).options, |NodeOf(schema).options|, path);
  }

  lemma {:induction false} DeeperMatches(
    root: Json, d: nat, e: nat, value: Json, options: seq<Json>, n: nat, path: Path)
    requires d <= e && n <= |options| && Matches(root, d, value, options, n, path).Some?
    ensures Matches(root, e, value, options, n, path) == Matches(root, d, value, options, n, path)
    decreases d, 2, n
  {
    hide Report, Matches;
    if n == 0 {
      NoMatches(root, d, value, options, path);
      NoMatches(root, e, value, options, path);
    } else {
      MatchesStep(root, d, value, options, n - 1, path);
      MatchesStep(root, e, value, options, n - 1, path);
      DeeperMatches(root, d, e, value, options, n - 1, path);
      Deeper(root, d, e, value, options[n - 1], path, Some(1));
    }
  }

  lemma {:induction false} DeeperKeywords(
    root: Json, d: nat, e: nat, value: Json, node: Node, path: Path, limit: Limit)
    requires d <= e && node.Keywords? && KeywordRun(root, d, value, node, path, limit).Some?
    ensures KeywordRun(root, e, value, node, path, limit) == KeywordRun(root, d, value, node, path, limit)
    decreases d, 3, 0
  {
    hide ShallowIssues, Take, PropertyRun, ItemRun, TypeOk;
    if TypeOk(value, node.expected) {
      var shallow := Take(ShallowIssues(value, node, path), limit);
      if value.Obj? {
        DeeperProperties(root, d, e, value.fields, node.properties, 0, path, limit, shallow);
      } else if value.Arr? && node.items.Some? {
        DeeperItems(root, d, e, value.items, node.items.value, 0, path, limit, shallow);
      }
    }
  }

  lemma {:induction false} DeeperProperties(
    root: Json, d: nat, e: nat, fields: seq<Field>, properties: seq<Field>, i: nat, path: Path, limit: Limit,
    issues: seq<Issue>)
    requires d <= e && i <= |properties|
    requires PropertyRun(root, d, fields, properties, i, path, limit, issues).Some?
    ensures PropertyRun(root, e, fields, properties, i, path, limit, issues)
         == PropertyRun(root, d, fields, properties, i, path, limit, issues)
    decreases d, 2, |properties| - i
  {
    hide Report, Lookup, Room, Full;
    if i < |properties| {
      var child := Lookup(fields, properties[i].key);
      if child.None? {
        DeeperProperties(root, d, e, fields, properties, i + 1, path, limit, issues);
      } else {
        var at := path + [Key(properties[i].key)];
        Deeper(root, d, e, child.value, properties[i].value, at, Room(issues, limit));
        var more := Report(root, d, child.value, properties[i].value, at, Room(issues, limit)).value;
        if !Full(issues + more, limit) {
          DeeperProperties(root, d, e, fields, properties, i + 1, path, limit, issues + more);
        }
      }
    }
  }

  lemma {:induction false} DeeperItems(
    root: Json, d: nat, e: nat, items: seq<Json>, schema: Json, i: nat, path: Path, limit: Limit, issues: seq<Issue>)
    requires d <= e && i <= |items| && ItemRun(root, d, items, schema, i, path, limit, issues).Some?
    ensures ItemRun(root, e, items, schema, i, path, limit, issues)
         == ItemRun(root, d, items, schema, i, path, limit, issues)
    decreases d, 2, |items| - i
  {
    hide Report, Room, Full;
    if i < |items| {
      Deeper(root, d, e, items[i], schema, path + [Index(i)], Room(issues, limit));
      var more := Report(root, d, items[i], schema, path + [Index(i)], Room(issues, limit)).value;
      if !Full(issues + more, limit) {
        DeeperItems(root, d, e, items, schema, i + 1, path, limit, issues + more);
      }
    }
  }

  // ---------------------------------------------------------------- without cycles every run returns

  ghost predicate ReturnsAt(root: Json, depth: nat, value: Json, schema: Json, path: Path, limit: Limit) {
    Report(root, depth, value, schema, path, limit).Some?
  }

  /** Some stack depth is enough for the run. */
  ghost predicate Returns(root: Json, value: Json, schema: Json, path: Path, limit: Limit) {
    exists depth: nat :: ReturnsAt(root, depth, value, schema, path, limit)
  }

  /** The run returns for this pair wherever it occurs. */
  ghost predicate AlwaysReturns(root: Json, value: Json, schema: Json) {
    forall path, limit :: Returns(root, value, schema, path, limit)
  }

  lemma ReturnsWith(root: Json, depth: nat, value: Json, schema: Json, path: Path, limit: Limit)
    requires Report(root, depth, value, schema, path, limit).Some?
    ensures Returns(root, value, schema, path, limit)
  {
    hide Report;
    assert ReturnsAt(root, depth, value, schema, path, limit);
  }

  lemma {:induction false} RankedReturns(root: Json, rank: map<Json, nat>, value: Json, schema: Json)
    requires Ranked(root, rank, schema)
    ensures AlwaysReturns(root, value, schema)
    decreases value, rank[schema], 1
  {
    hide Returns, NodeOf;
    forall path, limit ensures Returns(root, value, schema, path, limit) {
      if NodeOf(schema).Reference? {
        ReferenceReturns(root, rank, value, schema, path, limit);
      } else if NodeOf(schema).Alternatives? {
        AlternativesReturn(root, rank, value, schema, path, limit);
      } else {
        KeywordsReturn(root, rank, value, schema, path, limit);
      }
    }
  }

  lemma {:induction false} ReferenceReturns(
    root: Json, rank: map<Json, nat>, value: Json, schema: Json, path: Path, limit: Limit)
    requires Ranked(root, rank, schema) && NodeOf(schema).Reference?
    ensures Returns(root, value, schema, path, limit)
    decreases value, rank[schema], 0
  {
    hide Report, NodeOf, Target, Take;
    var target := Target(root, NodeOf(schema).pointer);
    var depth: nat := 0;
    if target.Some? {
      assert Unguarded(root, schema, target.value);
      RankedReturns(root, rank, value, target.value);
      assert Returns(root, value, target.value, path, limit);
      depth :| ReturnsAt(root, depth, value, target.value, path, limit);
    }
    RunOfReference(root, depth, value, schema, path, limit);
    ReturnsWith(root, depth + 1, value, schema, path, limit);
  }

  /** A stack depth that is enough. */
  ghost function SomeDepth(root: Json, value: Json, schema: Json, path: Path, limit: Limit): (depth: nat)
    requires AlwaysReturns(root, value, schema)
    ensures Report(root, depth, value, schema, path, limit).Some?
  {
    assert Returns(root, value, schema, path, limit);
    var depth: nat :| ReturnsAt(root, depth, value, schema, path, limit);
    depth
  }

  /** A stack depth that is enough for the first `n` alternatives. */
  lemma {:induction false} MatchesDepth(root: Json, value: Json, options: seq<Json>, n: nat, path: Path)
    returns (depth: nat)
    requires n <= |options| && forall i :: 0 <= i < n ==> AlwaysReturns(root, value, options[i])
    ensures Matches(root, depth, value, options, n, path).Some?
  {
    hide Report, Matches, AlwaysReturns;
    if n == 0 {
      depth := 0;
      NoMatches(root, depth, value, options, path);
    } else {
      var d := MatchesDepth(root, value, options, n - 1, path);
      var e := SomeDepth(root, value, options[n - 1], path, Some(1));
      depth := if d <= e then e else d;
      DeeperMatches(root, d, depth, value, options, n - 1, path);
      Deeper(root, e, depth, value, options[n - 1], path, Some(1));
      MatchesStep(root, depth, value, options, n - 1, path);
    }
  }

  lemma {:induction false} AlternativesReturn(
    root: Json, rank: map<Json, nat>, value: Json, schema: Json, path: Path, limit: Limit)
    requires Ranked(root, rank, schema) && NodeOf(schema).Alternatives?
    ensures Returns(root, value, schema, path, limit)
    decreases value, rank[schema], 0
  {
    hide Report, NodeOf, Matches, Take, When, AlwaysReturns;
    var options := NodeOf(schema).options;
    forall i | 0 <= i < |options| ensures AlwaysReturns(root, value, options[i]) {
      assert Unguarded(root, schema, options[i]);
      RankedReturns(root, rank, value, options[i]);
    }
    var depth := MatchesDepth(root, value, options, |options|, path);
    RunOfAlternatives(root, depth, value, schema, path, limit);
    ReturnsWith(root, depth + 1, value, schema, path, limit);
  }

  lemma {:induction false} KeywordsReturn(
    root: Json, rank: map<Json, nat>, value: Json, schema: Json, path: Path, limit: Limit)
    requires Ranked(root, rank, schema) && NodeOf(schema).Keywords?
    ensures Returns(root, value, schema, path, limit)
    decreases value, rank[schema], 0
  {
    hide Report, NodeOf, Take, AlwaysReturns, KeywordRun, ShallowIssues, PropertyRun, ItemRun, Lookup;
    var node := NodeOf(schema);
    var shallow := Take(ShallowIssues(value, node, path), limit);
    var depth: nat := 0;
    if TypeOk(value, node.expected) && value.Obj? {
      forall i | 0 <= i < |node.properties| && Lookup(value.fields, node.properties[i].key).Some?
        ensures AlwaysReturns(root, Lookup(value.fields, node.properties[i].key).value, node.properties[i].value)
      {
        assert PropertyEdge(schema, i, node.properties[i].value);
        assert Guarded(schema, node.properties[i].value);
        FoundIsSmaller(value, node.properties[i].key);
        RankedReturns(root, rank, Lookup(value.fields, node.properties[i].key).value, node.properties[i].value);
      }
      depth := PropertyDepth(root, value.fields, node.properties, 0, path, limit, shallow);
    } else if TypeOk(value, node.expected) && value.Arr? && node.items.Some? {
      forall i | 0 <= i < |value.items| ensures AlwaysReturns(root, value.items[i], node.items.value) {
        assert ItemEdge(schema, node.items.value);
        assert Guarded(schema, node.items.value);
        RankedReturns(root, rank, value.items[i], node.items.value);
      }
      depth := ItemDepth(root, value.items, node.items.value, 0, path, limit, shallow);
    }
    KeywordsReturnAt(root, depth, value, node, path, limit);
    RunOfKeywords(root, depth, value, schema, path, limit);
    ReturnsWith(root, depth + 1, value, schema, path, limit);
  }

  lemma FoundIsSmaller(value: Json, key: string)
    requires value.Obj? && Lookup(value.fields, key).Some?
    ensures Lookup(value.fields, key).value < value
  {
    var i :| 0 <= i < |value.fields| && value.fields[i] == Field(key, Lookup(value.fields, key).value);
    assert value.fields[i] < value;
  }

  lemma KeywordsReturnAt(root: Json, depth: nat, value: Json, node: Node, path: Path, limit: Limit)
    requires node.Keywords?
    requires TypeOk(value, node.expected) ==>
      ChildRun(root, depth, value, node, path, limit, Take(ShallowIssues(value, node, path), limit)).Some?
    ensures KeywordRun(root, depth, value, node, path, limit).Some?
  {
    hide ShallowIssues, Take, ChildRun, TypeOk;
  }

  ghost predicate ChildrenReturn(root: Json, fields: seq<Field>, properties: seq<Field>) {
    forall i :: 0 <= i < |properties| && Lookup(fields, properties[i].key).Some? ==>
      AlwaysReturns(root, Lookup(fields, properties[i].key).value, properties[i].value)
  }

  ghost predicate ItemsReturn(root: Json, items: seq<Json>, schema: Json) {
    forall i :: 0 <= i < |items| ==> AlwaysReturns(root, items[i], schema)
  }

  /** A stack depth that is enough for the property loop from index `i` on. */
  ghost function PropertyDepth(
    root: Json, fields: seq<Field>, properties: seq<Field>, i: nat, path: Path, limit: Limit, issues: seq<Issue>)
    : (depth: nat)
    requires i <= |properties| && ChildrenReturn(root, fields, properties)
    ensures PropertyRun(root, depth, fields, properties, i, path, limit, issues).Some?
    decreases |properties| - i
  {
    if i == |properties| then 0
    else
      var child := Lookup(fields, properties[i].key);
      if child.None? then PropertyDepth(root, fields, properties, i + 1, path, limit, issues)
      else
        var at := path + [Key(properties[i].key)];
        var d := SomeDepth(root, child.value, properties[i].value, at, Room(issues, limit));
        var more := Report(root, d, child.value, properties[i].value, at, Room(issues, limit)).value;
        var e := PropertyDepth(root, fields, properties, i + 1, path, limit, issues + more);
        var m := if d <= e then e else d;
        Deeper(root, d, m, child.value, properties[i].value, at, Room(issues, limit));
        DeeperProperties(root, e, m, fields, properties, i + 1, path, limit, issues + more);
        m
  }

  ghost function ItemDepth(
    root: Json, items: seq<Json>, schema: Json, i: nat, path: Path, limit: Limit, issues: seq<Issue>): (depth: nat)
    requires i <= |items| && ItemsReturn(root, items, schema)
    ensures ItemRun(root, depth, items, schema, i, path, limit, issues).Some?
    decreases |items| - i
  {
    if i == |items| then 0
    else
      var at := path + [Index(i)];
      var d := SomeDepth(root, items[i], schema, at, Room(issues, limit));
      var more := Report(root, d, items[i], schema, at, Room(issues, limit)).value;
      var e := ItemDepth(root, items, schema, i + 1, path, limit, issues + more);
      var m := if d <= e then e else d;
      Deeper(root, d, m, items[i], schema, at, Room(issues, limit));
      DeeperItems(root, e, m, items, schema, i + 1, path, limit, issues + more);
      m
  }

  // ---------------------------------------------------------------- a cycle that can be reached hangs the checker

  /** No stack depth is enough for this pair, whatever the limit. */
  ghost predicate Hangs(root: Json, value: Json, schema: Json) {
    forall depth: nat, path, limit :: !ReturnsAt(root, depth, value, schema, path, limit)
  }

  /** A run returns only if the runs it makes without consuming the value do. */
  lemma CallReturns(root: Json, depth: nat, value: Json, s: Json, t: Json, path: Path, limit: Limit)
    returns (inner: Limit)
    requires Unguarded(root, s, t) && ReturnsAt(root, depth, value, s, path, limit)
    ensures depth > 0 && ReturnsAt(root, depth - 1, value, t, path, inner)
  {
    hide Report, NodeOf, Target, Take, When, Matches;
    NoDepth(root, value, s, path, limit);
    var h := depth - 1;
    if NodeOf(s).Reference? {
      RunOfReference(root, h, value, s, path, limit);
      inner := limit;
    } else {
      var options := NodeOf(s).options;
      RunOfAlternatives(root, h, value, s, path, limit);
      var i :| 0 <= i < |options| && options[i] == t;
      MatchesNeedsAll(root, h, value, options, |options|, path, i);
      inner := Some(1);
    }
  }

  lemma {:induction false} MatchesNeedsAll(
    root: Json, depth: nat, value: Json, options: seq<Json>, n: nat, path: Path, i: nat)
    requires i < n <= |options| && Matches(root, depth, value, options, n, path).Some?
    ensures Report(root, depth, value, options[i], path, Some(1)).Some?
  {
    hide Report, Matches;
    MatchesStep(root, depth, value, options, n - 1, path);
    if i < n - 1 {
      MatchesNeedsAll(root, depth, value, options, n - 1, path, i);
    }
  }

  lemma HangsBefore(root: Json, value: Json, s: Json, t: Json)
    requires Unguarded(root, s, t) && Hangs(root, value, t)
    ensures Hangs(root, value, s)
  {
    hide ReturnsAt, Unguarded;
    forall depth: nat, path, limit ensures !ReturnsAt(root, depth, value, s, path, limit) {
      if ReturnsAt(root, depth, value, s, path, limit) {
        var _ := CallReturns(root, depth, value, s, t, path, limit);
      }
    }
  }

  /** On a cycle of `$ref` and `oneOf` every value hangs. */
  lemma CycleHangs(root: Json, value: Json, p: seq<Json>)
    requires IsUnguardedPath(root, p) && p[0] == p[|p| - 1]
    ensures Hangs(root, value, p[0])
  {
    hide ReturnsAt, Unguarded;
    forall depth: nat, path, limit ensures !ReturnsAt(root, depth, value, p[0], path, limit) {
      CycleStuck(root, value, p, 0, depth, path, limit);
    }
  }

  lemma {:induction false} CycleStuck(
    root: Json, value: Json, p: seq<Json>, i: nat, depth: nat, path: Path, limit: Limit)
    requires IsUnguardedPath(root, p) && p[0] == p[|p| - 1] && i < |p| - 1
    ensures !ReturnsAt(root, depth, value, p[i], path, limit)
    decreases depth
  {
    hide ReturnsAt, Unguarded;
    if ReturnsAt(root, depth, value, p[i], path, limit) {
      assert Unguarded(root, p[i], p[i + 1]);
      var inner := CallReturns(root, depth, value, p[i], p[i + 1], path, limit);
      CycleStuck(root, value, p, if i + 1 == |p| - 1 then 0 else i + 1, depth - 1, path, inner);
    }
  }

  /** A value that holds nothing but the property on the way. */
  function Wrap(key: string, value: Json): Json {
    Obj([Field(key, value)])
  }

  lemma HangsInProperty(root: Json, value: Json, s: Json, i: nat, t: Json)
    requires PropertyEdge(s, i, t) && Hangs(root, value, t)
    ensures Hangs(root, Wrap(NodeOf(s).properties[i].key, value), s)
  {
    hide Report, NodeOf, PropertyRun, Take, ShallowIssues;
    var node := NodeOf(s);
    var whole := Wrap(node.properties[i].key, value);
    forall depth: nat, path, limit ensures !ReturnsAt(root, depth, whole, s, path, limit) {
      NoDepth(root, whole, s, path, limit);
      if depth > 0 {
        RunOfKeywords(root, depth - 1, whole, s, path, limit);
        PropertiesDistinct(s);
        WrapHangs(root, depth - 1, value, node.properties, i, 0, path, limit,
              Take(ShallowIssues(whole, node, path), limit));
      }
    }
  }

  lemma PropertiesDistinct(s: Json)
    requires NodeOf(s).Keywords?
    ensures DistinctKeys(NodeOf(s).properties)
  {
  }

  ghost predicate DistinctKeys(properties: seq<Field>) {
    forall i, j :: 0 <= i < j < |properties| ==> properties[i].key != properties[j].key
  }

  /** The property loop calls nothing before the one property it finds. */
  lemma {:induction false} WrapHangs(
    root: Json, depth: nat, value: Json, properties: seq<Field>, i: nat, j: nat, path: Path, limit: Limit,
    issues: seq<Issue>)
    requires j <= i < |properties| && Hangs(root, value, properties[i].value) && DistinctKeys(properties)
    ensures PropertyRun(root, depth, [Field(properties[i].key, value)], properties, j, path, limit, issues).None?
    decreases i - j
  {
    hide Report;
    var fields := [Field(properties[i].key, value)];
    if j < i {
      assert Lookup(fields, properties[j].key).None?;
      WrapHangs(root, depth, value, properties, i, j + 1, path, limit, issues);
    } else {
      assert Lookup(fields, properties[i].key) == Some(value);
      assert !ReturnsAt(root, depth, value, properties[i].value, path + [Key(properties[i].key)], Room(issues, limit));
    }
  }

  lemma HangsInItem(root: Json, value: Json, s: Json, t: Json)
    requires ItemEdge(s, t) && Hangs(root, value, t)
    ensures Hangs(root, Arr([value]), s)
  {
    hide Report, NodeOf, Take, ShallowIssues;
    var node, whole := NodeOf(s), Arr([value]);
    forall depth: nat, path, limit ensures !ReturnsAt(root, depth, whole, s, path, limit) {
      NoDepth(root, whole, s, path, limit);
      if depth > 0 {
        RunOfKeywords(root, depth - 1, whole, s, path, limit);
        var shallow := Take(ShallowIssues(whole, node, path), limit);
        assert !ReturnsAt(root, depth - 1, [value][0], t, path + [Index(0)], Room(shallow, limit));
        assert ItemRun(root, depth - 1, [value], t, 0, path, limit, shallow).None?;
      }
    }
  }

  /** Along any path to a cycle there is a value that leads the checker into it. */
  lemma {:induction false} SomeValueHangs(root: Json, p: seq<Json>) returns (value: Json)
    requires IsPath(root, p) && Unfolds(root, p[|p| - 1], p[|p| - 1])
    ensures Hangs(root, value, p[0])
  {
    hide Unguarded, Hangs, Unfolds, Guarded;
    if |p| == 1 {
      value := Null;
      UnfoldingHangs(root, value, p[0]);
    } else {
      assert Edge(root, p[0], p[1]);
      var inner := SomeValueHangs(root, p[1..]);
      value := HangsAcross(root, inner, p[0], p[1]);
    }
  }

  lemma UnfoldingHangs(root: Json, value: Json, t: Json)
    requires Unfolds(root, t, t)
    ensures Hangs(root, value, t)
  {
    hide Unguarded, Hangs;
    var c :| IsUnguardedPath(root, c) && c[0] == t && c[|c| - 1] == t;
    CycleHangs(root, value, c);
  }

  lemma HangsAcross(root: Json, inner: Json, s: Json, t: Json) returns (value: Json)
    requires Edge(root, s, t) && Hangs(root, inner, t)
    ensures Hangs(root, value, s)
  {
    hide Unguarded, Hangs, PropertyEdge, ItemEdge, Wrap;
    if Unguarded(root, s, t) {
      value := inner;
      HangsBefore(root, inner, s, t);
    } else if ItemEdge(s, t) {
      value := Arr([inner]);
      HangsInItem(root, inner, s, t);
    } else {
      var i: nat :| PropertyEdge(s, i, t);
      EdgeIsKeyword(s, i, t);
      value := Wrap(NodeOf(s).properties[i].key, inner);
      HangsInProperty(root, inner, s, i, t);
    }
  }

  lemma EdgeIsKeyword(s: Json, i: nat, t: Json)
    requires PropertyEdge(s, i, t)
    ensures NodeOf(s).Keywords? && i < |NodeOf(s).properties|
  {
  }

  /**
   The checker returns on every value, given enough stack, if and only if no node it can reach unfolds
   to itself; this holds for every limit, and for the unlimited run.
   */
  lemma ReturnsIffNoCycle(root: Json, schema: Json, limit: Limit)
    ensures (forall value, path :: Returns(root, value, schema, path, limit)) <==> NoUnguardedCycle(root, schema)
  {
    hide Report, Returns, Reaches, Unfolds, Ranked;
    if NoUnguardedCycle(root, schema) {
      RankFromAcyclicity(root, schema);
      var rank: map<Json, nat> :| Ranked(root, rank, schema);
      forall value, path ensures Returns(root, value, schema, path, limit) {
        RankedReturns(root, rank, value, schema);
      }
    } else {
      var t :| Reaches(root, schema, t) && Unfolds(root, t, t);
      var value := CycleIsReached(root, schema, t);
      HangingNeverReturns(root, value, schema, [], limit);
    }
  }

  lemma CycleIsReached(root: Json, schema: Json, t: Json) returns (value: Json)
    requires Reaches(root, schema, t) && Unfolds(root, t, t)
    ensures Hangs(root, value, schema)
  {
    hide Hangs, Unfolds, Edge;
    var p :| IsPath(root, p) && p[0] == schema && p[|p| - 1] == t;
    value := SomeValueHangs(root, p);
  }

  lemma HangingNeverReturns(root: Json, value: Json, schema: Json, path: Path, limit: Limit)
    requires Hangs(root, value, schema)
    ensures !Returns(root, value, schema, path, limit)
  {
    hide ReturnsAt;
  }

  /** A node from which the checker goes nowhere returns on every value, whatever its unread keywords hold. */
  lemma DeadEndReturns(root: Json, schema: Json, value: Json, path: Path, limit: Limit)
    requires forall t :: !Edge(root, schema, t)
    ensures Returns(root, value, schema, path, limit)
  {
    hide Edge, Returns;
    forall t | Reaches(root, schema, t) ensures !Unfolds(root, t, t) {
      var p :| IsPath(root, p) && p[0] == schema && p[|p| - 1] == t;
      assert |p| > 1 ==> Edge(root, p[0], p[1]);
      NowhereToUnfold(root, schema);
    }
    ReturnsIffNoCycle(root, schema, limit);
  }

  lemma NowhereToUnfold(root: Json, s: Json)
    requires forall t :: !Edge(root, s, t)
    ensures !Unfolds(root, s, s)
  {
    hide Unguarded, Guarded;
    forall p | IsUnguardedPath(root, p) ensures p[0] != s {
      assert Unguarded(root, p[0], p[1]);
      assert Edge(root, p[0], p[1]);
    }
  }

  /** An array-typed node never enters its properties, so a cycle there does no harm. */
  lemma ArrayIgnoresProperties(properties: seq<Field>, value: Json, path: Path, limit: Limit)
    ensures var root := Obj([Field("type", Str("array")), Field("properties", Obj(properties))]);
      Returns(root, value, root, path, limit)
  {
    hide Returns;
    var root := Obj([Field("type", Str("array")), Field("properties", Obj(properties))]);
    ArrayNode(root, properties);
    forall t ensures !Edge(root, root, t) {
    }
    DeadEndReturns(root, root, value, path, limit);
  }

  lemma ArrayNode(root: Json, properties: seq<Field>)
    requires root == Obj([Field("type", Str("array")), Field("properties", Obj(properties))])
    ensures NodeOf(root).Keywords? && NodeOf(root).expected == Some("array") && NodeOf(root).items.None?
  {
    assert Get(root, "type") == Some(Str("array"));
    assert Get(root, "$ref").None? && Get(root, "oneOf").None? && Get(root, "items").None?;
  }
}
