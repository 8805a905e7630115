/**
 The issue-limited structural schema checker (`_advisory_schema_issues`).

 A schema is itself a JSON value.  The checker follows `$ref` and `oneOf` without consuming any of
 the checked value and consumes one layer of it when it enters a property or an item.  A cyclic
 schema can therefore exhaust the interpreter's stack, so a run is given the stack depth it may use
 and has no result when it needs more.
 */
module SchemaChecker {
  import opened Text
  import opened JsonValues
  import opened SchemaMeaning

  // ---------------------------------------------------------------- reading a schema node

  /** What the checker reads of one schema node; `$ref` and `oneOf` hide every sibling keyword. */
  datatype Node =
    | Reference(pointer: string)
    | Alternatives(options: seq<Json>)
    | Keywords(
        expected: Option<string>,
        constant: Option<Json>,
        enum: Option<seq<Json>>,
        required: seq<string>,
        closed: bool,
        properties: seq<Field>,
        minItems: Option<int>,
        maxItems: Option<int>,
        items: Option<Json>,
        minLength: Option<int>,
        maxLength: Option<int>)

  /** Non-objects carry no keyword, so they read as an empty `Keywords` and constrain nothing. */
  function NodeOf(schema: Json): Node {
    match (Get(schema, "$ref"), Get(schema, "oneOf"))
    case (Some(Str(r)), _) =>
      if StartsWith(r, "#/") then Reference(r[2..]) else AfterReference(schema)
    case _ => AfterReference(schema)
  }

  function AfterReference(schema: Json): Node {
    match Get(schema, "oneOf")
    case Some(Arr(options)) => Alternatives(options)
    case _ => KeywordsOf(schema)
  }

  function KeywordsOf(schema: Json): (node: Node)
    ensures node.Keywords?
  {
    var properties := Get(schema, "properties");
    var declared := properties.Some? && properties.value.Obj?;
    Keywords(
      CheckedType(Get(schema, "type")),
      Get(schema, "const"),
      ArrayOf(Get(schema, "enum")),
      if ArrayOf(Get(schema, "required")).Some? then StringsIn(ArrayOf(Get(schema, "required")).value) else [],
      declared && Get(schema, "additionalProperties") == Some(Bool(false)),
      if declared then Entries(properties.value.fields) else [],
      BoundOf(Get(schema, "minItems")),
      BoundOf(Get(schema, "maxItems")),
      if Get(schema, "items") == Some(Null) then None else Get(schema, "items"),
      BoundOf(Get(schema, "minLength")),
      BoundOf(Get(schema, "maxLength")))
  }

  /** Only these five names are checked: union types, "number" and "null" are not. */
  function CheckedType(keyword: Option<Json>): Option<string> {
    match keyword
    case Some(Str(name)) =>
      if name in {"object", "array", "string", "boolean", "integer"} then Some(name) else None
    case _ => None
  }

  function ArrayOf(keyword: Option<Json>): Option<seq<Json>> {
    match keyword
    case Some(Arr(items)) => Some(items)
    case _ => None
  }

  function StringsIn(items: seq<Json>): seq<string> {
    if |items| == 0 then []
    else (if items[0].Str? then [items[0].s] else []) + StringsIn(items[1..])
  }

  /** `isinstance(bound, int)` lets a boolean through, as 0 or 1. */
  function BoundOf(keyword: Option<Json>): Option<int> {
    match keyword
    case Some(bound) => IntLike(bound)
    case None => None
  }

  // ---------------------------------------------------------------- references

  /** `str.replace("~" + mark, with)`: left to right, without overlap. */
  function ReplaceEscape(s: string, mark: char, with: char): string {
    if |s| < 2 then s
    else if s[0] == '~' && s[1] == mark then [with] + ReplaceEscape(s[2..], mark, with)
    else [s[0]] + ReplaceEscape(s[1..], mark, with)
  }

  function DecodePart(raw: string): string {
    ReplaceEscape(ReplaceEscape(raw, '1', '/'), '0', '~')
  }

  /** Follow decoded pointer parts through mappings only; arrays are not traversed. */
  function Walk(node: Json, parts: seq<string>): Option<Json>
    decreases |parts|
  {
    if |parts| == 0 then Some(node)
    else match Get(node, DecodePart(parts[0]))
      case None => None
      case Some(child) => Walk(child, parts[1..])
  }

  function Target(root: Json, pointer: string): Option<Json> {
    Walk(root, Split(pointer, '/'))
  }

  // ---------------------------------------------------------------- keywords that look at one layer

  predicate TypeOk(value: Json, expected: Option<string>) {
    match expected
    case Some("object") => value.Obj?
    case Some("array") => value.Arr?
    case Some("string") => value.Str?
    case Some("boolean") => value.Bool?
    case Some("integer") => value.Int?
    case _ => true
  }

  predicate ConstOk(value: Json, constant: Option<Json>) {
    constant.Some? ==> PyEq(value, constant.value)
  }

  predicate EnumOk(value: Json, enum: Option<seq<Json>>) {
    enum.Some? ==> exists i :: 0 <= i < |enum.value| && PyEq(value, enum.value[i])
  }

  predicate AtLeast(size: nat, bound: Option<int>) { bound.Some? ==> bound.value <= size }
  predicate AtMost(size: nat, bound: Option<int>) { bound.Some? ==> size <= bound.value }

  // ---------------------------------------------------------------- the issues of one layer

  function When(bad: bool, path: Path, code: Code): (issues: seq<Issue>)
    ensures |issues| <= 1
  {
    if bad then [Issue(path, code)] else []
  }

  function RequiredIssues(value: Json, names: seq<string>, n: nat, path: Path): seq<Issue>
    requires n <= |names|
  {
    if n == 0 then []
    else RequiredIssues(value, names, n - 1, path)
         + When(!Has(value, names[n - 1]), path + [Key(names[n - 1])], MissingRequired)
  }

  function UnknownIssues(fields: seq<Field>, properties: seq<Field>, n: nat, path: Path): seq<Issue>
    requires n <= |fields|
  {
    if n == 0 then []
    else UnknownIssues(fields, properties, n - 1, path)
         + When(Lookup(properties, fields[n - 1].key).None?, path + [Key(fields[n - 1].key)], UnknownField)
  }

  /** Issues of every keyword that does not recurse, in the order the checker reports them. */
  function ShallowIssues(value: Json, node: Node, path: Path): seq<Issue>
    requires node.Keywords?
  {
    When(!ConstOk(value, node.constant), path, NotConst)
    + When(!EnumOk(value, node.enum), path, NotInEnum)
    + LayerIssues(value, node, path)
  }

  function LayerIssues(value: Json, node: Node, path: Path): seq<Issue>
    requires node.Keywords?
  {
    match value
    case Obj(fields) =>
      RequiredIssues(value, node.required, |node.required|, path)
      + (if node.closed then UnknownIssues(fields, node.properties, |fields|, path) else [])
    case Arr(items) =>
      When(!AtLeast(|items|, node.minItems), path, TooFewItems)
      + When(!AtMost(|items|, node.maxItems), path, TooManyItems)
    case Str(s) =>
      When(!AtLeast(|s|, node.minLength), path, TooShort)
      + When(!AtMost(|s|, node.maxLength), path, TooLong)
    case _ => []
  }

  // ---------------------------------------------------------------- limits

  /** A cap on the number of issues; None is the unlimited run. */
  type Limit = Option<nat>

  function Take(s: seq<Issue>, limit: Limit): seq<Issue> {
    if limit.Some? && |s| > limit.value then s[..limit.value] else s
  }

  predicate Full(issues: seq<Issue>, limit: Limit) {
    limit.Some? && |issues| >= limit.value
  }

  /** `max(0, limit - len(issues))`. */
  function Room(issues: seq<Issue>, limit: Limit): Limit {
    if limit.None? then None
    else if |issues| >= limit.value then Some(0)
    else Some(limit.value - |issues|)
  }

  /** `add`: append only while the report is below its limit. */
  function Add(issues: seq<Issue>, limit: Limit, more: seq<Issue>): seq<Issue>
    requires |more| <= 1
  {
    if Full(issues, limit) then issues else issues + more
  }

  lemma TakeAdd(all: seq<Issue>, limit: Limit, more: seq<Issue>)
    requires |more| <= 1
    ensures Add(Take(all, limit), limit, more) == Take(all + more, limit)
  {
  }

  // ---------------------------------------------------------------- the run

  /** The checker's run with `depth` stack frames left; None where it exhausts them. */
  function Report(root: Json, depth: nat, value: Json, schema: Json, path: Path, limit: Limit): Option<seq<Issue>>
    decreases depth, 1, 0
  {
    if depth == 0 then None
    else match NodeOf(schema)
      case Reference(pointer) =>
        var target := Target(root, pointer);
        if target.None? then Some(Take([Issue(path, UnresolvedRef)], limit))
        else Report(root, depth - 1, value, target.value, path, limit)
      case Alternatives(options) =>
        var matches := Matches(root, depth - 1, value, options, |options|, path);
        if matches.None? then None
        else Some(Take(When(matches.value != 1, path, OneOfMismatch), limit))
      case node => KeywordRun(root, depth - 1, value, node, path, limit)
  }

  /** A node without `$ref` and `oneOf`: its type, its own layer, then the children. */
  function KeywordRun(root: Json, depth: nat, value: Json, node: Node, path: Path, limit: Limit): Option<seq<Issue>>
    requires node.Keywords?
    decreases depth, 4, 0
  {
    if !TypeOk(value, node.expected) then Some(Take([Issue(path, WrongType(node.expected.value))], limit))
    else
      var shallow := Take(ShallowIssues(value, node, path), limit);
      Cut(ChildRun(root, depth, value, node, path, limit, shallow), limit)
  }

  /** `issues[:limit]` of a run that returned. */
  function Cut(run: Option<seq<Issue>>, limit: Limit): Option<seq<Issue>> {
    if run.None? then None else Some(Take(run.value, limit))
  }

  /** Properties of an object or items of an array, after the issues of the layer itself. */
  function ChildRun(root: Json, depth: nat, value: Json, node: Node, path: Path, limit: Limit, issues: seq<Issue>)
    : Option<seq<Issue>>
    requires node.Keywords?
    decreases depth, 3, 0
  {
    if value.Obj? then PropertyRun(root, depth, value.fields, node.properties, 0, path, limit, issues)
    else if value.Arr? && node.items.Some? then
      ItemRun(root, depth, value.items, node.items.value, 0, path, limit, issues)
    else Some(issues)
  }

  /** How many of the first `n` alternatives report nothing under an inner limit of one issue. */
  function Matches(root: Json, depth: nat, value: Json, options: seq<Json>, n: nat, path: Path): Option<nat>
    requires n <= |options|
    decreases depth, 2, n
  {
    if n == 0 then Some(0)
    else
      var before := Matches(root, depth, value, options, n - 1, path);
      var report := Report(root, depth, value, options[n - 1], path, Some(1));
      if before.None? || report.None? then None
      else Some(before.value + if report.value == [] then 1 else 0)
  }

  /** The property loop from index `i` on: each child gets the remaining room, and a full report ends it. */
  function PropertyRun(
    root: Json, depth: nat, fields: seq<Field>, properties: seq<Field>, i: nat,
    path: Path, limit: Limit, issues: seq<Issue>): Option<seq<Issue>>
    requires i <= |properties|
    decreases depth, 2, |properties| - i
  {
    if i == |properties| then Some(issues)
    else match Lookup(fields, properties[i].key)
      case None => PropertyRun(root, depth, fields, properties, i + 1, path, limit, issues)
      case Some(child) =>
        var at := path + [Key(properties[i].key)];
        var more := Report(root, depth, child, properties[i].value, at, Room(issues, limit));
        if more.None? then None
        else if Full(issues + more.value, limit) then Some(issues + more.value)
        else PropertyRun(root, depth, fields, properties, i + 1, path, limit, issues + more.value)
  }

  /** The item loop from index `i` on. */
  function ItemRun(
    root: Json, depth: nat, items: seq<Json>, schema: Json, i: nat, path: Path, limit: Limit, issues: seq<Issue>)
    : Option<seq<Issue>>
    requires i <= |items|
    decreases depth, 2, |items| - i
  {
    if i == |items| then Some(issues)
    else
      var more := Report(root, depth, items[i], schema, path + [Index(i)], Room(issues, limit));
      if more.None? then None
      else if Full(issues + more.value, limit) then Some(issues + more.value)
      else ItemRun(root, depth, items, schema, i + 1, path, limit, issues + more.value)
  }

  lemma NoDepth(root: Json, value: Json, schema: Json, path: Path, limit: Limit)
    ensures Report(root, 0, value, schema, path, limit).None?
  {
  }

  lemma RunOfReference(root: Json, depth: nat, value: Json, schema: Json, path: Path, limit: Limit)
    requires NodeOf(schema).Reference?
    ensures var target := Target(root, NodeOf(schema).pointer);
      Report(root, depth + 1, value, schema, path, limit) ==
      if target.None? then Some(Take([Issue(path, UnresolvedRef)], limit))
      else Report(root, depth, value, target.value, path, limit)
  {
    hide NodeOf, Target, Take, KeywordRun, Matches;
  }

  lemma RunOfAlternatives(root: Json, depth: nat, value: Json, schema: Json, path: Path, limit: Limit)
    requires NodeOf(schema).Alternatives?
    ensures var options := NodeOf(schema).options;
      var matches := Matches(root, depth, value, options, |options|, path);
      Report(root, depth + 1, value, schema, path, limit) ==
      if matches.None? then None else Some(Take(When(matches.value != 1, path, OneOfMismatch), limit))
  {
    hide NodeOf, Target, Take, KeywordRun, Matches, When;
  }

  lemma MatchesStep(root: Json, depth: nat, value: Json, options: seq<Json>, n: nat, path: Path)
    requires n < |options|
    ensures var before := Matches(root, depth, value, options, n, path);
      var report := Report(root, depth, value, options[n], path, Some(1));
      Matches(root, depth, value, options, n + 1, path) ==
      if before.None? || report.None? then None else Some(before.value + if report.value == [] then 1 else 0)
  {
    hide Report;
  }

  lemma RunOfKeywords(root: Json, depth: nat, value: Json, schema: Json, path: Path, limit: Limit)
    requires NodeOf(schema).Keywords?
    ensures Report(root, depth + 1, value, schema, path, limit)
         == KeywordRun(root, depth, value, NodeOf(schema), path, limit)
  {
    hide NodeOf, Target, Take, KeywordRun, Matches;
  }

  // ---------------------------------------------------------------- the checker as it runs

  method ResolveReference(root: Json, pointer: string) returns (resolved: Option<Json>)
    ensures resolved == Target(root, pointer)
  {
    var parts := Split(pointer, '/');
    var node := root;
    for k := 0 to |parts|
      invariant Walk(root, parts) == Walk(node, parts[k..])
    {
      var part := DecodePart(parts[k]);
      if Get(node, part).None? {
        return None;
      }
      node := Get(node, part).value;
      assert parts[k..][1..] == parts[k + 1..];
    }
    return Some(node);
  }

  /** The recursive checker and its loops: the run itself, for every value, schema node and limit. */
  method CheckNode(root: Json, depth: nat, value: Json, schema: Json, path: Path, limit: nat)
    returns (r: Option<seq<Issue>>)
    ensures r == Report(root, depth, value, schema, path, Some(limit))
    decreases depth, 1
  {
    hide NodeOf, KeywordRun, Matches, Take, Add, When, Target, Report;
    if depth == 0 {
      NoDepth(root, value, schema, path, Some(limit));
      return None;
    }
    var node := NodeOf(schema);
    if node.Reference? {
      RunOfReference(root, depth - 1, value, schema, path, Some(limit));
      var resolved := ResolveReference(root, node.pointer);
      if resolved.None? {
        r := Some(Take([Issue(path, UnresolvedRef)], Some(limit)));
      } else {
        r := CheckNode(root, depth - 1, value, resolved.value, path, limit);
      }
    } else if node.Alternatives? {
      RunOfAlternatives(root, depth - 1, value, schema, path, Some(limit));
      var matches := CountMatches(root, depth - 1, value, node.options, path);
      if matches.None? {
        r := None;
      } else {
        r := Some(Take(When(matches.value != 1, path, OneOfMismatch), Some(limit)));
      }
    } else {
      RunOfKeywords(root, depth - 1, value, schema, path, Some(limit));
      r := CheckKeywords(root, depth - 1, value, node, path, limit);
    }
  }

  method CheckKeywords(root: Json, depth: nat, value: Json, node: Node, path: Path, limit: nat)
    returns (r: Option<seq<Issue>>)
    requires node.Keywords?
    ensures r == KeywordRun(root, depth, value, node, path, Some(limit))
    decreases depth, 3
  {
    hide ShallowIssues, PropertyRun, ItemRun, Take, Add;
    if !TypeOk(value, node.expected) {
      AddFirst(limit, [Issue(path, WrongType(node.expected.value))]);
      return Some(Add([], Some(limit), [Issue(path, WrongType(node.expected.value))]));
    }
    var issues := AddShallow(value, node, path, limit);
    if value.Obj? {
      r := ExtendWithProperties(root, depth, value.fields, node.properties, path, limit, issues);
    } else if value.Arr? && node.items.Some? {
      r := ExtendWithItems(root, depth, value.items, node.items.value, path, limit, issues);
    } else {
      r := Some(issues);
    }
    r := Cut(r, Some(limit));
  }

  lemma AddFirst(limit: nat, more: seq<Issue>)
    requires |more| <= 1
    ensures Add([], Some(limit), more) == Take(more, Some(limit))
  {
    assert [] + more == more;
  }

  /** Every alternative is tried with an inner limit of one issue. */
  method CountMatches(root: Json, depth: nat, value: Json, options: seq<Json>, path: Path)
    returns (matches: Option<nat>)
    ensures matches == Matches(root, depth, value, options, |options|, path)
    decreases depth, 2
  {
    hide Report, Matches;
    var count := 0;
    NoMatches(root, depth, value, options, path);
    for k := 0 to |options|
      invariant Matches(root, depth, value, options, k, path) == Some(count)
    {
      MatchesStep(root, depth, value, options, k, path);
      var report := CheckNode(root, depth, value, options[k], path, 1);
      if report.None? {
        MatchesStops(root, depth, value, options, k + 1, path);
        return None;
      }
      if report.value == [] {
        count := count + 1;
      }
    }
    matches := Some(count);
  }

  lemma NoMatches(root: Json, depth: nat, value: Json, options: seq<Json>, path: Path)
    ensures Matches(root, depth, value, options, 0, path) == Some(0)
  {
  }

  lemma {:induction false} MatchesStops(root: Json, depth: nat, value: Json, options: seq<Json>, k: nat, path: Path)
    requires k <= |options| && Matches(root, depth, value, options, k, path).None?
    ensures Matches(root, depth, value, options, |options|, path).None?
    decreases |options| - k
  {
    hide Report, Matches;
    if k < |options| {
      MatchesStep(root, depth, value, options, k, path);
      MatchesStops(root, depth, value, options, k + 1, path);
    }
  }

  method AddShallow(value: Json, node: Node, path: Path, limit: nat) returns (issues: seq<Issue>)
    requires node.Keywords?
    ensures issues == Take(ShallowIssues(value, node, path), Some(limit))
  {
    var more := When(!ConstOk(value, node.constant), path, NotConst);
    TakeAdd([], Some(limit), more);
    issues := Add([], Some(limit), more);
    ghost var all := [] + more;
    more := When(!EnumOk(value, node.enum), path, NotInEnum);
    TakeAdd(all, Some(limit), more);
    issues, all := Add(issues, Some(limit), more), all + more;
    issues := AddLayer(value, node, path, limit, issues, all);
    assert all + LayerIssues(value, node, path) == ShallowIssues(value, node, path);
  }

  method AddLayer(value: Json, node: Node, path: Path, limit: nat, before: seq<Issue>, ghost head: seq<Issue>)
    returns (issues: seq<Issue>)
    requires node.Keywords? && before == Take(head, Some(limit))
    ensures issues == Take(head + LayerIssues(value, node, path), Some(limit))
  {
    issues := before;
    match value {
      case Obj(fields) =>
        issues := AddRequired(value, node.required, path, limit, before, head);
        ghost var middle := head + RequiredIssues(value, node.required, |node.required|, path);
        if node.closed {
          issues := AddUnknown(fields, node.properties, path, limit, issues, middle);
          assert middle + UnknownIssues(fields, node.properties, |fields|, path)
            == head + LayerIssues(value, node, path);
        } else {
          assert middle == head + LayerIssues(value, node, path);
        }
      case Arr(items) =>
        issues := AddTwo(limit, before, head,
                         When(!AtLeast(|items|, node.minItems), path, TooFewItems),
                         When(!AtMost(|items|, node.maxItems), path, TooManyItems));
      case Str(s) =>
        issues := AddTwo(limit, before, head,
                         When(!AtLeast(|s|, node.minLength), path, TooShort),
                         When(!AtMost(|s|, node.maxLength), path, TooLong));
      case _ =>
        assert head + [] == head;
    }
  }

  method AddTwo(limit: nat, before: seq<Issue>, ghost head: seq<Issue>, first: seq<Issue>, second: seq<Issue>)
    returns (issues: seq<Issue>)
    requires |first| <= 1 && |second| <= 1 && before == Take(head, Some(limit))
    ensures issues == Take(head + (first + second), Some(limit))
  {
    TakeAdd(head, Some(limit), first);
    issues := Add(before, Some(limit), first);
    TakeAdd(head + first, Some(limit), second);
    issues := Add(issues, Some(limit), second);
    assert head + first + second == head + (first + second);
  }

  method AddRequired(value: Json, names: seq<string>, path: Path, limit: nat,
                     before: seq<Issue>, ghost head: seq<Issue>)
    returns (issues: seq<Issue>)
    requires before == Take(head, Some(limit))
    ensures issues == Take(head + RequiredIssues(value, names, |names|, path), Some(limit))
  {
    hide Has, Take, Add, When;
    issues := before;
    assert head + [] == head;
    for k := 0 to |names|
      invariant issues == Take(head + RequiredIssues(value, names, k, path), Some(limit))
    {
      var more := When(!Has(value, names[k]), path + [Key(names[k])], MissingRequired);
      ghost var all := head + RequiredIssues(value, names, k, path);
      TakeAdd(all, Some(limit), more);
      issues := Add(issues, Some(limit), more);
      assert all + more == head + RequiredIssues(value, names, k + 1, path);
    }
  }

  method AddUnknown(fields: seq<Field>, properties: seq<Field>, path: Path, limit: nat,
                    before: seq<Issue>, ghost head: seq<Issue>)
    returns (issues: seq<Issue>)
    requires before == Take(head, Some(limit))
    ensures issues == Take(head + UnknownIssues(fields, properties, |fields|, path), Some(limit))
  {
    hide Lookup, Take, Add, When;
    issues := before;
    assert head + [] == head;
    for k := 0 to |fields|
      invariant issues == Take(head + UnknownIssues(fields, properties, k, path), Some(limit))
    {
      var more := When(Lookup(properties, fields[k].key).None?, path + [Key(fields[k].key)], UnknownField);
      ghost var all := head + UnknownIssues(fields, properties, k, path);
      TakeAdd(all, Some(limit), more);
      issues := Add(issues, Some(limit), more);
      assert all + more == head + UnknownIssues(fields, properties, k + 1, path);
    }
  }

  /** The property loop: each child gets the remaining room, and the loop stops at the limit. */
  method ExtendWithProperties(root: Json, depth: nat, fields: seq<Field>, properties: seq<Field>, path: Path,
                              limit: nat, before: seq<Issue>)
    returns (r: Option<seq<Issue>>)
    ensures r == PropertyRun(root, depth, fields, properties, 0, path, Some(limit), before)
    decreases depth, 2
  {
    hide Lookup, Report;
    var issues := before;
    for k := 0 to |properties|
      invariant PropertyRun(root, depth, fields, properties, 0, path, Some(limit), before)
             == PropertyRun(root, depth, fields, properties, k, path, Some(limit), issues)
    {
      var child := Lookup(fields, properties[k].key);
      if child.Some? {
        var room := if |issues| >= limit then 0 else limit - |issues|;
        var more := CheckNode(root, depth, child.value, properties[k].value, path + [Key(properties[k].key)], room);
        if more.None? {
          return None;
        }
        issues := issues + more.value;
        if |issues| >= limit {
          return Some(issues);
        }
      }
    }
    r := Some(issues);
  }

  method ExtendWithItems(root: Json, depth: nat, items: seq<Json>, schema: Json, path: Path, limit: nat,
                         before: seq<Issue>)
    returns (r: Option<seq<Issue>>)
    ensures r == ItemRun(root, depth, items, schema, 0, path, Some(limit), before)
    decreases depth, 2
  {
    hide Report;
    var issues := before;
    for k := 0 to |items|
      invariant ItemRun(root, depth, items, schema, 0, path, Some(limit), before)
             == ItemRun(root, depth, items, schema, k, path, Some(limit), issues)
    {
      var room := if |issues| >= limit then 0 else limit - |issues|;
      var more := CheckNode(root, depth, items[k], schema, path + [Index(k)], room);
      if more.None? {
        return None;
      }
      issues := issues + more.value;
      if |issues| >= limit {
        return Some(issues);
      }
    }
    r := Some(issues);
  }
}
