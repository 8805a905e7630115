/**
 The strict schema profile (`strict.py`) and what its acceptance guarantees to the checker: every
 reference the checker can reach resolves.
 */
module StrictProfile {
  import opened Text
  import opened JsonValues
  import opened SchemaMeaning
  import opened SchemaChecker
  import opened SchemaTermination

  /** Host library answers: `not s.strip()`, and whether `re.compile` accepts a pattern. */
  datatype Host = Host(blank: string -> bool, compiles: string -> bool)

  const PROFILE_KEYWORDS: set<string> :=
    {"type", "properties", "required", "additionalProperties", "items", "minItems", "maxItems", "enum",
     "description", "minLength", "maxLength", "pattern", "$defs", "$ref", "oneOf"}

  const KNOWN_TYPES: set<string> := {"object", "array", "string", "integer", "number", "boolean", "null"}

  const DEFS_PREFIX := "#/$defs/"

  /** `_types`: a name, or the strings of an array. */
  function TypesOf(node: Json): seq<string> {
    match Get(node, "type")
    case Some(Str(name)) => [name]
    case Some(Arr(items)) => StringsIn(items)
    case _ => []
  }

  /** `node.get(key)` with JSON null reading as absent. */
  function NonNull(node: Json, key: string): Option<Json> {
    match Get(node, key)
    case Some(Null) => None
    case other => other
  }

  predicate BoundAccepted(node: Json, key: string) {
    var bound := NonNull(node, key);
    bound.Some? ==> bound.value.Int? && bound.value.n >= 0
  }

  predicate BoundsAccepted(node: Json, low: string, high: string) {
    && BoundAccepted(node, low)
    && BoundAccepted(node, high)
    && (NonNull(node, low).Some? && NonNull(node, high).Some? ==>
        NonNull(node, low).value.n <= NonNull(node, high).value.n)
  }

  predicate ReferenceAccepted(definitions: seq<Field>, node: Json, reference: Json)
    requires node.Obj?
  {
    && reference.Str?
    && StartsWith(reference.s, DEFS_PREFIX)
    && var name := reference.s[|DEFS_PREFIX|..];
    && name != ""
    && '/' !in name
    && Lookup(definitions, name).Some?
    && forall i :: 0 <= i < |node.fields| ==> node.fields[i].key == "$ref"
  }

  /** The checks on one node that do not recurse, for a node without `$ref`. */
  predicate LocallyAccepted(host: Host, node: Json)
    requires node.Obj?
  {
    var types := TypesOf(node);
    && (types != [] || Has(node, "enum") || NonNull(node, "oneOf").Some?)
    && (forall i :: 0 <= i < |types| ==> types[i] in KNOWN_TYPES)
    && ("object" in types ==> ObjectAccepted(host, node))
    && ("array" in types ==> Has(node, "items"))
    && (Has(node, "items") ==> BoundsAccepted(node, "minItems", "maxItems"))
    && (Has(node, "enum") ==> Get(node, "enum").value.Arr? && Get(node, "enum").value.items != [])
    && (Has(node, "pattern") ==>
        && "string" in types
        && Get(node, "pattern").value.Str?
        && Get(node, "pattern").value.s != ""
        && host.compiles(Get(node, "pattern").value.s))
    && BoundsAccepted(node, "minLength", "maxLength")
  }

  predicate ObjectAccepted(host: Host, node: Json)
    requires node.Obj?
  {
    && Get(node, "additionalProperties") == Some(Bool(false))
    && var properties := DeclaredProperties(node);
    && properties.Some?
    && (forall i :: 0 <= i < |properties.value| ==> !host.blank(properties.value[i].key))
    && var required := RequiredOf(node);
    && required.Arr?
    && forall i :: 0 <= i < |required.items| ==>
        required.items[i].Str? && Lookup(properties.value, required.items[i].s).Some?
  }

  /** `node.get("required", [])`. */
  function RequiredOf(node: Json): Json {
    if Has(node, "required") then Get(node, "required").value else Arr([])
  }

  /** `node.get("properties", {})` when it is an object. */
  function DeclaredProperties(node: Json): Option<seq<Field>> {
    match Get(node, "properties")
    case None => Some([])
    case Some(Obj(properties)) => Some(properties)
    case _ => None
  }

  /** `visit`: whether the profile accepts a node under the root's definitions. */
  predicate Visit(host: Host, definitions: seq<Field>, node: Json, isRoot: bool)
    decreases node
  {
    && node.Obj?
    && (forall i :: 0 <= i < |node.fields| ==> node.fields[i].key in PROFILE_KEYWORDS)
    && (Has(node, "$defs") ==> isRoot)
    && var reference := NonNull(node, "$ref");
    if reference.Some? then ReferenceAccepted(definitions, node, reference.value)
    else
      && LocallyAccepted(host, node)
      && (isRoot ==> "object" in TypesOf(node))
      && (NonNull(node, "oneOf").Some? ==>
          && Get(node, "oneOf").value.Arr?
          && var options := Get(node, "oneOf").value.items;
          && options != []
          && forall i :: 0 <= i < |options| ==> Visit(host, definitions, options[i], false))
      && ("object" in TypesOf(node) && Has(node, "properties") && Get(node, "properties").value.Obj? ==>
          var properties := Get(node, "properties").value.fields;
          forall i :: 0 <= i < |properties| ==> Visit(host, definitions, properties[i].value, false))
      && (Has(node, "items") ==> Visit(host, definitions, Get(node, "items").value, false))
  }

  /** `schema.get("$defs", {})`. */
  function DefinitionsOf(schema: Json): Option<seq<Field>> {
    match Get(schema, "$defs")
    case None => Some([])
    case Some(Obj(definitions)) => Some(definitions)
    case _ => None
  }

  /** `validate_strict_schema_profile`. */
  predicate ProfileAccepts(host: Host, schema: Json) {
    && schema.Obj?
    && var definitions := DefinitionsOf(schema);
    && definitions.Some?
    && Visit(host, definitions.value, schema, true)
    && forall i :: 0 <= i < |definitions.value| ==>
        && definitions.value[i].key != ""
        && '/' !in definitions.value[i].key
        && Visit(host, definitions.value, definitions.value[i].value, false)
  }

  // ---------------------------------------------------------------- pointer decoding, RFC 6901

  /** Section 3 of RFC 6901: '~' is written "~0" and '/' is written "~1". */
  function EncodePart(s: string): string {
    if s == "" then ""
    else (if s[0] == '~' then "~0" else if s[0] == '/' then "~1" else [s[0]]) + EncodePart(s[1..])
  }

  /** `s` with only the '~' escaped: what the first replacement leaves. */
  function EncodeTildes(s: string): string {
    if s == "" then ""
    else (if s[0] == '~' then "~0" else [s[0]]) + EncodeTildes(s[1..])
  }

  lemma ReplaceHead(c: char, s: string, mark: char, with: char)
    requires c != '~'
    ensures ReplaceEscape([c] + s, mark, with) == [c] + ReplaceEscape(s, mark, with)
  {
    if s == "" {
      assert [c] + s == [c];
    } else {
      assert ([c] + s)[1..] == s;
    }
  }

  lemma {:induction false} FirstPassUndoesSlashes(s: string)
    ensures ReplaceEscape(EncodePart(s), '1', '/') == EncodeTildes(s)
  {
    if s != "" {
      var rest := EncodePart(s[1..]);
      FirstPassUndoesSlashes(s[1..]);
      if s[0] == '~' {
        assert EncodePart(s) == ['~'] + (['0'] + rest);
        assert EncodePart(s)[1..] == ['0'] + rest;
        ReplaceHead('0', rest, '1', '/');
      } else if s[0] == '/' {
        assert EncodePart(s)[2..] == rest;
      } else {
        ReplaceHead(s[0], rest, '1', '/');
      }
    }
  }

  lemma {:induction false} SecondPassUndoesTildes(s: string)
    ensures ReplaceEscape(EncodeTildes(s), '0', '~') == s
  {
    if s != "" {
      var rest := EncodeTildes(s[1..]);
      SecondPassUndoesTildes(s[1..]);
      if s[0] == '~' {
        assert EncodeTildes(s)[2..] == rest;
        assert ['~'] + s[1..] == s;
      } else {
        ReplaceHead(s[0], rest, '0', '~');
        assert [s[0]] + s[1..] == s;
      }
    }
  }

  /** Decoding a reference part as the checker does undoes RFC 6901 escaping, for every string. */
  lemma DecodeInvertsEncode(s: string)
    ensures DecodePart(EncodePart(s)) == s
  {
    FirstPassUndoesSlashes(s);
    SecondPassUndoesTildes(s);
  }

  lemma {:induction false} PlainPartUnchanged(s: string, mark: char, with: char)
    requires '~' !in s
    ensures ReplaceEscape(s, mark, with) == s
  {
    if |s| >= 2 {
      PlainPartUnchanged(s[1..], mark, with);
      assert [s[0]] + s[1..] == s;
    }
  }

  lemma NoTildeDecodesToItself(s: string)
    requires '~' !in s
    ensures DecodePart(s) == s
  {
    PlainPartUnchanged(s, '1', '/');
    PlainPartUnchanged(s, '0', '~');
  }

  // ---------------------------------------------------------------- references resolve

  lemma WalkTwo(root: Json, a: string, b: string, definitions: seq<Field>)
    requires Get(root, DecodePart(a)) == Some(Obj(definitions))
    ensures Walk(root, [a, b]) == Lookup(definitions, DecodePart(b))
  {
    hide DecodePart, Lookup;
    assert [a, b][1..] == [b];
    assert Walk(root, [a, b]) == Walk(Obj(definitions), [b]);
    assert [b][1..] == [];
    var found := Lookup(definitions, DecodePart(b));
    assert found.Some? ==> Walk(found.value, []) == found;
  }

  lemma TargetOfDefinition(root: Json, definitions: seq<Field>, name: string)
    requires '/' !in name && Get(root, "$defs") == Some(Obj(definitions))
    ensures Target(root, "$defs/" + name) == Lookup(definitions, DecodePart(name))
  {
    hide Split, DecodePart, Walk;
    var first := "$defs";
    assert '/' !in first && '~' !in first;
    assert "$defs/" + name == first + ['/'] + name;
    SplitStep(first, name, '/');
    SplitWord(name, '/');
    assert Split("$defs/" + name, '/') == [first, name];
    NoTildeDecodesToItself(first);
    WalkTwo(root, first, name, definitions);
  }

  /** An accepted reference resolves to the definition of its decoded name, if and only if there is one. */
  lemma AcceptedReferenceTarget(root: Json, definitions: seq<Field>, node: Json)
    requires node.Obj? && NonNull(node, "$ref").Some?
    requires ReferenceAccepted(definitions, node, NonNull(node, "$ref").value)
    requires Get(root, "$defs") == Some(Obj(definitions))
    ensures NodeOf(node).Reference?
    ensures var name := NonNull(node, "$ref").value.s[|DEFS_PREFIX|..];
            Target(root, NodeOf(node).pointer) == Lookup(definitions, DecodePart(name))
  {
    var reference := NonNull(node, "$ref").value.s;
    var name := reference[|DEFS_PREFIX|..];
    assert reference == DEFS_PREFIX + name;
    assert reference[..2] == "#/";
    assert reference[2..] == "$defs/" + name;
    TargetOfDefinition(root, definitions, name);
  }

  /** Where `properties` is declared and no single type is checked, the types include "object". */
  ghost predicate PropertiesOnObjects(s: Json) {
    NodeOf(s).Keywords? && NodeOf(s).properties != [] && NodeOf(s).expected.None? ==> "object" in TypesOf(s)
  }

  ghost predicate Visited(host: Host, root: Json, t: Json)
    requires DefinitionsOf(root).Some?
  {
    exists isRoot: bool :: Visit(host, DefinitionsOf(root).value, t, isRoot)
  }

  lemma DefinitionVisited(host: Host, root: Json, name: string, t: Json)
    requires ProfileAccepts(host, root) && Lookup(DefinitionsOf(root).value, name) == Some(t)
    ensures Visit(host, DefinitionsOf(root).value, t, false)
  {
    hide Visit;
    var definitions := DefinitionsOf(root).value;
    var i :| 0 <= i < |definitions| && definitions[i] == Field(name, t);
  }

  lemma VisitedReferenceAccepted(host: Host, definitions: seq<Field>, s: Json, isRoot: bool)
    requires Visit(host, definitions, s, isRoot) && NodeOf(s).Reference?
    ensures NonNull(s, "$ref").Some? && ReferenceAccepted(definitions, s, NonNull(s, "$ref").value)
  {
    hide LocallyAccepted, ReferenceAccepted, Lookup;
  }

  lemma DefinitionsPresent(root: Json, name: string)
    requires DefinitionsOf(root).Some? && Lookup(DefinitionsOf(root).value, name).Some?
    ensures Get(root, "$defs") == Some(Obj(DefinitionsOf(root).value))
  {
  }

  lemma VisitedReference(host: Host, root: Json, s: Json, t: Json, isRoot: bool)
    requires ProfileAccepts(host, root) && Visit(host, DefinitionsOf(root).value, s, isRoot)
    requires NodeOf(s).Reference? && Unguarded(root, s, t)
    ensures Visit(host, DefinitionsOf(root).value, t, false)
  {
    hide NodeOf, Target, DecodePart, Visit, Lookup;
    var definitions := DefinitionsOf(root).value;
    VisitedReferenceAccepted(host, definitions, s, isRoot);
    var name := NonNull(s, "$ref").value.s[|DEFS_PREFIX|..];
    DefinitionsPresent(root, name);
    AcceptedReferenceTarget(root, definitions, s);
    DefinitionVisited(host, root, DecodePart(name), t);
  }

  lemma VisitedAlternative(host: Host, definitions: seq<Field>, s: Json, t: Json, isRoot: bool)
    requires Visit(host, definitions, s, isRoot) && NodeOf(s).Alternatives? && t in NodeOf(s).options
    ensures Visit(host, definitions, t, false)
  {
    hide LocallyAccepted;
    assert NonNull(s, "$ref").None?;
  }

  lemma VisitedChild(host: Host, definitions: seq<Field>, s: Json, t: Json, isRoot: bool)
    requires Visit(host, definitions, s, isRoot) && Guarded(s, t) && PropertiesOnObjects(s)
    ensures Visit(host, definitions, t, false)
  {
    hide Visit, ItemEdge, PropertyEdge, PropertiesOnObjects;
    if ItemEdge(s, t) {
      VisitedItem(host, definitions, s, t, isRoot);
    } else {
      var i: nat :| PropertyEdge(s, i, t);
      VisitedProperty(host, definitions, s, i, t, isRoot);
    }
  }

  lemma VisitedItem(host: Host, definitions: seq<Field>, s: Json, t: Json, isRoot: bool)
    requires Visit(host, definitions, s, isRoot) && ItemEdge(s, t)
    ensures Visit(host, definitions, t, false)
  {
    hide LocallyAccepted;
    assert NonNull(s, "$ref").None?;
  }

  lemma VisitedProperty(host: Host, definitions: seq<Field>, s: Json, i: nat, t: Json, isRoot: bool)
    requires Visit(host, definitions, s, isRoot) && PropertyEdge(s, i, t) && PropertiesOnObjects(s)
    ensures Visit(host, definitions, t, false)
  {
    hide LocallyAccepted;
    assert NonNull(s, "$ref").None?;
    assert "object" in TypesOf(s) by { ObjectTyped(s, i, t); }
    var fields := Get(s, "properties").value.fields;
    assert NodeOf(s).properties[i] in Entries(fields);
    var j :| 0 <= j < |fields| && fields[j] == NodeOf(s).properties[i];
  }

  lemma ObjectTyped(s: Json, i: nat, t: Json)
    requires PropertyEdge(s, i, t) && PropertiesOnObjects(s)
    ensures "object" in TypesOf(s)
  {
    hide NodeOf, Get;
    if NodeOf(s).expected.Some? {
      ExpectedIsType(s);
      OnlyObjectAdmits(NodeOf(s).expected.value);
    }
  }

  lemma OnlyObjectAdmits(name: string)
    requires name in {"object", "array", "string", "boolean", "integer"} && TypeOk(Obj([]), Some(name))
    ensures name == "object"
  {
  }

  lemma ExpectedIsType(s: Json)
    requires NodeOf(s).Keywords? && NodeOf(s).expected.Some?
    ensures NodeOf(s).expected.value in {"object", "array", "string", "boolean", "integer"}
    ensures TypesOf(s) == [NodeOf(s).expected.value]
  {
    hide Entries, BoundOf, Lookup;
  }

  lemma {:induction false} VisitedAlongPath(host: Host, root: Json, p: seq<Json>)
    requires ProfileAccepts(host, root) && IsPath(root, p) && p[0] == root
    requires forall t :: Reaches(root, root, t) ==> PropertiesOnObjects(t)
    ensures Visited(host, root, p[|p| - 1])
    ensures Reaches(root, root, p[|p| - 1])
  {
    hide Unguarded, Guarded, Visit, PropertiesOnObjects;
    var definitions := DefinitionsOf(root).value;
    assert Reaches(root, root, p[|p| - 1]);
    if |p| == 1 {
      assert Visit(host, definitions, root, true);
    } else {
      var init := p[..|p| - 1];
      assert forall i :: 0 <= i < |init| ==> init[i] == p[i];
      VisitedAlongPath(host, root, init);
      var s, t := p[|p| - 2], p[|p| - 1];
      assert Edge(root, s, t);
      var isRoot :| Visit(host, definitions, s, isRoot);
      VisitedStep(host, root, s, t, isRoot);
    }
  }

  lemma VisitedStep(host: Host, root: Json, s: Json, t: Json, isRoot: bool)
    requires ProfileAccepts(host, root) && Visit(host, DefinitionsOf(root).value, s, isRoot)
    requires Edge(root, s, t) && PropertiesOnObjects(s)
    ensures Visit(host, DefinitionsOf(root).value, t, false)
  {
    hide NodeOf, Visit, LocallyAccepted, PropertiesOnObjects;
    var definitions := DefinitionsOf(root).value;
    if Guarded(s, t) {
      VisitedChild(host, definitions, s, t, isRoot);
    } else if NodeOf(s).Reference? {
      VisitedReference(host, root, s, t, isRoot);
    } else {
      VisitedAlternative(host, definitions, s, t, isRoot);
    }
  }

  ghost predicate AllResolve(root: Json, schema: Json) {
    forall t :: Reaches(root, schema, t) && NodeOf(t).Reference? ==> Target(root, NodeOf(t).pointer).Some?
  }

  /**
   In an accepted schema that declares properties only on object-typed nodes and whose definition
   names survive decoding (for instance, contain no '~'), every reachable reference resolves.
   */
  lemma AcceptedSchemaResolves(host: Host, root: Json)
    requires ProfileAccepts(host, root)
    requires forall t :: Reaches(root, root, t) ==> PropertiesOnObjects(t)
    requires forall i :: 0 <= i < |DefinitionsOf(root).value| ==>
               DecodePart(DefinitionsOf(root).value[i].key) == DefinitionsOf(root).value[i].key
    ensures AllResolve(root, root)
  {
    hide Visit, NodeOf, PropertiesOnObjects, DecodePart;
    var definitions := DefinitionsOf(root).value;
    forall t | Reaches(root, root, t) && NodeOf(t).Reference?
      ensures Target(root, NodeOf(t).pointer).Some?
    {
      var p :| IsPath(root, p) && p[0] == root && p[|p| - 1] == t;
      VisitedAlongPath(host, root, p);
      var isRoot :| Visit(host, definitions, t, isRoot);
      VisitedReferenceResolves(host, root, t, isRoot);
    }
  }

  /** The definition name of an accepted reference, still escaped. */
  function EscapedName(t: Json): string {
    match NodeOf(t)
    case Reference(pointer) => RemovePrefix(pointer, "$defs/")
    case _ => ""
  }

  /**
   Exactly when an accepted schema of that shape resolves: every reachable reference names, once its
   escapes are decoded, a definition that exists.
   */
  lemma ResolvesIffDecodedNamesExist(host: Host, root: Json)
    requires ProfileAccepts(host, root)
    requires forall t :: Reaches(root, root, t) ==> PropertiesOnObjects(t)
    ensures AllResolve(root, root) <==>
            forall t :: Reaches(root, root, t) && NodeOf(t).Reference? ==>
              Lookup(DefinitionsOf(root).value, DecodePart(EscapedName(t))).Some?
  {
    hide Visit, NodeOf, PropertiesOnObjects, DecodePart, Target, Lookup, EscapedName, Reaches;
    forall t | Reaches(root, root, t) && NodeOf(t).Reference?
      ensures Target(root, NodeOf(t).pointer) == Lookup(DefinitionsOf(root).value, DecodePart(EscapedName(t)))
    {
      ReachedReferenceTarget(host, root, t);
    }
  }

  lemma ReachedReferenceTarget(host: Host, root: Json, t: Json)
    requires ProfileAccepts(host, root) && Reaches(root, root, t) && NodeOf(t).Reference?
    requires forall u :: Reaches(root, root, u) ==> PropertiesOnObjects(u)
    ensures Target(root, NodeOf(t).pointer) == Lookup(DefinitionsOf(root).value, DecodePart(EscapedName(t)))
  {
    hide Visit, PropertiesOnObjects, DecodePart, Target, Lookup, NodeOf, EscapedName, ReferenceAccepted;
    var definitions := DefinitionsOf(root).value;
    var p :| IsPath(root, p) && p[0] == root && p[|p| - 1] == t;
    VisitedAlongPath(host, root, p);
    var isRoot :| Visit(host, definitions, t, isRoot);
    VisitedReferenceAccepted(host, definitions, t, isRoot);
    AcceptedName(definitions, t);
    DefinitionsPresent(root, EscapedName(t));
    AcceptedReferenceTarget(root, definitions, t);
  }

  lemma AcceptedName(definitions: seq<Field>, node: Json)
    requires node.Obj? && NonNull(node, "$ref").Some?
    requires ReferenceAccepted(definitions, node, NonNull(node, "$ref").value)
    ensures NonNull(node, "$ref").value.Str? && |DEFS_PREFIX| <= |NonNull(node, "$ref").value.s|
    ensures NodeOf(node).Reference? && EscapedName(node) == NonNull(node, "$ref").value.s[|DEFS_PREFIX|..]
    ensures Lookup(definitions, EscapedName(node)).Some?
  {
    hide Lookup;
    var reference := NonNull(node, "$ref").value.s;
    var name := reference[|DEFS_PREFIX|..];
    assert reference == DEFS_PREFIX + name && reference[..2] == "#/" && reference[2..] == "$defs/" + name;
    assert ("$defs/" + name)[..6] == "$defs/" && ("$defs/" + name)[6..] == name;
  }

  lemma VisitedReferenceResolves(host: Host, root: Json, t: Json, isRoot: bool)
    requires DefinitionsOf(root).Some? && Visit(host, DefinitionsOf(root).value, t, isRoot) && NodeOf(t).Reference?
    requires forall i :: 0 <= i < |DefinitionsOf(root).value| ==>
               DecodePart(DefinitionsOf(root).value[i].key) == DefinitionsOf(root).value[i].key
    ensures Target(root, NodeOf(t).pointer).Some?
  {
    hide NodeOf, Target, DecodePart, Visit;
    var definitions := DefinitionsOf(root).value;
    VisitedReferenceAccepted(host, definitions, t, isRoot);
    var name := NonNull(t, "$ref").value.s[|DEFS_PREFIX|..];
    DefinitionsPresent(root, name);
    AcceptedReferenceTarget(root, definitions, t);
    var i :| 0 <= i < |definitions| && definitions[i].key == name;
  }

  // ---------------------------------------------------------------- the checker never reports $ref

  ghost predicate NoUnresolved(issues: seq<Issue>) {
    forall i :: 0 <= i < |issues| ==> issues[i].code != UnresolvedRef
  }

  lemma ResolveBelow(root: Json, s: Json, t: Json)
    requires AllResolve(root, s) && Edge(root, s, t)
    ensures AllResolve(root, t)
  {
    hide Unguarded, Guarded, NodeOf, Target;
    forall u | Reaches(root, t, u) ensures Reaches(root, s, u) {
      var p :| IsPath(root, p) && p[0] == t && p[|p| - 1] == u;
      var q := [s] + p;
      assert IsPath(root, q) && q[0] == s && q[|q| - 1] == u;
    }
  }

  lemma SelfReached(root: Json, s: Json)
    ensures Reaches(root, s, s)
  {
    var p := [s];
    assert IsPath(root, p) && p[0] == s && p[|p| - 1] == s;
  }

  /** When every reachable reference resolves, no run that returns reports an unresolved one. */
  lemma {:induction false} NeverUnresolved(
    root: Json, depth: nat, value: Json, schema: Json, path: Path, limit: Limit)
    requires AllResolve(root, schema) && Report(root, depth, value, schema, path, limit).Some?
    ensures NoUnresolved(Report(root, depth, value, schema, path, limit).value)
    decreases depth, 1, 0
  {
    hide Report, NodeOf, AllResolve, KeywordRun, NoUnresolved;
    NoDepth(root, value, schema, path, limit);
    if NodeOf(schema).Reference? {
      ReferenceNeverUnresolved(root, depth - 1, value, schema, path, limit);
    } else if NodeOf(schema).Alternatives? {
      AlternativesNeverUnresolved(root, depth - 1, value, schema, path, limit);
    } else {
      RunOfKeywords(root, depth - 1, value, schema, path, limit);
      KeywordsNeverUnresolved(root, depth - 1, value, schema, path, limit);
    }
  }

  lemma {:induction false} ReferenceNeverUnresolved(
    root: Json, h: nat, value: Json, schema: Json, path: Path, limit: Limit)
    requires AllResolve(root, schema) && NodeOf(schema).Reference?
    requires Report(root, h + 1, value, schema, path, limit).Some?
    ensures NoUnresolved(Report(root, h + 1, value, schema, path, limit).value)
    decreases h, 2, 0
  {
    hide Report, NodeOf, AllResolve, Target, Take, NoUnresolved;
    RunOfReference(root, h, value, schema, path, limit);
    ReferenceResolves(root, schema);
    NeverUnresolved(root, h, value, Target(root, NodeOf(schema).pointer).value, path, limit);
  }

  lemma AlternativesNeverUnresolved(root: Json, h: nat, value: Json, schema: Json, path: Path, limit: Limit)
    requires NodeOf(schema).Alternatives? && Report(root, h + 1, value, schema, path, limit).Some?
    ensures NoUnresolved(Report(root, h + 1, value, schema, path, limit).value)
  {
    hide Report, NodeOf, Matches, Take, When, NoUnresolved;
    RunOfAlternatives(root, h, value, schema, path, limit);
    var count := Matches(root, h, value, NodeOf(schema).options, |NodeOf(schema).options|, path).value;
    MismatchIsOther(count != 1, path, limit);
  }

  lemma ReferenceResolves(root: Json, schema: Json)
    requires AllResolve(root, schema) && NodeOf(schema).Reference?
    ensures Target(root, NodeOf(schema).pointer).Some?
    ensures AllResolve(root, Target(root, NodeOf(schema).pointer).value)
  {
    hide NodeOf, Target, Reaches;
    SelfReached(root, schema);
    var target := Target(root, NodeOf(schema).pointer).value;
    assert Unguarded(root, schema, target);
    ResolveBelow(root, schema, target);
  }

  lemma MismatchIsOther(bad: bool, path: Path, limit: Limit)
    ensures NoUnresolved(Take(When(bad, path, OneOfMismatch), limit))
  {
  }

  lemma TakenNeverUnresolved(all: seq<Issue>, limit: Limit)
    requires NoUnresolved(all)
    ensures NoUnresolved(Take(all, limit))
  {
  }

  lemma {:induction false} KeywordsNeverUnresolved(
    root: Json, depth: nat, value: Json, schema: Json, path: Path, limit: Limit)
    requires AllResolve(root, schema) && NodeOf(schema).Keywords?
    requires KeywordRun(root, depth, value, NodeOf(schema), path, limit).Some?
    ensures NoUnresolved(KeywordRun(root, depth, value, NodeOf(schema), path, limit).value)
    decreases depth, 4, 0
  {
    hide NodeOf, AllResolve, ShallowIssues, TypeOk, ChildRun, NoUnresolved, Take;
    var node := NodeOf(schema);
    if TypeOk(value, node.expected) {
      var shallow := Take(ShallowIssues(value, node, path), limit);
      ShallowNeverUnresolved(value, node, path);
      TakenNeverUnresolved(ShallowIssues(value, node, path), limit);
      ChildrenNeverUnresolved(root, depth, value, schema, path, limit, shallow);
      TakenNeverUnresolved(ChildRun(root, depth, value, node, path, limit, shallow).value, limit);
    } else {
      WrongTypeIsOther(value, node, path, limit);
    }
  }

  lemma WrongTypeIsOther(value: Json, node: Node, path: Path, limit: Limit)
    requires node.Keywords? && !TypeOk(value, node.expected)
    ensures node.expected.Some? && NoUnresolved(Take([Issue(path, WrongType(node.expected.value))], limit))
  {
  }

  lemma {:induction false} ChildrenNeverUnresolved(
    root: Json, depth: nat, value: Json, schema: Json, path: Path, limit: Limit, issues: seq<Issue>)
    requires AllResolve(root, schema) && NodeOf(schema).Keywords? && NoUnresolved(issues)
    requires TypeOk(value, NodeOf(schema).expected)
    requires ChildRun(root, depth, value, NodeOf(schema), path, limit, issues).Some?
    ensures NoUnresolved(ChildRun(root, depth, value, NodeOf(schema), path, limit, issues).value)
    decreases depth, 3, 0
  {
    hide NodeOf, AllResolve, PropertyRun, ItemRun, NoUnresolved;
    var node := NodeOf(schema);
    if value.Obj? {
      forall i | 0 <= i < |node.properties| ensures AllResolve(root, node.properties[i].value) {
        assert PropertyEdge(schema, i, node.properties[i].value);
        assert Guarded(schema, node.properties[i].value);
        ResolveBelow(root, schema, node.properties[i].value);
      }
      PropertiesNeverUnresolved(root, depth, value.fields, node.properties, 0, path, limit, issues);
    } else if value.Arr? && node.items.Some? {
      assert ItemEdge(schema, node.items.value);
      assert Guarded(schema, node.items.value);
      ResolveBelow(root, schema, node.items.value);
      ItemsNeverUnresolved(root, depth, value.items, node.items.value, 0, path, limit, issues);
    }
  }

  lemma {:induction false} ShallowNeverUnresolved(value: Json, node: Node, path: Path)
    requires node.Keywords?
    ensures NoUnresolved(ShallowIssues(value, node, path))
  {
    hide ConstOk, EnumOk, LayerIssues;
    LayerNeverUnresolved(value, node, path);
    var first := When(!ConstOk(value, node.constant), path, NotConst);
    var second := When(!EnumOk(value, node.enum), path, NotInEnum);
    NeitherUnresolved(first, second);
    NeitherUnresolved(first + second, LayerIssues(value, node, path));
  }

  lemma NeitherUnresolved(a: seq<Issue>, b: seq<Issue>)
    requires NoUnresolved(a) && NoUnresolved(b)
    ensures NoUnresolved(a + b)
  {
  }

  lemma LayerNeverUnresolved(value: Json, node: Node, path: Path)
    requires node.Keywords?
    ensures NoUnresolved(LayerIssues(value, node, path))
  {
    hide AtLeast, AtMost;
    if value.Obj? {
      RequiredNeverUnresolved(value, node.required, |node.required|, path);
      UnknownNeverUnresolved(value.fields, node.properties, |value.fields|, path);
    }
  }

  lemma {:induction false} RequiredNeverUnresolved(value: Json, names: seq<string>, n: nat, path: Path)
    requires n <= |names|
    ensures NoUnresolved(RequiredIssues(value, names, n, path))
  {
    hide Has;
    if n > 0 { RequiredNeverUnresolved(value, names, n - 1, path); }
  }

  lemma {:induction false} UnknownNeverUnresolved(fields: seq<Field>, properties: seq<Field>, n: nat, path: Path)
    requires n <= |fields|
    ensures NoUnresolved(UnknownIssues(fields, properties, n, path))
  {
    hide Lookup;
    if n > 0 { UnknownNeverUnresolved(fields, properties, n - 1, path); }
  }

  lemma {:induction false} PropertiesNeverUnresolved(
    root: Json, depth: nat, fields: seq<Field>, properties: seq<Field>, i: nat, path: Path, limit: Limit,
    issues: seq<Issue>)
    requires i <= |properties| && NoUnresolved(issues)
    requires forall j :: 0 <= j < |properties| ==> AllResolve(root, properties[j].value)
    requires PropertyRun(root, depth, fields, properties, i, path, limit, issues).Some?
    ensures NoUnresolved(PropertyRun(root, depth, fields, properties, i, path, limit, issues).value)
    decreases depth, 2, |properties| - i
  {
    hide AllResolve, Report, Lookup, NoUnresolved, Full, Room;
    if i < |properties| {
      var child := Lookup(fields, properties[i].key);
      if child.None? {
        PropertiesNeverUnresolved(root, depth, fields, properties, i + 1, path, limit, issues);
      } else {
        var at := path + [Key(properties[i].key)];
        NeverUnresolved(root, depth, child.value, properties[i].value, at, Room(issues, limit));
        var more := Report(root, depth, child.value, properties[i].value, at, Room(issues, limit)).value;
        NeitherUnresolved(issues, more);
        if !Full(issues + more, limit) {
          PropertiesNeverUnresolved(root, depth, fields, properties, i + 1, path, limit, issues + more);
        }
      }
    }
  }

  lemma {:induction false} ItemsNeverUnresolved(
    root: Json, depth: nat, items: seq<Json>, schema: Json, i: nat, path: Path, limit: Limit, issues: seq<Issue>)
    requires i <= |items| && NoUnresolved(issues) && AllResolve(root, schema)
    requires ItemRun(root, depth, items, schema, i, path, limit, issues).Some?
    ensures NoUnresolved(ItemRun(root, depth, items, schema, i, path, limit, issues).value)
    decreases depth, 2, |items| - i
  {
    hide AllResolve, Report, NoUnresolved, Full, Room;
    if i < |items| {
      NeverUnresolved(root, depth, items[i], schema, path + [Index(i)], Room(issues, limit));
      var more := Report(root, depth, items[i], schema, path + [Index(i)], Room(issues, limit)).value;
      NeitherUnresolved(issues, more);
      if !Full(issues + more, limit) {
        ItemsNeverUnresolved(root, depth, items, schema, i + 1, path, limit, issues + more);
      }
    }
  }
}
