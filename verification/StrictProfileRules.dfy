/** What the strict profile demands of a schema, read off its JSON, and what that means for the checker. */
module StrictProfileRules {
  import opened Text
  import opened JsonValues
  import opened SchemaMeaning
  import opened SchemaChecker
  import opened SchemaReading
  import opened StrictProfile

  ghost predicate DeclaresType(node: Json, name: string) {
    || Get(node, "type") == Some(Str(name))
    || exists names :: Get(node, "type") == Some(Arr(names)) && Str(name) in names
  }

  /** Bounds are non-negative integers, null counting as absent, and the lower one is not above the upper. */
  ghost predicate Ordered(node: Json, low: string, high: string) {
    && (forall bound :: Get(node, low) == Some(bound) && bound != Null ==> bound.Int? && bound.n >= 0)
    && (forall bound :: Get(node, high) == Some(bound) && bound != Null ==> bound.Int? && bound.n >= 0)
    && forall a, b :: Get(node, low) == Some(Int(a)) && Get(node, high) == Some(Int(b)) ==> a <= b
  }

  /** An object is closed, names its properties properly, and requires only properties it declares. */
  ghost predicate ObjectRules(host: Host, node: Json) {
    && Get(node, "additionalProperties") == Some(Bool(false))
    && (Has(node, "properties") ==> ProperlyNamed(host, Get(node, "properties").value))
    && (Has(node, "required") ==> OnlyDeclared(node, Get(node, "required").value))
  }

  ghost predicate ProperlyNamed(host: Host, declared: Json) {
    declared.Obj? && forall field :: field in declared.fields ==> !host.blank(field.key)
  }

  ghost predicate OnlyDeclared(node: Json, required: Json) {
    required.Arr? && forall name :: name in required.items ==> name.Str? && Declares(node, name.s)
  }

  ghost predicate Declares(node: Json, name: string) {
    exists declared :: Get(node, "properties") == Some(declared) && Has(declared, name)
  }

  /** The rules for a node that is no reference, apart from its parts. */
  ghost predicate NodeRules(host: Host, node: Json) {
    && ((exists name :: DeclaresType(node, name)) || Has(node, "enum") || NonNull(node, "oneOf").Some?)
    && (forall name :: DeclaresType(node, name) ==>
          name in {"object", "array", "string", "integer", "number", "boolean", "null"})
    && (DeclaresType(node, "object") ==> ObjectRules(host, node))
    && (DeclaresType(node, "array") ==> Has(node, "items"))
    && (Has(node, "items") ==> Ordered(node, "minItems", "maxItems"))
    && Ordered(node, "minLength", "maxLength")
    && (forall values :: Get(node, "enum") == Some(values) ==> values.Arr? && values.items != [])
    && (forall pattern :: Get(node, "pattern") == Some(pattern) ==>
          DeclaresType(node, "string") && pattern.Str? && pattern.s != "" && host.compiles(pattern.s))
  }

  lemma TypesAre(node: Json, name: string)
    ensures name in TypesOf(node) <==> DeclaresType(node, name)
  {
    hide StringsIn;
    var declared := Get(node, "type");
    if declared.Some? && declared.value.Arr? {
      StringsAre(declared.value.items, name);
    }
  }

  lemma SomeType(node: Json)
    ensures TypesOf(node) != [] <==> exists name :: DeclaresType(node, name)
  {
    hide TypesOf, DeclaresType;
    if TypesOf(node) != [] {
      TypesAre(node, TypesOf(node)[0]);
    }
    if name :| DeclaresType(node, name) {
      TypesAre(node, name);
    }
  }

  lemma BoundsOrdered(node: Json, low: string, high: string)
    ensures BoundsAccepted(node, low, high) <==> Ordered(node, low, high)
  {
  }

  lemma ObjectsOrdered(host: Host, node: Json)
    requires node.Obj?
    ensures ObjectAccepted(host, node) <==> ObjectRules(host, node)
  {
    hide Lookup, ProperlyNamed, OnlyDeclared;
    var declared, required := DeclaredProperties(node), Get(node, "required");
    PropertiesNamed(host, node);
    if declared.Some? {
      forall name ensures Lookup(declared.value, name).Some? <==> Declares(node, name) {
        DeclaredLookup(node, name);
      }
      hide Declares;
      if required.Some? {
        RequiredOnlyDeclared(node, required.value, declared.value);
      }
    }
  }

  lemma PropertiesNamed(host: Host, node: Json)
    ensures var declared, properties := DeclaredProperties(node), Get(node, "properties");
      (declared.Some? && forall i :: 0 <= i < |declared.value| ==> !host.blank(declared.value[i].key)) <==>
      (properties.Some? ==> ProperlyNamed(host, properties.value))
  {
    hide Lookup;
    var properties := Get(node, "properties");
    if properties.Some? && properties.value.Obj? {
      var fields := properties.value.fields;
      assert forall i :: 0 <= i < |fields| ==> fields[i] in fields;
    }
  }

  lemma RequiredOnlyDeclared(node: Json, required: Json, fields: seq<Field>)
    requires forall name :: Lookup(fields, name).Some? <==> Declares(node, name)
    ensures OnlyDeclared(node, required) <==>
            && required.Arr?
            && forall i :: 0 <= i < |required.items| ==>
                 required.items[i].Str? && Lookup(fields, required.items[i].s).Some?
  {
    hide Lookup, Declares;
    if required.Arr? {
      RequiredDeclared(node, required.items, fields);
    }
  }

  lemma RequiredDeclared(node: Json, names: seq<Json>, fields: seq<Field>)
    requires forall name :: Lookup(fields, name).Some? <==> Declares(node, name)
    ensures (forall i :: 0 <= i < |names| ==> names[i].Str? && Lookup(fields, names[i].s).Some?) <==>
            (forall name :: name in names ==> name.Str? && Declares(node, name.s))
  {
    hide Lookup, Declares;
    assert forall i :: 0 <= i < |names| ==> names[i] in names;
    if forall i :: 0 <= i < |names| ==> names[i].Str? && Lookup(fields, names[i].s).Some? {
      forall name | name in names ensures name.Str? && Declares(node, name.s) {
        var i :| 0 <= i < |names| && names[i] == name;
      }
    }
  }

  lemma NoFields()
    ensures forall name :: Lookup([], name) == None
  {
  }

  lemma DeclaredLookup(node: Json, name: string)
    requires DeclaredProperties(node).Some?
    ensures Lookup(DeclaredProperties(node).value, name).Some? <==> Declares(node, name)
  {
    NoFields();
  }

  /** The profile's checks on one node are exactly these rules. */
  lemma NodeRulesExact(host: Host, node: Json)
    requires node.Obj?
    ensures LocallyAccepted(host, node) <==> NodeRules(host, node)
  {
    hide TypesOf, DeclaresType, ObjectAccepted, ObjectRules, BoundsAccepted, Ordered, Lookup;
    SomeType(node);
    forall name ensures name in TypesOf(node) <==> DeclaresType(node, name) {
      TypesAre(node, name);
    }
    ObjectsOrdered(host, node);
    BoundsOrdered(node, "minItems", "maxItems");
    BoundsOrdered(node, "minLength", "maxLength");
    TypesKnown(node);
  }

  lemma TypesKnown(node: Json)
    ensures (forall i :: 0 <= i < |TypesOf(node)| ==> TypesOf(node)[i] in KNOWN_TYPES) <==>
            forall name :: name in TypesOf(node) ==>
              name in {"object", "array", "string", "integer", "number", "boolean", "null"}
  {
    hide TypesOf;
    var types := TypesOf(node);
    assert KNOWN_TYPES == {"object", "array", "string", "integer", "number", "boolean", "null"};
    assert forall i :: 0 <= i < |types| ==> types[i] in types;
  }

  // ---------------------------------------------------------------- every part of an accepted schema

  /** A part of a node that the profile looks into. */
  ghost predicate PartOf(node: Json, part: Json) {
    && NonNull(node, "$ref").None?
    && (|| Get(node, "items") == Some(part)
        || (exists options :: Get(node, "oneOf") == Some(Arr(options)) && part in options)
        || (DeclaresType(node, "object")
            && exists fields, name :: Get(node, "properties") == Some(Obj(fields)) && Field(name, part) in fields))
  }

  ghost predicate Within(height: nat, node: Json, part: Json) {
    node == part || (height > 0 && exists child :: PartOf(node, child) && Within(height - 1, child, part))
  }

  /** A reference stands alone and names a definition; any other node follows the rules. */
  ghost predicate Lawful(host: Host, definitions: seq<Field>, node: Json) {
    && node.Obj?
    && (forall field :: field in node.fields ==> field.key in PROFILE_KEYWORDS)
    && (NonNull(node, "$ref").None? ==> NodeRules(host, node))
    && forall reference :: Get(node, "$ref") == Some(reference) && reference != Null ==>
         && (forall field :: field in node.fields ==> field.key == "$ref")
         && exists name :: reference == Str("#/$defs/" + name) && name != "" && '/' !in name
                           && Lookup(definitions, name).Some?
  }

  lemma VisitedIsLawful(host: Host, definitions: seq<Field>, node: Json, isRoot: bool)
    requires Visit(host, definitions, node, isRoot)
    ensures Lawful(host, definitions, node)
  {
    hide LocallyAccepted, NodeRules, Lookup, TypesOf;
    NodeRulesExact(host, node);
    var reference := NonNull(node, "$ref");
    if reference.Some? {
      var written := reference.value.s;
      assert written == "#/$defs/" + written[|DEFS_PREFIX|..];
    }
  }

  lemma VisitedPart(host: Host, definitions: seq<Field>, node: Json, isRoot: bool, part: Json)
    requires Visit(host, definitions, node, isRoot) && PartOf(node, part)
    ensures Visit(host, definitions, part, false)
  {
    hide LocallyAccepted, Lookup, TypesOf, DeclaresType;
    TypesAre(node, "object");
  }

  lemma {:induction false} WithinVisited(
    host: Host, definitions: seq<Field>, node: Json, isRoot: bool, height: nat, part: Json)
    requires Visit(host, definitions, node, isRoot) && Within(height, node, part)
    ensures Visit(host, definitions, part, isRoot) || Visit(host, definitions, part, false)
    decreases height
  {
    hide Visit, PartOf;
    if node != part {
      var child :| PartOf(node, child) && Within(height - 1, child, part);
      VisitedPart(host, definitions, node, isRoot, child);
      WithinVisited(host, definitions, child, false, height - 1, part);
    }
  }

  /** Every part of an accepted schema, and every part of each of its definitions, follows the rules. */
  lemma AcceptedIsLawful(host: Host, schema: Json, start: Json, height: nat, part: Json)
    requires ProfileAccepts(host, schema) && Within(height, start, part)
    requires start == schema || exists name :: Field(name, start) in DefinitionsOf(schema).value
    ensures Lawful(host, DefinitionsOf(schema).value, part)
  {
    hide Visit, Within, Lawful, Lookup;
    var definitions := DefinitionsOf(schema).value;
    var isRoot := start == schema;
    WithinVisited(host, definitions, start, isRoot, height, part);
    if Visit(host, definitions, part, isRoot) {
      VisitedIsLawful(host, definitions, part, isRoot);
    } else {
      VisitedIsLawful(host, definitions, part, false);
    }
  }

  // ---------------------------------------------------------------- closed objects

  /**
   The profile demands closed objects, yet an undeclared key breaks an accepted object schema, as the checker
   reads it, exactly if the schema has a `properties` keyword.
   */
  lemma ClosedIffDeclared(host: Host, schema: Json, value: Json, name: string)
    requires ProfileAccepts(host, schema) && NonNull(schema, "$ref").None?
    requires Has(value, name) && !Declares(schema, name)
    ensures LocalFault(value, schema, [], Issue([Key(name)], UnknownField)) <==> Has(schema, "properties")
  {
    hide Visit, Lookup, TypesOf, NodeRules;
    VisitedIsLawful(host, DefinitionsOf(schema).value, schema, true);
    RootIsObject(host, schema);
    RulesOfObject(host, schema);
    var declared := Get(schema, "properties");
    assert [] + [Key(name)] == [Key(name)];
    if declared.Some? {
      assert ClosedTo(schema, declared.value.fields);
      assert Get(declared.value, name).None?;
      assert LocalFault(value, schema, [], Issue([Key(name)], UnknownField));
    }
  }

  lemma RootIsObject(host: Host, schema: Json)
    requires ProfileAccepts(host, schema) && NonNull(schema, "$ref").None?
    ensures DeclaresType(schema, "object")
  {
    hide LocallyAccepted, Lookup, TypesOf;
    TypesAre(schema, "object");
  }

  lemma RulesOfObject(host: Host, node: Json)
    requires NodeRules(host, node) && DeclaresType(node, "object")
    ensures ObjectRules(host, node)
  {
  }
}
