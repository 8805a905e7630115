/** Accepted schemas for which the checker's guarantees fail, showing that the conditions are needed. */
module StrictProfileLimits {
  import opened Text
  import opened JsonValues
  import opened SchemaMeaning
  import opened SchemaChecker
  import opened SchemaTermination
  import opened StrictProfile

  function ReferenceTo(name: string): Json {
    Obj([Field("$ref", Str(DEFS_PREFIX + name))])
  }

  /** {"type": "object", "additionalProperties": false, "properties": {"p": child}, "$defs": {name: body}} */
  function OneProperty(child: Json, name: string, body: Json): Json {
    Obj([Field("type", Str("object")),
         Field("additionalProperties", Bool(false)),
         Field("properties", Obj([Field("p", child)])),
         Field("$defs", Obj([Field(name, body)]))])
  }

  lemma LookupIs(fields: seq<Field>, key: string, i: nat)
    requires i < |fields| && fields[i].key == key
    requires forall j :: 0 <= j < |fields| && j != i ==> fields[j].key != key
    ensures Lookup(fields, key) == Some(fields[i].value)
  {
  }

  lemma OnePropertyFields(child: Json, name: string, body: Json)
    ensures var root := OneProperty(child, name, body);
      && Get(root, "type") == Some(Str("object"))
      && Get(root, "additionalProperties") == Some(Bool(false))
      && Get(root, "properties") == Some(Obj([Field("p", child)]))
      && Get(root, "$defs") == Some(Obj([Field(name, body)]))
  {
    hide Lookup;
    var fields := OneProperty(child, name, body).fields;
    LookupIs(fields, "type", 0);
    LookupIs(fields, "additionalProperties", 1);
    LookupIs(fields, "properties", 2);
    LookupIs(fields, "$defs", 3);
  }

  predicate Unused(key: string) {
    key != "type" && key != "additionalProperties" && key != "properties" && key != "$defs"
  }

  lemma OnePropertyOthers(child: Json, name: string, body: Json, key: string)
    requires Unused(key)
    ensures Get(OneProperty(child, name, body), key) == None
  {
  }

  lemma OtherKeys()
    ensures Unused("$ref") && Unused("oneOf") && Unused("enum") && Unused("required") && Unused("items")
    ensures Unused("pattern") && Unused("minLength") && Unused("maxLength")
  {
  }

  lemma OnePropertyKeysAllowed(child: Json, name: string, body: Json)
    ensures forall i :: 0 <= i < 4 ==> OneProperty(child, name, body).fields[i].key in PROFILE_KEYWORDS
  {
  }

  lemma ReferenceVisited(host: Host, definitions: seq<Field>, name: string)
    requires name != "" && '/' !in name && Lookup(definitions, name).Some?
    ensures Visit(host, definitions, ReferenceTo(name), false)
  {
    hide Lookup, LocallyAccepted;
    var node := ReferenceTo(name);
    LookupIs(node.fields, "$ref", 0);
    var reference := DEFS_PREFIX + name;
    assert reference[..|DEFS_PREFIX|] == DEFS_PREFIX && reference[|DEFS_PREFIX|..] == name;
    assert "$ref" in PROFILE_KEYWORDS;
    assert Get(node, "$defs").None?;
  }

  lemma OnePropertyObject(host: Host, child: Json, name: string, body: Json)
    requires !host.blank("p")
    ensures ObjectAccepted(host, OneProperty(child, name, body))
  {
    hide Lookup;
    OnePropertyFields(child, name, body);
    OtherKeys();
    OnePropertyOthers(child, name, body, "required");
  }

  lemma OnePropertyLocal(host: Host, child: Json, name: string, body: Json)
    requires !host.blank("p")
    ensures LocallyAccepted(host, OneProperty(child, name, body))
    ensures TypesOf(OneProperty(child, name, body)) == ["object"]
  {
    hide Lookup, ObjectAccepted, OneProperty;
    OnePropertyFields(child, name, body);
    OnePropertyObject(host, child, name, body);
    OtherKeys();
    OnePropertyOthers(child, name, body, "enum");
    OnePropertyOthers(child, name, body, "items");
    OnePropertyOthers(child, name, body, "pattern");
    OnePropertyOthers(child, name, body, "minLength");
    OnePropertyOthers(child, name, body, "maxLength");
    assert "object" in KNOWN_TYPES;
    assert "object" != "array";
  }

  lemma OnePropertyAccepted(host: Host, child: Json, name: string, body: Json)
    requires !host.blank("p") && name != "" && '/' !in name
    requires Visit(host, [Field(name, body)], child, false) && Visit(host, [Field(name, body)], body, false)
    ensures ProfileAccepts(host, OneProperty(child, name, body))
  {
    hide Lookup, LocallyAccepted, TypesOf;
    var root := OneProperty(child, name, body);
    OnePropertyFields(child, name, body);
    OnePropertyLocal(host, child, name, body);
    OnePropertyKeysAllowed(child, name, body);
    OtherKeys();
    OnePropertyOthers(child, name, body, "$ref");
    OnePropertyOthers(child, name, body, "oneOf");
    OnePropertyOthers(child, name, body, "items");
    assert Visit(host, [Field(name, body)], root, true);
  }

  lemma OnePropertyReaches(child: Json, name: string, body: Json)
    ensures var root := OneProperty(child, name, body);
            && NodeOf(root).Keywords? && NodeOf(root).properties == [Field("p", child)]
            && PropertyEdge(root, 0, child) && Reaches(root, root, child)
  {
    hide Lookup;
    var root := OneProperty(child, name, body);
    OnePropertyFields(child, name, body);
    OtherKeys();
    OnePropertyOthers(child, name, body, "$ref");
    OnePropertyOthers(child, name, body, "oneOf");
    assert Entries([Field("p", child)]) == [Field("p", child)];
    assert PropertyEdge(root, 0, child);
    SelfReached(root, root);
    ReachesStep(root, root, root, child);
  }

  lemma ReferenceNode(name: string)
    ensures NodeOf(ReferenceTo(name)) == Reference("$defs/" + name)
  {
    hide Lookup;
    var reference := DEFS_PREFIX + name;
    LookupIs(ReferenceTo(name).fields, "$ref", 0);
    assert reference[..2] == "#/" && reference[2..] == "$defs/" + name;
  }

  lemma ReferenceTarget(child: Json, name: string, body: Json)
    requires '/' !in name
    ensures Target(OneProperty(child, name, body), "$defs/" + name) == Lookup([Field(name, body)], DecodePart(name))
  {
    hide Lookup, Target, DecodePart;
    OnePropertyFields(child, name, body);
    TargetOfDefinition(OneProperty(child, name, body), [Field(name, body)], name);
  }

  /**
   The profile accepts a definition that refers to itself.  On {"p": null} the checker exhausts any stack,
   while on {} it returns at once and reports nothing.
   */
  lemma AcceptedYetCyclic(host: Host, depth: nat, limit: Limit)
    requires !host.blank("p")
    ensures var root := OneProperty(ReferenceTo("A"), "A", ReferenceTo("A"));
      && ProfileAccepts(host, root)
      && Report(root, depth, Obj([Field("p", Null)]), root, [], limit).None?
      && Report(root, depth + 1, Obj([]), root, [], limit) == Some([])
  {
    hide Visit, Lookup, NodeOf, Target, DecodePart, OneProperty, Reaches, Hangs;
    var name := "A";
    var loop := ReferenceTo(name);
    var root := OneProperty(loop, name, loop);
    LookupIs([Field(name, loop)], name, 0);
    ReferenceVisited(host, [Field(name, loop)], name);
    OnePropertyAccepted(host, loop, name, loop);
    LoopHangs(root, loop);
    HangsAt(root, Obj([Field("p", Null)]), root, depth, limit);
    EmptyReturns(loop, name, loop, depth, limit);
  }

  lemma HangsAt(root: Json, value: Json, schema: Json, depth: nat, limit: Limit)
    requires Hangs(root, value, schema)
    ensures Report(root, depth, value, schema, [], limit).None?
  {
    hide Report;
    assert !ReturnsAt(root, depth, value, schema, [], limit);
  }

  lemma LoopHangs(root: Json, loop: Json)
    requires loop == ReferenceTo("A") && root == OneProperty(loop, "A", loop)
    ensures Hangs(root, Obj([Field("p", Null)]), root)
  {
    hide Lookup, NodeOf, Target, DecodePart, OneProperty, Reaches, Hangs;
    var name := "A";
    LookupIs([Field(name, loop)], name, 0);
    OnePropertyReaches(loop, name, loop);
    ReferenceNode(name);
    ReferenceTarget(loop, name, loop);
    NoTildeDecodesToItself(name);
    UnfoldsOnce(root, loop, loop);
    UnfoldingHangs(root, Null, loop);
    HangsInProperty(root, Null, root, 0, loop);
  }

  lemma EmptyReturns(child: Json, name: string, body: Json, depth: nat, limit: Limit)
    ensures var root := OneProperty(child, name, body);
      Report(root, depth + 1, Obj([]), root, [], limit) == Some([])
  {
    hide NodeOf, OneProperty, Report;
    var root := OneProperty(child, name, body);
    OnePropertyNode(child, name, body);
    RunOfKeywords(root, depth, Obj([]), root, [], limit);
    NothingToReport(root, depth, NodeOf(root), limit);
  }

  lemma OnePropertyNode(child: Json, name: string, body: Json)
    ensures var node := NodeOf(OneProperty(child, name, body));
      && node.Keywords? && node.expected == Some("object") && node.constant.None? && node.enum.None?
      && node.required == [] && node.properties == [Field("p", child)]
  {
    hide Lookup, OneProperty;
    OnePropertyFields(child, name, body);
    OnePropertyReaches(child, name, body);
    OtherKeys();
    OnePropertyOthers(child, name, body, "$ref");
    OnePropertyOthers(child, name, body, "oneOf");
    OnePropertyOthers(child, name, body, "enum");
    OnePropertyOthers(child, name, body, "required");
    assert Unused("const");
    OnePropertyOthers(child, name, body, "const");
  }

  lemma NothingToReport(root: Json, depth: nat, node: Node, limit: Limit)
    requires node.Keywords? && node.expected == Some("object") && node.constant.None? && node.enum.None?
    requires node.required == [] && |node.properties| == 1
    ensures KeywordRun(root, depth, Obj([]), node, [], limit) == Some([])
  {
    hide Report, PropertyRun;
    assert ShallowIssues(Obj([]), node, []) == [];
    NoFields(root, depth, node.properties, limit);
  }

  lemma NoFields(root: Json, depth: nat, properties: seq<Field>, limit: Limit)
    requires |properties| == 1
    ensures PropertyRun(root, depth, [], properties, 0, [], limit, []) == Some([])
  {
    hide Report;
    assert Lookup([], properties[0].key).None?;
    assert PropertyRun(root, depth, [], properties, 1, [], limit, []) == Some([]);
  }

  /** The profile looks a definition name up undecoded, so an accepted "a~1b" does not resolve. */
  lemma AcceptedYetUnresolvedName(host: Host)
    requires !host.blank("p")
    ensures var root := OneProperty(ReferenceTo("a~1b"), "a~1b", ReferenceTo("a~1b"));
            ProfileAccepts(host, root) && !AllResolve(root, root)
  {
    hide Visit, NodeOf, Target, OneProperty, Reaches;
    var name := "a~1b";
    var child := ReferenceTo(name);
    var root := OneProperty(child, name, child);
    LookupIs([Field(name, child)], name, 0);
    ReferenceVisited(host, [Field(name, child)], name);
    OnePropertyAccepted(host, child, name, child);
    OnePropertyReaches(child, name, child);
    ReferenceNode(name);
    ReferenceTarget(child, name, child);
    DecodedName();
  }

  lemma DecodedName()
    ensures DecodePart("a~1b") != "a~1b"
  {
    var s := "a~1b";
    assert s[1..] == "~1b" && s[1..][2..] == "b";
    var first := ReplaceEscape(s, '1', '/');
    assert first == ['a'] + (['/'] + "b");
    assert '~' !in first;
    PlainPartUnchanged(first, '0', '~');
  }

  /** Properties of a node without an object type are never visited, so a dangling reference hides there. */
  lemma AcceptedYetUnvisited(host: Host)
    requires !host.blank("p")
    ensures var dangling := Obj([Field("$ref", Str("#/x"))]);
            var child := Obj([Field("enum", Arr([Null])), Field("properties", Obj([Field("q", dangling)]))]);
            var root := OneProperty(child, "A", child);
            ProfileAccepts(host, root) && !AllResolve(root, root)
  {
    hide OneProperty, Reaches, Visit, NodeOf, ProfileAccepts, AllResolve;
    var dangling := Obj([Field("$ref", Str("#/x"))]);
    var child := Obj([Field("enum", Arr([Null])), Field("properties", Obj([Field("q", dangling)]))]);
    var root := OneProperty(child, "A", child);
    EnumNodeVisited(host, dangling);
    OnePropertyAccepted(host, child, "A", child);
    OnePropertyReaches(child, "A", child);
    assert Unused("x");
    OnePropertyOthers(child, "A", child, "x");
    ReachesDangling(root, child, dangling);
  }

  lemma EnumNodeVisited(host: Host, hidden: Json)
    ensures var child := Obj([Field("enum", Arr([Null])), Field("properties", Obj([Field("q", hidden)]))]);
            Visit(host, [Field("A", child)], child, false)
  {
    hide Lookup;
    var child := Obj([Field("enum", Arr([Null])), Field("properties", Obj([Field("q", hidden)]))]);
    LookupIs(child.fields, "enum", 0);
    assert "enum" in PROFILE_KEYWORDS && "properties" in PROFILE_KEYWORDS;
    assert TypesOf(child) == [];
  }

  lemma ReachesDangling(root: Json, child: Json, dangling: Json)
    requires dangling == Obj([Field("$ref", Str("#/x"))])
    requires child == Obj([Field("enum", Arr([Null])), Field("properties", Obj([Field("q", dangling)]))])
    requires Reaches(root, root, child) && Get(root, "x") == None
    ensures !AllResolve(root, root)
  {
    hide Reaches, NodeOf, Target, PropertyEdge;
    HiddenProperty(child, dangling);
    DanglingTarget(root, dangling);
    assert Guarded(child, dangling);
    ReachesStep(root, root, child, dangling);
  }

  lemma HiddenProperty(child: Json, dangling: Json)
    requires child == Obj([Field("enum", Arr([Null])), Field("properties", Obj([Field("q", dangling)]))])
    ensures PropertyEdge(child, 0, dangling)
  {
    hide Lookup;
    var q := [Field("q", dangling)];
    LookupIs(child.fields, "properties", 1);
    OneEntry(q[0]);
    NothingElse(child, dangling);
    UntypedProperties(child, q);
  }

  lemma OneEntry(f: Field)
    ensures Entries([f]) == [f]
  {
    assert [f][..0] == [];
  }

  lemma NothingElse(child: Json, dangling: Json)
    requires child == Obj([Field("enum", Arr([Null])), Field("properties", Obj([Field("q", dangling)]))])
    ensures Get(child, "$ref").None? && Get(child, "oneOf").None? && Get(child, "type").None?
  {
  }

  lemma UntypedProperties(child: Json, q: seq<Field>)
    requires Get(child, "$ref").None? && Get(child, "oneOf").None? && Get(child, "type").None?
    requires Get(child, "properties") == Some(Obj(q)) && |q| == 1 && Entries(q) == q
    ensures PropertyEdge(child, 0, q[0].value)
  {
    hide Get, Entries;
  }

  lemma DanglingTarget(root: Json, dangling: Json)
    requires dangling == Obj([Field("$ref", Str("#/x"))]) && Get(root, "x") == None
    ensures NodeOf(dangling).Reference? && Target(root, NodeOf(dangling).pointer).None?
  {
    hide Lookup;
    LookupIs(dangling.fields, "$ref", 0);
    var reference := "#/x";
    assert reference[2..] == "x";
    SplitWord("x", '/');
    NoTildeDecodesToItself("x");
    assert NodeOf(dangling) == Reference("x");
    assert Walk(root, ["x"]) == None;
  }
}
