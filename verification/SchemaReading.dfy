/** The checker reads of a schema node exactly what the node's JSON says. */
module SchemaReading {
  import opened Text
  import opened JsonValues
  import opened SchemaMeaning
  import opened SchemaChecker

  // ---------------------------------------------------------------- the keyword that rules

  lemma NodeReads(schema: Json)
    ensures forall pointer :: RefersTo(schema, pointer) <==> NodeOf(schema) == Reference(pointer)
    ensures forall options :: Offers(schema, options) <==> NodeOf(schema) == Alternatives(options)
    ensures IsPlain(schema) <==> NodeOf(schema).Keywords?
    ensures IsPlain(schema) ==> NodeOf(schema) == KeywordsOf(schema)
  {
    hide KeywordsOf;
    forall pointer ensures RefersTo(schema, pointer) <==> NodeOf(schema) == Reference(pointer) {
      ReferenceReads(schema, pointer);
    }
    if NodeOf(schema).Reference? {
      assert RefersTo(schema, NodeOf(schema).pointer);
    } else {
      assert !IsReference(schema);
      var offered := Get(schema, "oneOf");
      if offered.Some? && offered.value.Arr? {
        assert Offers(schema, offered.value.items);
      }
    }
  }

  lemma ReferenceReads(schema: Json, pointer: string)
    ensures RefersTo(schema, pointer) <==> NodeOf(schema) == Reference(pointer)
  {
    hide KeywordsOf;
    var written := "#/" + pointer;
    assert written[..2] == "#/" && written[2..] == pointer;
    var ref := Get(schema, "$ref");
    if ref.Some? && ref.value.Str? && StartsWith(ref.value.s, "#/") {
      assert ref.value.s == ref.value.s[..2] + ref.value.s[2..];
    }
  }

  // ---------------------------------------------------------------- references

  lemma KeptFirst(c: char, rest: string, mark: char, with: char)
    requires c != '~' || rest == "" || rest[0] != mark
    ensures ReplaceEscape([c] + rest, mark, with) == [c] + ReplaceEscape(rest, mark, with)
  {
    assert ([c] + rest)[1..] == rest;
  }

  lemma ReplacedFirst(rest: string, mark: char, with: char)
    ensures ReplaceEscape(['~', mark] + rest, mark, with) == [with] + ReplaceEscape(rest, mark, with)
  {
    assert (['~', mark] + rest)[2..] == rest;
  }

  /** Two replacements, "~1" first, undo the escapes as one pass would. */
  lemma {:induction false} DecodeIsUnescaped(raw: string)
    ensures DecodePart(raw) == Unescaped(raw)
    decreases |raw|
  {
    hide ReplaceEscape;
    if |raw| < 2 {
      ShortStays(raw);
    } else if raw[0] == '~' && raw[1] == '1' {
      var rest := raw[2..];
      DecodeIsUnescaped(rest);
      assert raw == ['~', '1'] + rest;
      ReplacedFirst(rest, '1', '/');
      KeptFirst('/', ReplaceEscape(rest, '1', '/'), '0', '~');
    } else if raw[0] == '~' && raw[1] == '0' {
      var rest := raw[2..];
      DecodeIsUnescaped(rest);
      assert raw == ['~'] + (['0'] + rest);
      KeptFirst('~', ['0'] + rest, '1', '/');
      KeptFirst('0', rest, '1', '/');
      var once := ReplaceEscape(rest, '1', '/');
      assert ['~'] + (['0'] + once) == ['~', '0'] + once;
      ReplacedFirst(once, '0', '~');
    } else {
      var rest := raw[1..];
      DecodeIsUnescaped(rest);
      assert raw == [raw[0]] + rest;
      KeptFirst(raw[0], rest, '1', '/');
      FirstOfReplaced(rest, '1', '/');
      KeptFirst(raw[0], ReplaceEscape(rest, '1', '/'), '0', '~');
    }
  }

  lemma ShortStays(raw: string)
    requires |raw| < 2
    ensures DecodePart(raw) == raw
  {
  }

  lemma FirstOfReplaced(s: string, mark: char, with: char)
    requires s != ""
    ensures var t := ReplaceEscape(s, mark, with); t != "" && (t[0] == s[0] || t[0] == with)
  {
  }

  lemma {:induction false} WalkIsChain(root: Json, parts: seq<string>, target: Json)
    ensures Walk(root, parts) == Some(target) <==> exists nodes :: ChainTo(root, parts, nodes, target)
    decreases |parts|
  {
    hide Unescaped, DecodePart;
    if |parts| == 0 {
      if root == target {
        assert ChainTo(root, parts, [root], target);
      }
    } else {
      DecodeIsUnescaped(parts[0]);
      var child := Get(root, Unescaped(parts[0]));
      if child.Some? {
        WalkIsChain(child.value, parts[1..], target);
      }
      if Walk(root, parts) == Some(target) {
        var nodes :| ChainTo(child.value, parts[1..], nodes, target);
        ChainGrows(root, parts, child.value, nodes, target);
      }
      if nodes :| ChainTo(root, parts, nodes, target) {
        assert ChainTo(nodes[1], parts[1..], nodes[1..], target);
      }
    }
  }

  lemma ChainGrows(root: Json, parts: seq<string>, child: Json, nodes: seq<Json>, target: Json)
    requires |parts| > 0 && Get(root, Unescaped(parts[0])) == Some(child)
    requires ChainTo(child, parts[1..], nodes, target)
    ensures ChainTo(root, parts, [root] + nodes, target)
  {
    hide Unescaped;
    var longer := [root] + nodes;
    forall i | 0 <= i < |parts| ensures Get(longer[i], Unescaped(parts[i])) == Some(longer[i + 1]) {
      if i > 0 {
        assert parts[i] == parts[1..][i - 1];
      }
    }
  }

  /** Resolution finds the node the pointer leads to, and nothing where it leads nowhere. */
  lemma TargetLeads(root: Json, pointer: string)
    ensures forall target :: Leads(root, pointer, target) <==> Target(root, pointer) == Some(target)
  {
    forall target ensures Leads(root, pointer, target) <==> Target(root, pointer) == Some(target) {
      WalkIsChain(root, Split(pointer, '/'), target);
    }
  }

  // ---------------------------------------------------------------- keywords

  lemma {:induction false} EntriesFind(fields: seq<Field>, key: string)
    ensures Lookup(Entries(fields), key) == Lookup(fields, key)
  {
    if |fields| > 0 {
      var last := |fields| - 1;
      EntriesFind(fields[..last], key);
      EntriesFind(fields[..last], fields[last].key);
      LookupLast(fields[..last], fields[last], key);
      LookupLast(Entries(fields[..last]), fields[last], key);
      assert fields == fields[..last] + [fields[last]];
    }
  }

  lemma {:induction false} LookupLast(fields: seq<Field>, last: Field, key: string)
    ensures Lookup(fields + [last], key)
         == if Lookup(fields, key).Some? then Lookup(fields, key)
            else if last.key == key then Some(last.value) else None
  {
    if |fields| > 0 {
      LookupLast(fields[1..], last, key);
      assert (fields + [last])[1..] == fields[1..] + [last];
    }
  }

  lemma {:induction false} StringsAre(items: seq<Json>, name: string)
    ensures name in StringsIn(items) <==> Str(name) in items
  {
    if |items| > 0 {
      StringsAre(items[1..], name);
      assert items == [items[0]] + items[1..];
    }
  }

  /** A value of the wrong type is reported under the type's name. */
  lemma TypeReads(value: Json, schema: Json)
    ensures var expected := KeywordsOf(schema).expected;
      && (TypeOk(value, expected) <==> TypeHolds(value, schema))
      && (!TypeOk(value, expected) ==> expected.Some? && Get(schema, "type") == Some(Str(expected.value)))
  {
    var keyword := Get(schema, "type");
    if keyword.Some? && keyword.value.Str? {
      TypeNames(value, keyword.value.s);
    }
  }

  lemma TypeNames(value: Json, name: string)
    ensures var expected := CheckedType(Some(Str(name)));
      && (TypeOk(value, expected) <==> !BreaksType(value, name))
      && (!TypeOk(value, expected) ==> expected == Some(name))
  {
  }

  lemma WrongTypeReads(value: Json, schema: Json, path: Path, issue: Issue)
    requires !TypeOk(value, KeywordsOf(schema).expected)
    ensures KeywordsOf(schema).expected.Some?
    ensures issue == Issue(path, WrongType(KeywordsOf(schema).expected.value)) <==>
            issue.code.WrongType? && LocalFault(value, schema, path, issue)
  {
    hide TypeOk, KeywordsOf, BreaksType;
    TypeReads(value, schema);
  }

  lemma BoundReads(schema: Json, keyword: string, n: int)
    ensures Bound(schema, keyword, n) <==> BoundOf(Get(schema, keyword)) == Some(n)
  {
  }

  lemma {:induction false} RequiredAre(value: Json, names: seq<string>, n: nat, path: Path, issue: Issue)
    requires n <= |names|
    ensures issue in RequiredIssues(value, names, n, path) <==>
            exists i :: 0 <= i < n && !Has(value, names[i]) && issue == Issue(path + [Key(names[i])], MissingRequired)
  {
    if n > 0 {
      RequiredAre(value, names, n - 1, path, issue);
    }
  }

  lemma {:induction false} UnknownAre(fields: seq<Field>, properties: seq<Field>, n: nat, path: Path, issue: Issue)
    requires n <= |fields|
    ensures issue in UnknownIssues(fields, properties, n, path) <==>
            exists i :: 0 <= i < n && Lookup(properties, fields[i].key).None?
                        && issue == Issue(path + [Key(fields[i].key)], UnknownField)
  {
    if n > 0 {
      UnknownAre(fields, properties, n - 1, path, issue);
    }
  }

  lemma ConstReads(value: Json, schema: Json, path: Path, issue: Issue)
    ensures issue in When(!ConstOk(value, KeywordsOf(schema).constant), path, NotConst) <==>
            issue.code.NotConst? && LocalFault(value, schema, path, issue)
  {
    hide PyEq;
  }

  lemma EnumIs(value: Json, schema: Json)
    ensures EnumOk(value, ArrayOf(Get(schema, "enum"))) <==> !exists options :: Excludes(schema, value, options)
  {
    hide PyEq, Get;
    var enum := Get(schema, "enum");
    if enum.Some? && enum.value.Arr? {
      assert EnumOk(value, Some(enum.value.items)) <==> !Excludes(schema, value, enum.value.items);
    }
  }

  lemma EnumReads(value: Json, schema: Json, path: Path, issue: Issue)
    ensures issue in When(!EnumOk(value, KeywordsOf(schema).enum), path, NotInEnum) <==>
            issue.code.NotInEnum? && LocalFault(value, schema, path, issue)
  {
    EnumIs(value, schema);
    assert KeywordsOf(schema).enum == ArrayOf(Get(schema, "enum"));
    hide PyEq, KeywordsOf, EnumOk, Excludes;
  }

  lemma RequiredReads(value: Json, schema: Json, path: Path, issue: Issue)
    requires value.Obj?
    ensures var required := KeywordsOf(schema).required;
      issue in RequiredIssues(value, required, |required|, path) <==>
      issue.code.MissingRequired? && LocalFault(value, schema, path, issue)
  {
    hide RequiredIssues, Has;
    var required := KeywordsOf(schema).required;
    RequiredAre(value, required, |required|, path, issue);
    forall name ensures name in required <==> Demands(schema, name) {
      DemandReads(schema, name);
    }
    hide KeywordsOf, Demands;
  }

  lemma DemandReads(schema: Json, name: string)
    ensures name in KeywordsOf(schema).required <==> Demands(schema, name)
  {
    hide StringsIn;
    var list := ArrayOf(Get(schema, "required"));
    if list.Some? {
      StringsAre(list.value, name);
    }
  }

  lemma ClosedReads(schema: Json)
    ensures KeywordsOf(schema).closed <==> exists fields :: ClosedTo(schema, fields)
    ensures forall fields, key :: ClosedTo(schema, fields) ==>
              Lookup(KeywordsOf(schema).properties, key) == Lookup(fields, key)
  {
    hide Entries, StringsIn, CheckedType, BoundOf, Lookup;
    var declared := Get(schema, "properties");
    if KeywordsOf(schema).closed {
      assert ClosedTo(schema, declared.value.fields);
    }
    forall fields, key | ClosedTo(schema, fields)
      ensures Lookup(KeywordsOf(schema).properties, key) == Lookup(fields, key)
    {
      EntriesFind(fields, key);
    }
  }

  lemma HasKey(value: Json, name: string)
    requires value.Obj?
    ensures Has(value, name) <==> exists i :: 0 <= i < |value.fields| && value.fields[i].key == name
  {
  }

  lemma UnknownReads(value: Json, schema: Json, path: Path, issue: Issue)
    requires value.Obj?
    ensures var node := KeywordsOf(schema);
      (node.closed && issue in UnknownIssues(value.fields, node.properties, |value.fields|, path)) <==>
      issue.code.UnknownField? && LocalFault(value, schema, path, issue)
  {
    hide UnknownIssues, KeywordsOf, Lookup, Has, ClosedTo;
    var node := KeywordsOf(schema);
    UnknownAre(value.fields, node.properties, |value.fields|, path, issue);
    ClosedReads(schema);
    forall name ensures Has(value, name) <==> exists i :: 0 <= i < |value.fields| && value.fields[i].key == name {
      HasKey(value, name);
    }
  }

  lemma BoundsRead(size: nat, schema: Json, low: string, high: string)
    ensures AtLeast(size, BoundOf(Get(schema, low))) <==> !exists n :: Bound(schema, low, n) && size < n
    ensures AtMost(size, BoundOf(Get(schema, high))) <==> !exists n :: Bound(schema, high, n) && n < size
  {
    forall n ensures Bound(schema, low, n) <==> BoundOf(Get(schema, low)) == Some(n) {
      BoundReads(schema, low, n);
    }
    forall n ensures Bound(schema, high, n) <==> BoundOf(Get(schema, high)) == Some(n) {
      BoundReads(schema, high, n);
    }
    hide Bound, BoundOf;
  }

  lemma ObjectReads(value: Json, schema: Json, path: Path, issue: Issue)
    requires value.Obj?
    ensures issue in LayerIssues(value, KeywordsOf(schema), path) <==>
            (issue.code.MissingRequired? || issue.code.UnknownField?) && LocalFault(value, schema, path, issue)
  {
    RequiredReads(value, schema, path, issue);
    UnknownReads(value, schema, path, issue);
    hide RequiredIssues, UnknownIssues, KeywordsOf, LocalFault;
  }

  lemma BoundsOf(schema: Json)
    ensures var node := KeywordsOf(schema);
      && node.minItems == BoundOf(Get(schema, "minItems")) && node.maxItems == BoundOf(Get(schema, "maxItems"))
      && node.minLength == BoundOf(Get(schema, "minLength")) && node.maxLength == BoundOf(Get(schema, "maxLength"))
  {
  }

  lemma ArrayReads(value: Json, schema: Json, path: Path, issue: Issue)
    requires value.Arr?
    ensures issue in LayerIssues(value, KeywordsOf(schema), path) <==>
            (issue.code.TooFewItems? || issue.code.TooManyItems?) && LocalFault(value, schema, path, issue)
  {
    hide Bound, BoundOf, AtLeast, AtMost, Get, KeywordsOf;
    BoundsRead(|value.items|, schema, "minItems", "maxItems");
    BoundsOf(schema);
  }

  lemma StringReads(value: Json, schema: Json, path: Path, issue: Issue)
    requires value.Str?
    ensures issue in LayerIssues(value, KeywordsOf(schema), path) <==>
            (issue.code.TooShort? || issue.code.TooLong?) && LocalFault(value, schema, path, issue)
  {
    hide Bound, BoundOf, AtLeast, AtMost, Get, KeywordsOf;
    BoundsRead(|value.s|, schema, "minLength", "maxLength");
    BoundsOf(schema);
  }

  /** Every code is about one kind of value. */
  lemma CodesApart(value: Json, schema: Json, path: Path, issue: Issue)
    requires LocalFault(value, schema, path, issue)
    ensures match issue.code
      case MissingRequired | UnknownField => value.Obj?
      case TooFewItems | TooManyItems => value.Arr?
      case TooShort | TooLong => value.Str?
      case UnresolvedRef | OneOfMismatch => false
      case _ => true
  {
  }

  lemma LayerReads(value: Json, schema: Json, path: Path, issue: Issue)
    ensures issue in LayerIssues(value, KeywordsOf(schema), path) <==>
            && !issue.code.WrongType? && !issue.code.NotConst? && !issue.code.NotInEnum?
            && LocalFault(value, schema, path, issue)
  {
    if LocalFault(value, schema, path, issue) {
      CodesApart(value, schema, path, issue);
    }
    if value.Obj? {
      ObjectReads(value, schema, path, issue);
    } else if value.Arr? {
      ArrayReads(value, schema, path, issue);
    } else if value.Str? {
      StringReads(value, schema, path, issue);
    } else {
      NothingElse(value, schema, path);
    }
    hide LayerIssues, LocalFault, KeywordsOf;
  }

  lemma NothingElse(value: Json, schema: Json, path: Path)
    requires !value.Obj? && !value.Arr? && !value.Str?
    ensures LayerIssues(value, KeywordsOf(schema), path) == []
  {
  }

  /** The issues of one layer are exactly the broken keywords, each with its own code and path. */
  lemma ShallowReads(value: Json, schema: Json, path: Path, issue: Issue)
    ensures issue in ShallowIssues(value, KeywordsOf(schema), path) <==>
            !issue.code.WrongType? && LocalFault(value, schema, path, issue)
  {
    ConstReads(value, schema, path, issue);
    EnumReads(value, schema, path, issue);
    LayerReads(value, schema, path, issue);
    hide LocalFault, KeywordsOf, When, LayerIssues, ConstOk, EnumOk;
  }

  // ---------------------------------------------------------------- children

  lemma DeclaredRead(schema: Json, name: string)
    ensures Lookup(KeywordsOf(schema).properties, name)
         == var declared := Get(schema, "properties"); if declared.Some? then Get(declared.value, name) else None
  {
    hide Entries, StringsIn, CheckedType, BoundOf;
    var declared := Get(schema, "properties");
    if declared.Some? && declared.value.Obj? {
      EntriesFind(declared.value.fields, name);
    }
  }

  lemma PropertyReads(value: Json, schema: Json, name: string, v: Json, s: Json)
    ensures ChildAt(value, schema, Key(name), v, s) <==>
            Get(value, name) == Some(v) && Lookup(KeywordsOf(schema).properties, name) == Some(s)
  {
    hide KeywordsOf, Get, Lookup;
    DeclaredRead(schema, name);
  }

  lemma ItemReads(value: Json, schema: Json, i: nat, v: Json, s: Json)
    ensures ChildAt(value, schema, Index(i), v, s) <==>
            value.Arr? && i < |value.items| && value.items[i] == v && KeywordsOf(schema).items == Some(s)
  {
  }
}
