/**
 What a schema demands of a value, read off the schema's own JSON, and which issue each broken demand
 is.  The checker's report is judged against this meaning; nothing here depends on the checker.
 */
module SchemaMeaning {
  import opened Text
  import opened JsonValues

  datatype Segment = Key(name: string) | Index(i: nat)

  /** `[]` renders as "$". */
  type Path = seq<Segment>

  datatype Code =
    | UnresolvedRef | OneOfMismatch | WrongType(expected: string) | NotConst | NotInEnum
    | MissingRequired | UnknownField | TooFewItems | TooManyItems | TooShort | TooLong

  datatype Issue = Issue(path: Path, code: Code)

  // ---------------------------------------------------------------- which keyword rules a node

  /** A local reference hides every other keyword of its node. */
  ghost predicate RefersTo(schema: Json, pointer: string) {
    Get(schema, "$ref") == Some(Str("#/" + pointer))
  }

  ghost predicate IsReference(schema: Json) {
    exists pointer :: RefersTo(schema, pointer)
  }

  /** A list of alternatives hides every keyword but a reference. */
  ghost predicate Offers(schema: Json, options: seq<Json>) {
    !IsReference(schema) && Get(schema, "oneOf") == Some(Arr(options))
  }

  ghost predicate IsPlain(schema: Json) {
    !IsReference(schema) && forall options :: !Offers(schema, options)
  }

  // ---------------------------------------------------------------- references

  /** RFC 6901, section 4, in one pass; a tilde before anything else stands for itself. */
  function Unescaped(raw: string): string {
    if |raw| < 2 then raw
    else if raw[0] == '~' && raw[1] == '1' then "/" + Unescaped(raw[2..])
    else if raw[0] == '~' && raw[1] == '0' then "~" + Unescaped(raw[2..])
    else [raw[0]] + Unescaped(raw[1..])
  }

  /** Each node holds the next one under the name that its part of the pointer stands for. */
  ghost predicate Chain(nodes: seq<Json>, parts: seq<string>) {
    && |nodes| == |parts| + 1
    && forall i :: 0 <= i < |parts| ==> Get(nodes[i], Unescaped(parts[i])) == Some(nodes[i + 1])
  }

  ghost predicate ChainTo(root: Json, parts: seq<string>, nodes: seq<Json>, target: Json) {
    Chain(nodes, parts) && nodes[0] == root && nodes[|parts|] == target
  }

  ghost predicate Leads(root: Json, pointer: string, target: Json) {
    exists nodes :: ChainTo(root, Split(pointer, '/'), nodes, target)
  }

  // ---------------------------------------------------------------- one node and one layer of a value

  /** The types that are checked: a union type, "number" and "null" are not among them. */
  ghost predicate BreaksType(value: Json, name: string) {
    || (name == "object" && !value.Obj?)
    || (name == "array" && !value.Arr?)
    || (name == "string" && !value.Str?)
    || (name == "boolean" && !value.Bool?)
    || (name == "integer" && !value.Int?)
  }

  ghost predicate TypeHolds(value: Json, schema: Json) {
    forall name :: Get(schema, "type") == Some(Str(name)) ==> !BreaksType(value, name)
  }

  /** A keyword whose value is an integer, or a boolean standing for 0 or 1. */
  ghost predicate Bound(schema: Json, keyword: string, n: int) {
    || Get(schema, keyword) == Some(Int(n))
    || (n == 0 && Get(schema, keyword) == Some(Bool(false)))
    || (n == 1 && Get(schema, keyword) == Some(Bool(true)))
  }

  /** The list under `enum` has no member equal to the value. */
  ghost predicate Excludes(schema: Json, value: Json, options: seq<Json>) {
    Get(schema, "enum") == Some(Arr(options)) && forall option :: option in options ==> !PyEq(value, option)
  }

  ghost predicate Demands(schema: Json, name: string) {
    exists names :: Get(schema, "required") == Some(Arr(names)) && Str(name) in names
  }

  /** The declared properties are the only ones allowed. */
  ghost predicate ClosedTo(schema: Json, fields: seq<Field>) {
    Get(schema, "additionalProperties") == Some(Bool(false)) && Get(schema, "properties") == Some(Obj(fields))
  }

  /** One broken keyword of a plain node, where it is reported, and its code. */
  ghost predicate LocalFault(value: Json, schema: Json, path: Path, issue: Issue) {
    match issue.code
    case WrongType(name) =>
      issue.path == path && Get(schema, "type") == Some(Str(name)) && BreaksType(value, name)
    case NotConst =>
      issue.path == path && exists constant :: Get(schema, "const") == Some(constant) && !PyEq(value, constant)
    case NotInEnum => issue.path == path && exists options :: Excludes(schema, value, options)
    case MissingRequired =>
      value.Obj? && exists name :: issue.path == path + [Key(name)] && Demands(schema, name) && !Has(value, name)
    case UnknownField =>
      value.Obj? && exists name, fields ::
        issue.path == path + [Key(name)] && Has(value, name) && ClosedTo(schema, fields) && Lookup(fields, name).None?
    case TooFewItems =>
      issue.path == path && value.Arr? && exists n :: Bound(schema, "minItems", n) && |value.items| < n
    case TooManyItems =>
      issue.path == path && value.Arr? && exists n :: Bound(schema, "maxItems", n) && n < |value.items|
    case TooShort =>
      issue.path == path && value.Str? && exists n :: Bound(schema, "minLength", n) && |value.s| < n
    case TooLong =>
      issue.path == path && value.Str? && exists n :: Bound(schema, "maxLength", n) && n < |value.s|
    case _ => false
  }

  /** No keyword of the node is broken by this layer of the value. */
  ghost predicate LocallyOk(value: Json, schema: Json) {
    forall issue :: !LocalFault(value, schema, [], issue)
  }

  /** `v` is a property or an item of `value` that the node constrains by `s`. */
  ghost predicate ChildAt(value: Json, schema: Json, segment: Segment, v: Json, s: Json) {
    match segment
    case Key(name) =>
      && Get(value, name) == Some(v)
      && exists declared :: Get(schema, "properties") == Some(declared) && Get(declared, name) == Some(s)
    case Index(i) =>
      && value.Arr? && i < |value.items| && value.items[i] == v
      && Get(schema, "items") == Some(s) && s != Null
  }

  // ---------------------------------------------------------------- conformance

  /** A derivation of at most this height shows that the value satisfies the schema. */
  ghost predicate Satisfies(root: Json, height: nat, value: Json, schema: Json)
    decreases height, 0
  {
    height > 0 && SatisfiedFrom(root, height - 1, value, schema)
  }

  /** A derivation of at most this height shows that the value violates the schema. */
  ghost predicate Violates(root: Json, height: nat, value: Json, schema: Json)
    decreases height, 0
  {
    height > 0 && ViolatedFrom(root, height - 1, value, schema)
  }

  /** The last step of a derivation: the target, exactly one alternative, or the layer and every child. */
  ghost predicate SatisfiedFrom(root: Json, h: nat, value: Json, schema: Json)
    decreases h, 3
  {
    || (exists pointer :: RefersTo(schema, pointer) && TargetSatisfied(root, h, value, pointer))
    || (exists options :: Offers(schema, options) && OneMatch(root, h, value, options))
    || (IsPlain(schema) && LocallyOk(value, schema) && AllSatisfied(root, h, value, schema))
  }

  /** No target or a violated one, no alternative or two of them, or the layer or some child. */
  ghost predicate ViolatedFrom(root: Json, h: nat, value: Json, schema: Json)
    decreases h, 3
  {
    || (exists pointer :: RefersTo(schema, pointer) && TargetViolated(root, h, value, pointer))
    || (exists options :: Offers(schema, options) && Mismatch(root, h, value, options))
    || (IsPlain(schema) && (!LocallyOk(value, schema) || SomeViolated(root, h, value, schema)))
  }

  ghost predicate TargetSatisfied(root: Json, h: nat, value: Json, pointer: string)
    decreases h, 1
  {
    exists target :: Leads(root, pointer, target) && Satisfies(root, h, value, target)
  }

  ghost predicate TargetViolated(root: Json, h: nat, value: Json, pointer: string)
    decreases h, 1
  {
    forall target :: Leads(root, pointer, target) ==> Violates(root, h, value, target)
  }

  ghost predicate AllSatisfied(root: Json, h: nat, value: Json, schema: Json)
    decreases h, 1
  {
    forall segment, v, s :: ChildAt(value, schema, segment, v, s) ==> Satisfies(root, h, v, s)
  }

  ghost predicate SomeViolated(root: Json, h: nat, value: Json, schema: Json)
    decreases h, 1
  {
    exists segment, v, s :: ChildAt(value, schema, segment, v, s) && Violates(root, h, v, s)
  }

  ghost predicate OneMatch(root: Json, h: nat, value: Json, options: seq<Json>)
    decreases h, 1
  {
    exists i :: 0 <= i < |options| && Satisfies(root, h, value, options[i])
                && forall j :: 0 <= j < |options| && j != i ==> Violates(root, h, value, options[j])
  }

  ghost predicate SeveralMatch(root: Json, h: nat, value: Json, options: seq<Json>)
    decreases h, 1
  {
    exists i, j :: 0 <= i < j < |options|
                   && Satisfies(root, h, value, options[i]) && Satisfies(root, h, value, options[j])
  }

  ghost predicate NoMatch(root: Json, h: nat, value: Json, options: seq<Json>)
    decreases h, 1
  {
    forall i :: 0 <= i < |options| ==> Violates(root, h, value, options[i])
  }

  ghost predicate Mismatch(root: Json, h: nat, value: Json, options: seq<Json>)
    decreases h, 2
  {
    NoMatch(root, h, value, options) || SeveralMatch(root, h, value, options)
  }

  ghost predicate Conforms(root: Json, value: Json, schema: Json) {
    exists height: nat :: Satisfies(root, height, value, schema)
  }

  // ---------------------------------------------------------------- faults

  /** A derivation of at most this height leads from the node to the fault that the issue names. */
  ghost predicate Fault(root: Json, height: nat, value: Json, schema: Json, path: Path, issue: Issue)
    decreases height, 0
  {
    height > 0 && FaultFrom(root, height - 1, value, schema, path, issue)
  }

  ghost predicate FaultFrom(root: Json, h: nat, value: Json, schema: Json, path: Path, issue: Issue)
    decreases h, 3
  {
    || (exists pointer :: RefersTo(schema, pointer) && TargetFault(root, h, value, pointer, path, issue))
    || (issue == Issue(path, OneOfMismatch)
        && exists options :: Offers(schema, options) && Mismatch(root, h, value, options))
    || (IsPlain(schema) && NodeFault(root, h, value, schema, path, issue))
  }

  ghost predicate TargetFault(root: Json, h: nat, value: Json, pointer: string, path: Path, issue: Issue)
    decreases h, 1
  {
    || (issue == Issue(path, UnresolvedRef) && forall target :: !Leads(root, pointer, target))
    || exists target :: Leads(root, pointer, target) && Fault(root, h, value, target, path, issue)
  }

  /** A value of the wrong type is reported for that alone. */
  ghost predicate NodeFault(root: Json, h: nat, value: Json, schema: Json, path: Path, issue: Issue)
    decreases h, 2
  {
    if !TypeHolds(value, schema) then issue.code.WrongType? && LocalFault(value, schema, path, issue)
    else LocalFault(value, schema, path, issue) || ChildFault(root, h, value, schema, path, issue)
  }

  ghost predicate ChildFault(root: Json, h: nat, value: Json, schema: Json, path: Path, issue: Issue)
    decreases h, 1
  {
    exists segment, v, s :: ChildAt(value, schema, segment, v, s) && Fault(root, h, v, s, path + [segment], issue)
  }

  ghost predicate Faulty(root: Json, value: Json, schema: Json, path: Path, issue: Issue) {
    exists height: nat :: Fault(root, height, value, schema, path, issue)
  }

  lemma FaultUnfolds(root: Json, h: nat, value: Json, schema: Json, path: Path, issue: Issue)
    ensures Fault(root, h + 1, value, schema, path, issue) <==> FaultFrom(root, h, value, schema, path, issue)
  {
    hide FaultFrom;
  }

  lemma FaultIfRefers(
    root: Json, h: nat, value: Json, schema: Json, pointer: string, path: Path, issue: Issue)
    requires RefersTo(schema, pointer)
    ensures Fault(root, h + 1, value, schema, path, issue) <==> TargetFault(root, h, value, pointer, path, issue)
  {
    hide Fault, RefersTo, Offers, TargetFault, NodeFault, Mismatch;
    FaultUnfolds(root, h, value, schema, path, issue);
    OneReading(schema);
  }

  lemma FaultIfOffers(
    root: Json, h: nat, value: Json, schema: Json, options: seq<Json>, path: Path, issue: Issue)
    requires Offers(schema, options)
    ensures Fault(root, h + 1, value, schema, path, issue) <==>
            issue == Issue(path, OneOfMismatch) && Mismatch(root, h, value, options)
  {
    hide Fault, RefersTo, Offers, TargetFault, NodeFault, Mismatch;
    FaultUnfolds(root, h, value, schema, path, issue);
    OneReading(schema);
  }

  lemma FaultIfPlain(root: Json, h: nat, value: Json, schema: Json, path: Path, issue: Issue)
    requires IsPlain(schema)
    ensures Fault(root, h + 1, value, schema, path, issue) <==> NodeFault(root, h, value, schema, path, issue)
  {
    hide Fault, RefersTo, Offers, TargetFault, NodeFault, Mismatch;
    FaultUnfolds(root, h, value, schema, path, issue);
  }

  // ---------------------------------------------------------------- nothing satisfies and violates

  lemma {:induction false} NotBoth(root: Json, h: nat, k: nat, value: Json, schema: Json)
    ensures !(Satisfies(root, h, value, schema) && Violates(root, k, value, schema))
    decreases h + k
  {
    hide SatisfiedFrom, ViolatedFrom;
    if h > 0 && k > 0 {
      var i, j := h - 1, k - 1;
      forall v, s | Satisfies(root, i, v, s) ensures !Violates(root, j, v, s) {
        NotBoth(root, i, j, v, s);
      }
      forall v, s | Satisfies(root, j, v, s) ensures !Violates(root, i, v, s) {
        NotBoth(root, j, i, v, s);
      }
      NotBothFrom(root, i, j, value, schema);
    }
  }

  /** No pair is satisfied at height `h` and violated at height `k`. */
  ghost predicate Apart(root: Json, h: nat, k: nat) {
    forall v, s :: Satisfies(root, h, v, s) ==> !Violates(root, k, v, s)
  }

  lemma NotBothFrom(root: Json, h: nat, k: nat, value: Json, schema: Json)
    requires Apart(root, h, k) && Apart(root, k, h)
    ensures !(SatisfiedFrom(root, h, value, schema) && ViolatedFrom(root, k, value, schema))
  {
    hide Apart, RefersTo, LocallyOk, Offers, TargetSatisfied, TargetViolated, OneMatch, Mismatch;
    hide AllSatisfied, SomeViolated;
    forall pointer ensures !(TargetSatisfied(root, h, value, pointer) && TargetViolated(root, k, value, pointer)) {
      NotBothTargets(root, h, k, value, pointer);
    }
    forall options ensures !(OneMatch(root, h, value, options) && Mismatch(root, k, value, options)) {
      NotOneAndOther(root, h, k, value, options);
    }
    NotAllAndSome(root, h, k, value, schema);
    OneReading(schema);
  }

  /** A node has one reading: one pointer, or one list of alternatives, or neither. */
  lemma OneReading(schema: Json)
    ensures forall p, q :: RefersTo(schema, p) && RefersTo(schema, q) ==> p == q
    ensures forall a, b :: Offers(schema, a) && Offers(schema, b) ==> a == b
    ensures forall a :: Offers(schema, a) ==> !IsReference(schema)
  {
    forall p, q | RefersTo(schema, p) && RefersTo(schema, q) ensures p == q {
      assert ("#/" + p)[2..] == p && ("#/" + q)[2..] == q;
    }
  }

  lemma NotBothTargets(root: Json, h: nat, k: nat, value: Json, pointer: string)
    requires Apart(root, h, k)
    ensures !(TargetSatisfied(root, h, value, pointer) && TargetViolated(root, k, value, pointer))
  {
    hide Satisfies, Violates, Leads;
  }

  lemma NotOneAndOther(root: Json, h: nat, k: nat, value: Json, options: seq<Json>)
    requires Apart(root, h, k) && Apart(root, k, h)
    ensures !(OneMatch(root, h, value, options) && Mismatch(root, k, value, options))
  {
    hide Satisfies, Violates, NoMatch, SeveralMatch, OneMatch, Apart;
    NotOneAndNone(root, h, k, value, options);
    NotOneAndSeveral(root, h, k, value, options);
  }

  lemma NotOneAndNone(root: Json, h: nat, k: nat, value: Json, options: seq<Json>)
    requires Apart(root, h, k)
    ensures !(OneMatch(root, h, value, options) && NoMatch(root, k, value, options))
  {
    hide Satisfies, Violates;
  }

  lemma NotOneAndSeveral(root: Json, h: nat, k: nat, value: Json, options: seq<Json>)
    requires Apart(root, k, h)
    ensures !(OneMatch(root, h, value, options) && SeveralMatch(root, k, value, options))
  {
    hide Satisfies, Violates;
  }

  lemma NotAllAndSome(root: Json, h: nat, k: nat, value: Json, schema: Json)
    requires Apart(root, h, k)
    ensures !(AllSatisfied(root, h, value, schema) && SomeViolated(root, k, value, schema))
  {
    hide Satisfies, Violates, ChildAt;
  }

  lemma ViolatingIsNotConforming(root: Json, k: nat, value: Json, schema: Json)
    requires Violates(root, k, value, schema)
    ensures !Conforms(root, value, schema)
  {
    hide Satisfies, Violates;
    forall h: nat ensures !Satisfies(root, h, value, schema) {
      NotBoth(root, h, k, value, schema);
    }
  }
}
