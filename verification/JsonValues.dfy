/** JSON values as Python holds them after `json.loads`: objects keep insertion order. */
module JsonValues {
  import opened Text

  datatype Field = Field(key: string, value: Json)

  datatype Json =
    | Null
    | Bool(b: bool)
    | Int(n: int)
    | Float(r: real)
    | Infinity(positive: bool)
    | NaN
    | Str(s: string)
    | Arr(items: seq<Json>)
    | Obj(fields: seq<Field>)

  /** `mapping.get(key)`, with None for an absent key. */
  function Lookup(fields: seq<Field>, key: string): (r: Option<Json>)
    ensures r.Some? ==> exists i :: 0 <= i < |fields| && fields[i] == Field(key, r.value)
    ensures r.None? ==> forall i :: 0 <= i < |fields| ==> fields[i].key != key
  {
    if |fields| == 0 then None
    else if fields[0].key == key then
      assert fields[0] == Field(key, fields[0].value);
      Some(fields[0].value)
    else
      assert forall i :: 0 < i < |fields| ==> fields[i] == fields[1..][i - 1];
      Lookup(fields[1..], key)
  }

  /** `mapping.items()`: one entry per key, in order; a repeated key keeps what `Lookup` finds. */
  function Entries(fields: seq<Field>): (entries: seq<Field>)
    ensures forall e :: e in entries ==> e in fields
    ensures forall i, j :: 0 <= i < j < |entries| ==> entries[i].key != entries[j].key
  {
    if |fields| == 0 then []
    else
      var last := |fields| - 1;
      var before := Entries(fields[..last]);
      if Lookup(before, fields[last].key).Some? then before else before + [fields[last]]
  }

  function Get(j: Json, key: string): Option<Json> {
    if j.Obj? then Lookup(j.fields, key) else None
  }

  predicate Has(j: Json, key: string) {
    Get(j, key).Some?
  }

  /** The number a value stands for in a Python comparison; bool is a subclass of int. */
  function Numeric(j: Json): Option<real> {
    match j
    case Bool(b) => Some(if b then 1.0 else 0.0)
    case Int(n) => Some(n as real)
    case Float(r) => Some(r)
    case _ => None
  }

  /** What `isinstance(x, int)` admits, as the integer it compares as. */
  function IntLike(j: Json): Option<int> {
    match j
    case Bool(b) => Some(if b then 1 else 0)
    case Int(n) => Some(n)
    case _ => None
  }

  /** Python `==`: 1 == True == 1.0, NaN equals nothing, dict equality ignores order. */
  predicate PyEq(a: Json, b: Json)
    decreases a
  {
    if Numeric(a).Some? then Numeric(a) == Numeric(b)
    else match (a, b)
      case (Null, Null) => true
      case (Infinity(p), Infinity(q)) => p == q
      case (Str(s), Str(t)) => s == t
      case (Arr(xs), Arr(ys)) =>
        |xs| == |ys| && forall i :: 0 <= i < |xs| ==> PyEq(xs[i], ys[i])
      case (Obj(fs), Obj(gs)) =>
        && |fs| == |gs|
        && forall i :: 0 <= i < |fs| ==>
            var other := Lookup(gs, fs[i].key);
            other.Some? && PyEq(fs[i].value, other.value)
      case _ => false
  }

  /** Numbers compare by value whatever their type; the other kinds only equal their own. */
  lemma EqualKinds(a: Json, b: Json)
    requires PyEq(a, b)
    ensures a.Str? || b.Str? ==> a == b
    ensures a.Null? || b.Null? ==> a == b
    ensures a.Infinity? || b.Infinity? ==> a == b
    ensures a.Arr? <==> b.Arr?
    ensures a.Obj? <==> b.Obj?
    ensures !a.NaN? && !b.NaN?
  {
  }

  lemma EqualNumbers(n: int, b: bool, r: real)
    ensures PyEq(Int(n), Bool(b)) <==> n == if b then 1 else 0
    ensures PyEq(Int(n), Float(r)) <==> n as real == r
    ensures PyEq(Bool(b), Float(r)) <==> r == if b then 1.0 else 0.0
  {
  }

  /** What `json.loads` gives has distinct keys; values without NaN equal themselves. */
  ghost predicate Proper(j: Json) {
    match j
    case NaN => false
    case Arr(items) => forall i :: 0 <= i < |items| ==> Proper(items[i])
    case Obj(fields) =>
      && (forall i :: 0 <= i < |fields| ==> Proper(fields[i].value))
      && forall i, k :: 0 <= i < k < |fields| ==> fields[i].key != fields[k].key
    case _ => true
  }

  lemma {:induction false} EqualsItself(j: Json)
    requires Proper(j)
    ensures PyEq(j, j)
  {
    match j {
      case Arr(items) =>
        forall i | 0 <= i < |items| ensures PyEq(items[i], items[i]) {
          EqualsItself(items[i]);
        }
      case Obj(fields) =>
        forall i | 0 <= i < |fields|
          ensures Lookup(fields, fields[i].key) == Some(fields[i].value) && PyEq(fields[i].value, fields[i].value)
        {
          EqualsItself(fields[i].value);
          FoundByKey(fields, i);
        }
      case _ =>
    }
  }

  lemma FoundByKey(fields: seq<Field>, i: nat)
    requires i < |fields| && forall k, l :: 0 <= k < l < |fields| ==> fields[k].key != fields[l].key
    ensures Lookup(fields, fields[i].key) == Some(fields[i].value)
  {
    var found := Lookup(fields, fields[i].key);
    var k :| 0 <= k < |fields| && fields[k] == Field(fields[i].key, found.value);
  }
}
