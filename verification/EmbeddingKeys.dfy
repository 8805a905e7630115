/** Cache keys of the embedding cache; the SHA-256 digest is taken as injective, so a key is its material. */
module EmbeddingKeys {
  import opened Text

  datatype Role = Query | Passage

  /** The unit separator between the parts of the material. */
  const UNIT_SEPARATOR: char := '\U{1F}'

  function RoleName(role: Option<Role>): string {
    match role
    case None => "plain"
    case Some(Query) => "query"
    case Some(Passage) => "passage"
  }

  function RendererName(renderer: Option<string>): string {
    if renderer.Some? && renderer.value != "" then renderer.value else "plain"
  }

  /** `EmbeddingVectorCache.digest` before hashing. */
  function Material(
    fingerprint: string, namespace: string, renderer: Option<string>, role: Option<Role>, content: string): string
  {
    Join([fingerprint, namespace, RendererName(renderer), RoleName(role), content], UNIT_SEPARATOR)
  }

  predicate Plain(fingerprint: string, namespace: string, renderer: Option<string>) {
    && UNIT_SEPARATOR !in fingerprint
    && UNIT_SEPARATOR !in namespace
    && (renderer.Some? ==> UNIT_SEPARATOR !in renderer.value)
  }

  lemma MaterialParts(
    fingerprint: string, namespace: string, renderer: Option<string>, role: Option<Role>, content: string)
    requires Plain(fingerprint, namespace, renderer)
    ensures Split(Material(fingerprint, namespace, renderer, role, content), UNIT_SEPARATOR)
         == [fingerprint, namespace, RendererName(renderer), RoleName(role)] + Split(content, UNIT_SEPARATOR)
  {
    hide Split;
    var r, q := RendererName(renderer), RoleName(role);
    var four := [q, content];
    var three := [r] + four;
    var two := [namespace] + three;
    var one := [fingerprint] + two;
    assert one == [fingerprint, namespace, r, q, content];
    JoinStep(fingerprint, two);
    JoinStep(namespace, three);
    JoinStep(r, four);
    JoinStep(q, [content]);
    assert four == [q] + [content];
    assert Join([content], UNIT_SEPARATOR) == content;
  }

  lemma JoinStep(word: string, rest: seq<string>)
    requires UNIT_SEPARATOR !in word && |rest| > 0
    ensures Split(Join([word] + rest, UNIT_SEPARATOR), UNIT_SEPARATOR)
              == [word] + Split(Join(rest, UNIT_SEPARATOR), UNIT_SEPARATOR)
  {
    assert ([word] + rest)[1..] == rest;
    SplitStep(word, Join(rest, UNIT_SEPARATOR), UNIT_SEPARATOR);
  }

  /**
   * Without separators in the leading parts, two keys agree exactly when all their parts do, for
   * arbitrary content; a renderer counts by its name.
   */
  lemma EqualKeys(
    f1: string, n1: string, r1: Option<string>, q1: Option<Role>, c1: string,
    f2: string, n2: string, r2: Option<string>, q2: Option<Role>, c2: string)
    requires Plain(f1, n1, r1) && Plain(f2, n2, r2)
    ensures Material(f1, n1, r1, q1, c1) == Material(f2, n2, r2, q2, c2) <==>
            f1 == f2 && n1 == n2 && RendererName(r1) == RendererName(r2) && q1 == q2 && c1 == c2
  {
    hide Split, RendererName, RoleName;
    MaterialParts(f1, n1, r1, q1, c1);
    MaterialParts(f2, n2, r2, q2, c2);
    if Material(f1, n1, r1, q1, c1) == Material(f2, n2, r2, q2, c2) {
      var parts := Split(Material(f1, n1, r1, q1, c1), UNIT_SEPARATOR);
      assert parts[0] == f1 == f2 && parts[1] == n1 == n2;
      assert parts[2] == RendererName(r1) == RendererName(r2);
      assert parts[3] == RoleName(q1) == RoleName(q2);
      RoleNames(q1, q2);
      assert parts[4..] == Split(c1, UNIT_SEPARATOR) == Split(c2, UNIT_SEPARATOR);
      JoinSplit(c1, UNIT_SEPARATOR);
      JoinSplit(c2, UNIT_SEPARATOR);
    }
  }

  lemma RoleNames(a: Option<Role>, b: Option<Role>)
    ensures RoleName(a) == RoleName(b) <==> a == b
  {
    assert "plain"[0] != "query"[0] && |"plain"| != |"passage"| && |"query"| != |"passage"|;
  }

  /** The only renderers sharing a name are the absent one, the empty one and the literal "plain". */
  lemma SharedRendererName(a: Option<string>, b: Option<string>)
    ensures RendererName(a) == RendererName(b) <==>
            a == b || {a, b} <= {None, Some(""), Some("plain")}
  {
    assert a in {a, b} && b in {a, b};
  }

  lemma FiveParts(a: string, b: string, c: string, d: string, e: string)
    ensures var s := [UNIT_SEPARATOR];
      Join([a, b, c, d, e], UNIT_SEPARATOR) == a + s + (b + s + (c + s + (d + s + e)))
  {
    var s := UNIT_SEPARATOR;
    var four, three, two := [b, c, d, e], [c, d, e], [d, e];
    assert [a, b, c, d, e][1..] == four && four[1..] == three && three[1..] == two && two[1..] == [e];
    assert Join([e], s) == e;
    assert Join(two, s) == d + [s] + e;
    assert Join(three, s) == c + [s] + Join(two, s);
    assert Join(four, s) == b + [s] + Join(three, s);
  }

  /** A separator inside the namespace lets two different contents share a key. */
  lemma SeparatorConfuses(f: string, n: string, x: string, y: string, c: string)
    requires x != "" && y != ""
    ensures var s := [UNIT_SEPARATOR];
      var shifted := y + s + ("plain" + s + c);
      && shifted != c
      && Material(f, n + s + x + s + "plain", Some(y), None, c) == Material(f, n, Some(x), None, shifted)
  {
    var s := [UNIT_SEPARATOR];
    var p := "plain";
    FiveParts(f, n + s + x + s + p, y, p, c);
    FiveParts(f, n, x, p, y + s + (p + s + c));
    Reassociate(f, n, x, y, c, p, s);
  }

  lemma Reassociate(f: string, n: string, x: string, y: string, c: string, p: string, s: string)
    ensures f + s + ((n + s + x + s + p) + s + (y + s + (p + s + c)))
              == f + s + (n + s + (x + s + (p + s + (y + s + (p + s + c)))))
  {
    var tail := y + s + (p + s + c);
    assert (n + s + x + s + p) + s + tail == n + s + (x + s + (p + s + tail));
  }

  // ---------------------------------------------------------------- what a key names

  /** The vector a key stands for: one model identity, one role, one text. */
  datatype Source = Source(fingerprint: string, role: Option<Role>, text: string)

  /** The reading of a key whose content is the text itself. */
  function Parsed(key: string): Source {
    var parts := Split(key, UNIT_SEPARATOR);
    if |parts| < 5 then Source("", None, "")
    else
      Source(parts[0],
             if parts[3] == "query" then Some(Query) else if parts[3] == "passage" then Some(Passage) else None,
             Join(parts[4..], UNIT_SEPARATOR))
  }

  lemma ParsedMaterial(
    fingerprint: string, namespace: string, renderer: Option<string>, role: Option<Role>, content: string)
    requires Plain(fingerprint, namespace, renderer)
    ensures Parsed(Material(fingerprint, namespace, renderer, role, content)) == Source(fingerprint, role, content)
  {
    hide Split;
    MaterialParts(fingerprint, namespace, renderer, role, content);
    var parts := Split(Material(fingerprint, namespace, renderer, role, content), UNIT_SEPARATOR);
    assert parts[4..] == Split(content, UNIT_SEPARATOR);
    SplitNonempty(content);
    JoinSplit(content, UNIT_SEPARATOR);
    RoleNames(role, Some(Query));
    RoleNames(role, Some(Passage));
  }

  lemma SplitNonempty(s: string)
    ensures |Split(s, UNIT_SEPARATOR)| > 0
  {
  }
}
