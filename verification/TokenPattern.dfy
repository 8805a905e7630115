/** The token pattern of the soft budget, `\w+|[^\w\s]`: what it matches, and how matches add up. */
module TokenPattern {
  import opened Text

  /** The two character classes of the token pattern `\w+|[^\w\s]`. */
  datatype Classes = Classes(word: char -> bool, space: char -> bool)

  /** What the pattern's classes satisfy for the characters the renderer itself writes. */
  ghost predicate Regular(c: Classes) {
    && (forall x :: !(c.word(x) && c.space(x)))
    && c.space('\n')
    && c.word('M')
    && (forall x :: IsDigit(x) ==> c.word(x))
    && !c.word(':') && !c.space(':')
  }

  /** Length of the maximal run of word characters at the front. */
  function WordRun(c: Classes, s: string): (k: nat)
    ensures k <= |s|
  {
    if s != "" && c.word(s[0]) then 1 + WordRun(c, s[1..]) else 0
  }

  /** `TOKEN_RE.findall`. */
  function FindAll(c: Classes, s: string): seq<string>
    decreases |s|
  {
    if s == "" then []
    else if c.word(s[0]) then [s[..WordRun(c, s)]] + FindAll(c, s[WordRun(c, s)..])
    else if c.space(s[0]) then FindAll(c, s[1..])
    else [[s[0]]] + FindAll(c, s[1..])
  }

  // ---------------------------------------------------------------- what the matches are

  /** A word character not behind another one. */
  predicate StartsWordAt(c: Classes, s: string, i: nat) {
    i < |s| && c.word(s[i]) && (i == 0 || !c.word(s[i - 1]))
  }

  /** A character that is neither part of a word nor space. */
  predicate MarkAt(c: Classes, s: string, i: nat) {
    i < |s| && !c.word(s[i]) && !c.space(s[i])
  }

  /** `t` is the match that starts at position i: a word up to its end, or one mark. */
  ghost predicate TokenAt(c: Classes, s: string, i: nat, t: string) {
    && i + |t| <= |s| && t == s[i..i + |t|] && |t| > 0
    && if c.word(s[i]) then
         StartsWordAt(c, s, i) && (forall k :: 0 <= k < |t| ==> c.word(t[k]))
         && (i + |t| == |s| || !c.word(s[i + |t|]))
       else MarkAt(c, s, i) && |t| == 1
  }

  /** The number of tokens: one for each word and one for each mark. */
  ghost function Tokens(c: Classes, s: string): nat {
    |WordStarts(c, s, 0)| + |Marks(c, s, 0)|
  }

  ghost function WordStarts(c: Classes, s: string, from: nat): set<nat> {
    set i: nat | from <= i < |s| && StartsWordAt(c, s, i)
  }

  ghost function Marks(c: Classes, s: string, from: nat): set<nat> {
    set i: nat | from <= i < |s| && MarkAt(c, s, i)
  }

  /** The positions of words and marks, in order. */
  ghost function Starts(c: Classes, s: string, from: nat): seq<nat>
    requires from <= |s|
    decreases |s| - from
  {
    if from == |s| then []
    else (if StartsWordAt(c, s, from) || MarkAt(c, s, from) then [from] else []) + Starts(c, s, from + 1)
  }

  lemma {:induction false} StartsAscend(c: Classes, s: string, from: nat)
    requires from <= |s|
    ensures var starts := Starts(c, s, from);
      && (forall k :: 0 <= k < |starts| ==> from <= starts[k])
      && (forall a, b :: 0 <= a < b < |starts| ==> starts[a] < starts[b])
      && (forall i :: i in starts <==> from <= i && (StartsWordAt(c, s, i) || MarkAt(c, s, i)))
    decreases |s| - from
  {
    if from < |s| {
      StartsAscend(c, s, from + 1);
    }
  }

  lemma WordStartsStep(c: Classes, s: string, from: nat)
    requires from < |s|
    ensures |WordStarts(c, s, from)| == |WordStarts(c, s, from + 1)| + if StartsWordAt(c, s, from) then 1 else 0
  {
    hide StartsWordAt;
    if StartsWordAt(c, s, from) {
      assert WordStarts(c, s, from) == {from} + WordStarts(c, s, from + 1);
    } else {
      assert WordStarts(c, s, from) == WordStarts(c, s, from + 1);
    }
  }

  lemma MarksStep(c: Classes, s: string, from: nat)
    requires from < |s|
    ensures |Marks(c, s, from)| == |Marks(c, s, from + 1)| + if MarkAt(c, s, from) then 1 else 0
  {
    hide MarkAt;
    if MarkAt(c, s, from) {
      assert Marks(c, s, from) == {from} + Marks(c, s, from + 1);
    } else {
      assert Marks(c, s, from) == Marks(c, s, from + 1);
    }
  }

  lemma {:induction false} StartsCounted(c: Classes, s: string, from: nat)
    requires from <= |s|
    ensures |Starts(c, s, from)| == |WordStarts(c, s, from)| + |Marks(c, s, from)|
    decreases |s| - from
  {
    if from < |s| {
      hide WordStarts, Marks;
      StartsCounted(c, s, from + 1);
      WordStartsStep(c, s, from);
      MarksStep(c, s, from);
    }
  }

  lemma {:induction false} WordRunIs(c: Classes, s: string)
    ensures var k := WordRun(c, s);
      (forall i :: 0 <= i < k ==> c.word(s[i])) && (k == |s| || !c.word(s[k]))
  {
    if s != "" && c.word(s[0]) {
      WordRunIs(c, s[1..]);
    }
  }

  /** No match starts inside a word. */
  lemma {:induction false} InsideWord(c: Classes, s: string, from: nat, to: nat)
    requires 0 < from <= to <= |s| && forall i :: from - 1 <= i < to ==> c.word(s[i])
    ensures Starts(c, s, from) == Starts(c, s, to)
    decreases |s| - from
  {
    if from < to {
      InsideWord(c, s, from + 1, to);
    }
  }

  ghost predicate Are(c: Classes, s: string, starts: seq<nat>, tokens: seq<string>) {
    |tokens| == |starts| && forall k :: 0 <= k < |starts| ==> TokenAt(c, s, starts[k], tokens[k])
  }

  lemma AreCons(c: Classes, s: string, start: nat, starts: seq<nat>, token: string, tokens: seq<string>)
    requires TokenAt(c, s, start, token) && Are(c, s, starts, tokens)
    ensures Are(c, s, [start] + starts, [token] + tokens)
  {
    hide TokenAt;
  }

  /** A word at this position is one match and one start. */
  lemma WordFound(c: Classes, s: string, from: nat) returns (to: nat)
    requires from < |s| && StartsWordAt(c, s, from)
    ensures from < to <= |s| && (to == |s| || !c.word(s[to]))
    ensures TokenAt(c, s, from, s[from..to])
    ensures FindAll(c, s[from..]) == [s[from..to]] + FindAll(c, s[to..])
    ensures Starts(c, s, from) == [from] + Starts(c, s, to)
  {
    var rest := s[from..];
    var k := WordRun(c, rest);
    to := from + k;
    WordRunIs(c, rest);
    assert forall i :: from <= i < to ==> s[i] == rest[i - from];
    assert k < |rest| ==> s[to] == rest[k];
    StartsWord(c, rest);
    InsideWord(c, s, from + 1, to);
    assert rest[k..] == s[to..] && rest[..k] == s[from..to];
  }

  lemma MarkFound(c: Classes, s: string, from: nat)
    requires from < |s| && MarkAt(c, s, from)
    ensures TokenAt(c, s, from, [s[from]])
    ensures FindAll(c, s[from..]) == [[s[from]]] + FindAll(c, s[from + 1..])
    ensures Starts(c, s, from) == [from] + Starts(c, s, from + 1)
  {
    assert s[from..][1..] == s[from + 1..];
  }

  lemma SpaceSkipped(c: Classes, s: string, from: nat)
    requires from < |s| && !c.word(s[from]) && c.space(s[from])
    ensures FindAll(c, s[from..]) == FindAll(c, s[from + 1..])
    ensures Starts(c, s, from) == Starts(c, s, from + 1)
  {
    assert s[from..][1..] == s[from + 1..];
  }

  lemma {:induction false} FoundFrom(c: Classes, s: string, from: nat)
    requires from <= |s| && (0 < from < |s| ==> !(c.word(s[from - 1]) && c.word(s[from])))
    ensures Are(c, s, Starts(c, s, from), FindAll(c, s[from..]))
    decreases |s| - from
  {
    hide FindAll, TokenAt, Starts, Are;
    if from == |s| {
      NothingFound(c, s);
    } else if c.word(s[from]) {
      var to := WordFound(c, s, from);
      FoundFrom(c, s, to);
      AreCons(c, s, from, Starts(c, s, to), s[from..to], FindAll(c, s[to..]));
    } else {
      FoundFrom(c, s, from + 1);
      if c.space(s[from]) {
        SpaceSkipped(c, s, from);
      } else {
        MarkFound(c, s, from);
        AreCons(c, s, from, Starts(c, s, from + 1), [s[from]], FindAll(c, s[from + 1..]));
      }
    }
  }

  lemma NothingFound(c: Classes, s: string)
    ensures Are(c, s, Starts(c, s, |s|), FindAll(c, s[|s|..]))
  {
  }

  /** The matches are the words and marks of the text, each once and in order, so their number is the count. */
  lemma FoundAre(c: Classes, s: string)
    ensures Are(c, s, Starts(c, s, 0), FindAll(c, s))
    ensures |FindAll(c, s)| == Tokens(c, s)
  {
    FoundFrom(c, s, 0);
    assert s[0..] == s;
    StartsCounted(c, s, 0);
  }

  function Spaceless(c: Classes, s: string): string {
    if s == "" then "" else (if c.space(s[0]) then "" else [s[0]]) + Spaceless(c, s[1..])
  }

  function Concat(tokens: seq<string>): string {
    if tokens == [] then "" else tokens[0] + Concat(tokens[1..])
  }

  lemma {:induction false} SpacelessPrefix(c: Classes, s: string, k: nat)
    requires k <= |s| && forall i :: 0 <= i < k ==> !c.space(s[i])
    ensures Spaceless(c, s) == s[..k] + Spaceless(c, s[k..])
  {
    if k > 0 {
      SpacelessPrefix(c, s[1..], k - 1);
      assert s[1..][k - 1..] == s[k..] && s[..k] == [s[0]] + s[1..][..k - 1];
    }
  }

  /** The matches together are the text without its space. */
  lemma {:induction false} NothingLost(c: Classes, s: string)
    requires Regular(c)
    ensures Concat(FindAll(c, s)) == Spaceless(c, s)
    decreases |s|
  {
    if s != "" {
      if c.word(s[0]) {
        var k := WordRun(c, s);
        WordRunIs(c, s);
        StartsWord(c, s);
        NothingLost(c, s[k..]);
        SpacelessPrefix(c, s, k);
        assert FindAll(c, s)[1..] == FindAll(c, s[k..]);
      } else {
        NothingLost(c, s[1..]);
        assert c.space(s[0]) || FindAll(c, s)[1..] == FindAll(c, s[1..]);
      }
    }
  }

  // ---------------------------------------------------------------- matches of parts

  lemma {:induction false} WordRunPrefix(c: Classes, a: string, b: string)
    requires b == "" || !c.word(b[0])
    ensures WordRun(c, a + b) == WordRun(c, a)
  {
    if a == "" {
      assert a + b == b;
    } else if c.word(a[0]) {
      WordRunPrefix(c, a[1..], b);
      assert (a + b)[1..] == a[1..] + b;
    }
  }

  lemma StartsWord(c: Classes, a: string)
    requires a != "" && c.word(a[0])
    ensures 0 < WordRun(c, a)
  {
  }

  /** Matches never cross a boundary in front of a non-word character. */
  lemma {:induction false} FindAllSplit(c: Classes, a: string, b: string)
    requires b == "" || !c.word(b[0])
    ensures FindAll(c, a + b) == FindAll(c, a) + FindAll(c, b)
    decreases |a|
  {
    hide WordRun;
    if a == "" {
      assert a + b == b;
    } else if c.word(a[0]) {
      assert 0 < WordRun(c, a) by { StartsWord(c, a); }
      WordRunPrefix(c, a, b);
      var k := WordRun(c, a);
      FindAllSplit(c, a[k..], b);
      assert (a + b)[k..] == a[k..] + b && (a + b)[..k] == a[..k];
    } else {
      FindAllSplit(c, a[1..], b);
      assert (a + b)[1..] == a[1..] + b;
    }
  }

  lemma {:induction false} AllWordRun(c: Classes, s: string)
    requires forall i :: 0 <= i < |s| ==> c.word(s[i])
    ensures WordRun(c, s) == |s|
  {
    if s != "" { AllWordRun(c, s[1..]); }
  }

  lemma OneWord(c: Classes, s: string)
    requires s != "" && forall i :: 0 <= i < |s| ==> c.word(s[i])
    ensures Tokens(c, s) == 1
  {
    AllWordRun(c, s);
    assert s[|s|..] == "" && s[..|s|] == s;
    assert FindAll(c, s) == [s] + FindAll(c, "");
    FoundAre(c, s);
  }

  /** Tokens add up over a boundary in front of a non-word character. */
  lemma TokensSplit(c: Classes, a: string, b: string)
    requires b == "" || !c.word(b[0])
    ensures Tokens(c, a + b) == Tokens(c, a) + Tokens(c, b)
  {
    hide FindAll, Tokens;
    FindAllSplit(c, a, b);
    FoundAre(c, a + b);
    FoundAre(c, a);
    FoundAre(c, b);
  }

  /** Space in front adds no token. */
  lemma TokensBehindSpace(c: Classes, x: char, rest: string)
    requires Regular(c) && c.space(x)
    ensures Tokens(c, [x] + rest) == Tokens(c, rest)
  {
    hide Tokens;
    assert ([x] + rest)[1..] == rest;
    FoundAre(c, [x] + rest);
    FoundAre(c, rest);
  }
}
