/** The saturating input-token estimate (`token_budget.py`) against the plain sum it stands for. */
module TokenBudget {
  import opened Text

  /** What the estimator reads of a request: message texts, the contract's JSON text, the tool name. */
  datatype ModelRequest = ModelRequest(messages: seq<string>, contract: Option<string>, toolName: string)

  function AsciiCount(s: string): nat {
    if |s| == 0 then 0 else AsciiCount(s[..|s| - 1]) + if s[|s| - 1] as int < 128 then 1 else 0
  }

  /** ceil(a / 4) + ceil(u / 2). */
  function Rate(ascii: nat, other: nat): nat {
    (ascii + 3) / 4 + (other + 1) / 2
  }

  /** Enough tokens for four ASCII characters or two others each, and no more than needed. */
  lemma RateIsLeast(ascii: nat, other: nat)
    ensures exists x: nat, y: nat ::
      && Rate(ascii, other) == x + y
      && ascii <= 4 * x < ascii + 4
      && other <= 2 * y < other + 2
  {
    var x, y := (ascii + 3) / 4, (other + 1) / 2;
    assert Rate(ascii, other) == x + y && ascii <= 4 * x < ascii + 4 && other <= 2 * y < other + 2;
  }

  lemma {:induction false} AsciiAtMostLength(s: string)
    ensures AsciiCount(s) <= |s|
  {
    if |s| > 0 { AsciiAtMostLength(s[..|s| - 1]); }
  }

  /** The estimate of one text with no saturation. */
  ghost function Unsaturated(s: string): nat {
    AsciiAtMostLength(s);
    Rate(AsciiCount(s), |s| - AsciiCount(s))
  }

  /** Four characters per token at best, one at worst. */
  lemma UnsaturatedBounds(s: string)
    ensures |s| <= 4 * Unsaturated(s) && Unsaturated(s) <= |s|
  {
    AsciiAtMostLength(s);
  }

  ghost function UnsaturatedSum(texts: seq<string>): nat {
    if |texts| == 0 then 0 else UnsaturatedSum(texts[..|texts| - 1]) + Unsaturated(texts[|texts| - 1])
  }

  /** Every text that counts towards a request. */
  function TextsOf(r: ModelRequest): seq<string> {
    r.messages
    + (if r.contract.Some? then [r.contract.value] else [])
    + (if r.toolName != "" then [r.toolName] else [])
  }

  function Min(a: nat, b: nat): nat { if a <= b then a else b }

  // ---------------------------------------------------------------- what the estimator computes

  /** The value of `estimate_text`: the cap once the text is longer than the cap. */
  ghost function TextEstimate(s: string, maxChars: nat): nat {
    if |s| > maxChars then maxChars else Unsaturated(s)
  }

  ghost function EstimateSum(texts: seq<string>, maxChars: nat): nat {
    if |texts| == 0 then 0
    else EstimateSum(texts[..|texts| - 1], maxChars) + TextEstimate(texts[|texts| - 1], maxChars)
  }

  class TokenBudgetEstimator {
    const maxChars: nat

    constructor (maxChars: nat := 1_000_000)
      requires maxChars >= 1
      ensures this.maxChars == maxChars
    {
      this.maxChars := maxChars;
    }

    method EstimateText(s: string) returns (tokens: nat)
      ensures tokens == TextEstimate(s, maxChars) && tokens <= maxChars
    {
      var ascii, other: nat := 0, 0;
      UnsaturatedBounds(s);
      for k := 0 to |s|
        invariant k <= maxChars
        invariant ascii == AsciiCount(s[..k]) && ascii + other == k
      {
        assert s[..k + 1][..k] == s[..k];
        if k >= maxChars {
          return maxChars;
        }
        if s[k] as int < 128 {
          ascii := ascii + 1;
        } else {
          other := other + 1;
        }
      }
      assert s[..|s|] == s;
      tokens := (ascii + 3) / 4 + (other + 1) / 2;
    }

    method EstimateMessages(messages: seq<string>) returns (total: nat)
      ensures total == Min(maxChars, EstimateSum(messages, maxChars))
    {
      total := 0;
      for k := 0 to |messages|
        invariant total == Min(maxChars, EstimateSum(messages[..k], maxChars))
      {
        var tokens := EstimateText(messages[k]);
        assert messages[..k + 1][..k] == messages[..k];
        total := Min(maxChars, total + tokens);
        if total >= maxChars {
          EstimateGrows(messages, k + 1, maxChars);
          return maxChars;
        }
      }
      assert messages[..|messages|] == messages;
    }

    method EstimateRequest(r: ModelRequest) returns (total: nat)
      ensures total == Min(maxChars, EstimateSum(TextsOf(r), maxChars))
    {
      total := EstimateMessages(r.messages);
      ghost var texts := r.messages;
      if r.contract.Some? {
        var tokens := EstimateText(r.contract.value);
        total := Min(maxChars, total + tokens);
        EstimateAppend(texts, r.contract.value, maxChars);
        texts := texts + [r.contract.value];
      }
      if r.toolName != "" {
        var tokens := EstimateText(r.toolName);
        total := Min(maxChars, total + tokens);
        EstimateAppend(texts, r.toolName, maxChars);
        texts := texts + [r.toolName];
      }
      assert texts == TextsOf(r);
    }

    method EnsureWithin(r: ModelRequest, allowance: int) returns (verdict: Verdict)
      ensures verdict == InvalidAllowance <==> allowance < 1
      ensures allowance >= 1 ==> (verdict.Within? <==> Accepts(maxChars, r, allowance))
      ensures verdict.Within? ==> verdict.tokens == Min(maxChars, EstimateSum(TextsOf(r), maxChars))
    {
      if allowance < 1 {
        return InvalidAllowance;
      }
      var total := EstimateRequest(r);
      verdict := if total > allowance then BudgetExceeded else Within(total);
    }
  }

  datatype Verdict = Within(tokens: nat) | BudgetExceeded | InvalidAllowance

  ghost predicate Accepts(maxChars: nat, r: ModelRequest, allowance: nat) {
    Min(maxChars, EstimateSum(TextsOf(r), maxChars)) <= allowance
  }

  lemma EstimateAppend(texts: seq<string>, text: string, maxChars: nat)
    ensures EstimateSum(texts + [text], maxChars) == EstimateSum(texts, maxChars) + TextEstimate(text, maxChars)
  {
    assert (texts + [text])[..|texts|] == texts;
  }

  lemma {:induction false} EstimateGrows(texts: seq<string>, k: nat, maxChars: nat)
    requires k <= |texts|
    ensures EstimateSum(texts[..k], maxChars) <= EstimateSum(texts, maxChars)
    decreases |texts|
  {
    if k < |texts| {
      EstimateGrows(texts[..|texts| - 1], k, maxChars);
      assert texts[..|texts| - 1][..k] == texts[..k];
    } else {
      assert texts[..k] == texts;
    }
  }

  // ---------------------------------------------------------------- estimate against the plain sum

  /** Below its cap the saturating estimate never under-counts; it over-counts only texts past the cap. */
  lemma {:induction false} NeverUnderCounts(texts: seq<string>, maxChars: nat)
    ensures Min(maxChars, UnsaturatedSum(texts)) <= Min(maxChars, EstimateSum(texts, maxChars))
    ensures (forall i :: 0 <= i < |texts| ==> |texts[i]| <= maxChars) ==>
              EstimateSum(texts, maxChars) == UnsaturatedSum(texts)
  {
    if |texts| > 0 {
      NeverUnderCounts(texts[..|texts| - 1], maxChars);
    }
  }

  lemma {:induction false} LongTextDominates(texts: seq<string>, i: nat, maxChars: nat)
    requires i < |texts| && |texts[i]| > maxChars
    ensures EstimateSum(texts, maxChars) >= maxChars
    ensures 4 * UnsaturatedSum(texts) > maxChars
  {
    if i == |texts| - 1 {
      UnsaturatedBounds(texts[i]);
    } else {
      LongTextDominates(texts[..|texts| - 1], i, maxChars);
    }
  }

  /** With four times the allowance within the cap, the budget check is the unsaturated one. */
  lemma AcceptsWhenWithinQuarter(maxChars: nat, r: ModelRequest, allowance: nat)
    requires 1 <= allowance && 4 * allowance <= maxChars
    ensures Accepts(maxChars, r, allowance) <==> UnsaturatedSum(TextsOf(r)) <= allowance
  {
    var texts := TextsOf(r);
    NeverUnderCounts(texts, maxChars);
    if exists i :: 0 <= i < |texts| && |texts[i]| > maxChars {
      var i :| 0 <= i < |texts| && |texts[i]| > maxChars;
      LongTextDominates(texts, i, maxChars);
    }
  }

  function Repeat(c: char, n: nat): (s: string)
    ensures |s| == n
  {
    if n == 0 then "" else Repeat(c, n - 1) + [c]
  }

  lemma {:induction false} AsciiRepeat(n: nat)
    ensures AsciiCount(Repeat('a', n)) == n
  {
    if n > 0 {
      AsciiRepeat(n - 1);
      assert Repeat('a', n)[..n - 1] == Repeat('a', n - 1);
    }
  }

  ghost function OneMessage(n: nat): ModelRequest {
    ModelRequest([Repeat('a', n)], None, "")
  }

  lemma OneMessageSums(n: nat, maxChars: nat)
    ensures UnsaturatedSum(TextsOf(OneMessage(n))) == (n + 3) / 4
    ensures EstimateSum(TextsOf(OneMessage(n)), maxChars) == if n > maxChars then maxChars else (n + 3) / 4
  {
    AsciiRepeat(n);
    var texts := TextsOf(OneMessage(n));
    assert texts == [Repeat('a', n)] && texts[..0] == [];
  }

  /**
   The condition is exact: the check agrees with the unsaturated sum on every request if and only if four
   times the allowance is within the cap.
   */
  lemma AgreesIffWithinQuarter(maxChars: nat, allowance: nat)
    requires maxChars >= 1 && allowance >= 1
    ensures (forall r: ModelRequest :: Accepts(maxChars, r, allowance) <==> UnsaturatedSum(TextsOf(r)) <= allowance)
            <==> 4 * allowance <= maxChars
  {
    if 4 * allowance <= maxChars {
      forall r: ModelRequest ensures Accepts(maxChars, r, allowance) <==> UnsaturatedSum(TextsOf(r)) <= allowance {
        AcceptsWhenWithinQuarter(maxChars, r, allowance);
      }
    } else if allowance < maxChars {
      OneMessageSums(maxChars + 1, maxChars);
      var r := OneMessage(maxChars + 1);
      assert !Accepts(maxChars, r, allowance) && UnsaturatedSum(TextsOf(r)) <= allowance;
    } else {
      OneMessageSums(4 * allowance + 1, maxChars);
      var r := OneMessage(4 * allowance + 1);
      assert Accepts(maxChars, r, allowance) && UnsaturatedSum(TextsOf(r)) > allowance;
    }
  }

  const DEFAULT_MAX_CHARS: nat := 1_000_000
  const LARGEST_INPUT_ALLOWANCE: nat := 200_000

  /** Every valid profile's allowance is within a quarter of the default cap. */
  lemma DefaultCapIsExact(r: ModelRequest, allowance: nat)
    requires 1 <= allowance <= LARGEST_INPUT_ALLOWANCE
    ensures Accepts(DEFAULT_MAX_CHARS, r, allowance) <==> UnsaturatedSum(TextsOf(r)) <= allowance
  {
    AcceptsWhenWithinQuarter(DEFAULT_MAX_CHARS, r, allowance);
  }
}
