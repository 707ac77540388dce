/** The sampling pipeline the demo recomputes on every render:
    normalize the scores, keep the first `topK` entries, select the top-p
    nucleus of those in descending order, and renormalize what is kept. */
module Pipeline {
  import opened Tokens
  import opened StableSort
  import opened Nucleus
  import ExampleTables

  function Min(a: nat, b: nat): nat
  {
    if a <= b then a else b
  }

  /** Divides every probability by the total. Used for the raw scores and again
      for the kept tokens. */
  function Normalize(s: seq<Token>): (r: seq<Token>)
    requires Sum(s) != 0.0
    ensures |r| == |s| && Words(r) == Words(s)
    ensures forall i :: 0 <= i < |s| ==> r[i].prob == s[i].prob / Sum(s)
    ensures Sum(r) == 1.0
  {
    SumScaleDown(s, Sum(s));
    DivideSelf(Sum(s));
    ScaleDown(s, Sum(s))
  }

  /** Normalizing non-negative scores gives probabilities in [0, 1], and
      positive scores stay positive. */
  lemma NormalizeInUnitInterval(s: seq<Token>)
    requires NonNegative(s) && Sum(s) > 0.0
    ensures forall t :: t in Normalize(s) ==> 0.0 <= t.prob <= 1.0
    ensures Positive(s) ==> Positive(Normalize(s))
  {
    var r := Normalize(s);
    forall t | t in r ensures 0.0 <= t.prob <= 1.0 && (Positive(s) ==> t.prob > 0.0) {
      var i :| 0 <= i < |r| && r[i] == t;
      assert s[i] in s;
      ElementAtMostSum(s, i);
      UnitQuotient(s[i].prob, Sum(s));
    }
  }

  // The three lemmas below state single facts of real division. Calling them
  // hands the solver the one nonlinear step it needs instead of leaving it to
  // search for that step among the sums in scope.

  lemma DivideSelf(d: real)
    requires d != 0.0
    ensures d / d == 1.0
  {
  }

  lemma PositiveQuotient(a: real, d: real)
    requires a > 0.0 && d > 0.0
    ensures a / d > 0.0
  {
  }

  lemma UnitQuotient(a: real, b: real)
    requires 0.0 <= a <= b && b > 0.0
    ensures 0.0 <= a / b <= 1.0
    ensures a > 0.0 ==> a / b > 0.0
  {
  }

  /** `normalizedTokens.slice(0, topK)`: the first `topK` entries by position,
      not the `topK` most probable, and not rescaled. */
  function TopK(s: seq<Token>, topK: nat): (r: seq<Token>)
    ensures |r| == Min(topK, |s|)
    ensures forall i :: 0 <= i < |r| ==> r[i] == s[i]
    ensures topK >= |s| ==> r == s
  {
    s[..Min(topK, |s|)]
  }

  /** The full pipeline of one render. The scores must be non-negative and the
      top-k slice of them must carry some mass; otherwise one of the two
      divisions would divide by zero (the demo has no guard: its tables always
      qualify, see `SampleExample`). */
  method Sample(raw: seq<Token>, topK: nat, topP: real) returns (finalTokens: seq<Token>)
    requires NonNegative(raw) && topK >= 1
    // The first divisor. It also follows from `NonNegative(raw)` and the next
    // condition, but the postconditions mention `Normalize(raw)`, which needs it
    // stated here.
    requires Sum(raw) > 0.0
    // The second divisor's source: the kept prefix's mass comes from this slice.
    requires Sum(raw[..Min(topK, |raw|)]) > 0.0
    ensures 1 <= |finalTokens| <= Min(topK, |raw|)
    ensures Sum(finalTokens) == 1.0
    ensures forall t :: t in finalTokens ==> 0.0 <= t.prob <= 1.0
    ensures Positive(raw) ==> Positive(finalTokens)
    ensures (exists t :: t in TopK(Normalize(raw), topK) && topP <= t.prob) ==> |finalTokens| == 1
    ensures Positive(raw) && topP >= 1.0 ==> |finalTokens| == Min(topK, |raw|)
    ensures
      var sorted := SortDesc(TopK(Normalize(raw), topK));
      && |finalTokens| == NucleusLength(sorted, topP)
      && IsNucleus(sorted, topP, |finalTokens|)
      && Sum(sorted[..|finalTokens|]) > 0.0
      && finalTokens == Normalize(sorted[..|finalTokens|])
  {
    var normalizedTokens := Normalize(raw);
    var topKFiltered := TopK(normalizedTokens, topK);
    TopKOfNormalizedMass(raw, topK);
    TopKOfNormalizedSign(raw, topK);
    var sortedTokens := SortDesc(topKFiltered);
    SortDescSameTokens(topKFiltered);
    DescendingHeadPositive(sortedTokens);
    var topPFiltered := TopP(sortedTokens, topP);
    if t :| t in topKFiltered && topP <= t.prob {
      assert t in sortedTokens;
      var j :| 0 <= j < |sortedTokens| && sortedTokens[j] == t;
      SingleTokenWhenTopPAtMostMax(sortedTokens, topP, |topPFiltered|);
    }
    if Positive(raw) && topP >= 1.0 {
      TopKOfNormalizedAtMostOne(raw, topK);
      KeepsAllWhenTotalAtMostTopP(sortedTokens, topP, |topPFiltered|);
    }
    KeptPrefixMass(sortedTokens, |topPFiltered|);
    finalTokens := Normalize(topPFiltered);
    if Positive(raw) {
      PrefixPositive(sortedTokens, |topPFiltered|);
    }
    NormalizeInUnitInterval(topPFiltered);
  }

  /** The top-k slice of the normalized scores carries mass whenever the same
      slice of the raw scores does. */
  lemma TopKOfNormalizedMass(raw: seq<Token>, topK: nat)
    requires Sum(raw) > 0.0
    requires Sum(raw[..Min(topK, |raw|)]) > 0.0
    ensures Sum(TopK(Normalize(raw), topK)) > 0.0
  {
    var m := Min(topK, |raw|);
    var n := Normalize(raw);
    assert TopK(n, topK) == n[..m];
    ScaledPrefixPositive(raw, m, Sum(raw));
  }

  /** The top-k slice of the normalized scores keeps their signs. */
  lemma TopKOfNormalizedSign(raw: seq<Token>, topK: nat)
    requires NonNegative(raw) && Sum(raw) > 0.0
    ensures NonNegative(TopK(Normalize(raw), topK))
    ensures Positive(raw) ==> Positive(TopK(Normalize(raw), topK))
  {
    var n := Normalize(raw);
    var r := TopK(n, topK);
    NormalizeInUnitInterval(raw);
    forall t | t in r ensures t in n {
      var i :| 0 <= i < |r| && r[i] == t;
      assert n[i] == t;
    }
  }

  /** The top-k slice of the normalized scores sums to at most 1. */
  lemma TopKOfNormalizedAtMostOne(raw: seq<Token>, topK: nat)
    requires NonNegative(raw) && Sum(raw) > 0.0
    ensures Sum(TopK(Normalize(raw), topK)) <= 1.0
  {
    var n := Normalize(raw);
    NormalizeInUnitInterval(raw);
    assert TopK(n, topK) == n[..Min(topK, |n|)];
    SumPrefixMonotone(n, Min(topK, |n|), |n|);
    assert n[..|n|] == n;
  }

  lemma ScaledPrefixPositive(s: seq<Token>, m: nat, d: real)
    requires d > 0.0 && m <= |s| && Sum(s[..m]) > 0.0
    ensures Sum(ScaleDown(s, d)[..m]) > 0.0
  {
    assert ScaleDown(s, d)[..m] == ScaleDown(s[..m], d);
    SumScaleDown(s[..m], d);
    PositiveQuotient(Sum(s[..m]), d);
  }

  /** A non-empty prefix of a descending sequence with positive head has positive mass. */
  lemma KeptPrefixMass(s: seq<Token>, n: nat)
    requires NonNegative(s) && s != [] && s[0].prob > 0.0 && 1 <= n <= |s|
    ensures NonNegative(s[..n]) && Sum(s[..n]) > 0.0
  {
    SumPrefixOne(s);
    SumPrefixMonotone(s, 1, n);
    forall t | t in s[..n] ensures t.prob >= 0.0 {
      var i :| 0 <= i < n && s[..n][i] == t;
      assert s[i] in s;
    }
  }

  /** One render of the demo: the selected example's table at the slider
      temperature, run through the pipeline. The tables always meet the
      pipeline's precondition, and every kept token has a positive share. */
  method SampleExample(ex: ExampleTables.Example, temperature: real, topK: nat, topP: real)
    returns (finalTokens: seq<Token>)
    requires temperature >= 0.0 && topK >= 1
    ensures 1 <= |finalTokens| <= Min(topK, 10)
    ensures Sum(finalTokens) == 1.0
    ensures forall t :: t in finalTokens ==> 0.0 < t.prob <= 1.0
    ensures
      var sorted := SortDesc(TopK(Normalize(ExampleTables.TopTokens(ex, temperature)), topK));
      && |finalTokens| == NucleusLength(sorted, topP)
      && Sum(sorted[..|finalTokens|]) > 0.0
      && finalTokens == Normalize(sorted[..|finalTokens|])
  {
    var rawTokens := ExampleTables.TopTokens(ex, temperature);
    var m := Min(topK, |rawTokens|);
    assert rawTokens[..m] != [];
    PrefixPositive(rawTokens, m);
    SumPositive(rawTokens[..m]);
    SumPositive(rawTokens);
    finalTokens := Sample(rawTokens, topK, topP);
  }
}
