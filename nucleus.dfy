/** Top-p (nucleus) selection: walk the probability-sorted tokens, adding each one
    to the kept list and to the running total, and stop right after the token that
    brings the running total up to `topP`. */
module Nucleus {
  import opened Tokens
  import opened StableSort

  /** `n` is the length of the prefix the selection loop keeps from `s`: the
      shortest non-empty prefix whose total reaches `topP`, or all of `s` when no
      prefix does. */
  ghost predicate IsNucleus(s: seq<Token>, topP: real, n: nat)
  {
    && n <= |s|
    && (s != [] ==> n >= 1)
    && (forall m :: 1 <= m < n ==> Sum(s[..m]) < topP)
    && (n == |s| || Sum(s[..n]) >= topP)
  }

  /** Reference definition of the kept length, independent of the loop: keep the
      head; stop if it alone reaches the threshold (or nothing follows), otherwise
      select from the rest against what is still missing. */
  function NucleusLength(s: seq<Token>, topP: real): (n: nat)
    ensures n <= |s|
  {
    if s == [] then 0
    else if s[0].prob >= topP || |s| == 1 then 1
    else 1 + NucleusLength(s[1..], topP - s[0].prob)
  }

  /** The reference length is the one the loop keeps. */
  lemma {:induction false} NucleusLengthIsNucleus(s: seq<Token>, topP: real)
    ensures IsNucleus(s, topP, NucleusLength(s, topP))
  {
    if s != [] {
      var n := NucleusLength(s, topP);
      assert s[..1] == [s[0]];
      SumSingle(s[0]);
      if !(s[0].prob >= topP || |s| == 1) {
        var rest, p' := s[1..], topP - s[0].prob;
        NucleusLengthIsNucleus(rest, p');
        forall m | 1 <= m <= n
          ensures Sum(s[..m]) == s[0].prob + Sum(rest[..m - 1])
        {
          assert s[..m] == [s[0]] + rest[..m - 1];
          SumCons(s[0], rest[..m - 1]);
        }
        forall m | 1 <= m < n ensures Sum(s[..m]) < topP {
          if m > 1 {
            assert Sum(rest[..m - 1]) < p';
          } else {
            assert rest[..0] == [];
          }
        }
      }
    }
  }

  /** At most one length meets the description, so `IsNucleus` defines it. */
  lemma NucleusUnique(s: seq<Token>, topP: real, n1: nat, n2: nat)
    requires IsNucleus(s, topP, n1) && IsNucleus(s, topP, n2)
    ensures n1 == n2
  {
  }

  /** The selection loop. The token is pushed before the threshold test, so a
      non-empty input always keeps at least one token, even for `topP` 0. */
  method TopP(sortedTokens: seq<Token>, topP: real) returns (topPFiltered: seq<Token>)
    ensures IsNucleus(sortedTokens, topP, |topPFiltered|)
    ensures topPFiltered == sortedTokens[..NucleusLength(sortedTokens, topP)]
  {
    var cumProb := 0.0;
    topPFiltered := [];
    var i := 0;
    while i < |sortedTokens|
      invariant 0 <= i <= |sortedTokens|
      invariant topPFiltered == sortedTokens[..i]
      invariant cumProb == Sum(topPFiltered)
      invariant forall m :: 1 <= m <= i ==> Sum(sortedTokens[..m]) < topP
    {
      assert sortedTokens[..i + 1][..i] == sortedTokens[..i];
      cumProb := cumProb + sortedTokens[i].prob;
      topPFiltered := topPFiltered + [sortedTokens[i]];
      i := i + 1;
      if cumProb >= topP {
        break;
      }
    }
    NucleusLengthIsNucleus(sortedTokens, topP);
    NucleusUnique(sortedTokens, topP, i, NucleusLength(sortedTokens, topP));
  }

  /** If `topP` is at most the largest probability of a descending sequence (its
      head), exactly one token is kept; stated against the loop's description. */
  lemma SingleTokenWhenTopPAtMostMax(s: seq<Token>, topP: real, n: nat)
    requires Descending(s) && s != []
    requires topP <= s[0].prob
    requires IsNucleus(s, topP, n)
    ensures n == 1
  {
    SumPrefixOne(s);
  }

  /** With strictly positive probabilities and a threshold no smaller than the
      total, every token is kept: no proper prefix reaches it. In the pipeline the
      top-k slice of a normalized table sums to at most 1, so `topP` = 1 keeps it all. */
  lemma {:induction false} KeepsAllWhenTotalAtMostTopP(s: seq<Token>, topP: real, n: nat)
    requires Positive(s) && Sum(s) <= topP
    requires IsNucleus(s, topP, n)
    ensures n == |s|
  {
    if n < |s| {
      SumProperPrefix(s, n);
    }
  }
}
