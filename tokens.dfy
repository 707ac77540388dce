/** Candidate tokens and the sums the sampling pipeline takes over them. */
module Tokens {

  /** One candidate next token: its text and its score or probability
      (the `{ word, prob }` records of the demo). */
  datatype Token = Token(word: string, prob: real)

  /** Left-to-right total of the probabilities, in the order
      `reduce((sum, t) => sum + t.prob, 0)` adds them. */
  function Sum(s: seq<Token>): real
  {
    if s == [] then 0.0 else Sum(s[..|s| - 1]) + s[|s| - 1].prob
  }

  /** The words of a token sequence, in order. */
  function Words(s: seq<Token>): (w: seq<string>)
    ensures |w| == |s|
    ensures forall i :: 0 <= i < |s| ==> w[i] == s[i].word
  {
    seq(|s|, i requires 0 <= i < |s| => s[i].word)
  }

  predicate NonNegative(s: seq<Token>)
  {
    forall t :: t in s ==> t.prob >= 0.0
  }

  predicate Positive(s: seq<Token>)
  {
    forall t :: t in s ==> t.prob > 0.0
  }

  /** Every probability divided by `d`, words and order kept
      (the `map(t => ({ ...t, prob: t.prob / d }))` step). */
  function ScaleDown(s: seq<Token>, d: real): (r: seq<Token>)
    requires d != 0.0
    ensures |r| == |s|
    ensures forall i :: 0 <= i < |s| ==> r[i].word == s[i].word && r[i].prob == s[i].prob / d
  {
    seq(|s|, i requires 0 <= i < |s| => Token(s[i].word, s[i].prob / d))
  }

  lemma {:induction false} SumAppend(a: seq<Token>, b: seq<Token>)
    ensures Sum(a + b) == Sum(a) + Sum(b)
  {
    if b != [] {
      var b' := b[..|b| - 1];
      assert (a + b)[..|a + b| - 1] == a + b';
      SumAppend(a, b');
    } else {
      assert a + b == a;
    }
  }

  lemma SumSingle(t: Token)
    ensures Sum([t]) == t.prob
  {
    assert [t][..0] == [];
  }

  lemma SumPrefixOne(s: seq<Token>)
    requires s != []
    ensures Sum(s[..1]) == s[0].prob
  {
    assert s[..1] == [s[0]];
    SumSingle(s[0]);
  }

  lemma PrefixPositive(s: seq<Token>, n: nat)
    requires Positive(s) && n <= |s|
    ensures Positive(s[..n])
  {
    forall t | t in s[..n] ensures t.prob > 0.0 {
      var i :| 0 <= i < n && s[..n][i] == t;
      assert s[i] in s;
    }
  }

  /** Adding from the front gives the same total as the left fold. */
  lemma SumCons(t: Token, s: seq<Token>)
    ensures Sum([t] + s) == t.prob + Sum(s)
  {
    SumAppend([t], s);
    SumSingle(t);
  }

  lemma {:induction false} SumNonNegative(s: seq<Token>)
    requires NonNegative(s)
    ensures Sum(s) >= 0.0
  {
    if s != [] {
      assert s[|s| - 1] in s;
      SumNonNegative(s[..|s| - 1]);
    }
  }

  lemma {:induction false} SumPositive(s: seq<Token>)
    requires Positive(s) && s != []
    ensures Sum(s) > 0.0
  {
    assert s[|s| - 1] in s;
    if |s| > 1 {
      SumPositive(s[..|s| - 1]);
    } else {
      assert s[..|s| - 1] == [];
    }
  }

  /** With no negative entries, a longer prefix never sums to less. */
  lemma SumPrefixMonotone(s: seq<Token>, n: nat, m: nat)
    requires NonNegative(s) && n <= m <= |s|
    ensures Sum(s[..n]) <= Sum(s[..m])
  {
    assert s[..m] == s[..n] + s[n..m];
    SumAppend(s[..n], s[n..m]);
    SumNonNegative(s[n..m]);
  }

  /** With strictly positive entries, a longer prefix sums to strictly more. */
  lemma SumPrefixStrict(s: seq<Token>, n: nat, m: nat)
    requires Positive(s) && n < m <= |s|
    ensures Sum(s[..n]) < Sum(s[..m])
  {
    assert s[..m] == s[..n] + s[n..m];
    SumAppend(s[..n], s[n..m]);
    SumPositive(s[n..m]);
  }

  lemma SumProperPrefix(s: seq<Token>, n: nat)
    requires Positive(s) && n < |s|
    ensures Sum(s[..n]) < Sum(s)
  {
    SumPrefixStrict(s, n, |s|);
    assert s[..|s|] == s;
  }

  /** With no negative entries, no single entry exceeds the total. */
  lemma ElementAtMostSum(s: seq<Token>, i: nat)
    requires NonNegative(s) && i < |s|
    ensures s[i].prob <= Sum(s)
  {
    assert s == s[..i] + [s[i]] + s[i + 1..];
    SumAppend(s[..i] + [s[i]], s[i + 1..]);
    SumAppend(s[..i], [s[i]]);
    SumSingle(s[i]);
    SumNonNegative(s[..i]);
    SumNonNegative(s[i + 1..]);
  }

  /** Dividing every entry by `d` divides the total by `d`. */
  lemma {:induction false} SumScaleDown(s: seq<Token>, d: real)
    requires d != 0.0
    ensures Sum(ScaleDown(s, d)) == Sum(s) / d
  {
    if s != [] {
      var s' := s[..|s| - 1];
      var last := s[|s| - 1].prob;
      assert ScaleDown(s, d)[..|s| - 1] == ScaleDown(s', d);
      SumScaleDown(s', d);
      DivideSum(Sum(s'), last, d);
    }
  }

  lemma DivideSum(a: real, b: real, d: real)
    requires d != 0.0
    ensures a / d + b / d == (a + b) / d
  {
  }

  /** A sequence whose entries are all zero sums to zero. */
  lemma {:induction false} SumAllZero(s: seq<Token>)
    requires forall t :: t in s ==> t.prob == 0.0
    ensures Sum(s) == 0.0
  {
    if s != [] {
      assert s[|s| - 1] in s;
      SumAllZero(s[..|s| - 1]);
    }
  }
}
