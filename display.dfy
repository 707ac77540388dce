/** Colours and layout derived from the final distribution: the colour the grid
    and axis views give a token, the clamping helper `getColor` (defined by the component but
    called by no view), and where each token's segment sits on the 0-100% axis strip. */
module Display {
  import opened Tokens

  /** An `rgba(34, 197, 94, alpha)` colour: a fixed green with opacity `alpha`. */
  datatype Rgba = Rgba(red: nat, green: nat, blue: nat, alpha: real)

  /** The colour the grid view and the axis view's segments and legend give a token: its probability,
      unclamped, as the opacity. */
  function TokenColor(prob: real): Rgba
  {
    Rgba(34, 197, 94, prob)
  }

  /** The `getColor` helper: the same green with the opacity clamped into [0, 1]. */
  function GetColor(prob: real): (c: Rgba)
    ensures c.red == 34 && c.green == 197 && c.blue == 94
    ensures 0.0 <= c.alpha <= 1.0
    ensures 0.0 <= prob <= 1.0 ==> c.alpha == prob
    ensures prob < 0.0 ==> c.alpha == 0.0
    ensures prob > 1.0 ==> c.alpha == 1.0
  {
    var upper := if prob <= 1.0 then prob else 1.0;
    var clamped := if upper >= 0.0 then upper else 0.0;
    Rgba(34, 197, 94, clamped)
  }

  /** On a distribution whose probabilities all lie in [0, 1], as the pipeline's
      output does, the views' unclamped colour is the clamped `getColor` colour. */
  lemma ClampIsIdentityOnOutput(tokens: seq<Token>)
    requires forall t :: t in tokens ==> 0.0 <= t.prob <= 1.0
    ensures forall t :: t in tokens ==> TokenColor(t.prob) == GetColor(t.prob)
  {
  }

  /** One token's marker on the axis strip: its left edge and width, in percent. */
  datatype Segment = Segment(word: string, left: real, width: real)

  /** Token `i` starts where the probabilities of tokens 0..i-1 add up to, and is
      as wide as its own probability. */
  ghost predicate LaidOut(tokens: seq<Token>, segments: seq<Segment>)
  {
    && |segments| == |tokens|
    && forall i :: 0 <= i < |tokens| ==>
         && segments[i].word == tokens[i].word
         && segments[i].left == 100.0 * Sum(tokens[..i])
         && segments[i].width == 100.0 * tokens[i].prob
  }

  /** The line view's loop: `startPos` is the running total before the token is
      added to it. */
  method AxisSegments(tokens: seq<Token>) returns (segments: seq<Segment>)
    ensures LaidOut(tokens, segments)
  {
    var cumulative := 0.0;
    segments := [];
    for i := 0 to |tokens|
      invariant cumulative == Sum(tokens[..i])
      invariant |segments| == i
      invariant forall j :: 0 <= j < i ==>
        && segments[j].word == tokens[j].word
        && segments[j].left == 100.0 * Sum(tokens[..j])
        && segments[j].width == 100.0 * tokens[j].prob
    {
      var token := tokens[i];
      var startPos := cumulative;
      assert tokens[..i + 1][..i] == tokens[..i];
      cumulative := cumulative + token.prob;
      segments := segments + [Segment(token.word, startPos * 100.0, token.prob * 100.0)];
    }
  }

  /** The segments tile the strip without gaps or overlaps: the first starts at
      0%, each ends where the next begins, and the last ends at 100% times the
      total. For a renormalized distribution (total 1) with no negative entries,
      every segment lies within 0-100%. */
  lemma {:induction false} SegmentsContiguous(tokens: seq<Token>, segments: seq<Segment>)
    requires LaidOut(tokens, segments) && tokens != []
    ensures segments[0].left == 0.0
    ensures forall i :: 0 <= i < |tokens| - 1 ==> segments[i].left + segments[i].width == segments[i + 1].left
    ensures segments[|tokens| - 1].left + segments[|tokens| - 1].width == 100.0 * Sum(tokens)
    ensures NonNegative(tokens) && Sum(tokens) == 1.0 ==>
      forall i :: 0 <= i < |tokens| ==> 0.0 <= segments[i].left && segments[i].left + segments[i].width <= 100.0
  {
    assert tokens[..0] == [];
    forall i | 0 <= i < |tokens|
      ensures Sum(tokens[..i + 1]) == Sum(tokens[..i]) + tokens[i].prob
    {
      assert tokens[..i + 1][..i] == tokens[..i];
    }
    assert tokens[..|tokens|] == tokens;
    if NonNegative(tokens) && Sum(tokens) == 1.0 {
      forall i | 0 <= i < |tokens|
        ensures 0.0 <= segments[i].left && segments[i].left + segments[i].width <= 100.0
      {
        SumPrefixMonotone(tokens, 0, i);
        SumPrefixMonotone(tokens, i + 1, |tokens|);
      }
    }
  }
}
