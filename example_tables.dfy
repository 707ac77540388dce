/** The three built-in prompts and their temperature-dependent score tables
    (the `EXAMPLES` object). Scores are not probabilities: the pipeline
    normalizes them. */
module ExampleTables {
  import opened Tokens

  datatype Example = Math | Poem | Open

  function Max(a: real, b: real): real
  {
    if a >= b then a else b
  }

  function Prompt(ex: Example): string
  {
    match ex
    case Math => "1 + 1 ="
    case Poem => "Twinkle twinkle little"
    case Open => "The secret to success is"
  }

  /** Ten labelled scores for `ex` at `temperature`. At a non-negative
      temperature every score is positive, so the total that the pipeline
      divides by is positive. */
  function TopTokens(ex: Example, temperature: real): (r: seq<Token>)
    ensures |r| == 10
    ensures temperature >= 0.0 ==> Positive(r)
    ensures temperature >= 0.0 ==> Sum(r) > 0.0
  {
    var t := temperature;
    var r := Table(ex, t);
    if t >= 0.0 then SumPositive(r); r else r
  }

  /** The score formulas. The first entry is floored at 0.05 in the math and
      poem tables; every other entry is an offset plus a non-negative multiple
      of the temperature. */
  function Table(ex: Example, t: real): (r: seq<Token>)
    ensures |r| == 10
    ensures t >= 0.0 ==> Positive(r)
  {
    match ex
    case Math => [
      Token("2", Max(0.05, 0.85 - t * 0.3)),
      Token("3", 0.1 + t * 0.1),
      Token("1", 0.03 + t * 0.05),
      Token("0", 0.01 + t * 0.03),
      Token("4", 0.01 + t * 0.02),
      Token("5", 0.005 + t * 0.02),
      Token("7", 0.003 + t * 0.01),
      Token("8", 0.002 + t * 0.01),
      Token("10", 0.001 + t * 0.01),
      Token("11", 0.001 + t * 0.01)]
    case Poem => [
      Token("star", Max(0.05, 0.7 - t * 0.25)),
      Token("car", 0.1 + t * 0.1),
      Token("light", 0.08 + t * 0.07),
      Token("bar", 0.06 + t * 0.08),
      Token("bird", 0.05 + t * 0.05),
      Token("moon", 0.03 + t * 0.04),
      Token("dream", 0.02 + t * 0.04),
      Token("kite", 0.01 + t * 0.03),
      Token("cloud", 0.01 + t * 0.03),
      Token("sky", 0.01 + t * 0.02)]
    case Open => [
      Token("hard", 0.2 + t * 0.15),
      Token("luck", 0.18 + t * 0.12),
      Token("consistency", 0.17 + t * 0.1),
      Token("discipline", 0.15 + t * 0.1),
      Token("failure", 0.09 + t * 0.1),
      Token("passion", 0.07 + t * 0.1),
      Token("vision", 0.05 + t * 0.08),
      Token("drive", 0.04 + t * 0.05),
      Token("money", 0.03 + t * 0.03),
      Token("grit", 0.02 + t * 0.03)]
  }

  /** The tables are not always ranked: at temperature 2 the math table lists "2"
      (score 0.25) ahead of "3" (score 0.3), and the poem table lists "star" (0.2)
      ahead of "car" (0.3). Top-k, which keeps the first entries by position, then
      keeps a token while dropping a more probable one. */
  lemma TablesUnrankedAtTemperatureTwo()
    ensures TopTokens(Math, 2.0)[0].word == "2" && TopTokens(Math, 2.0)[1].word == "3"
    ensures TopTokens(Math, 2.0)[0].prob < TopTokens(Math, 2.0)[1].prob
    ensures TopTokens(Poem, 2.0)[0].word == "star" && TopTokens(Poem, 2.0)[1].word == "car"
    ensures TopTokens(Poem, 2.0)[0].prob < TopTokens(Poem, 2.0)[1].prob
  {
  }
}
