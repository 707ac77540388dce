# LLM sampling visualizer: the sampling pipeline in Dafny

The demo shows how temperature, top-k and top-p (nucleus) filtering shape a
language model's next-token distribution. On every render it takes the score
table of the selected example prompt at the chosen temperature and runs it
through four stages:

1. **normalize** the scores by their total;
2. **top-k**: keep the first `topK` entries by position;
3. **top-p**: sort the survivors by descending probability (stably), then
   walk them, adding each token to the kept list and to a running total, and
   stop right after the token that brings the total up to `topP`;
4. **renormalize** the kept tokens so that they sum to 1.

The grid and axis views colour each token with the fixed green
`rgba(34, 197, 94, prob)`, whose opacity is the token's final probability, used
as it is; the bar view draws every bar in a solid green at full opacity and
varies only its width. The component also defines a helper `getColor` that
clamps the opacity into [0, 1], but no view calls it. On the pipeline's output the two colourings agree, because every
final probability already lies in [0, 1] (`Display.ClampIsIdentityOnOutput`).
The axis view lays the tokens out as contiguous segments of a 0-100% strip.

This project models those stages, the three built-in score tables and the two
display computations, over exact `real` arithmetic, and proves what each stage
promises.

Modules:

- `Tokens` (tokens.dfy): the `Token` record (`word`, `prob`), the left-to-right
  `Sum` that `reduce` computes, division of every probability by a constant,
  and facts about sums of prefixes.
- `ExampleTables` (example_tables.dfy): the math, poem and open-ended tables,
  and the prompt text shown for each (`Prompt`).
- `StableSort` (stable_sort.dfy): the descending sort, as a stable insertion
  sort on a fresh sequence (the source sorts a copy).
- `Nucleus` (nucleus.dfy): the top-p loop, as a method with loop invariants,
  proved against an independent recursive definition of the kept length.
- `Pipeline` (pipeline.dfy): normalization, top-k, and the whole render
  pipeline, both for any score list and for the built-in tables.
- `Display` (display.dfy): the unused colour clamp `getColor`, the colour the
  views do use, and the axis strip's running offsets.

The code validates nothing and has no error results, so neither does the
model. What the code silently relies on is stated as preconditions of
`Pipeline.Sample`: scores are non-negative, `topK >= 1`, the total is positive,
and the top-k slice of the scores has a positive total. Without that last
condition the code's second division would divide by zero. The built-in tables
always meet these conditions (`Pipeline.SampleExample`).

The tables are not always ranked. At temperature 2 the math table puts "2"
(0.25) before "3" (0.3), and the poem table puts "star" (0.2) before "car"
(0.3). So top-k, which keeps entries by position, can drop a token that is more
probable than one it keeps (`ExampleTables.TablesUnrankedAtTemperatureTwo`).

## Model

| member | source | states |
|---|---|---|
| `ExampleTables.TopTokens` | src/components/LLMTemperatureDemo.jsx:3-49 | Every example table has exactly 10 entries. At any temperature >= 0 every score is strictly positive, so the total that normalization divides by is positive. |
| `ExampleTables.TablesUnrankedAtTemperatureTwo` | src/components/LLMTemperatureDemo.jsx:6-23 | At temperature 2 the second entry of the math and poem tables outscores the first, so the tables are not always ranked. |
| `Pipeline.Normalize` | src/components/LLMTemperatureDemo.jsx:60-64 | Same length, words and order as the input. Each probability is the score divided by the total. The results sum to exactly 1. |
| `Pipeline.NormalizeInUnitInterval` | src/components/LLMTemperatureDemo.jsx:61-64 | For non-negative scores with a positive total, every normalized probability lies in [0, 1]. Positive scores stay positive. |
| `Pipeline.TopK` | src/components/LLMTemperatureDemo.jsx:67 | The result is the first `min(topK, n)` entries, unchanged and in input order. When `topK >= n` it is the whole sequence. |
| `Pipeline.TopKOfNormalizedAtMostOne` | src/components/LLMTemperatureDemo.jsx:67 | The top-k slice of a normalized distribution has total at most 1 (probabilities are not rescaled at this stage). |
| `StableSort.SortDesc` | src/components/LLMTemperatureDemo.jsx:70 | The result is a permutation of the input (same multiset, same length, same total) in non-increasing probability order. For every probability value, the tokens with that value appear in their input order (stability). |
| `StableSort.StableDescendingUnique` | src/components/LLMTemperatureDemo.jsx:70 | Any two sequences that are descending and have the same equal-probability runs are equal. So every stable descending sort returns what `SortDesc` returns. |
| `Nucleus.NucleusLengthIsNucleus` | src/components/LLMTemperatureDemo.jsx:71-77 | The reference kept length keeps at least one token of a non-empty input. Every shorter non-empty prefix sums to less than `topP`. The kept prefix reaches `topP` unless it is the whole input. |
| `Nucleus.NucleusUnique` | src/components/LLMTemperatureDemo.jsx:73-76 | At most one prefix length is the shortest non-empty prefix reaching `topP` (or the whole input), so that description fixes the result. |
| `Nucleus.TopP` | src/components/LLMTemperatureDemo.jsx:71-77 | The loop returns a prefix of the sorted tokens. Its length is the one the reference definition gives: the shortest non-empty prefix whose total reaches `topP`, or everything. The result is non-empty even when `topP` is 0. |
| `Nucleus.SingleTokenWhenTopPAtMostMax` | src/components/LLMTemperatureDemo.jsx:73-76 | If `topP` is at most the largest probability (the head of the descending order), exactly one token is kept. |
| `Nucleus.KeepsAllWhenTotalAtMostTopP` | src/components/LLMTemperatureDemo.jsx:73-76 | With positive probabilities whose total is at most `topP`, every token is kept. |
| `Pipeline.Sample` | src/components/LLMTemperatureDemo.jsx:58-84 | The final list holds between 1 and `min(topK, n)` tokens. Its probabilities sum to exactly 1 and lie in [0, 1], and they are positive when the scores are. It is the kept nucleus of the stable descending sort of the normalized top-k slice, renormalized. If some top-k token's probability is at least `topP`, exactly one token remains. With positive scores and `topP >= 1`, all `min(topK, n)` tokens remain. |
| `Pipeline.SampleExample` | src/components/LLMTemperatureDemo.jsx:59-84 | For every example, every temperature >= 0 and every `topK >= 1`, the tables meet the pipeline's needs. The result has 1 to `min(topK, 10)` tokens, each with probability in (0, 1], summing to 1. It is the kept nucleus of the stable descending sort of the normalized top-k slice of the example's table, renormalized. |
| `Display.GetColor` | src/components/LLMTemperatureDemo.jsx:88-91 | The helper is defined but no view calls it. The colour is rgba(34, 197, 94, alpha). Alpha always lies in [0, 1]. It equals the probability when the probability is in [0, 1], is 0 below that range and 1 above it. |
| `Display.ClampIsIdentityOnOutput` | src/components/LLMTemperatureDemo.jsx:235 | The colour the grid and axis views use, with the raw probability as opacity, is the clamped `getColor` colour whenever every probability lies in [0, 1], as `Pipeline.Sample` guarantees for its output. |
| `Display.AxisSegments` | src/components/LLMTemperatureDemo.jsx:278-283 | Segment i has token i's word. It starts at 100 times the sum of the probabilities of tokens 0..i-1 and is 100 times token i's probability wide. |
| `Display.SegmentsContiguous` | src/components/LLMTemperatureDemo.jsx:278-292 | The first segment starts at 0%. Each segment ends where the next begins. The last ends at 100% times the total. For a non-negative distribution summing to 1, every segment lies within 0-100%. |

## Left out

- React state and hooks, the slider and tab handlers, and the parsing of slider
  values (`parseFloat`, `parseInt`): UI plumbing. The slider ranges
  (temperature 0-2, top-p 0-1, top-k 1-10) appear only as the preconditions
  `temperature >= 0` and `topK >= 1`. No upper bound is needed for any property.
- JSX markup, CSS, inline styles, `toFixed` percentage formatting, the bar
  view's `maxProb` scaling, the segment opacity and the rule that hides labels
  narrower than 8%, and the ruler ticks: presentation only.
- `Display.GetColor` returns the colour as a record rather than the CSS string
  `rgba(...)`, because formatting a number as text is not modelled.
- IEEE-754 rounding: all probabilities are exact `real`s, so "sums to 1" is
  exact here. The browser's floating-point results may differ in the last bits.
  In particular, with `topP` = 1 a rounded running total can fall just short of
  1, which exact arithmetic does not show.
- The JavaScript engine's sort algorithm: the sort is modelled as a stable
  insertion sort. `StableSort.StableDescendingUnique` shows that any stable
  descending sort gives the same result.
- Input validation errors: the code has none, so none are modelled (see
  above).
