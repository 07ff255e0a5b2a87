# Structured-output similarity metric, in Dafny

This project models the deterministic core of the `llm_structured_output`
metric of evalap (`evalap/api/metrics/llm_structured_output.py`). The metric
compares the JSON a language model produced with a ground-truth JSON value.
It has four parts:

- **Extractor** (`parse_json_from_response`). A dict passes through
  unchanged. A string is tried three ways, in a fixed order: as a whole JSON
  text, as the greedy `\{.*\}` span (dot matches newlines), and as the payload
  of a fenced code block. The first attempt that decodes wins. If all three
  fail, the result is `None`.
- **Value counter** (`count_total_values`). It counts the leaf value units of
  a tree. A leaf counts 1. An array or object counts the sum over its elements
  or values. Keys are not counted.
- **Similarity scorer** (`calculate_similarity_score`). It handles the `None`
  cases first. It then sums a penalty over the categories of a DeepDiff
  result, divides it by the expected side's count, and clamps the result at 0.
- **Field scores and the mean** (`calculate_field_level_scores`, line 186).
  Each key of either top-level object is scored on its own. The overall score
  is the mean of these field scores.

Files and modules:

- `wrappers.dfy` (`Wrappers`): an `Option` type.
- `json_tree.dfy` (`JsonTree`): the JSON tree, `.get`, the counter, and a
  reference definition of value units as the leaves of the tree.
- `extraction.dfy` (`Extraction`): the extraction cascade and the greedy
  brace match.
- `scoring.dfy` (`Scoring`): the diff record, the penalty and the score; the
  imperative `SimilarityScore` method and the `FieldLevelScores` loop; the
  mean.
- `metric.dfy` (`StructuredOutputMetric`): the metric entry point.

Modelling choices:

- The JSON tree is a closed datatype. An object is an association list of
  `Member`s in insertion order. Python's `None` is `Null`, and so is the
  result of `.get` on a missing key, as in the source.
- A number keeps whether it was written as an integer (`Num(30.0, true)`, a
  Python `int`) or not (`Num(30.0, false)`, a `float`). The two are
  different values, so a differ can report the type change DeepDiff reports
  for `30` against `30.0`.
- DeepDiff is not modelled. A diff is an input record (`Scoring.Diff`), and
  the differ is a function parameter that takes the `ignore_order` flag.
- `json.loads` and the fenced-block pattern are parameters
  (`Extraction.Parsers`). The greedy brace pattern is computed. Its match
  runs from the first `{` to the last `}`, provided that `}` comes after the
  `{`.
- `calculate_similarity_score` accumulates its penalty in `for` loops, as the
  source does (lines 87-115). Each loop carries invariants, and the method is
  proved equal to the function `Scoring.Score`.
- `calculate_field_level_scores` builds its dict in a loop over a key set.
  The source iterates a Python set, so the order is unspecified. The model
  picks each next key with `:|`, and its contract holds for every order.
- Scores are `real`.

Behaviour of the code a reader might not expect:

- The docstring of `count_total_values` (lines 44-50) says that each array
  item and each key-value pair is counted. The code (lines 55-58) counts only
  leaves. A container adds nothing of its own, so a non-empty structure with
  no leaf, such as `[[]]` or `{"a": {}}`, counts 0, and lines 118-119 then
  apply. `JsonTree.CountPositiveIffSomeLeaf` states the exact condition.
- A fenced answer such as ``here is the answer: ```json {"x":1} ``` `` is
  already extracted by the brace match at line 25. The fenced-block attempt
  at line 33 matters only when braces outside the block spoil the greedy span.
  See `Extraction.ExtractWrappedObject`.
- A key present on one side only is read as `None` (lines 143-144), and lines
  75-78 then settle its score before the diff is read. It gets 0.0, or 1.0
  when its value is null, whatever the differ reports.
- The handler for a ground-truth decode error (lines 164-170) cannot run,
  because the extractor catches every decode error itself (lines 20, 29, 37).
  An unparseable ground truth reaches the scorer as `None`.
- An answer that parses to JSON `null` counts as an extraction failure
  (line 174), because `None` is both the failure signal and the parsed null.

## Model

| member | source | states |
|---|---|---|
| `JsonTree.Get` | evalap/api/metrics/llm_structured_output.py:143-144 | a key that is absent reads as `None`; a present key reads as a value stored under it |
| `JsonTree.CountOfLeaf` | evalap/api/metrics/llm_structured_output.py:51-60 | null, booleans, numbers, strings and unrecognised values count exactly 1 |
| `JsonTree.CountOfEmptyContainers` | evalap/api/metrics/llm_structured_output.py:55-58 | an empty array and an empty object count 0 |
| `JsonTree.Count` | evalap/api/metrics/llm_structured_output.py:43-60 | `count_total_values`: the count of every tree equals the number of its leaves (the reference `Leaves`, all of whose members are leaves); with `CountOfLeaf`, `ArrayCountSplits` and `ObjectCountIgnoresKeys` below this pins leaves to 1, arrays to the sum over their elements and objects to the sum over their values |
| `JsonTree.CountItems` | evalap/api/metrics/llm_structured_output.py:56 | the generator sum over an array's elements equals the number of leaves of those elements |
| `JsonTree.CountValues` | evalap/api/metrics/llm_structured_output.py:58 | the generator sum over an object's values equals the number of leaves of those values |
| `JsonTree.CountPositiveIffSomeLeaf` | evalap/api/metrics/llm_structured_output.py:43-60 | the count is positive exactly when the tree has at least one leaf |
| `JsonTree.ArrayCountSplits` | evalap/api/metrics/llm_structured_output.py:55-56 | an array's count is additive over any split of the array, i.e. the sum of its elements' counts |
| `JsonTree.ObjectCountIgnoresKeys` | evalap/api/metrics/llm_structured_output.py:57-58 | an object counts the same as the array of its values; keys are not counted |
| `Extraction.BraceMatch` | evalap/api/metrics/llm_structured_output.py:25 | the greedy brace match starts at the first `{` and ends at the last `}`; there is no match exactly when no `}` follows any `{` |
| `Extraction.BraceSpan` | evalap/api/metrics/llm_structured_output.py:25-28 | `json_match.group()`: whenever the text has a first `{` followed later by a last `}`, the span is exactly the text between them, inclusive; otherwise there is none (absent exactly when no `}` follows any `{`) |
| `Extraction.BraceAttempt` | evalap/api/metrics/llm_structured_output.py:25-30 | whenever the text runs from a first `{` to a later last `}`, the result is exactly the decoding of that substring, and any success is such a decoding; a text in which no `}` follows a `{` gives no success |
| `Extraction.Extract` | evalap/api/metrics/llm_structured_output.py:9-40 | a dict input is returned unchanged; for text, the first successful attempt in the order whole text, brace span, fenced block is returned, and `None` exactly when all three fail |
| `Extraction.ExtractIsFirstSuccess` | evalap/api/metrics/llm_structured_output.py:17-40 | on text the extractor equals the first success of its three attempts, taken in order |
| `Extraction.BraceSpanOfWrapped` | evalap/api/metrics/llm_structured_output.py:25-28 | an object with no `{` before it and no `}` after it is exactly the span the brace attempt decodes |
| `Extraction.ExtractWrappedObject` | evalap/api/metrics/llm_structured_output.py:17-30 | such an object, in a text that is not JSON as a whole, is returned by the brace attempt |
| `Scoring.Penalty` | evalap/api/metrics/llm_structured_output.py:87-115 | `diff_count`: an empty diff costs 0, and every changed value, type change and added or removed key costs at least 1 |
| `Scoring.PenaltyZeroIff` | evalap/api/metrics/llm_structured_output.py:87-115 | the penalty is 0 exactly when no value, type or key changed and every added or removed iterable item counts 0 |
| `Scoring.ItemsCountBounds` | evalap/api/metrics/llm_structured_output.py:103-115 | the summed count of the iterable items (`ItemsCount`) is at least each item's count, and 0 exactly when every item counts 0 |
| `Scoring.Normalised` | evalap/api/metrics/llm_structured_output.py:117-122 | the normalised score lies in [0,1]; it is 1 exactly when the penalty is 0; it is 0 once a positive penalty reaches the total; otherwise it is 1 - penalty/total; with a total of 0 it is all or nothing |
| `Scoring.Score` | evalap/api/metrics/llm_structured_output.py:63-122 | the score lies in [0,1]; both sides `None` give 1.0; exactly one side `None` gives 0.0 whatever the diff; otherwise it is 1.0 exactly when the penalty is 0, and a non-empty diff scores the normalised penalty over the expected count |
| `Scoring.NormalisedAntitone` | evalap/api/metrics/llm_structured_output.py:121 | a larger penalty never gives a higher score |
| `Scoring.ValueChangeCostsOne` | evalap/api/metrics/llm_structured_output.py:89-93 | each changed value and each type change adds exactly 1 to the penalty |
| `Scoring.IntAgainstFloatScoresZero` | evalap/api/metrics/llm_structured_output.py:89-122 | an integer expected where a float of the same value was produced (`30` against `30.0`), reported as one type change, scores 0.0 |
| `Scoring.KeyChangeCostsOne` | evalap/api/metrics/llm_structured_output.py:97-111 | each removed or added dictionary key adds exactly 1 to the penalty, whatever its value |
| `Scoring.ItemChangeCostsItsCount` | evalap/api/metrics/llm_structured_output.py:103-115 | each removed or added iterable item adds its own value count to the penalty |
| `Scoring.SimilarityScore` | evalap/api/metrics/llm_structured_output.py:63-122 | the loops that accumulate `diff_count` compute the penalty, and the method returns exactly the score above |
| `Scoring.FieldLevelScores` | evalap/api/metrics/llm_structured_output.py:125-153 | empty unless both roots are objects; otherwise one entry per key of the union of both key sets, with distinct keys, each being that key's independent score |
| `Scoring.KeyScore` | evalap/api/metrics/llm_structured_output.py:142-150 | one key's score, computed from `.get` on both sides, the per-key diff and the similarity score, lies in [0,1], and is 1.0 when both sides hold the same value and the differ reports nothing for it |
| `Scoring.FieldScoresInRange` | evalap/api/metrics/llm_structured_output.py:139-153 | every field score lies in [0,1] |
| `Scoring.FieldScoresEmptyIff` | evalap/api/metrics/llm_structured_output.py:136-142 | the field map is empty exactly when a root is not an object or both objects are empty |
| `Scoring.OneSidedKeyScore` | evalap/api/metrics/llm_structured_output.py:142-150 | a key on one side only scores 1.0 if its value there is null and 0.0 otherwise |
| `Scoring.IdenticalObjectsScoreOne` | evalap/api/metrics/llm_structured_output.py:139-153 | an object compared with itself, through a differ that finds no difference between equal values, gives every field 1.0 and an overall mean of 1.0 |
| `Scoring.Mean` | evalap/api/metrics/llm_structured_output.py:186 | the mean times the number of fields is their sum, and the mean of scores in [0,1] lies in [0,1] |
| `Scoring.MeanInRange` | evalap/api/metrics/llm_structured_output.py:186 | the mean of a non-empty map of scores lies in [0,1], and is 1.0 exactly when every field scores 1.0 |
| `Scoring.AsWrittenFailsWithoutFields` | evalap/api/metrics/llm_structured_output.py:184-186 | whenever a root is not an object, or both objects are empty, the unguarded division is reached with an empty map |
| `StructuredOutputMetric.Metric` | evalap/api/metrics/llm_structured_output.py:162-202 | both sides are read as Python sees them (`AsPython`: a failed extraction is `None`, as is a parsed JSON `null`); no JSON extracted (or JSON `null`) gives the extraction-failure outcome carrying the expected tree, with score 0; otherwise the score is the mean of the field scores, or the whole-tree score when there are none; every outcome scores in [0,1] |
| `StructuredOutputMetric.OneOfTwoFieldsWrongScoresHalf` | evalap/api/metrics/llm_structured_output.py:139-186 | two fields, one reproduced and one with a single changed leaf, score 1.0 and 0.0, and the overall score is 0.5 |

## Left out

- DeepDiff (lines 4, 147, 184) is a foreign library. The model takes its
  result as input and does not compute it. It assumes that each category lists
  each path once, so that `len` is the sequence length.
- `json.loads` and the fenced-block regular expression (lines 19, 28, 33, 36)
  are library calls, given as parameters. The lazy fenced-block match is not
  modelled.
- Inputs to the extractor other than a dict or a string are not modelled. On
  most of them (a list, a number, `None`) the source raises `TypeError`. A
  `bytes` answer is decoded by `json.loads` too.
- The ground-truth decode-error branch (lines 164-170) is not modelled,
  because it cannot be reached.
- The observation text is not modelled: `json.dumps`, the 500-character
  truncation, and the echoed third element (lines 167-181, 188-202). It is
  output formatting. `Metric` returns only the score with the field scores,
  or, on an extraction failure, the expected tree.
- The registration decorator and its metadata (lines 156-161) are not
  modelled, nor the unused imports (line 3). They are plumbing.
- Floating point is not modelled. Scores and numbers are exact reals, so
  rounding, infinities and NaN are not captured. Integer and float values are
  told apart by a flag, not by their representation.
- Objects with duplicate keys are admitted by the datatype but get a meaning
  no Python dict has. `JsonTree.Count` counts every copy, and `JsonTree.Get`
  reads the first entry, whereas `json.loads` would keep only the last. No
  proved property depends on distinct keys.

## Findings

| source | as written | input that shows it | evidently intended | confidence | as-written member | corrected member |
|---|---|---|---|---|---|---|
| evalap/api/metrics/llm_structured_output.py:186 | `sum(field_scores.values()) / len(field_scores)` with no guard raises ZeroDivisionError when the field map is empty | `output_true='[1]'`, `output='[1]'` (or both `'{}'`, or a ground truth that does not parse, which reads as `None`) | every input gets a score in [0,1] instead of an exception, as the error handling around it aims; here, with no fields, the whole-tree score from the diff at line 184 | not executed; high | `Scoring.OverallScoreAsWritten` (with `Scoring.AsWrittenFailsWithoutFields`) | `StructuredOutputMetric.Metric` |
