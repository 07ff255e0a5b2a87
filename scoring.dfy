/**
 * `calculate_similarity_score`, `calculate_field_level_scores` and the mean
 * of the field scores. The tree differ (DeepDiff) is not modelled: a diff is
 * an input record, and the differ is a function parameter.
 */
module Scoring {
  import opened Wrappers
  import opened JsonTree

  /** A path into a tree as the differ names it, e.g. "root['age']". */
  type Path = string

  /** The categories of a DeepDiff result the scorer reads. `otherReports`
      is the number of entries in any category it does not read; it only
      affects whether the diff is empty. */
  datatype Diff = Diff(
    valuesChanged: seq<Path>,
    typeChanges: seq<Path>,
    dictionaryItemRemoved: seq<Path>,
    dictionaryItemAdded: seq<Path>,
    iterableItemRemoved: seq<(Path, Json)>,
    iterableItemAdded: seq<(Path, Json)>,
    otherReports: nat)
  {
    /** `not diff`: no category holds an entry. */
    predicate IsEmpty() {
      && valuesChanged == [] && typeChanges == []
      && dictionaryItemRemoved == [] && dictionaryItemAdded == []
      && iterableItemRemoved == [] && iterableItemAdded == []
      && otherReports == 0
    }
  }

  /** DeepDiff as seen by the metric: expected, extracted, `ignore_order`. */
  type Differ = (Json, Json, bool) -> Diff

  /** The summed counts of the items of an iterable-item category. */
  function ItemsCount(items: seq<(Path, Json)>): (r: nat) {
    if items == [] then 0
    else ItemsCount(items[..|items| - 1]) + Count(items[|items| - 1].1)
  }

  /** Each item's count is part of the total, and the total is zero exactly
      when every item (an empty list, say) counts zero. */
  lemma {:induction false} ItemsCountBounds(items: seq<(Path, Json)>)
    ensures forall i :: 0 <= i < |items| ==> Count(items[i].1) <= ItemsCount(items)
    ensures ItemsCount(items) == 0 <==> forall i :: 0 <= i < |items| ==> Count(items[i].1) == 0
  {
    if items != [] {
      var init := items[..|items| - 1];
      ItemsCountBounds(init);
      assert forall i :: 0 <= i < |init| ==> init[i] == items[i];
    }
  }

  /** The penalty of a diff: one per changed value, per type change and per
      added or removed key; the value count of each added or removed
      iterable item. */
  function Penalty(d: Diff): (r: nat)
    ensures d.IsEmpty() ==> r == 0
    ensures r >= |d.valuesChanged| + |d.typeChanges| + |d.dictionaryItemRemoved| + |d.dictionaryItemAdded|
  {
    |d.valuesChanged| + |d.typeChanges|
    + |d.dictionaryItemRemoved| + ItemsCount(d.iterableItemRemoved)
    + |d.dictionaryItemAdded| + ItemsCount(d.iterableItemAdded)
  }

  /** A zero penalty means no value, type or key changed; only items
      that count zero (empty containers) may have been added or removed. */
  lemma PenaltyZeroIff(d: Diff)
    ensures Penalty(d) == 0 <==>
      && d.valuesChanged == [] && d.typeChanges == []
      && d.dictionaryItemRemoved == [] && d.dictionaryItemAdded == []
      && (forall i :: 0 <= i < |d.iterableItemRemoved| ==> Count(d.iterableItemRemoved[i].1) == 0)
      && (forall i :: 0 <= i < |d.iterableItemAdded| ==> Count(d.iterableItemAdded[i].1) == 0)
  {
    ItemsCountBounds(d.iterableItemRemoved);
    ItemsCountBounds(d.iterableItemAdded);
  }

  /** Facts about a ratio of non-negative reals with a positive divisor. */
  lemma RatioFacts(x: real, t: real)
    requires 0.0 <= x && 0.0 < t
    ensures 0.0 <= x / t
    ensures x / t == 0.0 <==> x == 0.0
    ensures x / t >= 1.0 <==> x >= t
    ensures (x / t) * t == x
  {
  }

  /** The penalty normalised by the expected side's count and clamped at 0;
      with nothing expected it is all or nothing. */
  function Normalised(penalty: nat, total: nat): (r: real)
    ensures 0.0 <= r <= 1.0
    ensures r == 1.0 <==> penalty == 0
    ensures total <= penalty ==> r == (if penalty == 0 then 1.0 else 0.0)
    ensures penalty <= total ==> r * total as real == (total - penalty) as real
  {
    if total == 0 then (if penalty == 0 then 1.0 else 0.0)
    else
      var ratio := penalty as real / total as real;
      RatioFacts(penalty as real, total as real);
      Max(0.0, 1.0 - ratio)
  }

  function Max(a: real, b: real): (r: real) {
    if a < b then b else a
  }

  /** The similarity of `extracted` to `expected` given their diff, where
      `Null` is Python's `None`. */
  function Score(expected: Json, extracted: Json, d: Diff): (r: real)
    ensures 0.0 <= r <= 1.0
    ensures expected.Null? && extracted.Null? ==> r == 1.0
    ensures expected.Null? != extracted.Null? ==> r == 0.0
    ensures !expected.Null? && !extracted.Null? ==> (r == 1.0 <==> Penalty(d) == 0)
    ensures !expected.Null? && !extracted.Null? && !d.IsEmpty() ==> r == Normalised(Penalty(d), Count(expected))
  {
    if expected.Null? && extracted.Null? then 1.0
    else if expected.Null? || extracted.Null? then 0.0
    else if d.IsEmpty() then 1.0
    else Normalised(Penalty(d), Count(expected))
  }

  /** A larger penalty never gives a higher score. */
  lemma NormalisedAntitone(p1: nat, p2: nat, total: nat)
    requires p1 <= p2
    ensures Normalised(p2, total) <= Normalised(p1, total)
  {
    if total > 0 {
      RatioMonotone(p1 as real, p2 as real, total as real);
    }
  }

  lemma RatioMonotone(x: real, y: real, t: real)
    requires x <= y && 0.0 < t
    ensures x / t <= y / t
  {
  }

  /** A changed value or a type change costs exactly 1. */
  lemma ValueChangeCostsOne(d: Diff, path: Path)
    ensures Penalty(d.(valuesChanged := d.valuesChanged + [path])) == Penalty(d) + 1
    ensures Penalty(d.(typeChanges := d.typeChanges + [path])) == Penalty(d) + 1
  {
  }

  /** An integer expected where a float of the same value was produced
      (`30` against `30.0`) is a type change, which costs the whole score of
      a one-leaf value. */
  lemma IntAgainstFloatScoresZero(x: real, path: Path)
    ensures Score(Num(x, true), Num(x, false), Diff([], [path], [], [], [], [], 0)) == 0.0
  {
    var d := Diff([], [path], [], [], [], [], 0);
    assert Penalty(d) == 1;
    assert Count(Num(x, true)) == 1;
  }

  /** Removing or adding a key costs 1 whatever the size of its value. */
  lemma KeyChangeCostsOne(d: Diff, path: Path)
    ensures Penalty(d.(dictionaryItemRemoved := d.dictionaryItemRemoved + [path])) == Penalty(d) + 1
    ensures Penalty(d.(dictionaryItemAdded := d.dictionaryItemAdded + [path])) == Penalty(d) + 1
  {
  }

  /** Removing or adding an iterable item costs the item's value count. */
  lemma ItemChangeCostsItsCount(d: Diff, path: Path, item: Json)
    ensures Penalty(d.(iterableItemRemoved := d.iterableItemRemoved + [(path, item)])) == Penalty(d) + Count(item)
    ensures Penalty(d.(iterableItemAdded := d.iterableItemAdded + [(path, item)])) == Penalty(d) + Count(item)
  {
    assert (d.iterableItemRemoved + [(path, item)])[..|d.iterableItemRemoved|] == d.iterableItemRemoved;
    assert (d.iterableItemAdded + [(path, item)])[..|d.iterableItemAdded|] == d.iterableItemAdded;
  }

  /** `calculate_similarity_score`: accumulates the penalty category by
      category, then normalises it. */
  method SimilarityScore(expected: Json, extracted: Json, diff: Diff) returns (score: real)
    ensures score == Score(expected, extracted, diff)
  {
    if expected.Null? && extracted.Null? {
      return 1.0;
    }
    if expected.Null? || extracted.Null? {
      return 0.0;
    }
    if diff.IsEmpty() {
      return 1.0;
    }
    var totalExpectedValues := Count(expected);
    var diffCount: nat := 0;
    diffCount := diffCount + |diff.valuesChanged|;
    diffCount := diffCount + |diff.typeChanges|;

    var base := diffCount;
    for i := 0 to |diff.dictionaryItemRemoved|
      invariant diffCount == base + i
    {
      diffCount := diffCount + 1;
    }

    var removed := diff.iterableItemRemoved;
    base := diffCount;
    for i := 0 to |removed|
      invariant diffCount == base + ItemsCount(removed[..i])
    {
      assert removed[..i + 1][..i] == removed[..i];
      diffCount := diffCount + Count(removed[i].1);
    }
    assert removed[..|removed|] == removed;

    base := diffCount;
    for i := 0 to |diff.dictionaryItemAdded|
      invariant diffCount == base + i
    {
      diffCount := diffCount + 1;
    }

    var added := diff.iterableItemAdded;
    base := diffCount;
    for i := 0 to |added|
      invariant diffCount == base + ItemsCount(added[..i])
    {
      assert added[..i + 1][..i] == added[..i];
      diffCount := diffCount + Count(added[i].1);
    }
    assert added[..|added|] == added;

    if totalExpectedValues == 0 {
      return if diffCount == 0 then 1.0 else 0.0;
    }
    score := Max(0.0, 1.0 - (diffCount as real / totalExpectedValues as real));
  }

  // ---------------------------------------------------------------------
  // Field-level scores
  // ---------------------------------------------------------------------

  /** A field score map as built (a dict in insertion order): key/score
      pairs with distinct keys. */
  type FieldScores = seq<(string, real)>

  function ScoreKeys(fs: FieldScores): (r: set<string>) {
    set i | 0 <= i < |fs| :: fs[i].0
  }

  lemma ScoreKeysAppend(fs: FieldScores, key: string, score: real)
    ensures ScoreKeys(fs + [(key, score)]) == ScoreKeys(fs) + {key}
  {
    var fs' := fs + [(key, score)];
    forall k | k in ScoreKeys(fs')
      ensures k in ScoreKeys(fs) + {key}
    {
      var i :| 0 <= i < |fs'| && fs'[i].0 == k;
      if i < |fs| { assert fs[i].0 == k; }
    }
    forall k | k in ScoreKeys(fs) + {key}
      ensures k in ScoreKeys(fs')
    {
      if k == key {
        assert fs'[|fs|].0 == k;
      } else {
        var i :| 0 <= i < |fs| && fs[i].0 == k;
        assert fs'[i].0 == k;
      }
    }
  }

  lemma ScoreKeysEmpty(fs: FieldScores)
    ensures ScoreKeys(fs) == {} <==> fs == []
  {
    if fs != [] {
      assert fs[0].0 in ScoreKeys(fs);
    }
  }

  predicate DistinctKeys(fs: FieldScores) {
    forall i, j :: 0 <= i < j < |fs| ==> fs[i].0 != fs[j].0
  }

  /** The score of one key: both sides read with `.get`, diffed with
      `ignore_order`, and scored independently of every other key. */
  function KeyScore(expected: seq<Member>, extracted: seq<Member>, key: string, differ: Differ): (r: real)
    ensures 0.0 <= r <= 1.0
    ensures
      var v := Get(expected, key);
      v == Get(extracted, key) && differ(v, v, true).IsEmpty() ==> r == 1.0
  {
    var ev := Get(expected, key);
    var xv := Get(extracted, key);
    Score(ev, xv, differ(ev, xv, true))
  }

  /** What `calculate_field_level_scores` returns: nothing unless both
      roots are objects; otherwise one entry per key of either side, each
      holding that key's score. */
  predicate IsFieldScores(expected: Json, extracted: Json, differ: Differ, fs: FieldScores) {
    if expected.Obj? && extracted.Obj? then
      && ScoreKeys(fs) == Keys(expected.members) + Keys(extracted.members)
      && DistinctKeys(fs)
      && forall i :: 0 <= i < |fs| ==> fs[i].1 == KeyScore(expected.members, extracted.members, fs[i].0, differ)
    else fs == []
  }

  /** `calculate_field_level_scores`: visits the union of both key sets,
      in an order that is not specified, adding one entry per key. */
  method FieldLevelScores(expected: Json, extracted: Json, differ: Differ) returns (keyScores: FieldScores)
    ensures IsFieldScores(expected, extracted, differ, keyScores)
  {
    if !expected.Obj? || !extracted.Obj? {
      return [];
    }
    keyScores := [];
    var allKeys := Keys(expected.members) + Keys(extracted.members);
    var remaining := allKeys;
    while remaining != {}
      invariant remaining <= allKeys
      invariant ScoreKeys(keyScores) == allKeys - remaining
      invariant DistinctKeys(keyScores)
      invariant forall i :: 0 <= i < |keyScores| ==>
        keyScores[i].1 == KeyScore(expected.members, extracted.members, keyScores[i].0, differ)
      decreases remaining
    {
      var key :| key in remaining;
      var expectedValue := Get(expected.members, key);
      var extractedValue := Get(extracted.members, key);
      var keyDiff := differ(expectedValue, extractedValue, true);
      var keyScore := SimilarityScore(expectedValue, extractedValue, keyDiff);
      ScoreKeysAppend(keyScores, key, keyScore);
      keyScores := keyScores + [(key, keyScore)];
      remaining := remaining - {key};
    }
  }

  /** Every field score lies in [0, 1]. */
  lemma FieldScoresInRange(expected: Json, extracted: Json, differ: Differ, fs: FieldScores)
    requires IsFieldScores(expected, extracted, differ, fs)
    ensures forall i :: 0 <= i < |fs| ==> 0.0 <= fs[i].1 <= 1.0
  {
  }

  /** The map is empty exactly when a root is not an object or neither
      object has a key. */
  lemma FieldScoresEmptyIff(expected: Json, extracted: Json, differ: Differ, fs: FieldScores)
    requires IsFieldScores(expected, extracted, differ, fs)
    ensures fs == [] <==>
      !expected.Obj? || !extracted.Obj? || (expected.members == [] && extracted.members == [])
  {
    ScoreKeysEmpty(fs);
    if expected.Obj? && extracted.Obj? {
      if expected.members != [] {
        assert expected.members[0].key in ScoreKeys(fs);
      } else if extracted.members != [] {
        assert extracted.members[0].key in ScoreKeys(fs);
      }
    }
  }

  /** A key present on one side only is scored against `None`: 1.0 when its
      value there is null, 0.0 otherwise, whatever the differ reports. */
  lemma OneSidedKeyScore(expected: seq<Member>, extracted: seq<Member>, key: string, differ: Differ)
    requires (key in Keys(expected)) != (key in Keys(extracted))
    ensures key in Keys(expected) ==>
      KeyScore(expected, extracted, key, differ) == if Get(expected, key).Null? then 1.0 else 0.0
    ensures key in Keys(extracted) ==>
      KeyScore(expected, extracted, key, differ) == if Get(extracted, key).Null? then 1.0 else 0.0
  {
  }

  // ---------------------------------------------------------------------
  // Aggregation
  // ---------------------------------------------------------------------

  function SumScores(fs: FieldScores): (r: real) {
    if fs == [] then 0.0 else SumScores(fs[..|fs| - 1]) + fs[|fs| - 1].1
  }

  predicate AllInUnitRange(fs: FieldScores) {
    forall i :: 0 <= i < |fs| ==> 0.0 <= fs[i].1 <= 1.0
  }

  /** `sum(field_scores.values()) / len(field_scores)`: the mean of scores
      in [0, 1] is itself in [0, 1]. */
  function Mean(fs: FieldScores): (r: real)
    requires fs != []
    ensures r * |fs| as real == SumScores(fs)
    ensures AllInUnitRange(fs) ==> 0.0 <= r <= 1.0
  {
    if AllInUnitRange(fs) then SumScoresBounds(fs); SumScores(fs) / |fs| as real
    else SumScores(fs) / |fs| as real
  }

  /** The sum of n scores in [0, 1] lies in [0, n]. */
  lemma {:induction false} SumScoresBounds(fs: FieldScores)
    requires AllInUnitRange(fs)
    ensures 0.0 <= SumScores(fs) <= |fs| as real
  {
    if fs != [] {
      SumScoresBounds(fs[..|fs| - 1]);
    }
  }

  /** The sum of n scores in [0, 1] is n exactly when every score is 1. */
  lemma {:induction false} SumScoresFull(fs: FieldScores)
    requires AllInUnitRange(fs)
    ensures SumScores(fs) == |fs| as real <==> forall i :: 0 <= i < |fs| ==> fs[i].1 == 1.0
  {
    if fs != [] {
      var init := fs[..|fs| - 1];
      SumScoresFull(init);
      SumScoresBounds(init);
      assert forall i :: 0 <= i < |init| ==> init[i] == fs[i];
    }
  }

  /** The mean of scores in [0, 1] lies in [0, 1], and is 1 exactly when
      every field scores 1. */
  lemma MeanInRange(fs: FieldScores)
    requires fs != [] && AllInUnitRange(fs)
    ensures 0.0 <= Mean(fs) <= 1.0
    ensures Mean(fs) == 1.0 <==> forall i :: 0 <= i < |fs| ==> fs[i].1 == 1.0
  {
    SumScoresBounds(fs);
    SumScoresFull(fs);
  }

  /** The aggregation as written: it divides by the number of fields with no
      guard, so an empty map raises ZeroDivisionError (`None`). */
  function OverallScoreAsWritten(fs: FieldScores): (r: Option<real>)
    ensures r.None? <==> fs == []
    ensures r.Some? ==> r.value * |fs| as real == SumScores(fs)
  {
    if fs == [] then None else Some(Mean(fs))
  }

  /** Any comparison whose roots are not both objects (a top-level array, a
      scalar, or a ground truth that failed to parse and so reads as `None`)
      reaches the division with an empty map. */
  lemma AsWrittenFailsWithoutFields(expected: Json, extracted: Json, differ: Differ, fs: FieldScores)
    requires IsFieldScores(expected, extracted, differ, fs)
    requires !expected.Obj? || !extracted.Obj? || (expected.members == [] && extracted.members == [])
    ensures OverallScoreAsWritten(fs).None?
  {
    FieldScoresEmptyIff(expected, extracted, differ, fs);
  }

  /** Comparing an object with itself through a differ that reports identical
      values as equal gives every field the score 1. */
  lemma IdenticalObjectsScoreOne(expected: Json, differ: Differ, fs: FieldScores)
    requires expected.Obj?
    requires forall v :: differ(v, v, true).IsEmpty()
    requires IsFieldScores(expected, expected, differ, fs)
    ensures forall i :: 0 <= i < |fs| ==> fs[i].1 == 1.0
    ensures fs != [] ==> Mean(fs) == 1.0
  {
    forall i | 0 <= i < |fs|
      ensures fs[i].1 == 1.0
    {
      var v := Get(expected.members, fs[i].0);
      assert differ(v, v, true).IsEmpty();
    }
    if fs != [] {
      FieldScoresInRange(expected, expected, differ, fs);
      MeanInRange(fs);
    }
  }
}
