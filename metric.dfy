/**
 * `llm_structured_output_metric`: extract both sides, reject an answer with
 * no JSON, score the top-level fields and average them. The diagnostic
 * text the metric also returns is not modelled; the score and the field
 * scores it carries are.
 */
module StructuredOutputMetric {
  import opened Wrappers
  import opened JsonTree
  import opened Extraction
  import opened Scoring

  /** The outcome of one evaluation. */
  datatype Outcome =
    | ExtractionFailed(expectedData: Json)
    | Scored(score: real, fieldScores: FieldScores)
  {
    /** The score returned to the caller. */
    function Value(): (r: real) {
      if ExtractionFailed? then 0.0 else score
    }
  }

  /** The extractor's result as the caller sees it: Python's `None` is both
      the failure signal and a parsed JSON `null`. */
  function AsPython(o: Option<Json>): (v: Json)
    ensures o.None? ==> v == Null
    ensures o.Some? ==> v == o.value
  {
    o.GetOr(Null)
  }

  /** The metric with a guard on the mean: when there are no fields to
      average, the score is the whole-tree similarity from the diff of the
      two roots. Every outcome scores in [0, 1]. */
  method Metric(output: Response, outputTrue: Response, parsers: Parsers, differ: Differ)
    returns (outcome: Outcome)
    ensures
      var expected := AsPython(Extract(outputTrue, parsers));
      var extracted := AsPython(Extract(output, parsers));
      && (outcome.ExtractionFailed? <==> extracted.Null?)
      && (outcome.ExtractionFailed? ==> outcome.expectedData == expected)
      && (outcome.Scored? ==>
            && IsFieldScores(expected, extracted, differ, outcome.fieldScores)
            && (outcome.fieldScores != [] ==> outcome.score == Mean(outcome.fieldScores))
            && (outcome.fieldScores == [] ==>
                  outcome.score == Score(expected, extracted, differ(expected, extracted, false))))
    ensures 0.0 <= outcome.Value() <= 1.0
  {
    var expectedData := AsPython(Extract(outputTrue, parsers));
    var extractedData := AsPython(Extract(output, parsers));
    if extractedData.Null? {
      return ExtractionFailed(expectedData);
    }
    var diff := differ(expectedData, extractedData, false);
    var fieldScores := FieldLevelScores(expectedData, extractedData, differ);
    FieldScoresInRange(expectedData, extractedData, differ, fieldScores);
    if fieldScores == [] {
      var overallScore := SimilarityScore(expectedData, extractedData, diff);
      outcome := Scored(overallScore, fieldScores);
    } else {
      MeanInRange(fieldScores);
      outcome := Scored(Mean(fieldScores), fieldScores);
    }
  }

  /** With distinct keys, a field score map has one entry per key. */
  lemma {:induction false} DistinctKeysCardinality(fs: FieldScores)
    requires DistinctKeys(fs)
    ensures |ScoreKeys(fs)| == |fs|
  {
    if fs != [] {
      var init := fs[..|fs| - 1];
      assert DistinctKeys(init);
      DistinctKeysCardinality(init);
      ScoreKeysAppend(init, fs[|fs| - 1].0, fs[|fs| - 1].1);
      assert init + [fs[|fs| - 1]] == fs;
      assert fs[|fs| - 1].0 !in ScoreKeys(init);
    }
  }

  /** The keys and lookups of a two-member object. */
  lemma TwoMemberObject(a: string, va: Json, b: string, vb: Json)
    requires a != b
    ensures Keys([Member(a, va), Member(b, vb)]) == {a, b}
    ensures Get([Member(a, va), Member(b, vb)], a) == va
    ensures Get([Member(a, va), Member(b, vb)], b) == vb
  {
    var m := [Member(a, va), Member(b, vb)];
    assert m[0].key == a && m[1].key == b;
    forall k | k in Keys(m) ensures k in {a, b} {
      var i :| 0 <= i < |m| && m[i].key == k;
    }
  }

  /** Two keys scoring 1.0 and 0.0 average to 0.5. */
  lemma TwoFieldMean(fs: FieldScores, a: string, b: string)
    requires a != b && DistinctKeys(fs) && ScoreKeys(fs) == {a, b}
    requires forall i :: 0 <= i < |fs| ==> fs[i].1 == if fs[i].0 == a then 1.0 else 0.0
    ensures fs != [] && Mean(fs) == 0.5
  {
    DistinctKeysCardinality(fs);
    assert |fs| == 2;
    assert fs[0].0 in ScoreKeys(fs) && fs[1].0 in ScoreKeys(fs);
    assert fs[..1] == [fs[0]];
    assert fs[..1][..0] == [];
    assert SumScores(fs[..1]) == fs[0].1;
    assert SumScores(fs) == fs[0].1 + fs[1].1;
  }

  /** The key scores of the two-field comparison below. */
  lemma TwoFieldKeyScores(a: string, b: string, va: Json, vb: Json, wb: Json, differ: Differ)
    requires a != b && !va.Null? && !vb.Null? && !wb.Null? && Count(vb) == 1
    requires differ(va, va, true).IsEmpty()
    requires Penalty(differ(vb, wb, true)) == 1 && !differ(vb, wb, true).IsEmpty()
    ensures KeyScore([Member(a, va), Member(b, vb)], [Member(a, va), Member(b, wb)], a, differ) == 1.0
    ensures KeyScore([Member(a, va), Member(b, vb)], [Member(a, va), Member(b, wb)], b, differ) == 0.0
  {
    TwoMemberObject(a, va, b, vb);
    TwoMemberObject(a, va, b, wb);
  }

  /** Two fields, one reproduced and one with a single changed leaf (as
      `{"name":"Alice","age":30}` against `{"name":"Alice","age":31}`):
      the fields score 1.0 and 0.0 and the overall score is 0.5. */
  lemma OneOfTwoFieldsWrongScoresHalf(
    a: string, b: string, va: Json, vb: Json, wb: Json, differ: Differ, fs: FieldScores)
    requires a != b && !va.Null? && !vb.Null? && !wb.Null? && Count(vb) == 1
    requires differ(va, va, true).IsEmpty()
    requires Penalty(differ(vb, wb, true)) == 1 && !differ(vb, wb, true).IsEmpty()
    requires IsFieldScores(Obj([Member(a, va), Member(b, vb)]), Obj([Member(a, va), Member(b, wb)]), differ, fs)
    ensures forall i :: 0 <= i < |fs| ==> fs[i].1 == if fs[i].0 == a then 1.0 else 0.0
    ensures fs != [] && Mean(fs) == 0.5
  {
    var e := [Member(a, va), Member(b, vb)];
    var x := [Member(a, va), Member(b, wb)];
    TwoFieldKeyScores(a, b, va, vb, wb, differ);
    TwoMemberObject(a, va, b, vb);
    TwoMemberObject(a, va, b, wb);
    TwoFieldEntries(e, x, differ, fs, a, b);
    TwoFieldMean(fs, a, b);
  }

  /** The entries of a field map over the key set {a, b} whose keys score
      1.0 and 0.0. */
  lemma TwoFieldEntries(e: seq<Member>, x: seq<Member>, differ: Differ, fs: FieldScores, a: string, b: string)
    requires IsFieldScores(Obj(e), Obj(x), differ, fs)
    requires Keys(e) + Keys(x) == {a, b}
    requires KeyScore(e, x, a, differ) == 1.0 && KeyScore(e, x, b, differ) == 0.0
    ensures ScoreKeys(fs) == {a, b} && DistinctKeys(fs)
    ensures forall i :: 0 <= i < |fs| ==> fs[i].1 == if fs[i].0 == a then 1.0 else 0.0
  {
    TwoKeyEntries(fs, a, b);
  }

  /** A map over the key set {a, b} in which `a` scores 1.0 and `b` 0.0. */
  lemma TwoKeyEntries(fs: FieldScores, a: string, b: string)
    requires ScoreKeys(fs) == {a, b}
    requires forall i :: 0 <= i < |fs| && fs[i].0 == a ==> fs[i].1 == 1.0
    requires forall i :: 0 <= i < |fs| && fs[i].0 == b ==> fs[i].1 == 0.0
    ensures forall i :: 0 <= i < |fs| ==> fs[i].1 == if fs[i].0 == a then 1.0 else 0.0
  {
    forall i | 0 <= i < |fs|
      ensures fs[i].1 == if fs[i].0 == a then 1.0 else 0.0
    {
      assert fs[i].0 in ScoreKeys(fs);
    }
  }
}
