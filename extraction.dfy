/**
 * `parse_json_from_response`: read a JSON tree out of a model's answer.
 * A structure that is already a dict passes through; a string is tried,
 * in this order, as a whole JSON text, as the greedy brace-delimited span
 * `\{.*\}` (dot matching newlines), and as the payload of a fenced code
 * block; the first attempt that decodes wins, and all three failing gives
 * no result.
 */
module Extraction {
  import opened Wrappers
  import opened JsonTree

  /** What the extractor is handed: a dict, or text. */
  datatype Response = Dict(members: seq<Member>) | Text(text: string)

  /** The library calls the extractor relies on, given as parameters:
      `loads` is `json.loads` (None when it raises a decode error), and
      `fencedPayload` is group 1 of the fenced-block pattern
      ```` ```(?:json)?\s*(\{.*?\})\s*``` ```` (None when it does not match). */
  datatype Parsers = Parsers(loads: string -> Option<Json>, fencedPayload: string -> Option<string>)

  /** The first position of `c` in `s`. */
  function FirstIndex(s: string, c: char): (r: Option<nat>)
    ensures r.None? <==> c !in s
    ensures r.Some? ==> r.value < |s| && s[r.value] == c && c !in s[..r.value]
  {
    if s == [] then None
    else if s[0] == c then Some(0)
    else
      match FirstIndex(s[1..], c)
      case None => None
      case Some(i) =>
        assert s[..i + 1] == [s[0]] + s[1..][..i];
        Some(i + 1)
  }

  /** The last position of `c` in `s`. */
  function LastIndex(s: string, c: char): (r: Option<nat>)
    ensures r.None? <==> c !in s
    ensures r.Some? ==> r.value < |s| && s[r.value] == c && c !in s[r.value + 1..]
  {
    if s == [] then None
    else if s[|s| - 1] == c then Some(|s| - 1)
    else
      var init := s[..|s| - 1];
      assert s == init + [s[|s| - 1]];
      match LastIndex(init, c)
      case None => None
      case Some(j) =>
        assert s[j + 1..] == init[j + 1..] + [s[|s| - 1]];
        Some(j)
  }

  /** Where `re.search(r'\{.*\}', s, re.DOTALL)` matches: the leftmost start
      is the first `{`, and the greedy `.*` stretches the match to the last
      `}`. There is no match when no `}` follows any `{`. */
  function BraceMatch(s: string): (r: Option<(nat, nat)>)
    ensures r.Some? ==>
      var (i, j) := r.value;
      && i < j < |s| && s[i] == '{' && s[j] == '}'
      && '{' !in s[..i] && '}' !in s[j + 1..]
    ensures r.None? <==> forall i, j :: 0 <= i < j < |s| && s[i] == '{' ==> s[j] != '}'
  {
    match (FirstIndex(s, '{'), LastIndex(s, '}'))
    case (Some(i), Some(j)) =>
      if i < j then Some((i, j))
      else
        assert forall i', j' :: 0 <= i' < j' < |s| && s[i'] == '{' ==> s[j'] != '}' by {
          forall i', j' | 0 <= i' < j' < |s| && s[i'] == '{'
            ensures s[j'] != '}'
          {
          }
        }
        None
    case (None, _) => None
    case (_, None) => None
  }

  /** `s[i..j + 1]` runs from the first `{` of `s` to its last `}`. */
  predicate IsGreedySpan(s: string, i: int, j: int) {
    && 0 <= i < j < |s| && s[i] == '{' && s[j] == '}'
    && '{' !in s[..i] && '}' !in s[j + 1..]
  }

  /** There is at most one first `{` and one last `}`. */
  lemma GreedySpanUnique(s: string, i: int, j: int, i': int, j': int)
    requires IsGreedySpan(s, i, j) && IsGreedySpan(s, i', j')
    ensures i == i' && j == j'
  {
    assert forall k | 0 <= k < i :: s[..i][k] == s[k];
    assert forall k | 0 <= k < i' :: s[..i'][k] == s[k];
    assert forall k | j < k < |s| :: s[j + 1..][k - j - 1] == s[k];
    assert forall k | j' < k < |s| :: s[j' + 1..][k - j' - 1] == s[k];
  }

  /** The matched text, `json_match.group()`: the text from the first `{`
      to the last `}`, when that `}` comes after the `{`. */
  function BraceSpan(s: string): (r: Option<string>)
    ensures r.Some? ==> exists i, j :: IsGreedySpan(s, i, j) && r.value == s[i..j + 1]
    ensures forall i, j | IsGreedySpan(s, i, j) :: r == Some(s[i..j + 1])
    ensures r.None? <==> forall i, j :: 0 <= i < j < |s| && s[i] == '{' ==> s[j] != '}'
  {
    var m := BraceMatch(s);
    if m.None? then None
    else
      var (i, j) := m.value;
      assert IsGreedySpan(s, i, j);
      assert forall i', j' | IsGreedySpan(s, i', j') :: i' == i && j' == j by {
        forall i', j' | IsGreedySpan(s, i', j') ensures i' == i && j' == j {
          GreedySpanUnique(s, i, j, i', j');
        }
      }
      Some(s[i..j + 1])
  }

  /** Second attempt: the greedy brace-delimited span. Its result is the
      decoding of the substring from the first `{` to the last `}`; a text
      in which no `}` follows a `{` gives none. */
  function BraceAttempt(s: string, p: Parsers): (r: Option<Json>)
    ensures r.Some? ==> exists i, j :: IsGreedySpan(s, i, j) && r == p.loads(s[i..j + 1])
    ensures forall i, j | IsGreedySpan(s, i, j) :: r == p.loads(s[i..j + 1])
    ensures (forall i, j :: 0 <= i < j < |s| && s[i] == '{' ==> s[j] != '}') ==> r.None?
  {
    match BraceSpan(s)
    case None => None
    case Some(t) => p.loads(t)
  }

  /** Third attempt: the payload of a fenced code block. Without a fenced
      block there is no success; with one, the result is its decoding. */
  function FenceAttempt(s: string, p: Parsers): (r: Option<Json>)
    ensures p.fencedPayload(s).None? ==> r.None?
    ensures p.fencedPayload(s).Some? ==> r == p.loads(p.fencedPayload(s).value)
  {
    match p.fencedPayload(s)
    case None => None
    case Some(t) => p.loads(t)
  }

  /** The three attempts in the order they are made. */
  function Attempts(s: string, p: Parsers): (r: seq<Option<Json>>) {
    [p.loads(s), BraceAttempt(s, p), FenceAttempt(s, p)]
  }

  /** Reference definition of a cascade: the first attempt that succeeded. */
  function FirstSuccess(attempts: seq<Option<Json>>): (r: Option<Json>)
    ensures r.None? <==> forall i :: 0 <= i < |attempts| ==> attempts[i].None?
    ensures r.Some? ==>
      exists i :: 0 <= i < |attempts| && attempts[i] == r &&
        forall k :: 0 <= k < i ==> attempts[k].None?
  {
    if attempts == [] then None
    else if attempts[0].Some? then attempts[0]
    else
      assert forall i :: 0 < i < |attempts| ==> attempts[i] == attempts[1..][i - 1];
      FirstSuccess(attempts[1..])
  }

  /** `parse_json_from_response`. A text that decodes to JSON `null` is a
      success (`Some(Null)`); the failure signal is `None`. */
  function Extract(response: Response, p: Parsers): (r: Option<Json>)
    ensures response.Dict? ==> r == Some(Obj(response.members))
    ensures response.Text? ==>
      var s := response.text;
      && (r.None? <==> p.loads(s).None? && BraceAttempt(s, p).None? && FenceAttempt(s, p).None?)
      && (p.loads(s).Some? ==> r == p.loads(s))
      && (p.loads(s).None? && BraceAttempt(s, p).Some? ==> r == BraceAttempt(s, p))
      && (p.loads(s).None? && BraceAttempt(s, p).None? ==> r == FenceAttempt(s, p))
  {
    match response
    case Dict(members) => Some(Obj(members))
    case Text(s) =>
      var direct := p.loads(s);
      if direct.Some? then direct
      else
        var braced := BraceAttempt(s, p);
        if braced.Some? then braced
        else FenceAttempt(s, p)
  }

  /** The extractor on text is the first success of its three attempts. */
  lemma ExtractIsFirstSuccess(s: string, p: Parsers)
    ensures Extract(Text(s), p) == FirstSuccess(Attempts(s, p))
  {
    FirstOfThree(p.loads(s), BraceAttempt(s, p), FenceAttempt(s, p));
  }

  /** The first success among three attempts. */
  lemma FirstOfThree(x: Option<Json>, y: Option<Json>, z: Option<Json>)
    ensures FirstSuccess([x, y, z]) == if x.Some? then x else if y.Some? then y else z
  {
    var last, tail, a := [z], [y, z], [x, y, z];
    assert last[1..] == [] && tail[1..] == last && a[1..] == tail;
    assert FirstSuccess(last) == z;
    assert FirstSuccess(tail) == if y.Some? then y else z;
  }

  /** A JSON object set in prose that holds no `{` before it and no `}`
      after it is exactly the span the brace attempt finds. */
  lemma {:induction false} BraceSpanOfWrapped(prefix: string, t: string, suffix: string)
    requires '{' !in prefix && '}' !in suffix
    requires |t| >= 2 && t[0] == '{' && t[|t| - 1] == '}'
    ensures BraceSpan(prefix + t + suffix) == Some(t)
  {
    var s := prefix + t + suffix;
    var lo, hi := |prefix|, |prefix| + |t| - 1;
    assert s[lo] == '{' && s[hi] == '}';
    assert BraceMatch(s).Some?;
    var (i, j) := BraceMatch(s).value;
    assert s[i..j + 1] == t;
  }

  /** A fenced answer such as "here is the answer: ```json {...} ```" that is
      not JSON as a whole is taken by the brace attempt, before the fenced
      block is ever looked at. */
  lemma ExtractWrappedObject(prefix: string, t: string, suffix: string, p: Parsers)
    requires '{' !in prefix && '}' !in suffix
    requires |t| >= 2 && t[0] == '{' && t[|t| - 1] == '}'
    requires p.loads(prefix + t + suffix).None? && p.loads(t).Some?
    ensures Extract(Text(prefix + t + suffix), p) == p.loads(t)
  {
    BraceSpanOfWrapped(prefix, t, suffix);
  }
}
