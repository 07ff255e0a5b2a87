/**
 * The parsed JSON tree that the metric compares, and the recursive count of
 * its "value units" (`count_total_values`), used as the denominator of every
 * similarity score.
 */
module JsonTree {

  /** A parsed value. `Other` stands for any value of a type the counter does
      not recognise (it can only come from a structure handed over already
      parsed, never from a JSON text). Python's `None` is `Null`. A number
      records whether it was written as an integer (`30`, a Python `int`) or
      not (`30.0`, a `float`): the two are equal numbers but different
      values, and a differ may report a type change between them. */
  datatype Json =
    | Null
    | Bool(flag: bool)
    | Num(number: real, isInt: bool)
    | Str(text: string)
    | Arr(items: seq<Json>)
    | Obj(members: seq<Member>)
    | Other

  /** One key/value entry of an object; an object is an association list
      in insertion order, as a Python dict is. */
  datatype Member = Member(key: string, value: Json)

  predicate IsLeaf(j: Json) {
    !j.Arr? && !j.Obj?
  }

  /** The key set of an object. */
  function Keys(members: seq<Member>): (r: set<string>)
    ensures forall i :: 0 <= i < |members| ==> members[i].key in r
    ensures forall k :: k in r ==> exists i :: 0 <= i < |members| && members[i].key == k
  {
    set i | 0 <= i < |members| :: members[i].key
  }

  /** The values of an object, in order (`dict.values()`). */
  function Values(members: seq<Member>): (r: seq<Json>)
    ensures |r| == |members|
    ensures forall i :: 0 <= i < |members| ==> r[i] == members[i].value
  {
    seq(|members|, i requires 0 <= i < |members| => members[i].value)
  }

  /** `dict.get(key)`: the value stored under `key`, or `None` (here `Null`)
      when the key is absent. */
  function Get(members: seq<Member>, key: string): (r: Json)
    ensures key !in Keys(members) ==> r == Null
    ensures key in Keys(members) ==>
      exists i :: 0 <= i < |members| && members[i].key == key && r == members[i].value
  {
    if members == [] then Null
    else if members[0].key == key then members[0].value
    else
      var r := Get(members[1..], key);
      assert Keys(members) == {members[0].key} + Keys(members[1..]);
      r
  }

  // ---------------------------------------------------------------------
  // count_total_values
  // ---------------------------------------------------------------------

  /** Reference definition of a value unit: the leaves of the tree, left to
      right (empty containers contribute none). */
  function Leaves(j: Json): (r: seq<Json>)
    ensures forall i :: 0 <= i < |r| ==> IsLeaf(r[i])
  {
    match j
    case Arr(items) => LeavesOfItems(items)
    case Obj(members) => LeavesOfValues(members)
    case _ => [j]
  }

  function LeavesOfItems(items: seq<Json>): (r: seq<Json>)
    ensures forall i :: 0 <= i < |r| ==> IsLeaf(r[i])
  {
    if items == [] then []
    else LeavesOfItems(items[..|items| - 1]) + Leaves(items[|items| - 1])
  }

  function LeavesOfValues(members: seq<Member>): (r: seq<Json>)
    ensures forall i :: 0 <= i < |r| ==> IsLeaf(r[i])
  {
    if members == [] then []
    else LeavesOfValues(members[..|members| - 1]) + Leaves(members[|members| - 1].value)
  }

  /** `count_total_values`: the number of value units in `j`, i.e. of its
      leaves. A leaf (null, boolean, number, string or an unrecognised
      value) counts 1, an array the sum over its elements, an object the sum
      over its values (keys are not counted). */
  function Count(j: Json): (r: nat)
    ensures r == |Leaves(j)|
  {
    match j
    case Arr(items) => CountItems(items)
    case Obj(members) => CountValues(members)
    case _ => 1
  }

  /** The sum of the counts of `items`: the number of their leaves. */
  function CountItems(items: seq<Json>): (r: nat)
    ensures r == |LeavesOfItems(items)|
  {
    if items == [] then 0
    else CountItems(items[..|items| - 1]) + Count(items[|items| - 1])
  }

  /** The sum of the counts of the values of `members`: the number of their
      leaves. */
  function CountValues(members: seq<Member>): (r: nat)
    ensures r == |LeavesOfValues(members)|
  {
    if members == [] then 0
    else CountValues(members[..|members| - 1]) + Count(members[|members| - 1].value)
  }

  /** Every leaf counts as one. */
  lemma CountOfLeaf(j: Json)
    requires IsLeaf(j)
    ensures Count(j) == 1
  {
  }

  /** Empty containers count 0. */
  lemma CountOfEmptyContainers()
    ensures Count(Arr([])) == 0
    ensures Count(Obj([])) == 0
  {
  }

  /** A tree counts as zero exactly when it has no leaf at all: a non-empty
      container such as `[[]]` or `{"a": {}}` also counts 0. */
  lemma CountPositiveIffSomeLeaf(j: Json)
    ensures Count(j) > 0 <==> Leaves(j) != []
  {
  }

  /** The count of an array is additive over concatenation, so it is the sum
      of its elements' counts whichever way the array is split. */
  lemma {:induction false} ArrayCountSplits(a: seq<Json>, b: seq<Json>)
    ensures Count(Arr(a + b)) == Count(Arr(a)) + Count(Arr(b))
    decreases |b|
  {
    if b == [] {
      assert a + b == a;
    } else {
      var b' := b[..|b| - 1];
      ArrayCountSplits(a, b');
      assert (a + b)[..|a + b| - 1] == a + b';
      assert (a + b)[|a + b| - 1] == b[|b| - 1];
    }
  }

  /** An object counts like the array of its values: keys are not counted. */
  lemma {:induction false} ObjectCountIgnoresKeys(members: seq<Member>)
    ensures Count(Obj(members)) == Count(Arr(Values(members)))
    decreases |members|
  {
    if members != [] {
      var init := members[..|members| - 1];
      ObjectCountIgnoresKeys(init);
      assert Values(members)[..|members| - 1] == Values(init);
    }
  }
}
