/** The two ways the handlers combine candidate sources for one field:
    Python's `a or b or c` (first truthy value, else the last one), and
    "first value that is not None". */
module Fallback {
  import opened Json

  /** The position `a or b or ...` takes its value from. */
  function FirstTruthyIndex(cs: seq<Json>): (i: nat)
    requires |cs| > 0
    ensures i < |cs|
    ensures forall j :: 0 <= j < i ==> !Truthy(cs[j])
    ensures Truthy(cs[i]) || i == |cs| - 1
  {
    if |cs| == 1 || Truthy(cs[0]) then 0 else 1 + FirstTruthyIndex(cs[1..])
  }

  /** `cs[0] or cs[1] or ...`: the first truthy candidate, else the last one. */
  function FirstTruthy(cs: seq<Json>): Json
    requires |cs| > 0
  {
    cs[FirstTruthyIndex(cs)]
  }

  /** The position of the first candidate that is not None, or |cs| if there is none. */
  function FirstPresentIndex(cs: seq<Json>): (i: nat)
    ensures i <= |cs|
    ensures forall j :: 0 <= j < i ==> cs[j] == JNull
    ensures i < |cs| ==> cs[i] != JNull
  {
    if cs == [] then 0 else if cs[0] != JNull then 0 else 1 + FirstPresentIndex(cs[1..])
  }

  /** The first candidate that is not None; None if every candidate is. */
  function FirstPresent(cs: seq<Json>): Json {
    var i := FirstPresentIndex(cs);
    if i == |cs| then JNull else cs[i]
  }

  lemma FirstTruthyOfTwo(a: Json, b: Json)
    ensures FirstTruthy([a, b]) == if Truthy(a) then a else b
  {
    var cs := [a, b];
    var i := FirstTruthyIndex(cs);
    if i > 0 {
      assert !Truthy(cs[0]);
    }
  }

  lemma FirstTruthyOfThree(a: Json, b: Json, c: Json)
    ensures FirstTruthy([a, b, c]) == if Truthy(a) then a else if Truthy(b) then b else c
  {
    var cs := [a, b, c];
    var i := FirstTruthyIndex(cs);
    if i > 0 {
      assert !Truthy(cs[0]);
    }
    if i > 1 {
      assert !Truthy(cs[1]);
    }
  }

  lemma FirstPresentOfTwo(a: Json, b: Json)
    ensures FirstPresent([a, b]) == if a != JNull then a else b
  {
    var cs := [a, b];
    var i := FirstPresentIndex(cs);
    if i > 0 {
      assert cs[0] == JNull;
    }
    if i > 1 {
      assert cs[1] == JNull;
    }
  }

  lemma FirstPresentOfThree(a: Json, b: Json, c: Json)
    ensures FirstPresent([a, b, c]) == if a != JNull then a else if b != JNull then b else c
  {
    var cs := [a, b, c];
    var i := FirstPresentIndex(cs);
    if i > 0 {
      assert cs[0] == JNull;
    }
    if i > 1 {
      assert cs[1] == JNull;
    }
    if i > 2 {
      assert cs[2] == JNull;
    }
  }
}
