/**
 * The per-model record shown on a card and read by both consensus
 * computations, with JavaScript truthiness written out for its optional fields.
 */
module Responses {
  import opened Wrappers

  /**
   * A JavaScript number as `parseFloat` can produce it here: `NaN`, or a finite
   * value kept as an exact decimal (the nearest double is not modelled).
   */
  datatype Num = NaN | Finite(value: real)

  /** `AIResponse`: every field but `modelName` and `answer` is optional. */
  datatype AIResponse = AIResponse(
    modelName: string,
    answer: string,
    reasoning: Option<string>,
    confidence: Option<Num>,
    error: Option<string>,
    isLoading: Option<bool>,
    selectedOption: Option<string>)

  /** Truthiness of an optional string: present and not empty. */
  predicate Truthy(s: Option<string>)
  {
    s.Some? && s.value != ""
  }

  /** Truthiness of an optional boolean. */
  predicate IsTrue(b: Option<bool>)
  {
    b == Some(true)
  }

  /** `r.error` is truthy. */
  predicate HasError(r: AIResponse)
  {
    Truthy(r.error)
  }

  /** `r.isLoading` is truthy. */
  predicate Loading(r: AIResponse)
  {
    IsTrue(r.isLoading)
  }

  /** The filter both consensus computations apply: `!r.error && !r.isLoading`. */
  predicate IsValid(r: AIResponse)
  {
    !HasError(r) && !Loading(r)
  }

  /** `responses.filter(r => !r.error && !r.isLoading)`. */
  function ValidResponses(rs: seq<AIResponse>): (v: seq<AIResponse>)
    ensures |v| <= |rs|
    ensures forall i :: 0 <= i < |v| ==> IsValid(v[i]) && v[i] in rs
    ensures forall r :: r in rs && IsValid(r) ==> r in v
  {
    if rs == [] then []
    else if IsValid(rs[0]) then [rs[0]] + ValidResponses(rs[1..])
    else ValidResponses(rs[1..])
  }

  /** The filter keeps exactly the valid records, in their original order. */
  lemma {:induction false} ValidResponsesAppend(a: seq<AIResponse>, b: seq<AIResponse>)
    ensures ValidResponses(a + b) == ValidResponses(a) + ValidResponses(b)
  {
    if a == [] {
      assert a + b == b;
    } else {
      assert (a + b)[1..] == a[1..] + b;
      ValidResponsesAppend(a[1..], b);
    }
  }

  /** `(r.confidence || 0)`: absent, `NaN` and `0` all read as 0. */
  function ConfidenceOrZero(r: AIResponse): (c: real)
    ensures r.confidence.Some? && r.confidence.value.Finite? ==> c == r.confidence.value.value
    ensures r.confidence.None? || r.confidence.value.NaN? ==> c == 0.0
  {
    match r.confidence
    case None => 0.0
    case Some(NaN) => 0.0
    case Some(Finite(v)) => v
  }
}
