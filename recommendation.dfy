/**
 * The final recommendation: over the valid records, count by selected option
 * when any record has one and by answer otherwise, take the majority from a
 * stable sort by count, pick the record that carries it, and grade the
 * agreement.
 */
module Recommendation {
  import opened Wrappers
  import opened Responses
  import opened Counting

  datatype Level = Strong | Moderate | Weak

  /**
   * The agreement tier of `count` out of `total`: at least 80% is strong, at
   * least 60% moderate. The percentage is compared exactly, by cross-multiplying.
   */
  function AgreementLevel(count: nat, total: nat): Level
    requires total > 0
  {
    if 5 * count >= 4 * total then Strong else if 5 * count >= 3 * total then Moderate else Weak
  }

  /** The tiers agree with `(count / total) * 100` computed exactly. */
  lemma AgreementLevelPercent(count: nat, total: nat)
    requires total > 0
    ensures var p := (count as real / total as real) * 100.0;
      (AgreementLevel(count, total) == Strong <==> p >= 80.0) &&
      (AgreementLevel(count, total) == Moderate <==> 60.0 <= p < 80.0) &&
      (AgreementLevel(count, total) == Weak <==> p < 60.0)
  {
    PercentAtLeast(count, total, 80);
    PercentAtLeast(count, total, 60);
  }

  /** `(count / total) * 100 >= bound`, read exactly, is `100 * count >= bound * total`. */
  lemma PercentAtLeast(count: nat, total: nat, bound: nat)
    requires total > 0
    ensures (count as real / total as real) * 100.0 >= bound as real <==> 100 * count >= bound * total
  {
    var c, t := count as real, total as real;
    var q := c / t;
    assert q * t == c;
    ScaleCompare(q * 100.0, bound as real, t);
    assert q * 100.0 * t == 100.0 * c;
    assert (100 * count) as real == 100.0 * c;
  }

  /** Multiplying by a positive number keeps the order. */
  lemma ScaleCompare(a: real, b: real, t: real)
    requires t > 0.0
    ensures a >= b <==> a * t >= b * t
  {
    if a >= b {
      assert (a - b) * t >= 0.0;
    } else {
      assert (b - a) * t > 0.0;
    }
  }

  /** The truthy selected options of `v`, in order: the keys the option count sees. */
  function OptionKeys(v: seq<AIResponse>): (ks: seq<string>)
    ensures |ks| <= |v|
    ensures forall k :: k in ks <==> exists i :: 0 <= i < |v| && Truthy(v[i].selectedOption) && v[i].selectedOption.value == k
  {
    if v == [] then []
    else (if Truthy(v[0].selectedOption) then [v[0].selectedOption.value] else []) + OptionKeys(v[1..])
  }

  /** One record contributes its selected option when that is truthy, and nothing otherwise. */
  lemma OptionKeysOne(r: AIResponse)
    ensures OptionKeys([r]) == if Truthy(r.selectedOption) then [r.selectedOption.value] else []
  {
    assert [r][1..] == [];
  }

  /** The option keys of two runs of records are those of the first followed by those of the second. */
  lemma {:induction false} OptionKeysAppend(a: seq<AIResponse>, b: seq<AIResponse>)
    ensures OptionKeys(a + b) == OptionKeys(a) + OptionKeys(b)
  {
    if a == [] {
      assert a + b == b;
    } else {
      assert (a + b)[1..] == a[1..] + b;
      OptionKeysAppend(a[1..], b);
    }
  }

  /** The answers of `v`, in order: the keys the answer count sees. */
  function AnswerKeys(v: seq<AIResponse>): (ks: seq<string>)
    ensures |ks| == |v| && forall i :: 0 <= i < |v| ==> ks[i] == v[i].answer
  {
    seq(|v|, i requires 0 <= i < |v| => v[i].answer)
  }

  /** `v.find(r => r.selectedOption === key)`, as an index. */
  function FindOption(v: seq<AIResponse>, key: string): (r: Option<nat>)
    ensures r.Some? ==> r.value < |v| && v[r.value].selectedOption == Some(key)
    ensures r.Some? ==> forall j :: 0 <= j < r.value ==> v[j].selectedOption != Some(key)
    ensures r.None? ==> forall j :: 0 <= j < |v| ==> v[j].selectedOption != Some(key)
  {
    if v == [] then None
    else if v[0].selectedOption == Some(key) then Some(0)
    else match FindOption(v[1..], key)
      case None => None
      case Some(i) => Some(i + 1)
  }

  /** `v.find(r => r.answer === key)`, as an index. */
  function FindAnswer(v: seq<AIResponse>, key: string): (r: Option<nat>)
    ensures r.Some? ==> r.value < |v| && v[r.value].answer == key
    ensures r.Some? ==> forall j :: 0 <= j < r.value ==> v[j].answer != key
    ensures r.None? ==> forall j :: 0 <= j < |v| ==> v[j].answer != key
  {
    if v == [] then None
    else if v[0].answer == key then Some(0)
    else match FindAnswer(v[1..], key)
      case None => None
      case Some(i) => Some(i + 1)
  }

  /**
   * `v.reduce((best, cur) => (cur.confidence || 0) > (best.confidence || 0) ? cur : best)`
   * over `v[..n]`, as an index: the first record of maximal confidence.
   */
  function MaxConfidence(v: seq<AIResponse>, n: nat): (b: nat)
    requires 0 < n <= |v|
    ensures b < n
    ensures forall k :: 0 <= k < n ==> ConfidenceOrZero(v[k]) <= ConfidenceOrZero(v[b])
    ensures forall k :: 0 <= k < b ==> ConfidenceOrZero(v[k]) < ConfidenceOrZero(v[b])
  {
    if n == 1 then 0
    else
      var b := MaxConfidence(v, n - 1);
      if ConfidenceOrZero(v[n - 1]) > ConfidenceOrZero(v[b]) then n - 1 else b
  }

  /** The keys that are counted: the truthy selected options when there is one, else every answer. */
  function CountedKeys(v: seq<AIResponse>): seq<string>
  {
    if OptionKeys(v) != [] then OptionKeys(v) else AnswerKeys(v)
  }

  /** What the card shows: the chosen record, the majority key with its count, and the agreement. */
  datatype Recommendation = Recommendation(
    best: AIResponse,
    byOption: bool,
    key: string,
    consensusCount: nat,
    totalResponses: nat,
    isConsensus: bool,
    level: Level)

  /** The body of `FinalRecommendation` up to the rendering; `None` where it returns `null`. */
  function Recommend(rs: seq<AIResponse>): Option<Recommendation>
  {
    var v := ValidResponses(rs);
    if |v| == 0 then None
    else
      var optionCounts := Tally(OptionKeys(v));
      var byOption := |optionCounts| > 0;
      var counts := if byOption then optionCounts else Tally(AnswerKeys(v));
      TallyMeaning(AnswerKeys(v));
      assert AnswerKeys(v)[0] in KeysOf(counts) || byOption;
      var top := SortByCount(counts)[0];
      var best :=
        if byOption then
          (match FindOption(v, top.key) case Some(i) => Some(v[i]) case None => None)
        else
          (match FindAnswer(v, top.key) case Some(i) => Some(v[i]) case None => Some(v[MaxConfidence(v, |v|)]));
      if best.None? then None
      else
        Some(Recommendation(best.value, byOption, top.key, top.count, |v|, top.count > 1,
                            AgreementLevel(top.count, |v|)))
  }
}
