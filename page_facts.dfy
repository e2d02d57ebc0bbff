/** What the headline consensus promises, how it relates to the final recommendation, and what shows while loading. */
module PageFacts {
  import opened Wrappers
  import opened Responses
  import opened Counting
  import opened Recommendation
  import opened RecommendationFacts
  import opened Dispatch
  import opened Page
  import opened Card

  /**
   * A headline answer is an answer of a valid record that more than one valid
   * record gives, no answer is given more often, and it comes first in
   * first-occurrence order among the most frequent; there is none exactly
   * when fewer than two records are valid or every valid answer is unique.
   */
  lemma ConsensusChoice(rs: seq<AIResponse>)
    ensures var v := ValidResponses(rs); var keys := AnswerKeys(v);
      (ConsensusAnswer(rs).None? <==> |v| < 2 || forall k :: k in keys ==> Occurrences(keys, k) <= 1) &&
      (ConsensusAnswer(rs).Some? ==>
        var a := ConsensusAnswer(rs).value;
        a in keys && Occurrences(keys, a) > 1 &&
        (forall k :: k in keys ==> Occurrences(keys, k) <= Occurrences(keys, a)) &&
        (forall k :: k in keys && Occurrences(keys, k) == Occurrences(keys, a) ==> FirstIndex(keys, a) <= FirstIndex(keys, k)))
  {
    var v := ValidResponses(rs);
    if |v| >= 2 {
      var keys := AnswerKeys(v);
      var counts := Tally(keys);
      TallyMeaning(keys);
      assert keys[0] in KeysOf(counts);
      FirstWithMaxCount(counts);
      var m := FirstMaxIndex(counts);
      forall k | k in keys ensures Occurrences(keys, k) <= counts[m].count
        && (Occurrences(keys, k) == counts[m].count ==> FirstIndex(keys, counts[m].key) <= FirstIndex(keys, k))
      {
        var i :| 0 <= i < |counts| && KeysOf(counts)[i] == k;
        assert counts[i].count == Occurrences(keys, k);
        if Occurrences(keys, k) == counts[m].count && i != m {
          assert i > m;
        }
      }
      if MaxCount(counts) <= 1 {
        forall k | k in keys ensures Occurrences(keys, k) <= 1 {
        }
      } else {
        assert counts[m].key in keys;
      }
    }
  }

  /** The headline is computed from the valid records' answers alone: selected options play no part. */
  lemma ConsensusIgnoresOptions(rs1: seq<AIResponse>, rs2: seq<AIResponse>)
    requires AnswerKeys(ValidResponses(rs1)) == AnswerKeys(ValidResponses(rs2))
    ensures ConsensusAnswer(rs1) == ConsensusAnswer(rs2)
  {
  }

  /**
   * When there is a headline and no valid record selects an option, the final
   * recommendation counts answers and picks the same answer as the headline.
   */
  lemma HeadlineMatchesRecommendation(rs: seq<AIResponse>)
    requires ConsensusAnswer(rs).Some? && OptionKeys(ValidResponses(rs)) == []
    ensures Recommend(rs).Some? && !Recommend(rs).value.byOption
    ensures Recommend(rs).value.key == ConsensusAnswer(rs).value
    ensures Recommend(rs).value.best.answer == ConsensusAnswer(rs).value
  {
    var v := ValidResponses(rs);
    var keys := AnswerKeys(v);
    assert |v| >= 2;
    RecommendPresence(rs);
    OptionModeIff(v);
    assert CountedKeys(v) == keys;
    ConsensusChoice(rs);
    RecommendMajority(rs);
    RecommendBest(rs);
    var a, b := ConsensusAnswer(rs).value, Recommend(rs).value.key;
    assert FirstIndex(keys, a) == FirstIndex(keys, b);
  }

  /** While a query is in flight every record is loading, so no card is flagged and no recommendation shows. */
  lemma PlaceholdersLoading()
    ensures ValidResponses(Placeholders()) == []
    ensures ConsensusAnswer(Placeholders()).None? && Recommend(Placeholders()).None?
  {
    var p := Placeholders();
    assert p[1..][1..][1..][1..] == [];
    RecommendPresence(p);
  }

  /** Valid records, two of which carry the answer `c`, show two success badges. */
  lemma AgreeingPair(v: seq<AIResponse>, c: Option<string>)
    requires Truthy(c) && forall i :: 0 <= i < |v| ==> IsValid(v[i])
    requires Occurrences(AnswerKeys(v), c.value) >= 2
    ensures exists i, j :: (0 <= i < j < |v| &&
      CardVariant(v[i], c) == SuccessVariant && CardVariant(v[j], c) == SuccessVariant)
  {
    var keys := AnswerKeys(v);
    TwoOccurrences(keys, c.value);
    var i, j :| 0 <= i < j < |keys| && keys[i] == c.value && keys[j] == c.value;
    assert CardVariant(v[i], c) == SuccessVariant;
  }

  /** A truthy headline answer is shown as agreeing on at least two valid records. */
  lemma ConsensusCardsAtLeastTwo(rs: seq<AIResponse>)
    requires Truthy(ConsensusAnswer(rs))
    ensures var v := ValidResponses(rs);
      exists i, j :: 0 <= i < j < |v| &&
        CardVariant(v[i], ConsensusAnswer(rs)) == SuccessVariant &&
        CardVariant(v[j], ConsensusAnswer(rs)) == SuccessVariant
  {
    ConsensusChoice(rs);
    AgreeingPair(ValidResponses(rs), ConsensusAnswer(rs));
  }
}
