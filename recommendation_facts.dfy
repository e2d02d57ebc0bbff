/** What the final recommendation promises: when it appears, which key wins, which record is shown, and how agreement is graded. */
module RecommendationFacts {
  import opened Wrappers
  import opened Responses
  import opened Counting
  import opened Recommendation

  /** The sort's first entry is an entry of the counts object. */
  lemma TopIsEntry(counts: seq<Entry>)
    requires counts != []
    ensures SortByCount(counts)[0] in counts
  {
    assert SortByCount(counts)[0] in multiset(SortByCount(counts));
  }

  /** Option counting is used exactly when some valid record has a truthy selected option. */
  lemma OptionModeIff(v: seq<AIResponse>)
    ensures |Tally(OptionKeys(v))| > 0 <==> OptionKeys(v) != []
    ensures OptionKeys(v) != [] <==> exists i :: 0 <= i < |v| && Truthy(v[i].selectedOption)
  {
    TallyMeaning(OptionKeys(v));
    if OptionKeys(v) != [] {
      assert OptionKeys(v)[0] in OptionKeys(v);
      assert OptionKeys(v)[0] in KeysOf(Tally(OptionKeys(v)));
    }
    if exists i :: 0 <= i < |v| && Truthy(v[i].selectedOption) {
      var i :| 0 <= i < |v| && Truthy(v[i].selectedOption);
      assert v[i].selectedOption.value in OptionKeys(v);
    }
  }

  /** With a valid record there is something to count, and the sort's first key is one of the counted keys. */
  lemma MajorityKey(v: seq<AIResponse>)
    requires v != []
    ensures var keys := CountedKeys(v);
      keys != [] && Tally(keys) != [] && SortByCount(Tally(keys))[0].key in keys
  {
    var keys := CountedKeys(v);
    assert keys != [] by {
      if OptionKeys(v) == [] {
        assert |AnswerKeys(v)| == |v|;
      }
    }
    var counts := Tally(keys);
    TallyMeaning(keys);
    assert keys[0] in KeysOf(counts);
    SortByCountHead(counts);
    assert KeysOf(counts)[FirstMaxIndex(counts)] in KeysOf(counts);
  }

  /**
   * The counts come from `CountedKeys`, the chosen key is the first key in
   * first-occurrence order among those with the largest count, and the sort
   * yields that key.
   */
  lemma Majority(v: seq<AIResponse>)
    requires v != []
    ensures var keys := CountedKeys(v); var top := SortByCount(Tally(keys))[0];
      keys != [] && Tally(keys) != [] &&
      top.key in keys && top.count == Occurrences(keys, top.key) &&
      (forall k :: k in keys ==> Occurrences(keys, k) <= top.count) &&
      (forall k :: k in keys && Occurrences(keys, k) == top.count ==> FirstIndex(keys, top.key) <= FirstIndex(keys, k))
  {
    var keys := CountedKeys(v);
    MajorityKey(v);
    var counts := Tally(keys);
    TallyMeaning(keys);
    SortByCountHead(counts);
    var m := FirstMaxIndex(counts);
    var top := SortByCount(counts)[0];
    assert top == counts[m];
    forall k | k in keys ensures Occurrences(keys, k) <= top.count
      && (Occurrences(keys, k) == top.count ==> FirstIndex(keys, top.key) <= FirstIndex(keys, k))
    {
      var i :| 0 <= i < |counts| && KeysOf(counts)[i] == k;
      assert counts[i].count == Occurrences(keys, k);
      if Occurrences(keys, k) == top.count && i != m {
        assert i > m;
      }
    }
  }

  /** There is a recommendation exactly when some record is valid. */
  lemma RecommendPresence(rs: seq<AIResponse>)
    ensures Recommend(rs).Some? <==> ValidResponses(rs) != []
  {
    var v := ValidResponses(rs);
    if v != [] {
      OptionModeIff(v);
      MajorityKey(v);
      var top := SortByCount(Tally(CountedKeys(v)))[0];
      if OptionKeys(v) != [] {
        var i :| 0 <= i < |v| && Truthy(v[i].selectedOption) && v[i].selectedOption.value == top.key;
        assert FindOption(v, top.key).Some?;
      }
    }
  }

  /**
   * The recommendation counts by option exactly when a valid record has a
   * truthy option, reports the winning key with its number of occurrences,
   * and that count is the largest, with ties going to the key seen first.
   */
  lemma RecommendMajority(rs: seq<AIResponse>)
    requires Recommend(rs).Some?
    ensures var v := ValidResponses(rs); var r := Recommend(rs).value; var keys := CountedKeys(v);
      (r.byOption <==> exists i :: 0 <= i < |v| && Truthy(v[i].selectedOption)) &&
      r.key in keys && r.consensusCount == Occurrences(keys, r.key) &&
      (forall k :: k in keys ==> Occurrences(keys, k) <= r.consensusCount) &&
      (forall k :: k in keys && Occurrences(keys, k) == r.consensusCount ==> FirstIndex(keys, r.key) <= FirstIndex(keys, k))
  {
    var v := ValidResponses(rs);
    OptionModeIff(v);
    Majority(v);
  }

  /**
   * The record shown is the first valid record carrying the winning option,
   * or, when counting answers, the first valid record with the winning answer:
   * the confidence fallback is never used.
   */
  lemma RecommendBest(rs: seq<AIResponse>)
    requires Recommend(rs).Some?
    ensures var v := ValidResponses(rs); var r := Recommend(rs).value;
      if r.byOption then FindOption(v, r.key).Some? && r.best == v[FindOption(v, r.key).value]
      else FindAnswer(v, r.key).Some? && r.best == v[FindAnswer(v, r.key).value]
  {
    var v := ValidResponses(rs);
    OptionModeIff(v);
    Majority(v);
    var r := Recommend(rs).value;
    if !r.byOption {
      assert r.key in AnswerKeys(v);
      var i :| 0 <= i < |v| && AnswerKeys(v)[i] == r.key;
      assert FindAnswer(v, r.key).Some?;
    }
  }

  /**
   * The count is between 1 and the number of valid records, which is the
   * total even when only records with options were counted; it is a
   * consensus exactly when more than one agree, and the tier follows the percentage.
   */
  lemma RecommendAgreement(rs: seq<AIResponse>)
    requires Recommend(rs).Some?
    ensures var r := Recommend(rs).value; var p := (r.consensusCount as real / r.totalResponses as real) * 100.0;
      r.totalResponses == |ValidResponses(rs)| &&
      1 <= r.consensusCount <= r.totalResponses &&
      (r.isConsensus <==> r.consensusCount > 1) &&
      (r.level == Strong <==> p >= 80.0) &&
      (r.level == Moderate <==> 60.0 <= p < 80.0) &&
      (r.level == Weak <==> p < 60.0)
  {
    var v := ValidResponses(rs);
    var r := Recommend(rs).value;
    OptionModeIff(v);
    Majority(v);
    var keys := CountedKeys(v);
    assert |keys| <= |v|;
    AgreementLevelPercent(r.consensusCount, r.totalResponses);
  }

  /** The counts of B, B, C. */
  lemma CountsOfBBC(keys: seq<string>)
    requires keys == ["B", "B", "C"]
    ensures Occurrences(keys, "B") == 2 && Occurrences(keys, "C") == 1
    ensures forall k :: k in keys ==> k == "B" || k == "C"
  {
    assert keys[..2] == ["B", "B"] && keys[..2][..1] == ["B"] && keys[..2][..1][..0] == [];
  }

  /** Three valid records with options B, B and C are all kept and counted by those options. */
  lemma TwoOfThreeKeys(rs: seq<AIResponse>)
    requires |rs| == 3 && forall i :: 0 <= i < 3 ==> IsValid(rs[i])
    requires rs[0].selectedOption == Some("B") && rs[1].selectedOption == Some("B") && rs[2].selectedOption == Some("C")
    ensures ValidResponses(rs) == rs && CountedKeys(rs) == ["B", "B", "C"]
  {
    var r1, r2 := rs[1..], rs[1..][1..];
    assert r1 == [rs[1], rs[2]] && r2 == [rs[2]] && r2[1..] == [];
    assert ValidResponses(r2) == r2;
    assert ValidResponses(r1) == r1;
    assert OptionKeys(r2) == ["C"];
    assert OptionKeys(r1) == ["B", "C"];
    assert OptionKeys(rs) == ["B", "B", "C"];
  }

  /** Two of three models choosing B and one C: B wins with 2 of 3, a moderate consensus. */
  lemma TwoOfThree(rs: seq<AIResponse>)
    requires |rs| == 3 && forall i :: 0 <= i < 3 ==> IsValid(rs[i])
    requires rs[0].selectedOption == Some("B") && rs[1].selectedOption == Some("B") && rs[2].selectedOption == Some("C")
    ensures Recommend(rs).Some?
    ensures var r := Recommend(rs).value;
      r.byOption && r.key == "B" && r.best == rs[0] && r.consensusCount == 2 && r.totalResponses == 3 &&
      r.isConsensus && r.level == Moderate
  {
    TwoOfThreeKeys(rs);
    CountsOfBBC(CountedKeys(rs));
    RecommendPresence(rs);
    RecommendMajority(rs);
    RecommendBest(rs);
    RecommendAgreement(rs);
    assert "B" in CountedKeys(rs);
  }
}
