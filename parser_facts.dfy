/** Properties of the reply parser: where each field comes from, its shape, and worked examples. */
module ParserFacts {
  import opened Wrappers
  import opened Text
  import opened Responses
  import opened Parser

  /** A one-character word occurs exactly where that character stands. */
  lemma AtOneChar(s: string, k: nat, c: char)
    requires k < |s|
    ensures At(s, k, [c]) <==> s[k] == c
  {
    if s[k] == c {
      assert s[k..k + 1] == [c];
    }
    if At(s, k, [c]) {
      assert s[k..k + 1][0] == s[k];
    }
  }

  /** A word can only occur where its first character stands. */
  lemma AtFirstChar(s: string, k: nat, w: string)
    requires w != [] && At(s, k, w)
    ensures s[k] == w[0]
  {
    assert s[k..k + |w|][0] == s[k];
  }

  /** A pattern cannot match at `k` unless its label starts there. */
  lemma MatchNeedsLabel(f: Field, s: string, k: nat)
    requires k <= |s| && MatchAt(f, s, k).Some?
    ensures k < |s| && s[k] == Label(f)[0]
  {
    AtFirstChar(s, k, Label(f));
  }

  /** A pattern captures something exactly when it matches at some index. */
  lemma CaptureIffMatch(f: Field, s: string)
    ensures Capture(f, s).Some? <==> exists i :: 0 <= i <= |s| && MatchAt(f, s, i).Some?
  {
    SearchLeftmost(f, s, 0);
  }

  /** The leftmost match is not before `m` when the label does not occur before `m`. */
  lemma {:induction false} SearchSkipsLabelFree(f: Field, s: string, i: nat, m: nat)
    requires i <= m <= |s|
    requires forall k :: i <= k < m ==> !At(s, k, Label(f))
    ensures Search(f, s, i) == Search(f, s, m)
    decreases m - i
  {
    if i < m {
      SearchSkipsLabelFree(f, s, i + 1, m);
    }
  }

  /** The leftmost match is not before `m` when the label's first letter does not occur before `m`. */
  lemma SearchSkips(f: Field, s: string, m: nat)
    requires m <= |s|
    requires Label(f)[0] !in s[..m]
    ensures Search(f, s, 0) == Search(f, s, m)
  {
    forall k | 0 <= k < m ensures !At(s, k, Label(f)) {
      if At(s, k, Label(f)) {
        AtFirstChar(s, k, Label(f));
      }
    }
    SearchSkipsLabelFree(f, s, 0, m);
  }

  /** A pattern whose label's first letter does not occur in the text matches nowhere. */
  lemma NoLabelNoCapture(f: Field, s: string)
    requires Label(f)[0] !in s
    ensures Capture(f, s) == None
  {
    assert s[..|s|] == s;
    SearchSkips(f, s, |s|);
  }

  /** The lazy capture runs to the first stop when no stop word's first letter occurs before it. */
  lemma {:induction false} LazyEndIs(s: string, j: nat, e: nat, stops: seq<string>)
    requires j <= e <= |s| && StopAt(s, e, stops)
    requires forall n :: 0 <= n < |stops| ==> stops[n] != [] && stops[n][0] !in s[j..e]
    ensures LazyEnd(s, j, stops) == e
    decreases e - j
  {
    if j < e {
      if StopAt(s, j, stops) {
        var n :| 0 <= n < |stops| && At(s, j, stops[n]);
        AtFirstChar(s, j, stops[n]);
        assert false;
      }
      forall n | 0 <= n < |stops| ensures stops[n] != [] && stops[n][0] !in s[j + 1..e] {
        assert s[j + 1..e] == s[j..e][1..];
      }
      LazyEndIs(s, j + 1, e, stops);
    }
  }

  /** Past its first character, the lazy capture ends at the first line break. */
  lemma LazyCaptureNoBreak(s: string, j: nat, stops: seq<string>)
    requires j < |s|
    requires stops != [] && stops[0] == "\n"
    ensures forall p :: j < p < LazyEnd(s, j + 1, stops) ==> s[p] != '\n'
  {
    forall p | j < p < LazyEnd(s, j + 1, stops) ensures s[p] != '\n' {
      assert !StopAt(s, p, stops);
      AtOneChar(s, p, '\n');
      assert !At(s, p, stops[0]);
    }
  }

  /** The capture of the answer or reasoning pattern, trimmed, holds no line break. */
  lemma LazyCaptureOneLine(s: string, start: nat, stops: seq<string>)
    requires start <= |s|
    requires stops != [] && stops[0] == "\n"
    requires LazyCapture(s, start, SkipSpaces(s, start), stops).Some?
    ensures '\n' !in Trim(LazyCapture(s, start, SkipSpaces(s, start), stops).value)
  {
    var j := SkipSpaces(s, start);
    var cap := LazyCapture(s, start, j, stops).value;
    if j < |s| {
      LazyCaptureNoBreak(s, j, stops);
      assert !IsSpace(s[j]);
      forall k | 0 <= k < |cap| ensures cap[k] != '\n' {
        assert cap[k] == s[j + k];
        if k > 0 {
          assert j < j + k;
        }
      }
    } else {
      assert AllSpace(cap);
    }
  }

  /** The reasoning, when present, is trimmed and at most one line. */
  lemma ReasoningOneLine(s: string)
    ensures ReasoningOf(s).Some? ==> IsTrimmed(ReasoningOf(s).value) && '\n' !in ReasoningOf(s).value
  {
    if ReasoningOf(s).Some? {
      var i := Search(ReasoningField, s, 0).value;
      LazyCaptureOneLine(s, i + |ReasoningLabel|, ReasoningStops);
    }
  }

  /** "Reasoning:" stands at `i` with at least one character after it. */
  predicate ReasoningLabelWithText(s: string, i: nat)
  {
    At(s, i, ReasoningLabel) && i + |ReasoningLabel| < |s|
  }

  /**
   * The reasoning is present exactly when "Reasoning:" occurs with at least
   * one character after it, whether or not there is an "Answer:" label.
   */
  lemma ReasoningPresence(s: string)
    ensures ReasoningOf(s).Some? <==> exists i :: 0 <= i <= |s| && ReasoningLabelWithText(s, i)
  {
    CaptureIffMatch(ReasoningField, s);
    forall i | 0 <= i <= |s|
      ensures MatchAt(ReasoningField, s, i).Some? <==> ReasoningLabelWithText(s, i)
    {
    }
  }

  /** An answer that spans lines is the whole reply trimmed: a labelled answer is one line. */
  lemma AnswerOneLineUnlessFallback(s: string)
    ensures '\n' in AnswerOf(s) ==> AnswerOf(s) == Trim(s)
  {
    var cap := Capture(AnswerField, s);
    if cap.Some? && Trim(cap.value) != "" {
      var i := Search(AnswerField, s, 0).value;
      LazyCaptureOneLine(s, i + |AnswerLabel|, AnswerStops);
    }
  }

  /**
   * The answer pattern matches at the first "Answer:" label when some
   * character follows it, and nowhere when the first label ends the text or
   * there is none.
   */
  lemma {:induction false} AnswerSearchIsFind(s: string, i: nat)
    requires i <= |s|
    ensures match Find(s, AnswerLabel, i)
      case None => Search(AnswerField, s, i).None?
      case Some(k) =>
        if k + |AnswerLabel| < |s| then Search(AnswerField, s, i) == Some(k)
        else Search(AnswerField, s, i).None?
    decreases |s| - i
  {
    SearchLeftmost(AnswerField, s, i);
    if !At(s, i, AnswerLabel) && i < |s| {
      AnswerSearchIsFind(s, i + 1);
    } else if At(s, i, AnswerLabel) && i + |AnswerLabel| == |s| && i < |s| {
    }
  }

  /** A capture that starts with a non-space character is the answer, trimmed. */
  lemma AnswerFromCapture(s: string, c: string)
    requires Capture(AnswerField, s) == Some(c)
    requires c != [] && !IsSpace(c[0])
    ensures AnswerOf(s) == Trim(c) && AnswerOf(s) <= c && AnswerOf(s) != []
  {
    assert !AllSpace(c);
  }

  /** A capture of white space only leaves the answer to the fallback. */
  lemma AnswerFromBlankCapture(s: string, c: string)
    requires Capture(AnswerField, s) == Some(c)
    requires AllSpace(c)
    ensures AnswerOf(s) == Trim(s)
  {
  }

  /**
   * The lazy capture after a label ending at `start`: when text follows the
   * white space, it starts with that text's first character and is a prefix
   * of the reply from there; otherwise it is absent or white space only.
   */
  lemma LazyCaptureShape(s: string, start: nat, stops: seq<string>)
    requires start <= |s|
    ensures var j := SkipSpaces(s, start); var cap := LazyCapture(s, start, j, stops);
      if j < |s| then cap.Some? && cap.value != [] && cap.value[0] == s[j] && cap.value <= s[j..]
      else cap.None? || AllSpace(cap.value)
  {
    var j := SkipSpaces(s, start);
    if j == |s| && start < j {
      assert IsSpace(s[j - 1]);
    }
  }

  /** The answer when the pattern is matched at an "Answer:" label at `i`. */
  lemma AnswerAtMatch(s: string, i: nat)
    requires i <= |s| && Capture(AnswerField, s) == MatchAt(AnswerField, s, i)
    requires At(s, i, AnswerLabel)
    ensures var j := SkipSpaces(s, i + |AnswerLabel|);
      if j < |s| then AnswerOf(s) != [] && AnswerOf(s)[0] == s[j] && AnswerOf(s) <= s[j..]
      else AnswerOf(s) == Trim(s)
  {
    var start := i + |AnswerLabel|;
    var j := SkipSpaces(s, start);
    LazyCaptureShape(s, start, AnswerStops);
    var cap := LazyCapture(s, start, j, AnswerStops);
    assert Capture(AnswerField, s) == cap;
    if j < |s| {
      AnswerFromCapture(s, cap.value);
    } else if cap.Some? {
      AnswerFromBlankCapture(s, cap.value);
    }
  }

  /**
   * When the first "Answer:" label is followed, after white space, by text,
   * the answer starts with that text's first character and is a prefix of the
   * reply from there on; when only white space follows, it is the whole reply trimmed.
   */
  lemma AnswerAfterLabel(s: string, i: nat)
    requires Find(s, AnswerLabel, 0) == Some(i)
    ensures var j := SkipSpaces(s, i + |AnswerLabel|);
      if j < |s| then AnswerOf(s) != [] && AnswerOf(s)[0] == s[j] && AnswerOf(s) <= s[j..]
      else AnswerOf(s) == Trim(s)
  {
    AnswerSearchIsFind(s, 0);
    if i + |AnswerLabel| < |s| {
      assert Capture(AnswerField, s) == MatchAt(AnswerField, s, i);
    } else {
      assert Capture(AnswerField, s) == None;
    }
    AnswerAtMatch(s, i);
  }

  /**
   * When text follows the first "Answer:" label after white space, the answer
   * is that text up to the first stop word, line break or end of reply that
   * follows its first character, trimmed.
   */
  lemma AnswerIsLazyCapture(s: string, i: nat)
    requires Find(s, AnswerLabel, 0) == Some(i)
    requires SkipSpaces(s, i + |AnswerLabel|) < |s|
    ensures var j := SkipSpaces(s, i + |AnswerLabel|);
      AnswerOf(s) == Trim(s[j..LazyEnd(s, j + 1, AnswerStops)])
  {
    AnswerSearchIsFind(s, 0);
    assert Capture(AnswerField, s) == MatchAt(AnswerField, s, i);
    var c := AnswerMatchAt(s, i);
    AnswerFromCapture(s, c);
  }

  /** At an "Answer:" label followed, after white space, by text, the match captures from that text's first character lazily. */
  lemma AnswerMatchAt(s: string, i: nat) returns (c: string)
    requires i <= |s| && At(s, i, AnswerLabel)
    requires SkipSpaces(s, i + |AnswerLabel|) < |s|
    ensures var j := SkipSpaces(s, i + |AnswerLabel|);
      c == s[j..LazyEnd(s, j + 1, AnswerStops)] && MatchAt(AnswerField, s, i) == Some(c)
    ensures c != [] && !IsSpace(c[0])
  {
    var start := i + |AnswerLabel|;
    AnswerMatchIsLazy(s, i);
    c := LazyMatch(s, start, AnswerStops, MatchAt(AnswerField, s, i));
  }

  /** A match that is the lazy capture after the white space at `start`, when text follows that white space. */
  lemma LazyMatch(s: string, start: nat, stops: seq<string>, m: Option<string>) returns (c: string)
    requires start <= |s| && SkipSpaces(s, start) < |s|
    requires m == LazyCapture(s, start, SkipSpaces(s, start), stops)
    ensures var j := SkipSpaces(s, start); c == s[j..LazyEnd(s, j + 1, stops)] && m == Some(c)
    ensures c != [] && !IsSpace(c[0])
  {
    c := LazyCaptureAt(s, start, SkipSpaces(s, start), stops);
  }

  /** At an "Answer:" label the match is the lazy capture after the white space that follows it. */
  lemma AnswerMatchIsLazy(s: string, i: nat)
    requires i <= |s| && At(s, i, AnswerLabel)
    ensures var start := i + |AnswerLabel|;
      MatchAt(AnswerField, s, i) == LazyCapture(s, start, SkipSpaces(s, start), AnswerStops)
  {
    assert Label(AnswerField) == AnswerLabel;
  }

  /** A lazy capture that starts at a non-space character runs from it to the first stop after it. */
  lemma LazyCaptureAt(s: string, start: nat, j: nat, stops: seq<string>) returns (c: string)
    requires start <= j < |s| && !IsSpace(s[j])
    ensures c == s[j..LazyEnd(s, j + 1, stops)] && LazyCapture(s, start, j, stops) == Some(c)
    ensures c != [] && !IsSpace(c[0])
  {
    c := s[j..LazyEnd(s, j + 1, stops)];
    assert c[0] == s[j];
  }

  /** A stop word on the same line ends the answer: "Answer: B Reasoning: x" gives "B". */
  lemma AnswerStopsBeforeLabel(s: string)
    requires s == "Answer: B " + "Reasoning: x"
    ensures AnswerOf(s) == "B"
  {
    assert At(s, 0, AnswerLabel);
    assert s[7] == ' ' && s[8] == 'B';
    assert SkipSpaces(s, 7) == 8;
    assert At(s, 10, AnswerStops[1]);
    assert s[9..10] == " ";
    LazyEndIs(s, 9, 10, AnswerStops);
    AnswerIsLazyCapture(s, 0);
    assert s[8..10] == "B ";
    assert Trim("B ") == "B" by {
      assert TrailingSpaces("B ") == 1;
    }
  }

  /**
   * The look-ahead is first tried after the captured first character, so a
   * stop word right after the label is itself captured: "Answer: Reasoning: x"
   * gives "Reasoning: x".
   */
  lemma AnswerSwallowsAdjacentLabel(s: string)
    requires s == "Answer: " + "Reasoning: x"
    ensures AnswerOf(s) == "Reasoning: x"
  {
    var r := "Reasoning: x";
    AdjacentLabelStart(s);
    AdjacentLabelEnd(s, r);
    AnswerIsLazyCapture(s, 0);
    assert IsTrimmed(r);
  }

  /** In the reply below the label stands at 0 and the answer text starts at 8. */
  lemma AdjacentLabelStart(s: string)
    requires s == "Answer: " + "Reasoning: x"
    ensures Find(s, AnswerLabel, 0) == Some(0) && SkipSpaces(s, 7) == 8
  {
    assert s[..7] == AnswerLabel;
    assert s[7] == ' ' && s[8] == 'R';
  }

  /** In the reply below the answer text starts at 8 and its lazy group runs to the end. */
  lemma AdjacentLabelEnd(s: string, r: string)
    requires r == "Reasoning: x" && s == "Answer: " + r
    ensures LazyEnd(s, 9, AnswerStops) == 20 && s[8..20] == r
  {
    assert s[8..] == r && |s| == 20;
    assert s[9..] == r[1..];
    assert r[1..] == "easoning: x";
    NoAnswerStopIn(s[9..]);
    LazyEndToEnd(s, 9, AnswerStops);
  }

  /** A lazy capture runs to the end of the text when no stop word can start in what is left. */
  lemma LazyEndToEnd(s: string, j: nat, stops: seq<string>)
    requires j <= |s|
    requires forall n :: 0 <= n < |stops| ==> stops[n] != [] && stops[n][0] !in s[j..]
    ensures LazyEnd(s, j, stops) == |s|
  {
    assert s[j..|s|] == s[j..];
    LazyEndIs(s, j, |s|, stops);
  }

  /** Text without the letters that start the answer's stop words holds no stop word's first letter. */
  lemma NoAnswerStopIn(t: string)
    requires 'R' !in t && 'S' !in t && 'C' !in t && '\n' !in t
    ensures forall n :: 0 <= n < |AnswerStops| ==> AnswerStops[n] != [] && AnswerStops[n][0] !in t
  {
    assert AnswerStops[1][0] == 'R' && AnswerStops[2][0] == 'S' && AnswerStops[3][0] == 'C';
  }

  /** Without an "Answer:" label the answer is the whole reply, trimmed. */
  lemma AnswerFallback(s: string)
    requires Find(s, AnswerLabel, 0).None?
    ensures AnswerOf(s) == Trim(s)
  {
    AnswerSearchIsFind(s, 0);
  }

  /** The answer is empty exactly when the whole reply is white space. */
  lemma AnswerEmptyIff(s: string)
    ensures AnswerOf(s) == "" <==> AllSpace(s)
  {
    if AllSpace(s) {
      var cap := Capture(AnswerField, s);
      if cap.Some? {
        var i := Search(AnswerField, s, 0).value;
        MatchNeedsLabel(AnswerField, s, i);
      }
    }
  }

  /** "Selected Option:" stands at `i` and, after white space, a capital letter follows. */
  predicate OptionLabelWithLetter(s: string, i: nat)
    requires i <= |s|
  {
    At(s, i, OptionLabel) &&
    var j := SkipSpaces(s, i + |OptionLabel|); j < |s| && IsUpper(s[j])
  }

  /**
   * A selected option is one capital letter; it is present exactly when some
   * "Selected Option:" label is followed, after white space, by a capital letter.
   */
  lemma OptionPresence(s: string)
    ensures OptionOf(s).Some? ==> |OptionOf(s).value| == 1 && IsUpper(OptionOf(s).value[0])
    ensures OptionOf(s).Some? <==> exists i :: 0 <= i <= |s| && OptionLabelWithLetter(s, i)
  {
    CaptureIffMatch(OptionField, s);
    forall i | 0 <= i <= |s|
      ensures MatchAt(OptionField, s, i).Some? <==> OptionLabelWithLetter(s, i)
    {
    }
  }

  /** "Confidence:" stands at `i` and, after white space, a digit or a point follows. */
  predicate ConfidenceLabelWithNumber(s: string, i: nat)
    requires i <= |s|
  {
    At(s, i, ConfidenceLabel) &&
    var j := SkipSpaces(s, i + |ConfidenceLabel|); j < |s| && IsNumberChar(s[j])
  }

  /** A confidence is present exactly when some "Confidence:" label is followed, after white space, by a digit or a point. */
  lemma ConfidencePresence(s: string)
    ensures ConfidenceOf(s).Some? <==> exists i :: 0 <= i <= |s| && ConfidenceLabelWithNumber(s, i)
  {
    CaptureIffMatch(ConfidenceField, s);
    forall i | 0 <= i <= |s|
      ensures MatchAt(ConfidenceField, s, i).Some? <==> ConfidenceLabelWithNumber(s, i)
    {
    }
  }

  /** Empty model content gives an empty answer and no other field. */
  lemma EmptyContent(m: string)
    ensures Parse("", m) == AIResponse(m, "", None, None, None, None, None)
  {
    assert Capture(AnswerField, "") == None;
    assert Capture(ReasoningField, "") == None;
    assert Capture(ConfidenceField, "") == None;
    assert Capture(OptionField, "") == None;
  }

  /** A reply in which no label's first letter occurs becomes, trimmed, the answer, with no other field. */
  lemma UnlabelledReply(s: string, m: string)
    requires 'A' !in s && 'R' !in s && 'C' !in s && 'S' !in s
    ensures Parse(s, m) == AIResponse(m, Trim(s), None, None, None, None, None)
  {
    NoLabelNoCapture(AnswerField, s);
    NoLabelNoCapture(ReasoningField, s);
    NoLabelNoCapture(ConfidenceField, s);
    NoLabelNoCapture(OptionField, s);
  }

  /** The plain sentence below holds no label letter and is trimmed. */
  lemma PlainSentenceShape(s: string)
    requires s == "just a plain sentence"
    ensures 'A' !in s && 'R' !in s && 'C' !in s && 'S' !in s && IsTrimmed(s)
  {
    assert !IsSpace(s[0]) && !IsSpace(s[|s| - 1]);
  }

  /** A plain sentence becomes the answer as it stands. */
  lemma PlainSentence(s: string, m: string)
    requires s == "just a plain sentence"
    ensures Parse(s, m) == AIResponse(m, s, None, None, None, None, None)
  {
    PlainSentenceShape(s);
    UnlabelledReply(s, m);
  }

  /** The leftmost match is at `i` when the pattern matches there and its label's first letter does not occur before. */
  lemma CaptureAtFirst(f: Field, s: string, i: nat)
    requires i <= |s| && Label(f)[0] !in s[..i]
    requires MatchAt(f, s, i).Some?
    ensures Capture(f, s) == MatchAt(f, s, i)
  {
    SearchSkips(f, s, i);
    assert Matches(f, s)[i];
  }

  /** The capture is the match at `i` when the pattern matches there and at no earlier index. */
  lemma CaptureAtLeftmost(f: Field, s: string, i: nat)
    requires i <= |s| && MatchAt(f, s, i).Some?
    requires forall k :: 0 <= k < i ==> MatchAt(f, s, k).None?
    ensures Capture(f, s) == MatchAt(f, s, i)
  {
    SearchLeftmost(f, s, 0);
  }

  /**
   * The selected option is the capital letter after the first "Selected
   * Option:" label that has one, however many labels come before or after.
   */
  lemma OptionAtFirst(s: string, i: nat)
    requires i <= |s| && OptionLabelWithLetter(s, i)
    requires forall k :: 0 <= k < i ==> !OptionLabelWithLetter(s, k)
    ensures OptionOf(s) == Some([s[SkipSpaces(s, i + |OptionLabel|)]])
  {
    assert Label(OptionField) == OptionLabel;
    forall k | 0 <= k <= i
      ensures MatchAt(OptionField, s, k).Some? <==> OptionLabelWithLetter(s, k)
    {
    }
    CaptureAtLeftmost(OptionField, s, i);
  }

  /**
   * The confidence is `parseFloat` of the `[0-9.]` run after the first
   * "Confidence:" label that has one; earlier labels without a number are skipped.
   */
  lemma ConfidenceAtFirst(s: string, i: nat)
    requires i <= |s| && ConfidenceLabelWithNumber(s, i)
    requires forall k :: 0 <= k < i ==> !ConfidenceLabelWithNumber(s, k)
    ensures var j := SkipSpaces(s, i + |ConfidenceLabel|);
      ConfidenceOf(s) == Some(ParseFloat(s[j..NumberEnd(s, j)]))
  {
    assert Label(ConfidenceField) == ConfidenceLabel;
    forall k | 0 <= k <= i
      ensures MatchAt(ConfidenceField, s, k).Some? <==> ConfidenceLabelWithNumber(s, k)
    {
    }
    CaptureAtLeftmost(ConfidenceField, s, i);
  }

  /** No pattern matches before the first occurrence of its label. */
  lemma NoMatchBeforeLabel(f: Field, s: string, i: nat)
    requires Find(s, Label(f), 0) == Some(i)
    ensures forall k :: 0 <= k < i ==> MatchAt(f, s, k).None?
  {
    FindFirst(s, Label(f), 0);
  }

  /** At a "Reasoning:" label the match is the lazy capture after the white space that follows it. */
  lemma ReasoningMatchIsLazy(s: string, i: nat)
    requires i <= |s| && At(s, i, ReasoningLabel)
    ensures var start := i + |ReasoningLabel|;
      MatchAt(ReasoningField, s, i) == LazyCapture(s, start, SkipSpaces(s, start), ReasoningStops)
  {
    assert Label(ReasoningField) == ReasoningLabel;
  }

  /**
   * At the first "Reasoning:" label: with text after its white space, the
   * reasoning is that text up to the first line break, "Selected Option:",
   * "Confidence:" or end of reply found from its second character on,
   * trimmed; with only white space after it, the reasoning is ""; when the
   * label ends the reply, there is none.
   */
  lemma ReasoningIsLazyCapture(s: string, i: nat)
    requires Find(s, ReasoningLabel, 0) == Some(i)
    ensures var start := i + |ReasoningLabel|; var j := SkipSpaces(s, start);
      (j < |s| ==> ReasoningOf(s) == Some(Trim(s[j..LazyEnd(s, j + 1, ReasoningStops)]))) &&
      (start < j == |s| ==> ReasoningOf(s) == Some("")) &&
      (start == |s| ==> ReasoningOf(s).None?)
  {
    var start := i + |ReasoningLabel|;
    var j := SkipSpaces(s, start);
    if j < |s| {
      ReasoningFromText(s, i);
    } else if start < j {
      ReasoningFromBlank(s, i);
    } else {
      ReasoningLabelEndsReply(s, i);
    }
  }

  /** The reasoning when text follows the first "Reasoning:" label. */
  lemma ReasoningFromText(s: string, i: nat)
    requires Find(s, ReasoningLabel, 0) == Some(i)
    requires SkipSpaces(s, i + |ReasoningLabel|) < |s|
    ensures var j := SkipSpaces(s, i + |ReasoningLabel|);
      ReasoningOf(s) == Some(Trim(s[j..LazyEnd(s, j + 1, ReasoningStops)]))
  {
    var start := i + |ReasoningLabel|;
    var j := SkipSpaces(s, start);
    NoMatchBeforeLabel(ReasoningField, s, i);
    ReasoningMatchIsLazy(s, i);
    var c := LazyCaptureAt(s, start, j, ReasoningStops);
    CaptureAtLeftmost(ReasoningField, s, i);
  }

  /** The reasoning when only white space follows the first "Reasoning:" label. */
  lemma ReasoningFromBlank(s: string, i: nat)
    requires Find(s, ReasoningLabel, 0) == Some(i)
    requires i + |ReasoningLabel| < SkipSpaces(s, i + |ReasoningLabel|) == |s|
    ensures ReasoningOf(s) == Some("")
  {
    var start := i + |ReasoningLabel|;
    NoMatchBeforeLabel(ReasoningField, s, i);
    ReasoningMatchIsLazy(s, i);
    assert MatchAt(ReasoningField, s, i) == Some([s[|s| - 1]]);
    CaptureAtLeftmost(ReasoningField, s, i);
    assert IsSpace(s[|s| - 1]);
    assert AllSpace([s[|s| - 1]]);
  }

  /** A pattern can only match where its whole label stands. */
  lemma MatchNeedsRoom(f: Field, s: string, k: nat)
    requires k <= |s| && MatchAt(f, s, k).Some?
    ensures At(s, k, Label(f))
  {
  }

  /** A pattern matches nowhere from `m` on when its label no longer fits there. */
  lemma NoMatchPastRoom(f: Field, s: string, m: nat)
    requires m + |Label(f)| > |s|
    ensures forall k :: m <= k <= |s| ==> MatchAt(f, s, k).None?
  {
    forall k | m <= k <= |s| ensures MatchAt(f, s, k).None? {
      if MatchAt(f, s, k).Some? {
        MatchNeedsRoom(f, s, k);
        assert false;
      }
    }
  }

  /** A pattern that matches at no index captures nothing. */
  lemma NoMatchNoCapture(f: Field, s: string)
    requires forall k :: 0 <= k <= |s| ==> MatchAt(f, s, k).None?
    ensures Capture(f, s).None?
  {
    SearchLeftmost(f, s, 0);
  }

  /** When the first "Reasoning:" label ends the reply, the pattern matches nowhere. */
  lemma ReasoningLabelEndsReply(s: string, i: nat)
    requires Find(s, ReasoningLabel, 0) == Some(i) && i + |ReasoningLabel| == |s|
    ensures ReasoningOf(s).None?
  {
    ReasoningNoMatch(s, i);
    NoMatchNoCapture(ReasoningField, s);
  }

  /** When the first "Reasoning:" label ends the reply, the reasoning pattern matches at no index. */
  lemma ReasoningNoMatch(s: string, i: nat)
    requires Find(s, ReasoningLabel, 0) == Some(i) && i + |ReasoningLabel| == |s|
    ensures forall k :: 0 <= k <= |s| ==> MatchAt(ReasoningField, s, k).None?
  {
    assert Label(ReasoningField) == ReasoningLabel;
    NoMatchBeforeLabel(ReasoningField, s, i);
    ReasoningMatchIsLazy(s, i);
    assert SkipSpaces(s, |s|) == |s|;
    NoMatchPastRoom(ReasoningField, s, i + 1);
  }

  /** Trimming text that ends in one white-space character after trimmed text drops that character. */
  lemma TrimTrailingSpace(w: string, c: char)
    requires w != [] && IsTrimmed(w) && IsSpace(c)
    ensures Trim(w + [c]) == w
  {
    var t := w + [c];
    assert t[..|t| - 1] == w;
    assert TrailingSpaces(t) == 1;
    assert SkipSpaces(t, 0) == 0;
    assert t[0..] == t;
  }

  /** Text without line breaks or the letters that start "Selected Option:" and "Confidence:" holds no stop word's first letter. */
  lemma NoReasoningStopIn(t: string)
    requires 'S' !in t && 'C' !in t && '\n' !in t
    ensures forall n :: 0 <= n < |ReasoningStops| ==> ReasoningStops[n] != [] && ReasoningStops[n][0] !in t
  {
    assert ReasoningStops[1][0] == 'S' && ReasoningStops[2][0] == 'C';
  }

  /** In the reply below the label stands at 0 and the reasoning text starts at 11. */
  lemma ReasoningExampleStart(s: string, r: string)
    requires r == "because Confidence: 0.9" && s == "Reasoning: " + r
    ensures Find(s, ReasoningLabel, 0) == Some(0) && SkipSpaces(s, 10) == 11
  {
    assert s[..10] == ReasoningLabel;
    assert s[10] == ' ' && s[11] == 'b';
  }

  /** In the reply below the lazy group stops where "Confidence:" begins, at 19. */
  lemma ReasoningExampleEnd(s: string, r: string)
    requires r == "because Confidence: 0.9" && s == "Reasoning: " + r
    ensures LazyEnd(s, 12, ReasoningStops) == 19 && s[11..19] == "because" + [' ']
  {
    var w := "because" + [' '];
    assert s[11..] == r && |s| == 34;
    assert s[19..30] == r[8..19] == ReasoningStops[2];
    assert s[11..19] == r[..8] == w;
    assert s[12..19] == w[1..];
    assert 'S' !in w && 'C' !in w && '\n' !in w;
    NoReasoningStopIn(s[12..19]);
    LazyEndIs(s, 12, 19, ReasoningStops);
  }

  /** The trimmed reasoning of the reply below is "because". */
  lemma ReasoningExampleTrim(s: string, r: string)
    requires r == "because Confidence: 0.9" && s == "Reasoning: " + r
    ensures Trim(s[11..LazyEnd(s, 12, ReasoningStops)]) == "because"
  {
    ReasoningExampleEnd(s, r);
    var w := "because";
    assert IsTrimmed(w);
    TrimTrailingSpace(w, ' ');
  }

  /** A "Confidence:" label on the same line ends the reasoning: "Reasoning: because Confidence: 0.9" gives "because". */
  lemma ReasoningStopsAtConfidence(s: string)
    requires s == "Reasoning: " + "because Confidence: 0.9"
    ensures ReasoningOf(s) == Some("because")
  {
    var r := "because Confidence: 0.9";
    ReasoningExampleStart(s, r);
    ReasoningExampleTrim(s, r);
    ReasoningFromText(s, 0);
  }

  /** In the reply below the first "Confidence:" label is followed by a word, not a number. */
  lemma ConfidenceExampleNoEarlier(s: string, h: string, r: string)
    requires h == "Confidence: high " && r == "Confidence: 0.8" && s == h + r
    ensures forall k :: 0 <= k < 17 ==> !ConfidenceLabelWithNumber(s, k)
  {
    assert s[..17] == h;
    assert s[11] == ' ' && s[12] == 'h';
    assert SkipSpaces(s, 11) == 12;
    forall k | 0 < k < 17
      ensures !At(s, k, ConfidenceLabel)
    {
      assert s[k] == h[k] != 'C';
      assert ConfidenceLabel[0] == 'C';
    }
  }

  /** In the reply below the second "Confidence:" label, at 17, is followed by "0.8". */
  lemma ConfidenceExampleAt(s: string, h: string, r: string)
    requires h == "Confidence: high " && r == "Confidence: 0.8" && s == h + r
    ensures ConfidenceLabelWithNumber(s, 17)
    ensures SkipSpaces(s, 17 + |ConfidenceLabel|) == 29 && NumberEnd(s, 29) == 32 && s[29..32] == "0.8"
  {
    assert s[17..] == r && |s| == 32;
    assert s[17..28] == r[..11] == ConfidenceLabel;
    assert s[28] == ' ' && s[29] == '0' && s[30] == '.' && s[31] == '8';
    assert SkipSpaces(s, 28) == 29;
    assert NumberEnd(s, 29) == 32;
  }

  /** `parseFloat("0.8")`. */
  lemma PointEight(t: string)
    requires t == "0.8"
    ensures ParseFloat(t) == Finite(0.8)
  {
    assert DigitsEnd(t, 0) == 1;
    assert DigitsEnd(t, 2) == 3;
    assert t[..1] == "0" && t[2..3] == "8";
    assert DigitsValue("0") == 0;
    assert DigitsValue("8") == 8;
  }

  /**
   * A "Confidence:" label followed by a word does not stop the search: in
   * "Confidence: high Confidence: 0.8" the number after the second label is taken.
   */
  lemma ConfidenceSkipsWordLabel(s: string)
    requires s == "Confidence: high " + "Confidence: 0.8"
    ensures ConfidenceOf(s) == Some(Finite(0.8))
  {
    var h, r := "Confidence: high ", "Confidence: 0.8";
    ConfidenceExampleNoEarlier(s, h, r);
    ConfidenceExampleAt(s, h, r);
    ConfidenceAtFirst(s, 17);
    PointEight(s[29..32]);
  }

  /** In the reply below the first "Selected Option:" label is followed by a lower-case letter. */
  lemma OptionExampleNoEarlier(s: string, h: string, r: string)
    requires h == "Selected Option: b " && r == "Selected Option: C" && s == h + r
    ensures forall k :: 0 <= k < 19 ==> !OptionLabelWithLetter(s, k)
  {
    assert s[..19] == h;
    assert s[16] == ' ' && s[17] == 'b';
    assert SkipSpaces(s, 16) == 17;
    forall k | 0 < k < 19
      ensures !At(s, k, OptionLabel)
    {
      assert s[k] == h[k] != 'S';
      assert OptionLabel[0] == 'S';
    }
  }

  /** In the reply below the second "Selected Option:" label, at 19, is followed by "C". */
  lemma OptionExampleAt(s: string, h: string, r: string)
    requires h == "Selected Option: b " && r == "Selected Option: C" && s == h + r
    ensures OptionLabelWithLetter(s, 19) && SkipSpaces(s, 19 + |OptionLabel|) == 36 && s[36] == 'C'
  {
    assert s[19..] == r && |s| == 37;
    assert s[19..35] == r[..16] == OptionLabel;
    assert s[35] == ' ' && s[36] == 'C';
    assert SkipSpaces(s, 35) == 36;
  }

  /**
   * The option letter must be upper case: in "Selected Option: b Selected Option: C"
   * the letter after the second label is taken.
   */
  lemma OptionSkipsLowerCase(s: string)
    requires s == "Selected Option: b " + "Selected Option: C"
    ensures OptionOf(s) == Some("C")
  {
    var h, r := "Selected Option: b ", "Selected Option: C";
    OptionExampleNoEarlier(s, h, r);
    OptionExampleAt(s, h, r);
    OptionAtFirst(s, 19);
  }

  /** The answer of the structured reply below. */
  lemma StructuredAnswer(s: string)
    requires s == "Answer: B\n" + "Reasoning: because X\n" + "Confidence: 0.9\n" + "Selected Option: B"
    ensures AnswerOf(s) == "B"
  {
    assert At(s, 0, AnswerLabel);
    assert s[7] == ' ' && s[8] == 'B';
    assert SkipSpaces(s, 7) == 8;
    assert At(s, 9, AnswerStops[0]);
    assert StopAt(s, 9, AnswerStops);
    assert LazyEnd(s, 9, AnswerStops) == 9;
    assert s[8..9] == "B";
    assert LazyCapture(s, 7, 8, AnswerStops) == Some("B");
    assert MatchAt(AnswerField, s, 0) == Some("B");
    CaptureAtFirst(AnswerField, s, 0);
    assert IsTrimmed("B");
  }

  /** The reasoning of the structured reply below ends at the line break. */
  lemma ReasoningEnd(s: string)
    requires s == "Answer: B\n" + "Reasoning: because X\n" + "Confidence: 0.9\n" + "Selected Option: B"
    ensures LazyEnd(s, 22, ReasoningStops) == 30
  {
    var r := "Reasoning: because X\n";
    assert s[10..31] == r;
    assert s[30..31] == r[20..] == ReasoningStops[0];
    assert s[22..30] == r[12..20] == "ecause X";
    LazyEndIs(s, 22, 30, ReasoningStops);
  }

  /** The reasoning label of the structured reply below stands at 10, and its text starts at 21. */
  lemma ReasoningStart(s: string)
    requires s == "Answer: B\n" + "Reasoning: because X\n" + "Confidence: 0.9\n" + "Selected Option: B"
    ensures At(s, 10, ReasoningLabel) && SkipSpaces(s, 20) == 21 && s[21..30] == "because X"
  {
    var r := "Reasoning: because X\n";
    assert s[10..31] == r;
    assert s[10..20] == r[..10] == ReasoningLabel;
    assert r[10] == ' ' && r[11] == 'b';
    assert s[21..30] == r[11..20];
  }

  /** The reasoning pattern matches the structured reply below at its label. */
  lemma StructuredReasoningMatch(s: string)
    requires s == "Answer: B\n" + "Reasoning: because X\n" + "Confidence: 0.9\n" + "Selected Option: B"
    ensures MatchAt(ReasoningField, s, 10) == Some("because X")
  {
    ReasoningStart(s);
    ReasoningEnd(s);
  }

  /** The reasoning of the structured reply below. */
  lemma StructuredReasoning(s: string)
    requires s == "Answer: B\n" + "Reasoning: because X\n" + "Confidence: 0.9\n" + "Selected Option: B"
    ensures ReasoningOf(s) == Some("because X")
  {
    StructuredReasoningMatch(s);
    StructuredLabelsInOrder(s);
    CaptureAtFirst(ReasoningField, s, 10);
    assert IsTrimmed("because X");
  }

  /** The digit run that starts at `j` ends at `e` when only digits lie between and no digit follows. */
  lemma DigitsEndIs(s: string, j: nat, e: nat)
    requires j <= e <= |s| && (forall k :: j <= k < e ==> IsDigit(s[k]))
    requires e == |s| || !IsDigit(s[e])
    ensures DigitsEnd(s, j) == e
  {
  }

  /** `parseFloat` of digits followed by neither a digit nor a point is the value of those digits. */
  lemma ParseFloatInteger(d: string, rest: string)
    requires d != [] && forall k :: 0 <= k < |d| ==> IsDigit(d[k])
    requires rest == [] || (!IsDigit(rest[0]) && rest[0] != '.')
    ensures ParseFloat(d + rest) == Finite(DigitsValue(d) as real)
  {
    var t := d + rest;
    DigitsEndIs(t, 0, |d|);
    assert t[..|d|] == d;
    ParseFloatWhole(t);
    DecimalWhole(d);
  }

  /** A token whose digit run is not followed by a point parses to the value of that run. */
  lemma ParseFloatWhole(t: string)
    requires DigitsEnd(t, 0) > 0
    requires DigitsEnd(t, 0) == |t| || t[DigitsEnd(t, 0)] != '.'
    ensures ParseFloat(t) == Finite(DecimalValue(t[..DigitsEnd(t, 0)], ""))
  {
  }

  /** A decimal without fraction digits is its whole part. */
  lemma DecimalWhole(d: string)
    requires forall k :: 0 <= k < |d| ==> IsDigit(d[k])
    ensures DecimalValue(d, "") == DigitsValue(d) as real
  {
  }

  /**
   * `parseFloat` of `d.f` followed by anything that does not start with a
   * digit, a second point included: the whole part plus the fraction.
   */
  lemma ParseFloatDecimal(d: string, f: string, rest: string)
    requires forall k :: 0 <= k < |d| ==> IsDigit(d[k])
    requires forall k :: 0 <= k < |f| ==> IsDigit(f[k])
    requires d != [] || f != []
    requires rest == [] || !IsDigit(rest[0])
    ensures ParseFloat(d + "." + f + rest) ==
      Finite(DigitsValue(d) as real + DigitsValue(f) as real / Pow10(|f|) as real)
  {
    ParseFloatDecimalValue(d + "." + f + rest, d, f, rest);
  }

  /** The same, with the value left as `DecimalValue`. */
  lemma ParseFloatDecimalValue(t: string, d: string, f: string, rest: string)
    requires t == d + "." + f + rest
    requires forall k :: 0 <= k < |d| ==> IsDigit(d[k])
    requires forall k :: 0 <= k < |f| ==> IsDigit(f[k])
    requires d != [] || f != []
    requires rest == [] || !IsDigit(rest[0])
    ensures ParseFloat(t) == Finite(DecimalValue(d, f))
  {
    DecimalEnds(t, d, f, rest);
    ParseFloatPoint(t);
  }

  /** In `d.f` followed by `rest`, the two digit runs are `d` and `f`. */
  lemma DecimalEnds(t: string, d: string, f: string, rest: string)
    requires t == d + "." + f + rest
    requires forall k :: 0 <= k < |d| ==> IsDigit(d[k])
    requires forall k :: 0 <= k < |f| ==> IsDigit(f[k])
    requires rest == [] || !IsDigit(rest[0])
    ensures DigitsEnd(t, 0) == |d| && t[|d|] == '.' && DigitsEnd(t, |d| + 1) == |d| + 1 + |f|
    ensures t[..|d|] == d && t[|d| + 1..|d| + 1 + |f|] == f
  {
    DecimalPieces(t, d, f, rest);
    DigitsEndIs(t, 0, |d|);
    DigitsEndIs(t, |d| + 1, |d| + 1 + |f|);
  }

  /** Where the pieces of `d.f` followed by `rest` lie. */
  lemma DecimalPieces(t: string, d: string, f: string, rest: string)
    requires t == d + "." + f + rest
    ensures |t| == |d| + 1 + |f| + |rest| && t[|d|] == '.'
    ensures t[..|d|] == d && t[|d| + 1..|d| + 1 + |f|] == f && t[|d| + 1 + |f|..] == rest
  {
  }

  /** A token whose digit run is followed by a point parses to the decimal of the two digit runs around it. */
  lemma ParseFloatPoint(t: string)
    requires DigitsEnd(t, 0) < |t| && t[DigitsEnd(t, 0)] == '.'
    requires DigitsEnd(t, 0) > 0 || DigitsEnd(t, DigitsEnd(t, 0) + 1) > DigitsEnd(t, 0) + 1
    ensures var a := DigitsEnd(t, 0);
      ParseFloat(t) == Finite(DecimalValue(t[..a], t[a + 1..DigitsEnd(t, a + 1)]))
  {
  }

  /** `parseFloat("0.9")`. */
  lemma PointNine(t: string)
    requires t == "0.9"
    ensures ParseFloat(t) == Finite(0.9)
  {
    assert DigitsEnd(t, 0) == 1;
    assert DigitsEnd(t, 2) == 3;
    assert t[..1] == "0" && t[2..3] == "9";
    assert DigitsValue("0") == 0;
    assert DigitsValue("9") == 9;
  }

  /** `parseFloat("85")`. */
  lemma EightyFive(t: string)
    requires t == "85"
    ensures ParseFloat(t) == Finite(85.0)
  {
    assert DigitsEnd(t, 0) == 2;
    assert t[..2] == t && t[..1] == "8";
    assert DigitsValue("8") == 8;
    assert DigitsValue(t) == 85;
  }

  /** In the structured reply below, no label's first letter occurs before that label. */
  lemma StructuredLabelsInOrder(s: string)
    requires s == "Answer: B\n" + "Reasoning: because X\n" + "Confidence: 0.9\n" + "Selected Option: B"
    ensures 'R' !in s[..10] && 'C' !in s[..31] && 'S' !in s[..47]
  {
    var p := "Answer: B\n" + "Reasoning: because X\n";
    var q := p + "Confidence: 0.9\n";
    assert s[..10] == "Answer: B\n";
    assert s[..31] == p;
    assert s[..47] == q;
  }

  /** The confidence pattern matches the structured reply below at its label. */
  lemma StructuredConfidenceMatch(s: string)
    requires s == "Answer: B\n" + "Reasoning: because X\n" + "Confidence: 0.9\n" + "Selected Option: B"
    ensures MatchAt(ConfidenceField, s, 31) == Some("0.9")
  {
    assert At(s, 31, ConfidenceLabel);
    assert s[42] == ' ' && s[43] == '0';
    assert SkipSpaces(s, 42) == 43;
    assert s[46] == '\n';
    assert NumberEnd(s, 43) == 46;
    assert s[43..46] == "0.9";
  }

  /** The confidence of the structured reply below. */
  lemma StructuredConfidence(s: string)
    requires s == "Answer: B\n" + "Reasoning: because X\n" + "Confidence: 0.9\n" + "Selected Option: B"
    ensures ConfidenceOf(s) == Some(Finite(0.9))
  {
    StructuredConfidenceMatch(s);
    StructuredLabelsInOrder(s);
    CaptureAtFirst(ConfidenceField, s, 31);
    PointNine("0.9");
  }

  /** The option pattern matches the structured reply below at its label. */
  lemma StructuredOptionMatch(s: string)
    requires s == "Answer: B\n" + "Reasoning: because X\n" + "Confidence: 0.9\n" + "Selected Option: B"
    ensures MatchAt(OptionField, s, 47) == Some("B")
  {
    assert At(s, 47, OptionLabel);
    assert s[63] == ' ' && s[64] == 'B';
    assert SkipSpaces(s, 63) == 64;
  }

  /** The selected option of the structured reply below. */
  lemma StructuredOption(s: string)
    requires s == "Answer: B\n" + "Reasoning: because X\n" + "Confidence: 0.9\n" + "Selected Option: B"
    ensures OptionOf(s) == Some("B")
  {
    StructuredOptionMatch(s);
    StructuredLabelsInOrder(s);
    CaptureAtFirst(OptionField, s, 47);
  }

  /** A reply in the requested format yields every field. */
  lemma StructuredReply(s: string, m: string)
    requires s == "Answer: B\n" + "Reasoning: because X\n" + "Confidence: 0.9\n" + "Selected Option: B"
    ensures Parse(s, m) == AIResponse(m, "B", Some("because X"), Some(Finite(0.9)), None, None, Some("B"))
  {
    StructuredAnswer(s);
    StructuredReasoning(s);
    StructuredConfidence(s);
    StructuredOption(s);
  }

  /** The confidence is taken as written: "85" stays 85, it is not scaled or clamped to [0, 1]. */
  lemma ConfidenceNotClamped(s: string)
    requires s == "Confidence: 85"
    ensures ConfidenceOf(s) == Some(Finite(85.0))
  {
    assert At(s, 0, ConfidenceLabel);
    assert s[11] == ' ' && s[12] == '8';
    assert SkipSpaces(s, 11) == 12;
    assert NumberEnd(s, 12) == 14;
    assert s[12..14] == "85";
    assert MatchAt(ConfidenceField, s, 0) == Some("85");
    CaptureAtFirst(ConfidenceField, s, 0);
    EightyFive(s[12..14]);
  }

  /** A lower-case option letter is not recognised. */
  lemma LowerCaseOptionIgnored(s: string)
    requires s == "Selected Option: b"
    ensures OptionOf(s) == None
  {
    SearchLeftmost(OptionField, s, 0);
    forall k | 0 <= k <= |s| ensures MatchAt(OptionField, s, k).None? {
      if k > 0 && MatchAt(OptionField, s, k).Some? {
        assert false;
      }
    }
  }
}
