/**
 * `AIService.parseAIResponse`: four anchored regular expressions applied to a
 * model's free text, each modelled as a scanner that returns the leftmost
 * match's capture group, as JavaScript's `String.prototype.match` does for a
 * pattern without the `g` flag.
 */
module Parser {
  import opened Wrappers
  import opened Text
  import opened Responses

  const AnswerLabel: string := "Answer:"
  const ReasoningLabel: string := "Reasoning:"
  const ConfidenceLabel: string := "Confidence:"
  const OptionLabel: string := "Selected Option:"

  /** The alternatives of the look-ahead `(?=\n|Reasoning:|Selected Option:|Confidence:|$)`, `$` aside. */
  const AnswerStops: seq<string> := ["\n", ReasoningLabel, OptionLabel, ConfidenceLabel]
  /** The alternatives of the look-ahead `(?=\n|Selected Option:|Confidence:|$)`, `$` aside. */
  const ReasoningStops: seq<string> := ["\n", OptionLabel, ConfidenceLabel]

  /** The four patterns of the parser. */
  datatype Field = AnswerField | ReasoningField | ConfidenceField | OptionField

  function Label(f: Field): string
  {
    match f
    case AnswerField => AnswerLabel
    case ReasoningField => ReasoningLabel
    case ConfidenceField => ConfidenceLabel
    case OptionField => OptionLabel
  }

  /** The look-ahead succeeds at `j`: end of input (`$` without the `m` flag) or one of `stops` starts there. */
  predicate StopAt(s: string, j: nat, stops: seq<string>)
  {
    j == |s| || exists k :: 0 <= k < |stops| && At(s, j, stops[k])
  }

  /** Where the lazy `(.+?)` ends: the first position at or after `j` where the look-ahead succeeds. */
  function LazyEnd(s: string, j: nat, stops: seq<string>): (e: nat)
    requires j <= |s|
    ensures j <= e <= |s| && StopAt(s, e, stops)
    ensures forall k :: j <= k < e ==> !StopAt(s, k, stops)
    decreases |s| - j
  {
    if StopAt(s, j, stops) then j else LazyEnd(s, j + 1, stops)
  }

  /** The end of the greedy run `[0-9.]+` that starts at `j`. */
  function NumberEnd(s: string, j: nat): (e: nat)
    requires j <= |s|
    ensures j <= e <= |s|
    ensures forall k :: j <= k < e ==> IsNumberChar(s[k])
    ensures e < |s| ==> !IsNumberChar(s[e])
    decreases |s| - j
  {
    if j == |s| || !IsNumberChar(s[j]) then j else NumberEnd(s, j + 1)
  }

  /**
   * The capture of `\s*(.+?)(?=stops|$)` after the label, which ends at
   * `start`; `j` is where the greedy `\s*` stops. When only white space
   * follows, the engine backtracks `\s*` by one character so that `(.+?)`
   * captures the last one; when nothing follows, the match fails.
   */
  function LazyCapture(s: string, start: nat, j: nat, stops: seq<string>): Option<string>
    requires start <= j <= |s|
  {
    if j < |s| then Some(s[j..LazyEnd(s, j + 1, stops)])
    else if start < j then Some([s[j - 1]])
    else None
  }

  /** The capture group of pattern `f` when the match is tried at index `i` of `s`, if it matches there. */
  function MatchAt(f: Field, s: string, i: nat): Option<string>
    requires i <= |s|
  {
    if !At(s, i, Label(f)) then None
    else
      var start := i + |Label(f)|;
      var j := SkipSpaces(s, start);
      match f
      case AnswerField => LazyCapture(s, start, j, AnswerStops)
      case ReasoningField => LazyCapture(s, start, j, ReasoningStops)
      case ConfidenceField =>
        if j < |s| && IsNumberChar(s[j]) then Some(s[j..NumberEnd(s, j)]) else None
      case OptionField =>
        if j < |s| && IsUpper(s[j]) then Some([s[j]]) else None
  }

  /** For each index of `s` (and its end), whether pattern `f` matches there. */
  function Matches(f: Field, s: string): (b: seq<bool>)
    ensures |b| == |s| + 1
  {
    seq(|s| + 1, k requires 0 <= k <= |s| => MatchAt(f, s, k).Some?)
  }

  /** The first index at or after `i` that holds `true`. */
  function FirstTrue(b: seq<bool>, i: nat): (r: Option<nat>)
    requires i <= |b|
    ensures r.Some? ==> i <= r.value < |b|
    decreases |b| - i
  {
    if i == |b| then None else if b[i] then Some(i) else FirstTrue(b, i + 1)
  }

  /** `FirstTrue` finds the first `true` at or after `i`, or reports that there is none. */
  lemma {:induction false} FirstTrueIsFirst(b: seq<bool>, i: nat)
    requires i <= |b|
    ensures FirstTrue(b, i).Some? ==> b[FirstTrue(b, i).value]
    ensures FirstTrue(b, i).Some? ==> forall k :: i <= k < FirstTrue(b, i).value ==> !b[k]
    ensures FirstTrue(b, i).None? ==> forall k :: i <= k < |b| ==> !b[k]
    decreases |b| - i
  {
    if i < |b| && !b[i] {
      FirstTrueIsFirst(b, i + 1);
    }
  }

  /** The leftmost index at or after `i` at which pattern `f` matches: the regular-expression engine's scan. */
  function Search(f: Field, s: string, i: nat): (r: Option<nat>)
    requires i <= |s|
    ensures r.Some? ==> i <= r.value <= |s|
  {
    FirstTrue(Matches(f, s), i)
  }

  /** `Search` finds the leftmost index at which the pattern matches, or reports that it matches nowhere. */
  lemma SearchLeftmost(f: Field, s: string, i: nat)
    requires i <= |s|
    ensures Search(f, s, i).Some? ==> MatchAt(f, s, Search(f, s, i).value).Some?
    ensures Search(f, s, i).Some? ==> forall k :: i <= k < Search(f, s, i).value ==> MatchAt(f, s, k).None?
    ensures Search(f, s, i).None? ==> forall k :: i <= k <= |s| ==> MatchAt(f, s, k).None?
  {
    var b := Matches(f, s);
    FirstTrueIsFirst(b, i);
    assert forall k :: 0 <= k <= |s| ==> b[k] == MatchAt(f, s, k).Some?;
  }

  /** `s.match(pattern)?.[1]`: the capture group of the leftmost match, if any. */
  function Capture(f: Field, s: string): Option<string>
  {
    match Search(f, s, 0)
    case None => None
    case Some(i) => MatchAt(f, s, i)
  }

  /** The value of a run of decimal digits. */
  function DigitsValue(d: string): nat
    requires forall k :: 0 <= k < |d| ==> IsDigit(d[k])
  {
    if d == [] then 0
    else
      assert IsDigit(d[|d| - 1]);
      10 * DigitsValue(d[..|d| - 1]) + (d[|d| - 1] as int - '0' as int)
  }

  function Pow10(n: nat): (p: nat)
    ensures p >= 1
  {
    if n == 0 then 1 else 10 * Pow10(n - 1)
  }

  /** The end of the run of decimal digits that starts at `j`. */
  function DigitsEnd(s: string, j: nat): (e: nat)
    requires j <= |s|
    ensures j <= e <= |s|
    ensures forall k :: j <= k < e ==> IsDigit(s[k])
    ensures e < |s| ==> !IsDigit(s[e])
    decreases |s| - j
  {
    if j == |s| || !IsDigit(s[j]) then j else DigitsEnd(s, j + 1)
  }

  /**
   * `parseFloat` on a token over `[0-9.]`: the longest prefix of the form
   * `digits [. digits]` with at least one digit, else `NaN`. Signs,
   * exponents and `Infinity` cannot occur in such a token.
   */
  function ParseFloat(t: string): (n: Num)
    ensures n.Finite? ==> n.value >= 0.0
    ensures n.Finite? <==> (t != [] && IsDigit(t[0])) || (|t| >= 2 && t[0] == '.' && IsDigit(t[1]))
  {
    var a := DigitsEnd(t, 0);
    var hasPoint := a < |t| && t[a] == '.';
    var b := if hasPoint then DigitsEnd(t, a + 1) else a;
    var frac := if hasPoint then t[a + 1..b] else "";
    assert a == 0 && hasPoint && |t| >= 2 && IsDigit(t[1]) ==> frac != [];
    if a == 0 && frac == [] then NaN
    else Finite(DecimalValue(t[..a], frac))
  }

  /** The value of the decimal `whole.frac`. */
  function DecimalValue(whole: string, frac: string): real
    requires forall k :: 0 <= k < |whole| ==> IsDigit(whole[k])
    requires forall k :: 0 <= k < |frac| ==> IsDigit(frac[k])
  {
    DigitsValue(whole) as real + DigitsValue(frac) as real / Pow10(|frac|) as real
  }

  /** The answer: the trimmed capture after "Answer:", or the whole reply trimmed when that is missing or empty (`||`). */
  function AnswerOf(response: string): (a: string)
    ensures IsTrimmed(a)
  {
    var cap := Capture(AnswerField, response);
    if cap.Some? && Trim(cap.value) != "" then Trim(cap.value) else Trim(response)
  }

  /** The reasoning: the trimmed capture after "Reasoning:", if that pattern matches. */
  function ReasoningOf(response: string): (r: Option<string>)
    ensures r.Some? ==> IsTrimmed(r.value)
  {
    var cap := Capture(ReasoningField, response);
    if cap.Some? then Some(Trim(cap.value)) else None
  }

  /** The confidence: `parseFloat` of the number after "Confidence:", if that pattern matches. */
  function ConfidenceOf(response: string): (c: Option<Num>)
    ensures c.Some? && c.value.Finite? ==> c.value.value >= 0.0
  {
    var cap := Capture(ConfidenceField, response);
    if cap.Some? then Some(ParseFloat(cap.value)) else None
  }

  /** The selected option: the letter after "Selected Option:", if that pattern matches. */
  function OptionOf(response: string): (o: Option<string>)
    ensures o.Some? ==> |o.value| == 1 && IsUpper(o.value[0])
  {
    Capture(OptionField, response)
  }

  /** `parseAIResponse(response, modelName)` (its `catch` branch cannot be taken and is not modelled). */
  function Parse(response: string, modelName: string): (r: AIResponse)
    ensures r.modelName == modelName
    ensures r.error.None? && r.isLoading.None?
    ensures IsTrimmed(r.answer)
    ensures r.reasoning.Some? ==> IsTrimmed(r.reasoning.value)
  {
    AIResponse(modelName, AnswerOf(response), ReasoningOf(response), ConfidenceOf(response),
               None, None, OptionOf(response))
  }
}
