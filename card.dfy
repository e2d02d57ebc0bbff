/** `AIResponseCard`: how a record is flagged against the headline answer, and the variant, icon and style it is shown with. */
module Card {
  import opened Wrappers
  import opened Responses

  /** `consensusAnswer && response.answer === consensusAnswer`. */
  predicate IsConsensus(r: AIResponse, consensus: Option<string>)
  {
    Truthy(consensus) && r.answer == consensus.value
  }

  /** `consensusAnswer && response.answer !== consensusAnswer && !response.error`. */
  predicate IsConflict(r: AIResponse, consensus: Option<string>)
  {
    Truthy(consensus) && r.answer != consensus.value && !HasError(r)
  }

  /** The badge variant. */
  datatype Variant = Destructive | SuccessVariant | WarningVariant | DefaultVariant

  /** The icon beside the model's name. */
  datatype Icon = Clock | AlertCircle | CheckCircle | Brain

  /** The card's colouring. */
  datatype Style = ErrorStyle | ConsensusStyle | ConflictStyle | HighlightedStyle | PlainStyle

  /** `getCardVariant`. */
  function CardVariant(r: AIResponse, consensus: Option<string>): Variant
  {
    if HasError(r) then Destructive
    else if IsConsensus(r, consensus) then SuccessVariant
    else if IsConflict(r, consensus) then WarningVariant
    else DefaultVariant
  }

  /** `getIcon`. */
  function CardIcon(r: AIResponse, consensus: Option<string>): Icon
  {
    if Loading(r) then Clock
    else if HasError(r) then AlertCircle
    else if IsConsensus(r, consensus) then CheckCircle
    else Brain
  }

  /** `getCardClasses`. */
  function CardStyle(r: AIResponse, consensus: Option<string>, highlighted: Option<bool>): Style
  {
    if HasError(r) then ErrorStyle
    else if IsConsensus(r, consensus) then ConsensusStyle
    else if IsConflict(r, consensus) then ConflictStyle
    else if IsTrue(highlighted) then HighlightedStyle
    else PlainStyle
  }

  /** A missing or empty headline answer flags no card either way. */
  lemma EmptyConsensusFlagsNothing(r: AIResponse, consensus: Option<string>)
    requires consensus == None || consensus == Some("")
    ensures !IsConsensus(r, consensus) && !IsConflict(r, consensus)
  {
  }

  /** No card is flagged both as agreeing and as conflicting; without an error, a truthy headline flags every card one way or the other. */
  lemma ConsensusOrConflict(r: AIResponse, consensus: Option<string>)
    ensures !(IsConsensus(r, consensus) && IsConflict(r, consensus))
    ensures Truthy(consensus) && !HasError(r) ==> IsConsensus(r, consensus) || IsConflict(r, consensus)
  {
  }

  /** The variant follows the order error, agreement, conflict. */
  lemma VariantPriority(r: AIResponse, c: Option<string>)
    ensures CardVariant(r, c) == Destructive <==> HasError(r)
    ensures CardVariant(r, c) == SuccessVariant <==> !HasError(r) && IsConsensus(r, c)
    ensures CardVariant(r, c) == WarningVariant <==> !HasError(r) && IsConflict(r, c)
    ensures CardVariant(r, c) == DefaultVariant <==> !HasError(r) && !Truthy(c)
  {
  }

  /** The icon follows the order loading, error, agreement. */
  lemma IconPriority(r: AIResponse, c: Option<string>)
    ensures CardIcon(r, c) == Clock <==> Loading(r)
    ensures CardIcon(r, c) == AlertCircle <==> !Loading(r) && HasError(r)
    ensures CardIcon(r, c) == CheckCircle <==> !Loading(r) && !HasError(r) && IsConsensus(r, c)
  {
  }

  /**
   * The style follows the order error, agreement, conflict, highlight; the
   * highlight matters only when none of the first three applies, which is
   * when the record has no error and the headline answer is not truthy.
   */
  lemma StylePriority(r: AIResponse, c: Option<string>, h: Option<bool>)
    ensures CardStyle(r, c, h) == ErrorStyle <==> HasError(r)
    ensures CardStyle(r, c, h) == ConsensusStyle <==> !HasError(r) && IsConsensus(r, c)
    ensures CardStyle(r, c, h) == ConflictStyle <==> !HasError(r) && IsConflict(r, c)
    ensures CardStyle(r, c, h) == HighlightedStyle <==> !HasError(r) && !Truthy(c) && IsTrue(h)
    ensures CardStyle(r, c, h) != CardStyle(r, c, None) ==> !HasError(r) && !Truthy(c)
  {
  }

  /** The style and the variant agree on every card: they tell the same story in two places. */
  lemma StyleMatchesVariant(r: AIResponse, c: Option<string>, h: Option<bool>)
    ensures CardVariant(r, c) == Destructive <==> CardStyle(r, c, h) == ErrorStyle
    ensures CardVariant(r, c) == SuccessVariant <==> CardStyle(r, c, h) == ConsensusStyle
    ensures CardVariant(r, c) == WarningVariant <==> CardStyle(r, c, h) == ConflictStyle
  {
  }
}
