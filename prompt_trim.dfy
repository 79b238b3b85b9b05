/**
 * The length limits applied to the text sent to the image model: the
 * character description is cut to 20 space-separated tokens before
 * `generate_image` is called, capped at 150 characters plus "..." inside it,
 * and cut again when the templated prompt is longer than 3800 characters.
 */
module PromptTrim {
  import opened PyStr

  const DescriptionCap := 150
  const MaxPromptLength := 3800
  /** The description is never cut below this many characters on a rebuild. */
  const MinKept := 50
  /** Characters removed beyond the excess on a rebuild. */
  const ExtraCut := 100
  const ShortDescriptionTokens := 20
  const Ellipsis := "..."

  // The fixed pieces of the image prompt template.
  const FeaturesLabel := ", 캐릭터 특징: "
  const StyleLabel := ", 스타일: "
  const PanelSuffix := ", 단일 웹툰 패널, 말풍선이나 텍스트 없음"

  /** Python's `s[:k]` for a non-negative `k`: clamps at the end of `s`. */
  function Take(s: string, k: nat): (r: string)
    ensures r <= s && |r| == Min(k, |s|)
  {
    if k >= |s| then s else s[..k]
  }

  /** The first cap: at most 150 characters of the description, then "...". */
  function CapDescription(description: string): (r: string)
    ensures |r| <= DescriptionCap + |Ellipsis|
    ensures |description| <= DescriptionCap ==> r == description
    ensures |description| > DescriptionCap ==>
      |r| == DescriptionCap + |Ellipsis| && r[..DescriptionCap] <= description
      && r[DescriptionCap..] == Ellipsis
  {
    if |description| > DescriptionCap then description[..DescriptionCap] + Ellipsis
    else description
  }

  /** The image prompt template: the scene prompt, the character description
      and the style between fixed Korean pieces. */
  function EnhancedPrompt(prompt: string, description: string, style: string): (r: string)
    ensures |r| == |prompt| + |description| + |style| + 41
    ensures prompt <= r
  {
    prompt + FeaturesLabel + description + StyleLabel + style + PanelSuffix
  }

  /** The description and the prompt `generate_image` sends. */
  datatype Trimmed = Trimmed(description: string, prompt: string)

  /** The trimming block of `generate_image`. */
  function TrimPrompt(prompt: string, style: string, description: string): (r: Trimmed)
    // the prompt sent is always the template over the description kept
    ensures r.prompt == EnhancedPrompt(prompt, r.description, style)
    // the prompt is rebuilt only when the first one is over the limit
    ensures |EnhancedPrompt(prompt, CapDescription(description), style)| <= MaxPromptLength ==>
      r.description == CapDescription(description)
    // on a rebuild, the description keeps a prefix of the capped one of at
    // least min(50, its length) characters, followed by "..."
    ensures |EnhancedPrompt(prompt, CapDescription(description), style)| > MaxPromptLength ==>
      |r.description| >= |Ellipsis| && r.description[|r.description| - |Ellipsis|..] == Ellipsis
      && r.description[..|r.description| - |Ellipsis|] <= CapDescription(description)
      && |r.description| - |Ellipsis| >= Min(MinKept, |CapDescription(description)|)
    // when the cut is above the floor, the rebuilt prompt is 3703 characters
    ensures
      var capped := CapDescription(description);
      var excess := |EnhancedPrompt(prompt, capped, style)| - MaxPromptLength;
      excess > 0 && |capped| - excess - ExtraCut >= MinKept ==>
        |r.prompt| == MaxPromptLength - ExtraCut + |Ellipsis| && |r.prompt| <= MaxPromptLength
    // when the cut would go below the floor, exactly min(50, its length)
    // characters are kept
    ensures
      var capped := CapDescription(description);
      var excess := |EnhancedPrompt(prompt, capped, style)| - MaxPromptLength;
      excess > 0 && |capped| - excess - ExtraCut < MinKept ==>
        |r.description| == Min(MinKept, |capped|) + |Ellipsis|
  {
    var capped := CapDescription(description);
    var enhanced := EnhancedPrompt(prompt, capped, style);
    if |enhanced| > MaxPromptLength then
      var excess := |enhanced| - MaxPromptLength;
      var shortened := Take(capped, Max(MinKept, |capped| - excess - ExtraCut)) + Ellipsis;
      assert shortened[..|shortened| - |Ellipsis|] == Take(capped, Max(MinKept, |capped| - excess - ExtraCut));
      Trimmed(shortened, EnhancedPrompt(prompt, shortened, style))
    else
      Trimmed(capped, enhanced)
  }

  /** A rebuild does not always shorten the prompt: when the capped
      description already has at most 50 characters it is kept whole and
      "..." is added, so the rebuilt prompt is three characters longer than
      the one that was over the limit. */
  lemma TrimLengthensShortDescription(prompt: string, style: string, description: string)
    requires |EnhancedPrompt(prompt, CapDescription(description), style)| > MaxPromptLength
    requires |CapDescription(description)| <= MinKept
    ensures |TrimPrompt(prompt, style, description).prompt|
         == |EnhancedPrompt(prompt, CapDescription(description), style)| + |Ellipsis|
    ensures TrimPrompt(prompt, style, description).description == CapDescription(description) + Ellipsis
  {
  }

  /** Line 818: `" ".join(description.split(" ")[:20])`. */
  function ShortDescription(description: string): string {
    var words := Split(description);
    Join(words[..Min(ShortDescriptionTokens, |words|)])
  }

  /** The short description is a prefix of the description, made of its first
      tokens, at most 20 of them; a description of 20 tokens or fewer is left
      unchanged. */
  lemma ShortDescriptionPrefix(description: string)
    ensures ShortDescription(description) <= description
    ensures Split(ShortDescription(description))
         == Split(description)[..Min(ShortDescriptionTokens, |Split(description)|)]
    ensures |Split(ShortDescription(description))| <= ShortDescriptionTokens
    ensures |Split(description)| <= ShortDescriptionTokens ==> ShortDescription(description) == description
  {
    var words := Split(description);
    var k := Min(ShortDescriptionTokens, |words|);
    JoinSplit(description);
    JoinTakePrefix(words, k);
    assert SpaceFree(words[..k]) by {
      forall i | 0 <= i < k ensures ' ' !in words[..k][i] { assert words[..k][i] == words[i]; }
    }
    SplitJoin(words[..k]);
    if |words| <= ShortDescriptionTokens {
      assert words[..k] == words;
    }
  }
}
