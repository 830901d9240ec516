/** The heuristic that labels a recording from its features, and the fixed
    confidence attached to each label. */
module Classifier {
  import opened AnalysisModels

  /** Fewest segments for which the features are assessed at all. */
  const MinSegments: int := 5

  /** The rule-2 conditions, all strict: steady volume, few pauses, and a
      pace strictly between 100 and 160 segments per minute. */
  predicate ConfidentFeatures(speechRate: real, pauseFrequency: real, volumeStability: real) {
    volumeStability > 0.6 && pauseFrequency < 8.0 && speechRate > 100.0 && speechRate < 160.0
  }

  /** The ordered decision list: the first matching rule decides. */
  function InferCommunicationState(speechRate: real, pauseFrequency: real, volumeStability: real, wordCount: int): (state: CommunicationState)
    ensures wordCount < MinSegments ==> state == Unclear
  {
    if wordCount < MinSegments then Unclear
    else if ConfidentFeatures(speechRate, pauseFrequency, volumeStability) then Confident
    else if pauseFrequency > 15.0 then Hesitant
    else if speechRate < 80.0 || speechRate > 200.0 then Unclear
    else Neutral
  }

  /** Fewer than five segments is Unclear, however extreme the other features. */
  lemma ShortTranscriptIsUnclear(speechRate: real, pauseFrequency: real, volumeStability: real, wordCount: int)
    requires wordCount < MinSegments
    ensures InferCommunicationState(speechRate, pauseFrequency, volumeStability, wordCount) == Unclear
  {
  }

  /** Confident exactly when there are enough segments and all rule-2
      conditions hold. */
  lemma ConfidentIff(speechRate: real, pauseFrequency: real, volumeStability: real, wordCount: int)
    ensures InferCommunicationState(speechRate, pauseFrequency, volumeStability, wordCount) == Confident <==>
            wordCount >= MinSegments && ConfidentFeatures(speechRate, pauseFrequency, volumeStability)
  {
  }

  /** Hesitant exactly when assessed, not confident, and above 15 pauses per
      minute; the pace does not matter, and exactly 15 is not hesitant. */
  lemma HesitantIff(speechRate: real, pauseFrequency: real, volumeStability: real, wordCount: int)
    ensures InferCommunicationState(speechRate, pauseFrequency, volumeStability, wordCount) == Hesitant <==>
            wordCount >= MinSegments && !ConfidentFeatures(speechRate, pauseFrequency, volumeStability) &&
            pauseFrequency > 15.0
  {
  }

  /** Neutral exactly when assessed, not confident, at most 15 pauses per
      minute, and a pace within [80, 200]. */
  lemma NeutralIff(speechRate: real, pauseFrequency: real, volumeStability: real, wordCount: int)
    ensures InferCommunicationState(speechRate, pauseFrequency, volumeStability, wordCount) == Neutral <==>
            wordCount >= MinSegments && !ConfidentFeatures(speechRate, pauseFrequency, volumeStability) &&
            pauseFrequency <= 15.0 && 80.0 <= speechRate <= 200.0
  {
  }

  /** Unclear exactly when too short, or assessed but neither confident nor
      hesitant with a pace outside [80, 200]. */
  lemma UnclearIff(speechRate: real, pauseFrequency: real, volumeStability: real, wordCount: int)
    ensures InferCommunicationState(speechRate, pauseFrequency, volumeStability, wordCount) == Unclear <==>
            wordCount < MinSegments ||
            (!ConfidentFeatures(speechRate, pauseFrequency, volumeStability) && pauseFrequency <= 15.0 &&
             (speechRate < 80.0 || speechRate > 200.0))
  {
  }

  /** The confidence score depends on the state alone. */
  function Confidence(state: CommunicationState): (score: real)
    ensures 0.0 <= score <= 1.0
  {
    match state
    case Confident => 0.9
    case Neutral => 0.7
    case Hesitant => 0.4
    case Unclear => 0.2
  }

  /** Scores are strictly ordered Confident > Neutral > Hesitant > Unclear,
      so the score also determines the state. */
  lemma ConfidenceOrdered(s: CommunicationState, t: CommunicationState)
    ensures Confidence(Confident) > Confidence(Neutral) > Confidence(Hesitant) > Confidence(Unclear)
    ensures Confidence(s) == Confidence(t) ==> s == t
  {
  }
}
