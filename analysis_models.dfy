/** Value types shared by the analyzer: the closed set of communication
    states and the immutable record an analysis produces. Swift `Double`
    fields are modelled as mathematical reals. */
module AnalysisModels {

  /** The four labels an analysis can assign to a recording. */
  datatype CommunicationState = Confident | Neutral | Hesitant | Unclear

  /** The result of one completed analysis. */
  datatype AudioAnalysisResult = AudioAnalysisResult(
    speechRate: real,          // segments per minute
    pauseFrequency: real,      // pauses per minute
    volumeStability: real,     // 1.0 is perfectly stable
    communicationState: CommunicationState,
    transcription: string,
    confidenceScore: real)
}
