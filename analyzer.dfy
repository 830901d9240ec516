/** The analysis entry point: the speech step, then the signal step, then
    classification and assembly of the result. The speech recognizer and
    the audio decoder are outside the model; their terminal reports are
    inputs. */
module Analyzer {
  import opened AnalysisModels
  import opened SpeechTiming
  import opened SignalStats
  import opened Classifier

  /** The errors the analysis can throw. */
  datatype AnalysisError =
    | RecognizerUnavailable  // the recognizer exists but reports itself unavailable
    | RecognitionFailed      // the recognition task reported an error
    | AudioFileUnreadable    // opening the recording for reading threw
    | AudioReadFailed        // reading the samples into the buffer threw

  /** What the speech recognizer eventually does. */
  datatype SpeechEvent =
    | NoRecognizer            // no recognizer could be created: the availability test compares
                              // nil with false, which fails, and no task is ever started
    | NotAvailable
    | TaskError
    | NoFinalResult           // the task reports only missing or non-final results
    | FinalResult(transcription: string, segments: seq<Segment>)

  /** What reading the recording yields. `Decoded` carries the frame count
      and the RMS value of each chunk of the decoded samples. */
  datatype SignalEvent =
    | OpenFailed
    | FormatOrBufferUnavailable
    | ReadFailed
    | ChannelDataMissing
    | Decoded(frames: nat, rms: seq<real>)

  /** A decoded signal has at least one frame and one RMS value per chunk. */
  predicate WellFormedSignal(signal: SignalEvent) {
    signal.Decoded? ==> signal.frames > 0 && |signal.rms| == ChunkCount(signal.frames)
  }

  /** How a step, or the whole analysis, ends: it returns, throws, traps
      (a runtime failure), or never resumes its caller. */
  datatype Outcome<T> = Returned(value: T) | Threw(error: AnalysisError) | Trapped | NeverResumes {
    function Propagate<U>(): Outcome<U>
      requires !Returned?
    {
      match this
      case Threw(e) => Threw(e)
      case Trapped => Trapped
      case NeverResumes => NeverResumes
    }
  }

  /** The speech step: transcription text and timing features. An empty
      final segment list traps when the pause loop builds its range. */
  function AnalyzeSpeech(speech: SpeechEvent): (r: Outcome<(string, TimingFeatures)>)
    ensures r.Returned? <==> speech.FinalResult? && |speech.segments| > 0
    ensures r.Trapped? <==> speech.FinalResult? && |speech.segments| == 0
    ensures r.Returned? ==> r.value.0 == speech.transcription && r.value.1.segmentCount == |speech.segments|
  {
    match speech
    case NoRecognizer => NeverResumes
    case NotAvailable => Threw(RecognizerUnavailable)
    case TaskError => Threw(RecognitionFailed)
    case NoFinalResult => NeverResumes
    case FinalResult(text, segments) =>
      if |segments| == 0 then Trapped else Returned((text, Timing(segments)))
  }

  /** The signal step: volume stability and mean RMS. When the PCM format,
      the buffer or the channel data cannot be obtained the step returns
      (0, 0) instead of throwing. */
  function AnalyzeSignal(signal: SignalEvent): (r: Outcome<SignalFeatures>)
    requires WellFormedSignal(signal)
    ensures r.Returned? <==> !signal.OpenFailed? && !signal.ReadFailed?
    ensures r.Threw? <==> signal.OpenFailed? || signal.ReadFailed?
    ensures r.Returned? && signal.Decoded? ==> 0.0 < r.value.stability <= 1.0
    ensures signal.Decoded? ==> r == Returned(VolumeStability(signal.rms))
    ensures signal.OpenFailed? ==> r == Threw(AudioFileUnreadable)
    ensures signal.ReadFailed? ==> r == Threw(AudioReadFailed)
    ensures r.Returned? && !signal.Decoded? ==> r.value.stability == 0.0 && r.value.meanRms == 0.0
  {
    match signal
    case OpenFailed => Threw(AudioFileUnreadable)
    case FormatOrBufferUnavailable => Returned(SignalFeatures(0.0, 0.0))
    case ReadFailed => Threw(AudioReadFailed)
    case ChannelDataMissing => Returned(SignalFeatures(0.0, 0.0))
    case Decoded(_, rms) => Returned(VolumeStability(rms))
  }

  /** The complete analysis: the speech step runs first and the signal step
      runs only when it returned. */
  function Analyze(speech: SpeechEvent, signal: SignalEvent): (r: Outcome<AudioAnalysisResult>)
    requires WellFormedSignal(signal)
    ensures r.Returned? ==> 0.0 <= r.value.volumeStability <= 1.0 && 0.0 <= r.value.confidenceScore <= 1.0
    ensures r.Returned? ==> r.value.confidenceScore == Confidence(r.value.communicationState)
  {
    var speechOutcome := AnalyzeSpeech(speech);
    if !speechOutcome.Returned? then speechOutcome.Propagate()
    else
      var (transcription, timing) := speechOutcome.value;
      var signalOutcome := AnalyzeSignal(signal);
      if !signalOutcome.Returned? then signalOutcome.Propagate()
      else
        var stability := signalOutcome.value.stability;
        var state := InferCommunicationState(timing.speechRate, timing.pauseFrequency, stability, timing.segmentCount);
        Returned(AudioAnalysisResult(timing.speechRate, timing.pauseFrequency, stability, state,
                                     transcription, Confidence(state)))
  }

  /** How each kind of ending arises. */
  lemma AnalyzeOutcomes(speech: SpeechEvent, signal: SignalEvent)
    requires WellFormedSignal(signal)
    ensures Analyze(speech, signal).NeverResumes? <==> speech.NoRecognizer? || speech.NoFinalResult?
    ensures Analyze(speech, signal).Trapped? <==> speech.FinalResult? && |speech.segments| == 0
    ensures Analyze(speech, signal) == Threw(RecognizerUnavailable) <==> speech.NotAvailable?
    ensures Analyze(speech, signal) == Threw(RecognitionFailed) <==> speech.TaskError?
    ensures Analyze(speech, signal) == Threw(AudioFileUnreadable) <==>
              speech.FinalResult? && |speech.segments| > 0 && signal.OpenFailed?
    ensures Analyze(speech, signal) == Threw(AudioReadFailed) <==>
              speech.FinalResult? && |speech.segments| > 0 && signal.ReadFailed?
    ensures Analyze(speech, signal).Returned? <==>
              speech.FinalResult? && |speech.segments| > 0 && !signal.OpenFailed? && !signal.ReadFailed?
  {
  }

  /** When the speech step does not return, the outcome does not depend on
      the recording's audio at all: the signal step never runs. */
  lemma SpeechFailureSkipsSignal(speech: SpeechEvent, signal1: SignalEvent, signal2: SignalEvent)
    requires WellFormedSignal(signal1) && WellFormedSignal(signal2)
    requires !AnalyzeSpeech(speech).Returned?
    ensures Analyze(speech, signal1) == Analyze(speech, signal2)
    ensures !Analyze(speech, signal1).Returned?
  {
  }

  /** A returned result carries the timing features of the final segments,
      a stability in [0, 1], the classifier's state for exactly those
      features, the transcription verbatim, and that state's confidence. */
  lemma AnalyzeResult(speech: SpeechEvent, signal: SignalEvent)
    requires WellFormedSignal(signal)
    requires Analyze(speech, signal).Returned?
    ensures speech.FinalResult? && |speech.segments| > 0
    ensures var r := Analyze(speech, signal).value;
            && r.transcription == speech.transcription
            && r.speechRate == SpeechRate(speech.segments)
            && r.pauseFrequency == PauseFrequency(speech.segments)
            && 0.0 <= r.volumeStability <= 1.0
            && (signal.Decoded? ==> r.volumeStability == VolumeStability(signal.rms).stability)
            && (!signal.Decoded? ==> r.volumeStability == 0.0)
            && r.communicationState ==
                 InferCommunicationState(r.speechRate, r.pauseFrequency, r.volumeStability, |speech.segments|)
            && r.confidenceScore == Confidence(r.communicationState)
            && 0.0 <= r.confidenceScore <= 1.0
  {
  }

  /** A missing buffer or channel is not an error: stability is 0, so the
      recording can never be rated Confident. */
  lemma MissingBufferIsNeverConfident(speech: SpeechEvent, signal: SignalEvent)
    requires signal.FormatOrBufferUnavailable? || signal.ChannelDataMissing?
    requires Analyze(speech, signal).Returned?
    ensures Analyze(speech, signal).value.volumeStability == 0.0
    ensures Analyze(speech, signal).value.communicationState != Confident
  {
  }

  /** One to four final segments always give Unclear with confidence 0.2,
      whatever their timings and whatever the audio. */
  lemma FewSegmentsAreUnclear(speech: SpeechEvent, signal: SignalEvent)
    requires WellFormedSignal(signal)
    requires speech.FinalResult? && 1 <= |speech.segments| < MinSegments
    requires !signal.OpenFailed? && !signal.ReadFailed?
    ensures Analyze(speech, signal).Returned?
    ensures Analyze(speech, signal).value.communicationState == Unclear
    ensures Analyze(speech, signal).value.confidenceScore == 0.2
  {
  }
}
