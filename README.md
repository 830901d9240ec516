# Echo audio analysis core in Dafny

Echo is an iOS voice-recording app. After a recording is made, the app
analyses it offline and labels how the speaker came across: Confident,
Neutral, Hesitant or Unclear, each with a confidence score. The analysis
has three parts:

- **Speech timing.** On-device recognition yields the transcription and
  its timed segments. From these the analyzer computes a speech rate, in
  segments per minute, and a pause frequency. A pause is a gap of more
  than 0.5 s between one segment's end and the next segment's start.
- **Volume stability.** The decoded mono samples are cut into chunks of
  4096 samples. Each chunk gets a root-mean-square (RMS) energy. The
  population variance of those RMS values is mapped to
  `1 / (1 + 1000 * variance)`.
- **Classification.** A fixed rule set maps rate, pause frequency,
  stability and segment count to a state. A fixed table maps the state to
  a confidence score.

Separately, a recording store keeps the list of saved recordings, newest
first.

The project has six modules:

- `AnalysisModels` holds the result record and the state enumeration.
- `SpeechTiming` covers pause counting, duration, rate and frequency.
- `SignalStats` covers chunking, mean squares, mean, variance and stability.
- `Classifier` holds the state rules and the confidence table.
- `Analyzer` is the whole `analyze` call. The recognizer's and the decoder's
  behaviour are inputs (`SpeechEvent`, `SignalEvent`), and the outcome
  distinguishes returning, throwing, trapping and never resuming.
- `RecordingStorage` is a class whose `recordings` field the save, delete
  and load methods reassign.

Swift `Double` and `Float` values are modelled as mathematical reals.

## Model

| member | source | states |
|---|---|---|
| SpeechTiming.Pauses | EchoProject/AudioAnalyzer.swift:78-85 | the number of pauses is at most the number of adjacent pairs, so zero for zero or one segment |
| SpeechTiming.PausesCountsPausePairs | EchoProject/AudioAnalyzer.swift:79-84 | the pause count equals the number of indices i whose gap from segment i's end to segment i+1's start exceeds 0.5 s |
| SpeechTiming.PauseIndicesOfExtension | EchoProject/AudioAnalyzer.swift:79-84 | appending a segment adds exactly the new last pair, if it is a pause, to the pause indices of the shorter list, and leaves the earlier pairs unchanged |
| SpeechTiming.NoPausesWithoutLongGap | EchoProject/AudioAnalyzer.swift:82 | if no gap exceeds the threshold the count is zero; touching or overlapping segments never count |
| SpeechTiming.AllPairsPauses | EchoProject/AudioAnalyzer.swift:79-84 | the count reaches its maximum, segments minus one, exactly when every adjacent pair is a pause |
| SpeechTiming.CountPauses | EchoProject/AudioAnalyzer.swift:78-85 | the imperative loop over 0..<count-1, for a non-empty list, returns the specified pause count |
| SpeechTiming.Duration | EchoProject/AudioAnalyzer.swift:69 | the last segment's timestamp, or 0 for no segments; LastDurationIgnored states that the last segment's own duration plays no part |
| SpeechTiming.Minutes | EchoProject/AudioAnalyzer.swift:73 | the duration in minutes is the larger of duration/60 and 0.01, so it is never below 0.01 |
| SpeechTiming.SpeechRate | EchoProject/AudioAnalyzer.swift:74 | rate times minutes equals the segment count, and the rate is between 0 and 100 times the segment count |
| SpeechTiming.PauseFrequency | EchoProject/AudioAnalyzer.swift:86 | frequency times minutes equals the pause count, and the frequency is between 0 and 100 times the pause count |
| SpeechTiming.Timing | EchoProject/AudioAnalyzer.swift:67-86 | for a non-empty list the segment count is the list length, both rates are non-negative, and the pause frequency never exceeds the speech rate |
| SpeechTiming.ComputeTiming | EchoProject/AudioAnalyzer.swift:69-86 | the callback's sequence of statements, with its pause loop, computes exactly the specified timing features |
| SpeechTiming.LastDurationIgnored | EchoProject/AudioAnalyzer.swift:69 | the duration is the last segment's timestamp alone, so changing the last segment's duration changes no timing feature |
| SignalStats.ChunkCount | EchoProject/AudioAnalyzer.swift:110 | the number of iterations of the stride, (frames + 4095) / 4096; ChunkCountIsCeiling and ChunkCountBounds state what it means |
| SignalStats.ChunkCountBounds | EchoProject/AudioAnalyzer.swift:107-110 | the chunks cover every frame with less than one chunk to spare; there are none for an empty signal and exactly one for 1 to 4096 frames |
| SignalStats.ChunkEnd | EchoProject/AudioAnalyzer.swift:111 | a chunk ends at the frame count or a full chunk after its start, whichever comes first, never beyond either |
| SignalStats.ChunkCountIsCeiling | EchoProject/AudioAnalyzer.swift:110 | the stride visits chunk k exactly when k times 4096 is below the frame count, so the chunk count is the ceiling of frames/4096 |
| SignalStats.ChunksPartition | EchoProject/AudioAnalyzer.swift:107-112 | for a non-empty signal the chunks tile [0, frames) in order; each holds 1 to 4096 samples and only the last may be short |
| SignalStats.ChunkOfSample | EchoProject/AudioAnalyzer.swift:110-115 | every sample index lies in exactly one chunk, chunk i/4096 |
| SignalStats.SumOfSquares | EchoProject/AudioAnalyzer.swift:113-117 | the accumulated sum of squared samples is never negative |
| SignalStats.MeanSquare | EchoProject/AudioAnalyzer.swift:118 | a chunk's mean square, the value under the square root, is never negative |
| SignalStats.ChunkSumOfSquares | EchoProject/AudioAnalyzer.swift:113-117 | the inner loop over one chunk returns exactly the sum of squares of that chunk's samples |
| SignalStats.ChunkMeanSquares | EchoProject/AudioAnalyzer.swift:107-120 | the nested loop yields one value per chunk, in chunk order, each the mean square of exactly that chunk's samples |
| SignalStats.Sum | EchoProject/AudioAnalyzer.swift:123 | the left fold with + from 0 is non-negative when every value is; SumBetween bounds it |
| SignalStats.SumBetween | EchoProject/AudioAnalyzer.swift:123 | the fold of n values within [lo, hi] lies within n copies of lo and n copies of hi |
| SignalStats.Mean | EchoProject/AudioAnalyzer.swift:123 | the mean RMS of non-negative RMS values is non-negative; MeanBetween bounds it |
| SignalStats.MeanBetween | EchoProject/AudioAnalyzer.swift:123 | the mean lies between any lower and upper bound of the values |
| SignalStats.SumSquaredDeviations | EchoProject/AudioAnalyzer.swift:124 | the sum of squared deviations is never negative |
| SignalStats.Variance | EchoProject/AudioAnalyzer.swift:123-124 | the population variance of the RMS values is never negative |
| SignalStats.Stability | EchoProject/AudioAnalyzer.swift:131 | the stability lies in (0, 1] and equals 1 exactly when the variance is 0 |
| SignalStats.StabilityStrictlyDecreasing | EchoProject/AudioAnalyzer.swift:131 | a larger variance always gives a strictly smaller stability |
| SignalStats.SumOfConstant | EchoProject/AudioAnalyzer.swift:123-124 | for a constant list, the fold sums to length times the constant and the deviations from it sum to zero |
| SignalStats.VarianceOfConstant | EchoProject/AudioAnalyzer.swift:123-124 | identical values have variance zero |
| SignalStats.VolumeStability | EchoProject/AudioAnalyzer.swift:123-133 | for a non-empty RMS list the stability lies in (0, 1] and is 1 exactly when the RMS variance is 0 |
| SignalStats.IdenticalChunksAreStable | EchoProject/AudioAnalyzer.swift:123-131 | chunks of equal RMS give stability 1 |
| SignalStats.SingleChunkIsStable | EchoProject/AudioAnalyzer.swift:107-131 | a single RMS value always gives stability 1; by ChunkCountBounds that is every recording of 1 to 4096 frames |
| Classifier.InferCommunicationState | EchoProject/AudioAnalyzer.swift:136-165 | fewer than five segments always give Unclear |
| Classifier.ShortTranscriptIsUnclear | EchoProject/AudioAnalyzer.swift:143-145 | with fewer than five segments the state is Unclear, whatever the other features |
| Classifier.ConfidentIff | EchoProject/AudioAnalyzer.swift:143-153 | the state is Confident exactly when there are at least five segments, stability > 0.6, pause frequency < 8 and 100 < rate < 160 |
| Classifier.HesitantIff | EchoProject/AudioAnalyzer.swift:143-157 | the state is Hesitant exactly when there are at least five segments, the features are not confident, and pause frequency > 15 |
| Classifier.NeutralIff | EchoProject/AudioAnalyzer.swift:143-164 | the state is Neutral exactly when there are at least five segments, the features are not confident, pause frequency ≤ 15 and 80 ≤ rate ≤ 200 |
| Classifier.UnclearIff | EchoProject/AudioAnalyzer.swift:143-162 | the state is Unclear exactly when there are fewer than five segments, or the features are neither confident nor hesitant and the rate is below 80 or above 200 |
| Classifier.Confidence | EchoProject/AudioAnalyzer.swift:26-31 | every confidence score lies in [0, 1] |
| Classifier.ConfidenceOrdered | EchoProject/AudioAnalyzer.swift:26-31 | the scores are strictly ordered Confident > Neutral > Hesitant > Unclear, so the score determines the state |
| Analyzer.AnalyzeSpeech | EchoProject/AudioAnalyzer.swift:45-91 | the speech step returns exactly for a final result with segments, and then hands on the transcription and the segment count; it traps exactly for a final result without segments, where the range at line 79 would be 0..<-1 |
| Analyzer.AnalyzeSignal | EchoProject/AudioAnalyzer.swift:93-134 | a failed open throws AudioFileUnreadable and a failed read throws AudioReadFailed; a decoded signal returns exactly the stability and mean RMS of its chunks, with stability in (0, 1]; a missing format, buffer or channel returns stability 0 and mean 0 |
| Analyzer.Analyze | EchoProject/AudioAnalyzer.swift:9-41 | a returned result has stability and confidence in [0, 1], and its confidence is that of its state |
| Analyzer.AnalyzeOutcomes | EchoProject/AudioAnalyzer.swift:9-41 | the call never resumes without a recognizer or without a final result; it traps on an empty segment list; it throws the recognizer or task error; after a returned speech step it throws the open or read error exactly when the file cannot be opened or read; and it returns exactly when the speech step returns and the audio file opens and reads |
| Analyzer.SpeechFailureSkipsSignal | EchoProject/AudioAnalyzer.swift:11-14 | when the speech step does not return, the outcome does not depend on the audio, because the signal step never runs |
| Analyzer.AnalyzeResult | EchoProject/AudioAnalyzer.swift:9-41 | a returned result carries the transcription verbatim, the speech rate and pause frequency of the final segments, the decoded RMS values' stability (0 when the buffer or channel is missing), the classifier's state for those features, and that state's score |
| Analyzer.MissingBufferIsNeverConfident | EchoProject/AudioAnalyzer.swift:96-103 | a missing format, buffer or channel gives stability 0 rather than an error, so the state is never Confident |
| Analyzer.FewSegmentsAreUnclear | EchoProject/AudioAnalyzer.swift:17-31 | one to four final segments with readable audio always give Unclear with score 0.2 |
| RecordingStorage.WithoutId | EchoProject/RecordingStorage.swift:19 | removing by id keeps exactly the recordings whose id differs, and never lengthens the list |
| RecordingStorage.WithoutIdConcat | EchoProject/RecordingStorage.swift:19 | removal by id distributes over concatenation, so the kept recordings stay in their original order |
| RecordingStorage.WithoutIdLength | EchoProject/RecordingStorage.swift:19 | removal drops exactly as many recordings as carry the id, duplicates included |
| RecordingStorage.WithoutAbsentId | EchoProject/RecordingStorage.swift:19 | deleting an id that is not stored leaves the list unchanged |
| RecordingStorage.WithoutIdIdempotent | EchoProject/RecordingStorage.swift:19 | deleting the same id twice has the effect of deleting it once |
| RecordingStorage.SaveAddsOneOccurrence | EchoProject/RecordingStorage.swift:14 | saving adds one occurrence of the recording's id and does not check for duplicates |
| RecordingStorage.DeleteUndoesSave | EchoProject/RecordingStorage.swift:13-19 | deleting a newly saved recording whose id was not already stored restores the previous list |
| RecordingStorage.Loaded | EchoProject/RecordingStorage.swift:29-36 | loading yields the decoded list, or an empty list when nothing is stored or the data does not decode |
| RecordingStorage.RecordingStorage.constructor | EchoProject/RecordingStorage.swift:9-11 | a new store holds what loading yields |
| RecordingStorage.RecordingStorage.SaveRecording | EchoProject/RecordingStorage.swift:13-16 | the recording is put first and all earlier recordings move up one place |
| RecordingStorage.RecordingStorage.DeleteRecording | EchoProject/RecordingStorage.swift:18-27 | the list becomes the old list without every recording of that id, in the same order and shorter by their number |
| RecordingStorage.RecordingStorage.LoadRecordings | EchoProject/RecordingStorage.swift:29-36 | the list is replaced by what loading yields, with no error surfaced |

`AnalysisModels.CommunicationState` and `AnalysisModels.AudioAnalysisResult`
mirror EchoProject/AudioAnalysisModels.swift:3-17. `RecordingStorage.Recording`
mirrors EchoProject/Recording.swift:3-7.

Helpers that model no source line of their own:

- `SpeechTiming.QuotientMonotone` is a fact about real division that bounds the pause frequency by the speech rate in `Timing`.
- `SignalStats.Times`, `TimesIsProduct`, `QuotientBetween` and `NonNegativeFactor` are arithmetic facts behind `MeanBetween`.
- `SignalStats.Square` and `SquareNonNegative` are arithmetic facts behind the sums of squares.
- `RecordingStorage.Ids`, the list of ids of a recording list, is used to count how often an id occurs.

## Left out

- Speech recognition itself is not modelled. `SpeechEvent` stands for what the recognizer reports.
- `SpeechEvent` covers: no recognizer, recognizer unavailable, task error, no final result, and a final result with its text and segments.
- Recognition results that are not final are ignored by the callback. The model folds them into `NoFinalResult`, meaning the continuation never resumes.
- Audio decoding (`AVAudioFile`, `AVAudioPCMBuffer`) is not modelled. `SignalEvent` stands for its outcome.
- `SignalEvent` covers: the open fails, the format or buffer is unavailable, the read fails, the channel data is missing, or decoding succeeds.
- Float32 and Double rounding are not modelled; all arithmetic is on reals.
- The square root is not modelled. `ChunkMeanSquares` stops at the mean square. `Decoded` carries the per-chunk RMS values as given.
- Analyzer.AnalyzeSignal: a decoded signal of zero frames makes the source divide 0 by 0 (NaN). `WellFormedSignal` excludes it by requiring at least one frame and one RMS value per chunk.
- SignalStats.VolumeStability: states that stability is 1 exactly when the RMS variance is 0. It does not state that stability is 1 exactly when all RMS values are equal. Only the direction from equal values to stability 1 is proved (`IdenticalChunksAreStable`).
- Analyzer.AnalyzeSpeech: for an empty final segment list, line 79 builds the range `0..<-1`, which traps at run time. The model returns `Trapped`. The comment at AudioAnalyzer.swift:72 ("Avoid division by zero") suggests the authors meant this case to be handled, but the code does not handle it.
- SpeechTiming.Duration: reproduces the source's operator precedence. The duration is the last segment's timestamp alone, without its duration (see `LastDurationIgnored`).
- Persistence is a no-op in the model: the UserDefaults key, JSON encoding and the `persistRecordings` write are left out. Loading takes the stored data as a `StoredData` parameter.
- The deletion of the recording's audio file through FileManager is left out. Its errors are ignored by the source and it does not affect `recordings`.
- UUID generation is left out; ids are parameters. Dates are reals.
- Observation of `recordings` by the UI (`@Published`) is left out.
- The recorder, playback and views (VoiceRecorder.swift, PlaybackView.swift, ContentView.swift, ParticleView.swift) are not part of this model.
