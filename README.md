# Audio lab models: peak tracking and Doppler gestures

This project models the per-frame analytics of the two `AudioModel` classes of an iOS audio lab, and proves properties of them in Dafny.

- **Peak tracking** (`peak_tracking.dfy`, module `PeakTracking`). This is the model of `AudioLabSwift/AudioModel.swift`.
  - Every timer tick copies fresh samples and their magnitude spectrum into `timeData` and `fftData`.
  - It then walks the spectrum in windows of `BATCH_SIZE` = 50 bins. The window starts are 0, 50, 100, …, strictly below `count - 1`. Each window ends at `min(start + 49, count - 1)`.
  - It takes each window's argmax as `highest_local_idx`.
  - It folds that magnitude into two running trackers. A new largest value pushes the old first into second. A value between the two replaces second. Anything else changes nothing.
  - The trackers are never reset, so they run across frames.
  - The class `PeakTracking.AudioModel` keeps the source's fields. They are updated in place by `RunEveryInterval`, its strided loop `ScanWindows`, the loop body `ScanWindow` and the three-way update `Track`.
  - Each method is proved against the specification functions:
    - `Insert` (one update);
    - `FoldAll` (a sequence of updates);
    - `Maxima` (the list of window maxima);
    - `WindowMax`.
  - Lemmas about those functions prove the rest:
    - the trackers are the largest and second-largest of everything seen, with multiplicity;
    - frames compose;
    - exactly which bins the windows cover;
    - the first tracker dominates every covered bin.
- **Doppler gestures** (`doppler_gesture.dfy`, module `DopplerGesture`). This is the model of `p2mB/p2mB/AudioModel.swift`.
  - `dominantFrequency` scans the spectrum with a strict `>` against a running maximum that starts at -1000. It returns `index * samplingRate / BUFFER_SIZE` for the bin it settles on, or 0.
  - `analyzeGesture` compares that frequency with the emitted 21 kHz tone. A shift under 10 Hz either way is no gesture. A larger shift up means a hand moving towards the device, and a larger shift down means moving away.
  - `startAndPlay` and `stop` guard on `isPlaying`.
  - What the model asks of the audio manager is recorded in a ghost log `Effects`: set the tone, play, pause. The class invariant says starts and pauses alternate, each start is preceded by its tone, and `isPlaying` holds exactly when there is one more start than pause.

Single-precision `Float` values are modelled as `real`, so rounding is not modelled. The FFT output is an input sequence. The sampling rate is a constructor parameter greater than 0.

In `AudioLabSwift/AudioModel.swift` the trackers are declared `Int` but compared with and assigned `Float` magnitudes. `argmax(by:)` is not defined in the repository. The model follows the evident intent:
- the trackers hold magnitudes (`real`);
- `highest_local_idx` is an index into the whole spectrum of a largest element of the current window, since Swift slices keep their parent's indices.

## Model

| member | source | states |
|---|---|---|
| PeakTracking.Insert | AudioLabSwift/AudioModel.swift:104-110 | After one update, first is at least the old first and the local maximum. First grows exactly when the local maximum exceeds it. If first ≥ second held before, it still holds and second has not decreased. |
| PeakTracking.AudioModel.Track | AudioLabSwift/AudioModel.swift:104-110 | The three-way in-place update of the two tracker fields is exactly `Insert` of the local maximum. |
| PeakTracking.FoldAll | AudioLabSwift/AudioModel.swift:101-111 | Folding the window maxima in order keeps first ≥ second. Neither tracker ever decreases. First ends at least every folded value. |
| PeakTracking.TopTwoOrdered | AudioLabSwift/AudioModel.swift:104-110 | Trackers that are the top two of what was seen are ordered, first ≥ second. |
| PeakTracking.TopTwoUnique | AudioLabSwift/AudioModel.swift:104-110 | The top two of a multiset of magnitudes is unique. So the trackers are determined by the values seen, whatever their order. |
| PeakTracking.InitialTopTwo | AudioLabSwift/AudioModel.swift:33-34 | The initial trackers (0, 0) are the top two of the two initial zeros. |
| PeakTracking.InsertKeepsTopTwo | AudioLabSwift/AudioModel.swift:104-110 | If the trackers are the largest and second-largest (with multiplicity) of the values seen, they still are after one update, with the new local maximum added to those values. |
| PeakTracking.FoldKeepsTopTwo | AudioLabSwift/AudioModel.swift:101-111 | Folding any sequence of local maxima keeps the trackers the top two of everything seen so far. |
| PeakTracking.FoldAppend | AudioLabSwift/AudioModel.swift:85-114 | The trackers are never reset. Processing one frame's maxima and then the next frame's equals folding the two lists one after the other. |
| PeakTracking.WindowEnd | AudioLabSwift/AudioModel.swift:101-102 | The window starting at a stride position ends at `min(start + B - 1, count - 1)`. The window is non-empty, inside the spectrum and at most B bins long. |
| PeakTracking.WindowMax | AudioLabSwift/AudioModel.swift:102 | The maximum of a window is at least every magnitude in it. |
| PeakTracking.MaxAttained | AudioLabSwift/AudioModel.swift:102 | The maximum of a window is the magnitude of one of its bins. |
| PeakTracking.ArgmaxIsMax | AudioLabSwift/AudioModel.swift:102 | The magnitude at any argmax of a window is that window's maximum. |
| PeakTracking.WindowArgmax | AudioLabSwift/AudioModel.swift:102 | Returns an index inside the window whose magnitude is at least every magnitude of the window, i.e. the window maximum. Windows are never empty, so the `??` fallback never applies. |
| PeakTracking.Maxima | AudioLabSwift/AudioModel.swift:101-102 | The list of window maxima the loop folds, one per start 0, B, 2B, … below `count - 1`, in order. It is empty exactly when the start is at or past `count - 1`. |
| PeakTracking.MaximaStep | AudioLabSwift/AudioModel.swift:101-111 | The loop's first window contributes its maximum first. The rest of the fold continues from the next stride position. |
| PeakTracking.NoWindowForShortSpectrum | AudioLabSwift/AudioModel.swift:101 | A spectrum of at most one bin runs no window, and no bin is covered. |
| PeakTracking.MaximaCount | AudioLabSwift/AudioModel.swift:101 | A spectrum of n ≥ 2 bins yields `(n - 2) / B + 1` windows; fewer bins yield none. |
| PeakTracking.StrideIsMultiple | AudioLabSwift/AudioModel.swift:101 | The stride reaches exactly the non-negative multiples of B. |
| PeakTracking.StrideApart | AudioLabSwift/AudioModel.swift:101 | Two different window starts are at least B apart. |
| PeakTracking.CoveredIff | AudioLabSwift/AudioModel.swift:101-102 | A bin lies in some window if and only if it is in the spectrum and is not the last bin at an index that is a multiple of B. |
| PeakTracking.LastBinSkipped | AudioLabSwift/AudioModel.swift:101 | When `(count - 1) % B == 0` the last bin is never visited. |
| PeakTracking.MaximaHas | AudioLabSwift/AudioModel.swift:101-102 | The maximum of every window the loop visits appears in the list of window maxima. |
| PeakTracking.FirstDominatesCovered | AudioLabSwift/AudioModel.swift:101-111 | After a frame, the first tracker is at least the magnitude of every bin that some window covers. |
| PeakTracking.FrameDone | AudioLabSwift/AudioModel.swift:101-111 | Once the stride has run past the last window, the first tracker dominates every covered bin. `highest_local_idx` is then an argmax of the last window, or unchanged when no window ran. |
| PeakTracking.AudioModel.constructor | AudioLabSwift/AudioModel.swift:27-36 | `BATCH_SIZE` is 50. `timeData` holds n zeros and `fftData` holds n/2 zeros. Both trackers and `highest_local_idx` are 0. |
| PeakTracking.AudioModel.RunEveryInterval | AudioLabSwift/AudioModel.swift:85-114 | The buffers hold the new frame. The trackers equal the fold of the frame's window maxima into the old trackers, are non-decreasing, and the first dominates every covered bin. `highest_local_idx` is an argmax of the last window, or unchanged for a spectrum of at most one bin. |
| PeakTracking.AudioModel.ScanWindows | AudioLabSwift/AudioModel.swift:101-111 | The strided loop visits starts 0, B, 2B, … below `count - 1`. It leaves the trackers equal to the fold of all window maxima, and `highest_local_idx` an argmax of the last window visited. |
| PeakTracking.AudioModel.ScanWindow | AudioLabSwift/AudioModel.swift:102-110 | One loop pass: `highest_local_idx` becomes an argmax of the window and the trackers take in its maximum. The fold of the remaining windows is unchanged by the step. |
| DopplerGesture.DominantBin | p2mB/p2mB/AudioModel.swift:170-181 | No bin is chosen exactly when every magnitude is at most -1000, which includes the empty spectrum. Otherwise the chosen bin is above -1000, no bin is larger, and every earlier bin is strictly smaller, so ties go to the earliest bin. |
| DopplerGesture.Level | p2mB/p2mB/AudioModel.swift:171-176 | The running `maxMagnitude` after a prefix of the spectrum: -1000 until a magnitude rises above it, then the magnitude of the bin the scan holds. |
| DopplerGesture.LevelBounds | p2mB/p2mB/AudioModel.swift:171-176 | The running maximum is at least -1000 and at least every magnitude scanned so far. |
| DopplerGesture.BinToHz | p2mB/p2mB/AudioModel.swift:177 | The frequency of bin `index` is `index * samplingRate / BUFFER_SIZE`. |
| DopplerGesture.DominantHz | p2mB/p2mB/AudioModel.swift:170-181 | The result of `dominantFrequency`: the frequency of the dominant bin, or 0 when there is none. |
| DopplerGesture.SilentSpectrumIsZero | p2mB/p2mB/AudioModel.swift:171-180 | A spectrum with no magnitude above -1000, the empty one included, yields 0 Hz. |
| DopplerGesture.DominantBinUnique | p2mB/p2mB/AudioModel.swift:174-179 | At most one bin satisfies that description. |
| DopplerGesture.BinToHzMonotone | p2mB/p2mB/AudioModel.swift:177 | With a positive sampling rate, bin frequencies `index * samplingRate / BUFFER_SIZE` are non-negative and grow with the index. |
| DopplerGesture.DominantHzRange | p2mB/p2mB/AudioModel.swift:174-178 | The dominant frequency lies between 0 and `(count - 1) * samplingRate / BUFFER_SIZE`. |
| DopplerGesture.DominantHzIsMultiple | p2mB/p2mB/AudioModel.swift:174-178 | The dominant frequency is `k * (samplingRate / BUFFER_SIZE)` for a bin index k, or for k = 0. |
| DopplerGesture.AudioModel.DominantFrequency | p2mB/p2mB/AudioModel.swift:170-181 | The scan returns the frequency of the dominant bin, or 0 when no magnitude exceeds -1000. |
| DopplerGesture.Message | p2mB/p2mB/AudioModel.swift:195-199 | The text handed to the delegate for each of the three outcomes. |
| DopplerGesture.Abs | p2mB/p2mB/AudioModel.swift:194 | `abs` is non-negative and equals the difference or its negation. |
| DopplerGesture.Classify | p2mB/p2mB/AudioModel.swift:191-200 | No gesture exactly when the shift from 21000 Hz is strictly between -10 and 10. Towards exactly when it is at least 10. Away exactly when it is at most -10. |
| DopplerGesture.ClassifyMonotone | p2mB/p2mB/AudioModel.swift:191-200 | A higher detected frequency never turns towards into something else, nor away into something else when lowered. |
| DopplerGesture.AudioModel.constructor | p2mB/p2mB/AudioModel.swift:40-51 | `BATCH_SIZE` is 19. `timeData` holds n zeros and `fftData` holds n/2 zeros. All trackers and indices are 0. Nothing is playing and nothing has been asked of the audio manager. |
| DopplerGesture.CountsAppend | p2mB/p2mB/AudioModel.swift:150-163 | Logging one request adds it to the count of starts or of pauses, and to no other count. |
| DopplerGesture.AppendTone | p2mB/p2mB/AudioModel.swift:67-74 | Handing the manager a tone keeps starts and pauses alternating and changes neither count. |
| DopplerGesture.AppendPlay | p2mB/p2mB/AudioModel.swift:150-156 | Starting right after a tone, while paused, keeps the alternation and adds one start. |
| DopplerGesture.AppendPause | p2mB/p2mB/AudioModel.swift:158-163 | Pausing while playing keeps the alternation and adds one pause. |
| DopplerGesture.AudioModel.StartProcessingSinewaveForPlayback | p2mB/p2mB/AudioModel.swift:67-74 | Sets `sineFrequency` and hands the tone to the audio manager, keeping the play/pause alternation invariant. |
| DopplerGesture.AudioModel.StartAndPlay | p2mB/p2mB/AudioModel.swift:150-156 | When not playing, it sets the tone, starts playback and is then playing. When already playing, nothing changes, so repeated calls are no-ops. The play/pause alternation invariant is kept. |
| DopplerGesture.AudioModel.Stop | p2mB/p2mB/AudioModel.swift:158-163 | When playing, it pauses and is then not playing. Otherwise nothing changes. The play/pause alternation invariant is kept. |
| DopplerGesture.AudioModel.StartGestureDetection | p2mB/p2mB/AudioModel.swift:185-187 | Same as `StartAndPlay` with the emitted 21000 Hz tone. |
| DopplerGesture.AudioModel.AnalyzeGesture | p2mB/p2mB/AudioModel.swift:189-204 | `previousFrequencyPeak` becomes the dominant frequency of `fftData` and no other field changes. The text handed to the delegate is the message for that frequency's gesture. |
| DopplerGesture.AudioModel.RunEveryInterval | p2mB/p2mB/AudioModel.swift:100-124 | The buffers hold the new frame, then the gesture is analysed on the new spectrum. |

## Left out

- Audio input and output, the circular buffer and the FFT (Novocaine, `CircularBuffer`, `FFTHelper`). These are foreign calls. The samples and the magnitude spectrum are inputs of `RunEveryInterval`, so the `inputBuffer != nil` guard and the force-unwraps of the audio manager are not modelled.
- The timer (`startMicrophoneProcessing`) and the microphone callback. They are real-time plumbing that runs concurrently with the main loop. Each timer tick is one call of `RunEveryInterval`.
- The RMS and decibel level in the Doppler model. This is floating-point `sqrt`/`log10` with nothing to prove beyond the formula.
- Delegate calls and `updatePeaks`. They only push values to the UI. The gesture text handed to the delegate is the result of `AnalyzeGesture`.
- `play()` and the audio manager's own state. The manager is assumed to be present. The tone, start and pause requests made by `startProcessingSinewaveForPlayback`, `startAndPlay` and `stop` are the ghost log `Effects`. The public `play()` asks the manager to play directly and bypasses `isPlaying`, so the invariant `isPlaying <==> Plays == Pauses + 1` covers only those three methods, not direct calls of `play()`. The default argument 330 Hz of `startAndPlay` is just a call with `f = 330`.
- Rounding of `Float` arithmetic. Magnitudes and frequencies are exact reals.
- PeakTracking.WindowArgmax: the source's `argmax(by:)` is not defined in the repository, so its tie-break is unknown. The contract allows any largest element of the window; the method returns the first.
- DopplerGesture.AudioModel.DominantFrequency: with `BUFFER_SIZE` 0 and a magnitude above -1000, the source divides by zero and yields an infinity or NaN. The model requires `bufferSize > 0` or no magnitude above -1000. The call from `AnalyzeGesture` always meets this, since `fftData` is empty when the buffer size is 0.
- A negative buffer size makes the source's array initialisers trap. Both constructors require a size of at least 0.
- The unused Doppler fields `first_highest_vol`, `second_highest_vol`, `highest_local_idx`, `highest_global_idx` and `second_highest_global_idx` are only initialised.
- The view controllers and table view controllers. They are presentation code only.
