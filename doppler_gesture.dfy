/**
 * The Doppler gesture model: every frame, the dominant bin of the magnitude
 * spectrum is converted to a frequency in Hz and compared with the emitted
 * 21 kHz tone; a shift of 10 Hz or more either way is read as a hand moving
 * towards or away from the device. The tone itself is started and stopped
 * through a small play/pause state machine.
 *
 * The audio manager is not modelled; what the model asks of it (set the sine
 * frequency, play, pause) is recorded in a ghost log of effects.
 */
module DopplerGesture {

  datatype Option<T> = None | Some(value: T)

  /** The initial value of `maxMagnitude`: only magnitudes above it can be dominant. */
  const Floor: real := -1000.0

  /** The ultrasonic tone emitted for Doppler detection, in Hz. */
  const EmittedFrequency: real := 21000.0

  /** Shifts strictly below this many Hz (either way) are not a gesture. */
  const Tolerance: real := 10.0

  /**
   * Bin `i` is the one the scan settles on: its magnitude is above the floor,
   * no bin is larger, and every earlier bin is strictly smaller (the scan
   * only moves on a strict `>`, so ties go to the earliest bin).
   */
  ghost predicate IsDominantBin(a: seq<real>, i: int)
  {
    0 <= i < |a| && a[i] > Floor &&
    (forall j | 0 <= j < |a| :: a[j] <= a[i]) &&
    (forall j | 0 <= j < i :: a[j] < a[i])
  }

  /**
   * The bin the scan of `a` settles on, or `None` when no magnitude rises
   * above the floor (which includes the empty spectrum).
   */
  function DominantBin(a: seq<real>): (r: Option<nat>)
    ensures r.None? <==> forall j | 0 <= j < |a| :: a[j] <= Floor
    ensures r.Some? ==> IsDominantBin(a, r.value)
    decreases |a|
  {
    if |a| == 0 then None
    else
      var p := DominantBin(a[..|a| - 1]);
      var last := |a| - 1;
      if p.None? then (if a[last] > Floor then Some(last) else None)
      else if a[last] > a[p.value] then Some(last)
      else p
  }

  /** No two bins can both be the dominant one. */
  lemma DominantBinUnique(a: seq<real>, i: int, j: int)
    requires IsDominantBin(a, i) && IsDominantBin(a, j)
    ensures i == j
  {
  }

  /** The running `maxMagnitude` of the scan after the bins of `a`. */
  ghost function Level(a: seq<real>): real
  {
    match DominantBin(a)
    case None => Floor
    case Some(i) => a[i]
  }

  /** The running maximum is at least the floor and at least every magnitude scanned. */
  lemma LevelBounds(a: seq<real>)
    ensures Level(a) >= Floor
    ensures forall j | 0 <= j < |a| :: a[j] <= Level(a)
  {
  }

  /** The frequency of bin `i`: `i * samplingRate / BUFFER_SIZE`. */
  function BinToHz(i: nat, rate: real, n: int): real
    requires n > 0
  {
    (i as real) * rate / (n as real)
  }

  /** The frequency of the dominant bin, or 0 when there is none. */
  function DominantHz(a: seq<real>, rate: real, n: int): (r: real)
    requires n > 0 || forall j | 0 <= j < |a| :: a[j] <= Floor
  {
    match DominantBin(a)
    case None => 0.0
    case Some(i) => BinToHz(i, rate, n)
  }

  /** A spectrum with no magnitude above the floor, the empty one included, yields 0 Hz. */
  lemma SilentSpectrumIsZero(a: seq<real>, rate: real, n: int)
    requires forall j | 0 <= j < |a| :: a[j] <= Floor
    ensures DominantHz(a, rate, n) == 0.0
  {
  }

  /** A later bin has a higher frequency. */
  lemma BinToHzMonotone(i: nat, j: nat, rate: real, n: int)
    requires i <= j && rate > 0.0 && n > 0
    ensures 0.0 <= BinToHz(i, rate, n) <= BinToHz(j, rate, n)
  {
    var d := n as real;
    var x, y := (i as real) * rate, (j as real) * rate;
    assert 0.0 <= x <= y by {
      assert y - x == ((j - i) as real) * rate;
    }
    assert y / d - x / d == (y - x) / d;
  }

  /** The dominant frequency lies between 0 and the frequency of the last bin. */
  lemma DominantHzRange(a: seq<real>, rate: real, n: int)
    requires rate > 0.0 && n > 0
    ensures 0.0 <= DominantHz(a, rate, n)
    ensures |a| > 0 ==> DominantHz(a, rate, n) <= BinToHz(|a| - 1, rate, n)
  {
    match DominantBin(a)
    case None =>
    case Some(i) =>
      BinToHzMonotone(i, |a| - 1, rate, n);
  }

  /** The dominant frequency is a whole number of bin widths `samplingRate / BUFFER_SIZE`. */
  lemma DominantHzIsMultiple(a: seq<real>, rate: real, n: int) returns (k: nat)
    requires n > 0
    ensures k == 0 || k < |a|
    ensures DominantHz(a, rate, n) == (k as real) * (rate / (n as real))
  {
    match DominantBin(a)
    case None =>
      k := 0;
    case Some(i) =>
      k := i;
  }

  /** The three outcomes of the gesture rule. */
  datatype Gesture = NoGesture | Towards | Away

  /** The text sent to the delegate for each outcome. */
  function Message(g: Gesture): string
  {
    match g
    case NoGesture => "No significant gesture detected."
    case Towards => "Gesture moving towards the device."
    case Away => "Gesture moving away from the device."
  }

  /** Swift's `abs` on a frequency difference. */
  function Abs(x: real): (r: real)
    ensures r >= 0.0 && (r == x || r == -x)
  {
    if x < 0.0 then -x else x
  }

  /**
   * The gesture for a detected frequency: exactly one of a shift of less than
   * 10 Hz either way, a shift up of at least 10 Hz, or a shift down of at
   * least 10 Hz.
   */
  function Classify(detected: real): (g: Gesture)
    ensures g == NoGesture <==> -Tolerance < detected - EmittedFrequency < Tolerance
    ensures g == Towards <==> detected - EmittedFrequency >= Tolerance
    ensures g == Away <==> detected - EmittedFrequency <= -Tolerance
  {
    var diff := detected - EmittedFrequency;
    if Abs(diff) < Tolerance then NoGesture
    else if diff > 0.0 then Towards
    else Away
  }

  /** A larger detected frequency never reads as a gesture further away. */
  lemma ClassifyMonotone(d1: real, d2: real)
    requires d1 <= d2
    ensures Classify(d1) == Towards ==> Classify(d2) == Towards
    ensures Classify(d2) == Away ==> Classify(d1) == Away
  {
    assert d1 - EmittedFrequency <= d2 - EmittedFrequency;
  }

  /** What the model asks of the audio manager. */
  datatype Effect = Tone(frequency: real) | Play | Pause

  /** How many times playback was started in `log`. */
  ghost function Plays(log: seq<Effect>): nat
  {
    if log == [] then 0 else Plays(log[..|log| - 1]) + (if log[|log| - 1] == Play then 1 else 0)
  }

  /** How many times playback was paused in `log`. */
  ghost function Pauses(log: seq<Effect>): nat
  {
    if log == [] then 0 else Pauses(log[..|log| - 1]) + (if log[|log| - 1] == Pause then 1 else 0)
  }

  /**
   * Starts and pauses alternate, beginning with a start, and every start is
   * immediately preceded by the tone it plays.
   */
  ghost predicate WellOrdered(log: seq<Effect>)
  {
    Pauses(log) <= Plays(log) <= Pauses(log) + 1 &&
    forall k | 0 <= k < |log| && log[k] == Play :: k > 0 && log[k - 1].Tone?
  }

  /** Appending one effect adds it to the matching count and to no other. */
  lemma CountsAppend(log: seq<Effect>, e: Effect)
    ensures Plays(log + [e]) == Plays(log) + (if e == Play then 1 else 0)
    ensures Pauses(log + [e]) == Pauses(log) + (if e == Pause then 1 else 0)
  {
    assert (log + [e])[..|log|] == log;
  }

  /** Handing the manager a tone keeps the log well ordered and starts nothing. */
  lemma AppendTone(log: seq<Effect>, f: real)
    requires WellOrdered(log)
    ensures WellOrdered(log + [Tone(f)])
    ensures Plays(log + [Tone(f)]) == Plays(log) && Pauses(log + [Tone(f)]) == Pauses(log)
  {
    CountsAppend(log, Tone(f));
    var log' := log + [Tone(f)];
    forall k | 0 <= k < |log'| && log'[k] == Play
      ensures k > 0 && log'[k - 1].Tone?
    {
      assert k < |log| && log[k] == Play;
    }
  }

  /** Starting playback right after a tone, while paused, keeps the log well ordered. */
  lemma AppendPlay(log: seq<Effect>)
    requires WellOrdered(log) && Plays(log) == Pauses(log)
    requires |log| > 0 && log[|log| - 1].Tone?
    ensures WellOrdered(log + [Play])
    ensures Plays(log + [Play]) == Plays(log) + 1 && Pauses(log + [Play]) == Pauses(log)
  {
    CountsAppend(log, Play);
    var log' := log + [Play];
    forall k | 0 <= k < |log'| && log'[k] == Play
      ensures k > 0 && log'[k - 1].Tone?
    {
      if k < |log| {
        assert log[k] == Play;
      }
    }
  }

  /** Pausing while playing keeps the log well ordered. */
  lemma AppendPause(log: seq<Effect>)
    requires WellOrdered(log) && Plays(log) == Pauses(log) + 1
    ensures WellOrdered(log + [Pause])
    ensures Plays(log + [Pause]) == Plays(log) && Pauses(log + [Pause]) == Pauses(log) + 1
  {
    CountsAppend(log, Pause);
    var log' := log + [Pause];
    forall k | 0 <= k < |log'| && log'[k] == Play
      ensures k > 0 && log'[k - 1].Tone?
    {
      assert k < |log| && log[k] == Play;
    }
  }

  /** The Doppler audio model: buffers, the playback flag and the last detected frequency. */
  class AudioModel {
    var bufferSize: int
    var batchSize: int
    var firstHighestVol: real
    var secondHighestVol: real
    var highestLocalIdx: int
    var highestGlobalIdx: int
    var secondHighestGlobalIdx: int
    var timeData: seq<real>
    var fftData: seq<real>
    /** The audio manager's sampling rate. */
    const samplingRate: real
    var sineFrequency: real
    var isPlaying: bool
    var previousFrequencyPeak: real

    /**
     * What `startProcessingSinewaveForPlayback`, `startAndPlay` and `stop`
     * have asked of the audio manager so far, in order.
     */
    ghost var Effects: seq<Effect>

    ghost predicate Valid()
      reads this
    {
      bufferSize >= 0 && samplingRate > 0.0 &&
      |timeData| == bufferSize && |fftData| == bufferSize / 2 &&
      WellOrdered(Effects) &&
      (isPlaying <==> Plays(Effects) == Pauses(Effects) + 1)
    }

    /** `init(buffer_size:)`: zeroed buffers, every tracker at 0, not playing. */
    constructor (size: int, rate: real)
      requires size >= 0 && rate > 0.0
      ensures Valid()
      ensures bufferSize == size && batchSize == 19 && samplingRate == rate
      ensures timeData == seq(size, _ => 0.0) && fftData == seq(size / 2, _ => 0.0)
      ensures firstHighestVol == 0.0 && secondHighestVol == 0.0
      ensures highestLocalIdx == 0 && highestGlobalIdx == 0 && secondHighestGlobalIdx == 0
      ensures sineFrequency == 0.0 && !isPlaying && previousFrequencyPeak == 0.0
      ensures Effects == []
    {
      bufferSize := size;
      batchSize := 19;
      timeData := seq(size, _ => 0.0);
      fftData := seq(size / 2, _ => 0.0);
      firstHighestVol := 0.0;
      secondHighestVol := 0.0;
      highestLocalIdx := 0;
      highestGlobalIdx := 0;
      secondHighestGlobalIdx := 0;
      samplingRate := rate;
      sineFrequency := 0.0;
      isPlaying := false;
      previousFrequencyPeak := 0.0;
      Effects := [];
    }

    /** Sets the sine frequency and hands it to the audio manager. */
    method StartProcessingSinewaveForPlayback(f: real)
      requires Valid()
      modifies this`sineFrequency, this`Effects
      ensures Valid()
      ensures sineFrequency == f && Effects == old(Effects) + [Tone(f)]
    {
      AppendTone(Effects, f);
      sineFrequency := f;
      Effects := Effects + [Tone(f)];
    }

    /**
     * Starts the tone at `f` unless it is already playing; a second call
     * while playing changes nothing.
     */
    method StartAndPlay(f: real)
      requires Valid()
      modifies this`sineFrequency, this`isPlaying, this`Effects
      ensures Valid() && isPlaying
      ensures old(isPlaying) ==> sineFrequency == old(sineFrequency) && Effects == old(Effects)
      ensures !old(isPlaying) ==> sineFrequency == f && Effects == old(Effects) + [Tone(f), Play]
    {
      if !isPlaying {
        ghost var log := Effects;
        StartProcessingSinewaveForPlayback(f);
        AppendPlay(Effects);
        Effects := Effects + [Play];
        isPlaying := true;
        assert Effects == log + [Tone(f), Play];
      }
    }

    /** Pauses the tone if it is playing; otherwise nothing changes. */
    method Stop()
      requires Valid()
      modifies this`isPlaying, this`Effects
      ensures Valid() && !isPlaying
      ensures old(isPlaying) ==> Effects == old(Effects) + [Pause]
      ensures !old(isPlaying) ==> Effects == old(Effects)
    {
      if isPlaying {
        AppendPause(Effects);
        Effects := Effects + [Pause];
        isPlaying := false;
      }
    }

    /** Starts the emitted ultrasonic tone. */
    method StartGestureDetection()
      requires Valid()
      modifies this`sineFrequency, this`isPlaying, this`Effects
      ensures Valid() && isPlaying
      ensures old(isPlaying) ==> sineFrequency == old(sineFrequency) && Effects == old(Effects)
      ensures !old(isPlaying) ==>
                sineFrequency == EmittedFrequency && Effects == old(Effects) + [Tone(EmittedFrequency), Play]
    {
      StartAndPlay(EmittedFrequency);
    }

    /**
     * The frequency of the loudest bin of `fft` above the floor, or 0 when
     * there is none; on a tie the earliest bin wins.
     */
    method DominantFrequency(fft: seq<real>) returns (f: real)
      requires bufferSize > 0 || forall j | 0 <= j < |fft| :: fft[j] <= Floor
      ensures f == DominantHz(fft, samplingRate, bufferSize)
    {
      var maxMagnitude := Floor;
      f := 0.0;
      var i := 0;
      while i < |fft|
        invariant 0 <= i <= |fft|
        invariant maxMagnitude == Level(fft[..i])
        invariant f == DominantHz(fft[..i], samplingRate, bufferSize)
      {
        assert fft[..i + 1][..i] == fft[..i];
        if fft[i] > maxMagnitude {
          maxMagnitude := fft[i];
          f := (i as real) * samplingRate / (bufferSize as real);
        }
        i := i + 1;
      }
      assert fft[..|fft|] == fft;
    }

    /**
     * Classifies the current spectrum's dominant frequency against the
     * emitted tone, remembers it as the previous peak, and returns the text
     * sent to the delegate.
     */
    method AnalyzeGesture() returns (direction: string)
      requires Valid()
      modifies this`previousFrequencyPeak
      ensures Valid()
      ensures previousFrequencyPeak == DominantHz(fftData, samplingRate, bufferSize)
      ensures direction == Message(Classify(previousFrequencyPeak))
    {
      var detected := DominantFrequency(fftData);
      var difference := detected - EmittedFrequency;
      var gesture: Gesture;
      if Abs(difference) < Tolerance {
        gesture := NoGesture;
      } else if difference > 0.0 {
        gesture := Towards;
      } else {
        gesture := Away;
      }
      direction := Message(gesture);
      previousFrequencyPeak := detected;
    }

    /**
     * One timer tick: the fresh samples and their magnitude spectrum land in
     * the buffers, then the gesture is analysed.
     */
    method RunEveryInterval(samples: seq<real>, spectrum: seq<real>) returns (direction: string)
      requires Valid()
      requires |samples| == bufferSize && |spectrum| == |fftData|
      modifies this`timeData, this`fftData, this`previousFrequencyPeak
      ensures Valid()
      ensures timeData == samples && fftData == spectrum
      ensures previousFrequencyPeak == DominantHz(spectrum, samplingRate, bufferSize)
      ensures direction == Message(Classify(previousFrequencyPeak))
    {
      timeData := samples;
      fftData := spectrum;
      direction := AnalyzeGesture();
    }
  }
}
