/**
 * The spectral-peak tracker of the audio lab model: every frame, the
 * magnitude spectrum is walked in fixed windows of BATCH_SIZE bins, each
 * window's largest magnitude is found, and that local maximum is folded into
 * two running trackers that hold the largest and second-largest magnitudes
 * seen so far.
 *
 * The trackers are declared `Int` in the source but are compared with and
 * assigned `Float` magnitudes; they are modelled as the magnitudes they are
 * evidently meant to hold (`real`).
 */
module PeakTracking {

  /** Number of spectrum bins per window. */
  const BatchSize: int := 50

  /** The pair of trackers: the largest and the second-largest magnitude. */
  datatype TopTwo = TopTwo(first: real, second: real)

  /**
   * `t` is the top two of the multiset `m`: `first` is a largest element of
   * `m`, and `second` is a largest element of what remains once one
   * occurrence of `first` is taken out.
   */
  ghost predicate IsTopTwo(t: TopTwo, m: multiset<real>)
  {
    t.first in m &&
    t.second in m - multiset{t.first} &&
    (forall y | y in m :: y <= t.first) &&
    (forall y | y in m - multiset{t.first} :: y <= t.second)
  }

  /**
   * One tracker update with a window's local maximum `x`: a new largest value
   * pushes the old first into second; a value between the two replaces
   * second; anything else leaves the trackers alone.
   */
  function Insert(t: TopTwo, x: real): (r: TopTwo)
    ensures r.first >= t.first && r.first >= x
    ensures t.first >= t.second ==> r.first >= r.second && r.second >= t.second
    ensures r.first == t.first || r.first == x
    ensures r.first > t.first <==> x > t.first
  {
    if x > t.first then TopTwo(x, t.first)
    else if x > t.second then TopTwo(t.first, x)
    else t
  }

  /** Folds a sequence of local maxima into the trackers, in order. */
  function FoldAll(t: TopTwo, xs: seq<real>): (r: TopTwo)
    requires t.first >= t.second
    ensures r.first >= r.second
    ensures r.first >= t.first && r.second >= t.second
    ensures forall k | 0 <= k < |xs| :: xs[k] <= r.first
    decreases |xs|
  {
    if xs == [] then t else FoldAll(Insert(t, xs[0]), xs[1..])
  }

  /** The top-two description forces the order first >= second. */
  lemma TopTwoOrdered(t: TopTwo, m: multiset<real>)
    requires IsTopTwo(t, m)
    ensures t.first >= t.second
  {
    assert t.second in m;
  }

  /** Two pairs that are both the top two of the same multiset are equal. */
  lemma TopTwoUnique(t: TopTwo, u: TopTwo, m: multiset<real>)
    requires IsTopTwo(t, m) && IsTopTwo(u, m)
    ensures t == u
  {
    assert t.first <= u.first && u.first <= t.first;
  }

  /** The initial trackers (both zero) are the top two of two zeros. */
  lemma InitialTopTwo()
    ensures IsTopTwo(TopTwo(0.0, 0.0), multiset{0.0, 0.0})
  {
    var m := multiset{0.0, 0.0};
    assert m - multiset{0.0} == multiset{0.0};
  }

  /** One update keeps the trackers the top two of everything seen. */
  lemma InsertKeepsTopTwo(t: TopTwo, m: multiset<real>, x: real)
    requires IsTopTwo(t, m)
    ensures IsTopTwo(Insert(t, x), m + multiset{x})
  {
    var m' := m + multiset{x};
    if x > t.first {
      assert m' - multiset{x} == m;
    } else if x > t.second {
      assert m' - multiset{t.first} == (m - multiset{t.first}) + multiset{x};
    } else {
      assert m' - multiset{t.first} == (m - multiset{t.first}) + multiset{x};
    }
  }

  /** Folding a whole sequence keeps the trackers the top two of everything seen. */
  lemma {:induction false} FoldKeepsTopTwo(t: TopTwo, m: multiset<real>, xs: seq<real>)
    requires IsTopTwo(t, m)
    ensures t.first >= t.second
    ensures IsTopTwo(FoldAll(t, xs), m + multiset(xs))
    decreases |xs|
  {
    TopTwoOrdered(t, m);
    if xs == [] {
      assert m + multiset(xs) == m;
    } else {
      var x, rest := xs[0], xs[1..];
      var t1, m1 := Insert(t, x), m + multiset{x};
      InsertKeepsTopTwo(t, m, x);
      FoldKeepsTopTwo(t1, m1, rest);
      assert xs == [x] + rest;
      assert m1 + multiset(rest) == m + multiset(xs);
      assert FoldAll(t, xs) == FoldAll(t1, rest);
    }
  }

  /**
   * Frames compose: processing the maxima of one frame and then those of the
   * next is the same as folding both lists in order, since the trackers are
   * never reset between frames.
   */
  lemma {:induction false} FoldAppend(t: TopTwo, xs: seq<real>, ys: seq<real>)
    requires t.first >= t.second
    ensures FoldAll(t, xs + ys) == FoldAll(FoldAll(t, xs), ys)
    decreases |xs|
  {
    if xs == [] {
      assert xs + ys == ys;
    } else {
      var t1 := Insert(t, xs[0]);
      assert (xs + ys)[0] == xs[0];
      assert (xs + ys)[1..] == xs[1..] + ys;
      FoldAppend(t1, xs[1..], ys);
      assert FoldAll(t, xs + ys) == FoldAll(t1, xs[1..] + ys);
      assert FoldAll(t, xs) == FoldAll(t1, xs[1..]);
    }
  }

  /** The last index of the window that starts at `s` in a spectrum of `n` bins. */
  function WindowEnd(n: int, b: int, s: int): (r: int)
    requires b > 0 && 0 <= s < n - 1
    ensures s < r + 1 <= n && r - s < b
    ensures r == n - 1 || r - s == b - 1
  {
    if s + b - 1 < n - 1 then s + b - 1 else n - 1
  }

  /** `s` is one of 0, b, 2b, ...: a value the stride reaches from 0 in steps of `b`. */
  ghost predicate OnStride(b: int, s: int)
    decreases if s < 0 then 0 else s
  {
    s == 0 || (b > 0 && s >= b && OnStride(b, s - b))
  }

  /** The stride visits `s`, a start strictly below `n - 1`. */
  ghost predicate IsWindowStart(n: int, b: int, s: int)
  {
    b > 0 && 0 <= s < n - 1 && OnStride(b, s)
  }

  /** Bin `i` lies in some window of a spectrum of `n` bins. */
  ghost predicate Covered(n: int, b: int, i: int)
  {
    exists s :: IsWindowStart(n, b, s) && s <= i <= WindowEnd(n, b, s)
  }

  /** `k` is an index of a largest element of `a[lo..hi]` (both ends included). */
  ghost predicate IsWindowArgmax(a: seq<real>, lo: int, hi: int, k: int)
  {
    0 <= lo <= k <= hi < |a| && forall j | lo <= j <= hi :: a[j] <= a[k]
  }

  /** The largest magnitude of `a[lo..hi]`, both ends included. */
  function WindowMax(a: seq<real>, lo: int, hi: int): (r: real)
    requires 0 <= lo <= hi < |a|
    ensures forall j | lo <= j <= hi :: a[j] <= r
    decreases hi - lo
  {
    if lo == hi then a[lo]
    else
      var rest := WindowMax(a, lo + 1, hi);
      if a[lo] > rest then a[lo] else rest
  }

  /** The magnitude at an argmax of a window is that window's maximum. */
  lemma {:induction false} ArgmaxIsMax(a: seq<real>, lo: int, hi: int, k: int)
    requires IsWindowArgmax(a, lo, hi, k)
    ensures a[k] == WindowMax(a, lo, hi)
    decreases hi - lo
  {
    if lo < hi {
      if k == lo {
        var j := MaxAttained(a, lo + 1, hi);
      } else {
        ArgmaxIsMax(a, lo + 1, hi, k);
      }
    }
  }

  /** The maximum of a window is the magnitude of one of its bins. */
  lemma {:induction false} MaxAttained(a: seq<real>, lo: int, hi: int) returns (j: int)
    requires 0 <= lo <= hi < |a|
    ensures lo <= j <= hi && a[j] == WindowMax(a, lo, hi)
    decreases hi - lo
  {
    if lo == hi {
      j := lo;
    } else if a[lo] > WindowMax(a, lo + 1, hi) {
      j := lo;
    } else {
      j := MaxAttained(a, lo + 1, hi);
    }
  }

  /**
   * The local maxima of the windows starting at `s`, `s + b`, `s + 2b`, ...,
   * as long as the start is strictly below `|a| - 1`.
   */
  function Maxima(a: seq<real>, b: int, s: int): (r: seq<real>)
    requires b > 0 && s >= 0
    ensures r == [] <==> s >= |a| - 1
    decreases |a| - s
  {
    if s < |a| - 1 then [WindowMax(a, s, WindowEnd(|a|, b, s))] + Maxima(a, b, s + b)
    else []
  }

  /** Peels the window at `s` off the front of the list of local maxima. */
  lemma MaximaStep(a: seq<real>, b: int, s: int, t: TopTwo)
    requires b > 0 && 0 <= s < |a| - 1 && t.first >= t.second
    ensures var x := WindowMax(a, s, WindowEnd(|a|, b, s));
            FoldAll(t, Maxima(a, b, s)) == FoldAll(Insert(t, x), Maxima(a, b, s + b)) &&
            multiset(Maxima(a, b, s)) == multiset{x} + multiset(Maxima(a, b, s + b))
  {
    var x := WindowMax(a, s, WindowEnd(|a|, b, s));
    var xs := Maxima(a, b, s);
    assert xs == [x] + Maxima(a, b, s + b);
    assert xs[0] == x && xs[1..] == Maxima(a, b, s + b);
  }

  /** A spectrum of at most one bin yields no window at all. */
  lemma NoWindowForShortSpectrum(a: seq<real>, b: int)
    requires b > 0 && |a| <= 1
    ensures Maxima(a, b, 0) == []
    ensures forall i :: !Covered(|a|, b, i)
  {
  }

  /** One window per stride: the number of local maxima is `(n - 2) / b + 1` for `n >= 2` bins. */
  lemma {:induction false} MaximaCount(a: seq<real>, b: int, s: int)
    requires b > 0 && 0 <= s
    ensures s < |a| - 1 ==> |Maxima(a, b, s)| == (|a| - 2 - s) / b + 1
    ensures s >= |a| - 1 ==> |Maxima(a, b, s)| == 0
    decreases |a| - s
  {
    if s < |a| - 1 {
      MaximaCount(a, b, s + b);
      var d := |a| - 2 - s;
      if s + b < |a| - 1 {
        DivStep(d, b);
        assert |a| - 2 - (s + b) == d - b;
      } else {
        DivUnique(d, b, 0, d);
      }
    }
  }

  lemma MulAtLeast(k: int, b: int)
    requires k >= 1 && b > 0
    ensures k * b >= b
  {
    assert k * b == (k - 1) * b + b;
  }

  /** Euclidean division is determined by any quotient and remainder in range. */
  lemma DivUnique(x: int, b: int, q: int, r: int)
    requires b > 0 && 0 <= r < b && x == q * b + r
    ensures x / b == q && x % b == r
  {
    var q0, r0 := x / b, x % b;
    assert x == q0 * b + r0;
    assert (q - q0) * b == r0 - r;
    if q > q0 {
      MulAtLeast(q - q0, b);
    } else if q < q0 {
      MulAtLeast(q0 - q, b);
    }
  }

  lemma DivStep(x: int, b: int)
    requires b > 0 && x >= b
    ensures x / b == (x - b) / b + 1
  {
    var q, r := (x - b) / b, (x - b) % b;
    assert x - b == q * b + r;
    assert x == (q + 1) * b + r;
    DivUnique(x, b, q + 1, r);
  }

  lemma ModOfMultiplePlus(s: int, d: int, b: int)
    requires b > 0 && s >= 0 && s % b == 0 && 0 <= d < b
    ensures (s + d) % b == d
  {
    var q := s / b;
    assert s == q * b + 0;
    assert s + d == q * b + d;
    DivUnique(s + d, b, q, d);
  }

  lemma RoundDownIsMultiple(i: int, b: int)
    requires b > 0 && i >= 0
    ensures (i - i % b) % b == 0 && 0 <= i - i % b <= i && i - (i - i % b) < b
  {
    var q := i / b;
    assert i == q * b + i % b;
    assert i - i % b == q * b + 0;
    DivUnique(i - i % b, b, q, 0);
  }

  /**
   * Exactly which bins the windows cover: every bin of the spectrum except
   * the last one when `(n - 1)` is a multiple of the batch size (in
   * particular, nothing when `n <= 1`).
   */
  lemma CoveredIff(n: int, b: int, i: int)
    requires b > 0
    ensures Covered(n, b, i) <==> 0 <= i < n && !(i == n - 1 && (n - 1) % b == 0)
  {
    if Covered(n, b, i) {
      var s :| IsWindowStart(n, b, s) && s <= i <= WindowEnd(n, b, s);
      StrideIsMultiple(b, s);
      if i == n - 1 && (n - 1) % b == 0 {
        ModOfMultiplePlus(s, i - s, b);
        assert false;
      }
    }
    if 0 <= i < n && !(i == n - 1 && (n - 1) % b == 0) {
      RoundDownIsMultiple(i, b);
      var s := i - i % b;
      StrideIsMultiple(b, s);
      assert IsWindowStart(n, b, s) && s <= i <= WindowEnd(n, b, s);
    }
  }

  /** The last bin is never visited when `(n - 1)` is a multiple of the batch size. */
  lemma LastBinSkipped(n: int, b: int)
    requires b > 0 && (n - 1) % b == 0
    ensures !Covered(n, b, n - 1)
  {
    CoveredIff(n, b, n - 1);
  }

  /** The stride reaches exactly the non-negative multiples of `b`. */
  lemma {:induction false} StrideIsMultiple(b: int, s: int)
    requires b > 0
    ensures OnStride(b, s) <==> s >= 0 && s % b == 0
    decreases if s < 0 then 0 else s
  {
    if s == 0 {
      DivUnique(0, b, 0, 0);
    } else if 0 < s < b {
      DivUnique(s, b, 0, s);
    } else if s >= b {
      StrideIsMultiple(b, s - b);
      var q, r := (s - b) / b, (s - b) % b;
      assert s - b == q * b + r;
      assert s == (q + 1) * b + r;
      DivUnique(s, b, q + 1, r);
    }
  }

  /** Two distinct starts on the stride are at least `b` apart. */
  lemma {:induction false} StrideApart(b: int, s: int, w: int)
    requires b > 0 && 0 <= s < w && OnStride(b, s) && OnStride(b, w)
    ensures s + b <= w
    decreases s
  {
    if s > 0 {
      StrideApart(b, s - b, w - b);
    }
  }

  /**
   * The maximum of the window that starts at `w` appears in the list of local
   * maxima from stride `s <= w` on, at position `k`.
   */
  lemma {:induction false} MaximaHas(a: seq<real>, b: int, s: int, w: int) returns (k: int)
    requires b > 0 && 0 <= s <= w && OnStride(b, s) && IsWindowStart(|a|, b, w)
    ensures 0 <= k < |Maxima(a, b, s)|
    ensures Maxima(a, b, s)[k] == WindowMax(a, w, WindowEnd(|a|, b, w))
    decreases w - s
  {
    var xs := Maxima(a, b, s);
    assert xs == [WindowMax(a, s, WindowEnd(|a|, b, s))] + Maxima(a, b, s + b);
    if s == w {
      k := 0;
    } else {
      StrideApart(b, s, w);
      assert OnStride(b, s + b) by { assert s + b - b == s; }
      var k1 := MaximaHas(a, b, s + b, w);
      k := k1 + 1;
    }
  }

  /**
   * After a frame, the first tracker is at least every magnitude of every bin
   * that some window covers.
   */
  lemma FirstDominatesCovered(t: TopTwo, a: seq<real>, b: int, i: int)
    requires t.first >= t.second && b > 0 && Covered(|a|, b, i)
    ensures a[i] <= FoldAll(t, Maxima(a, b, 0)).first
  {
    var w :| IsWindowStart(|a|, b, w) && w <= i <= WindowEnd(|a|, b, w);
    var k := MaximaHas(a, b, 0, w);
    assert a[i] <= Maxima(a, b, 0)[k];
  }

  /**
   * The index of a largest element of the window `a[lo..hi]`: the slice's
   * `argmax(by: <)`. Windows are never empty, so its `??` fallback never
   * applies.
   */
  method WindowArgmax(a: seq<real>, lo: int, hi: int) returns (k: int)
    requires 0 <= lo <= hi < |a|
    ensures IsWindowArgmax(a, lo, hi, k)
    ensures a[k] == WindowMax(a, lo, hi)
  {
    k := lo;
    var j := lo + 1;
    while j <= hi
      invariant lo < j <= hi + 1 && lo <= k < j
      invariant forall m | lo <= m < j :: a[m] <= a[k]
    {
      if a[j] > a[k] {
        k := j;
      }
      j := j + 1;
    }
    ArgmaxIsMax(a, lo, hi, k);
  }

  /** What a frame establishes once the stride has run past the last window. */
  lemma FrameDone(a: seq<real>, b: int, s: int, t0: TopTwo, idx: int, idx0: int)
    requires b > 0 && 0 <= s && s >= |a| - 1 && t0.first >= t0.second
    requires s == 0 ==> idx == idx0
    requires s > 0 ==> IsWindowStart(|a|, b, s - b) && IsWindowArgmax(a, s - b, WindowEnd(|a|, b, s - b), idx)
    ensures forall i | Covered(|a|, b, i) :: a[i] <= FoldAll(t0, Maxima(a, b, 0)).first
    ensures |a| <= 1 ==> idx == idx0
    ensures |a| > 1 ==>
              exists w :: IsWindowStart(|a|, b, w) && |a| - 1 <= w + b &&
                          IsWindowArgmax(a, w, WindowEnd(|a|, b, w), idx)
  {
    forall i | Covered(|a|, b, i)
      ensures a[i] <= FoldAll(t0, Maxima(a, b, 0)).first
    {
      FirstDominatesCovered(t0, a, b, i);
    }
    if |a| > 1 {
      assert IsWindowStart(|a|, b, s - b);
    }
  }

  /** The audio lab model: the analysis buffers and the two peak trackers. */
  class AudioModel {
    var bufferSize: int
    var batchSize: int
    var firstHighest: real
    var secondHighest: real
    var highestLocalIdx: int
    var timeData: seq<real>
    var fftData: seq<real>

    ghost predicate Valid()
      reads this
    {
      bufferSize >= 0 && batchSize == BatchSize &&
      |timeData| == bufferSize && |fftData| == bufferSize / 2 &&
      firstHighest >= secondHighest
    }

    /** `init(buffer_size:)`: zeroed buffers, both trackers and the local index at 0. */
    constructor (size: int)
      requires size >= 0
      ensures Valid()
      ensures bufferSize == size && batchSize == 50
      ensures timeData == seq(size, _ => 0.0) && fftData == seq(size / 2, _ => 0.0)
      ensures firstHighest == 0.0 && secondHighest == 0.0 && highestLocalIdx == 0
    {
      bufferSize := size;
      batchSize := BatchSize;
      timeData := seq(size, _ => 0.0);
      fftData := seq(size / 2, _ => 0.0);
      firstHighest := 0.0;
      secondHighest := 0.0;
      highestLocalIdx := 0;
    }

    /**
     * One timer tick: the fresh samples and their magnitude spectrum land in
     * the buffers, then each window's local maximum is folded into the
     * trackers.
     */
    method RunEveryInterval(samples: seq<real>, spectrum: seq<real>)
      requires Valid()
      requires |samples| == bufferSize && |spectrum| == |fftData|
      modifies this
      ensures Valid()
      ensures bufferSize == old(bufferSize) && batchSize == old(batchSize)
      ensures timeData == samples && fftData == spectrum
      ensures TopTwo(firstHighest, secondHighest) ==
              FoldAll(old(TopTwo(firstHighest, secondHighest)), Maxima(spectrum, batchSize, 0))
      ensures firstHighest >= old(firstHighest) && secondHighest >= old(secondHighest)
      ensures forall i | Covered(|spectrum|, batchSize, i) :: spectrum[i] <= firstHighest
      ensures |spectrum| <= 1 ==> highestLocalIdx == old(highestLocalIdx)
      ensures |spectrum| > 1 ==>
                exists s :: IsWindowStart(|spectrum|, batchSize, s) && |spectrum| - 1 <= s + batchSize &&
                            IsWindowArgmax(spectrum, s, WindowEnd(|spectrum|, batchSize, s), highestLocalIdx)
    {
      timeData := samples;
      fftData := spectrum;
      ghost var top0, idx0 := TopTwo(firstHighest, secondHighest), highestLocalIdx;
      var s := ScanWindows(fftData);
      FrameDone(spectrum, BatchSize, s, top0, highestLocalIdx, idx0);
    }

    /**
     * The strided loop over the windows of `fftData`: each window's argmax
     * becomes `highestLocalIdx` and its magnitude is folded into the
     * trackers. Returns the first start past the last window.
     */
    method ScanWindows(a: seq<real>) returns (s: int)
      requires firstHighest >= secondHighest
      modifies this`firstHighest, this`secondHighest, this`highestLocalIdx
      ensures 0 <= s && s >= |a| - 1
      ensures TopTwo(firstHighest, secondHighest) ==
              FoldAll(old(TopTwo(firstHighest, secondHighest)), Maxima(a, BatchSize, 0))
      ensures s == 0 ==> highestLocalIdx == old(highestLocalIdx)
      ensures s > 0 ==> IsWindowStart(|a|, BatchSize, s - BatchSize) &&
                        IsWindowArgmax(a, s - BatchSize, WindowEnd(|a|, BatchSize, s - BatchSize), highestLocalIdx)
    {
      ghost var top0, idx0 := TopTwo(firstHighest, secondHighest), highestLocalIdx;
      ghost var last := 0;
      s := 0;
      while s < |a| - 1
        invariant 0 <= s && OnStride(BatchSize, s)
        invariant firstHighest >= secondHighest
        invariant FoldAll(TopTwo(firstHighest, secondHighest), Maxima(a, BatchSize, s)) ==
                  FoldAll(top0, Maxima(a, BatchSize, 0))
        invariant s == 0 ==> highestLocalIdx == idx0
        invariant s > 0 ==> last == s - BatchSize && IsWindowStart(|a|, BatchSize, last) &&
                            IsWindowArgmax(a, last, WindowEnd(|a|, BatchSize, last), highestLocalIdx)
        decreases |a| - s
      {
        ScanWindow(a, s);
        assert OnStride(BatchSize, s + BatchSize) by { assert s + BatchSize - BatchSize == s; }
        last := s;
        s := s + BatchSize;
      }
      assert Maxima(a, BatchSize, s) == [];
    }

    /**
     * One pass of the loop body for the window that starts at `lo`: its
     * argmax becomes `highestLocalIdx` and its magnitude goes to the
     * trackers, which leaves the fold of the remaining windows unchanged.
     */
    method ScanWindow(a: seq<real>, lo: int)
      requires 0 <= lo < |a| - 1 && firstHighest >= secondHighest
      modifies this`firstHighest, this`secondHighest, this`highestLocalIdx
      ensures firstHighest >= secondHighest
      ensures IsWindowArgmax(a, lo, WindowEnd(|a|, BatchSize, lo), highestLocalIdx)
      ensures TopTwo(firstHighest, secondHighest) ==
              Insert(old(TopTwo(firstHighest, secondHighest)), WindowMax(a, lo, WindowEnd(|a|, BatchSize, lo)))
      ensures FoldAll(TopTwo(firstHighest, secondHighest), Maxima(a, BatchSize, lo + BatchSize)) ==
              FoldAll(old(TopTwo(firstHighest, secondHighest)), Maxima(a, BatchSize, lo))
    {
      MaximaStep(a, BatchSize, lo, TopTwo(firstHighest, secondHighest));
      var hi := WindowEnd(|a|, BatchSize, lo);
      highestLocalIdx := WindowArgmax(a, lo, hi);
      Track(a[highestLocalIdx]);
    }

    /**
     * Folds one window's local maximum into the trackers: a new largest value
     * shifts the old first into second, a value between the two replaces
     * second, anything else changes nothing.
     */
    method Track(peak: real)
      requires firstHighest >= secondHighest
      modifies this`firstHighest, this`secondHighest
      ensures TopTwo(firstHighest, secondHighest) == Insert(old(TopTwo(firstHighest, secondHighest)), peak)
    {
      if peak > firstHighest {
        secondHighest := firstHighest;
        firstHighest := peak;
      } else if peak > secondHighest {
        secondHighest := peak;
      }
    }
  }
}
