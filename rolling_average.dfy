/** The rolling average of thermocouple readings: a ten-slot circular buffer that starts
    out all zero, a write cursor, and a divisor that is the number of samples taken until
    the buffer has first been filled and ten from then on.

    The reference definition is `Average`: the mean of the most recent samples, at most
    ten of them. `Window` is the buffer that the controller's updates leave behind, and
    `WindowSum` shows that summing the buffer gives the sum `Average` needs. */
module RollingAverage {

  /** Slots in the circular buffer. */
  const WINDOW := 10

  /** The slot that sample number `n` (counting from 0) is written to: the slots are
      used in order, and the cursor starts over after the last one. */
  function Slot(n: nat): (slot: nat)
    ensures slot < WINDOW
  {
    if n < WINDOW then n else Slot(n - WINDOW)
  }

  function Sum(s: seq<real>): real {
    if s == [] then 0.0 else Sum(s[..|s| - 1]) + s[|s| - 1]
  }

  /** The samples the rolling average covers: the last ten, or all of them before ten
      have been taken. */
  function Recent(samples: seq<real>): (r: seq<real>)
    ensures |r| == if |samples| < WINDOW then |samples| else WINDOW
  {
    if |samples| < WINDOW then samples else samples[|samples| - WINDOW..]
  }

  /** The number the controller divides the buffer sum by: the samples taken until the
      buffer first fills, ten from then on. */
  function Divisor(n: nat): (d: nat)
    ensures 0 < n ==> 0 < d <= WINDOW
  {
    if n < WINDOW then n else WINDOW
  }

  /** `total` divided by `count`, for the counts 1 to 10 the rolling average divides
      by. Each case divides by a literal, which keeps the solver's arithmetic linear;
      `MeanIsQuotient` shows it is the plain quotient. */
  function Mean(total: real, count: int): real
    requires 0 < count <= WINDOW
  {
    if count == 1 then total
    else if count == 2 then total / 2.0
    else if count == 3 then total / 3.0
    else if count == 4 then total / 4.0
    else if count == 5 then total / 5.0
    else if count == 6 then total / 6.0
    else if count == 7 then total / 7.0
    else if count == 8 then total / 8.0
    else if count == 9 then total / 9.0
    else total / 10.0
  }

  lemma MeanIsQuotient(total: real, count: int)
    requires 0 < count <= WINDOW
    ensures Mean(total, count) == total / (count as real)
  {
  }

  /** The sum of the `k` most recent samples. */
  function SumLast(samples: seq<real>, k: nat): real
    requires k <= |samples|
  {
    if k == 0 then 0.0 else SumLast(samples[..|samples| - 1], k - 1) + samples[|samples| - 1]
  }

  /** The rolling average after `samples`, oldest first; 0 before any sample. */
  function Average(samples: seq<real>): real {
    if samples == [] then 0.0
    else Mean(SumLast(samples, Divisor(|samples|)), Divisor(|samples|))
  }

  /** `n` zero readings; the buffer starts out as `Zeros(WINDOW)`. */
  function Zeros(n: nat): (z: seq<real>)
    ensures |z| == n
  {
    if n == 0 then [] else Zeros(n - 1) + [0.0]
  }

  lemma {:induction false} ZerosAreZero(n: nat, i: nat)
    requires i < n
    ensures Zeros(n)[i] == 0.0
  {
    if i < n - 1 {
      ZerosAreZero(n - 1, i);
    }
  }

  /** The buffer after recording `samples` in order from an all-zero start, each sample
      going to the slot after the previous one and wrapping after the last slot. */
  function Window(samples: seq<real>): (w: seq<real>)
    ensures |w| == WINDOW
  {
    if samples == [] then Zeros(WINDOW)
    else Window(samples[..|samples| - 1])[Slot(|samples| - 1) := samples[|samples| - 1]]
  }

  /** Summing from the front gives the same total as summing from the back. */
  lemma {:induction false} SumFront(s: seq<real>)
    requires s != []
    ensures Sum(s) == s[0] + Sum(s[1..])
  {
    if |s| > 1 {
      SumFront(s[..|s| - 1]);
      assert s[..|s| - 1][1..] == s[1..][..|s[1..]| - 1];
    }
  }

  /** Overwriting one slot changes the sum by the difference. */
  lemma {:induction false} SumUpdate(w: seq<real>, k: nat, x: real)
    requires k < |w|
    ensures Sum(w[k := x]) == Sum(w) - w[k] + x
  {
    var n := |w| - 1;
    if k < n {
      SumUpdate(w[..n], k, x);
      assert w[k := x][..n] == w[..n][k := x];
    } else {
      assert w[k := x][..n] == w[..n];
    }
  }

  /** The slot of sample `n` is `n` modulo the number of slots. */
  lemma {:induction false} SlotIsMod(n: nat)
    ensures Slot(n) == n % WINDOW
  {
    if WINDOW <= n {
      SlotIsMod(n - WINDOW);
    }
  }

  lemma CursorBelow(n: nat)
    requires n < WINDOW
    ensures Slot(n) == n
  {
  }

  lemma CursorShift(n: nat)
    requires WINDOW <= n
    ensures Slot(n - WINDOW) == Slot(n)
  {
  }

  /** The cursor moves to the next slot and wraps from the last slot to the first. */
  lemma {:induction false} CursorAdvance(n: nat)
    ensures Slot(n + 1) == if Slot(n) == WINDOW - 1 then 0 else Slot(n) + 1
  {
    if WINDOW <= n {
      CursorAdvance(n - WINDOW);
    }
  }

  /** Fewer than ten samples apart, two samples go to different slots. */
  lemma {:induction false} SlotsDiffer(j: nat, n: nat)
    requires j < n < j + WINDOW
    ensures Slot(j) != Slot(n)
  {
    if WINDOW <= j {
      SlotsDiffer(j - WINDOW, n - WINDOW);
    } else if WINDOW <= n {
      CursorShift(n);
    }
  }

  /** Slots never written since start-up still hold 0. */
  lemma {:induction false} WindowUnwritten(samples: seq<real>, i: nat)
    requires |samples| <= i < WINDOW
    ensures Window(samples)[i] == 0.0
  {
    if samples == [] {
      ZerosAreZero(WINDOW, i);
    } else {
      WindowUnwritten(samples[..|samples| - 1], i);
    }
  }

  /** Each of the last ten samples is still in the slot it was written to. */
  lemma {:induction false} WindowHolds(samples: seq<real>, j: nat)
    requires j < |samples| && |samples| - WINDOW <= j
    ensures Window(samples)[Slot(j)] == samples[j]
  {
    var n := |samples| - 1;
    if j < n {
      WindowHolds(samples[..n], j);
      SlotsDiffer(j, n);
    }
  }

  /** Recording one more sample overwrites the slot the cursor points at. */
  lemma WindowAppend(prev: seq<real>, x: real)
    ensures Window(prev + [x]) == Window(prev)[Slot(|prev|) := x]
  {
    var s := prev + [x];
    assert s[..|s| - 1] == prev;
  }

  lemma SumAppend(prev: seq<real>, x: real)
    ensures Sum(prev + [x]) == Sum(prev) + x
  {
    var s := prev + [x];
    assert s[..|s| - 1] == prev;
  }

  /** While the buffer is still filling, a new sample lands in a slot that held 0, so
      the buffer sum grows by the sample. */
  lemma WindowDeltaFilling(prev: seq<real>, x: real)
    requires |prev| < WINDOW
    ensures Sum(Window(prev + [x])) == Sum(Window(prev)) + x
  {
    var n := |prev|;
    CursorBelow(n);
    WindowAppend(prev, x);
    WindowUnwritten(prev, n);
    SumUpdate(Window(prev), n, x);
  }

  /** One more sample keeps the buffer sum equal to the recent-sample sum while the
      buffer is still filling. */
  lemma WindowSumFilling(prev: seq<real>, x: real)
    requires |prev| < WINDOW
    requires Sum(Window(prev)) == Sum(Recent(prev))
    ensures Sum(Window(prev + [x])) == Sum(Recent(prev + [x]))
  {
    WindowDeltaFilling(prev, x);
    SumAppend(prev, x);
    RecentFilling(prev);
    RecentFilling(prev + [x]);
  }

  /** Until ten samples have been taken, every sample is a recent one. */
  lemma RecentFilling(samples: seq<real>)
    requires |samples| <= WINDOW
    ensures Recent(samples) == samples
  {
  }

  /** Once the buffer is full, the cursor points at the oldest of the last ten samples. */
  lemma EvictedSlot(prev: seq<real>)
    requires WINDOW <= |prev|
    ensures Window(prev)[Slot(|prev|)] == prev[|prev| - WINDOW]
  {
    CursorShift(|prev|);
    WindowHolds(prev, |prev| - WINDOW);
  }

  /** Once the buffer is full, a new sample replaces the one written ten samples
      earlier, so the buffer sum changes by their difference. */
  lemma WindowDeltaFull(prev: seq<real>, x: real)
    requires WINDOW <= |prev|
    ensures Sum(Window(prev + [x])) == Sum(Window(prev)) - prev[|prev| - WINDOW] + x
  {
    var n, w := |prev|, Window(prev);
    WindowAppend(prev, x);
    EvictedSlot(prev);
    SumUpdate(w, Slot(n), x);
  }

  /** Once ten samples have been taken, the last ten are the oldest of them followed
      by the nine that stay when one more sample arrives. */
  lemma RecentSplitFull(prev: seq<real>)
    requires WINDOW <= |prev|
    ensures Sum(Recent(prev)) == prev[|prev| - WINDOW] + Sum(prev[|prev| - WINDOW + 1..])
  {
    var r := Recent(prev);
    SumFront(r);
    assert r[1..] == prev[|prev| - WINDOW + 1..];
  }

  /** After one more sample, the last ten are those nine followed by the new sample. */
  lemma RecentAppendFull(prev: seq<real>, x: real)
    requires WINDOW <= |prev|
    ensures Sum(Recent(prev + [x])) == Sum(prev[|prev| - WINDOW + 1..]) + x
  {
    var kept := prev[|prev| - WINDOW + 1..];
    assert Recent(prev + [x]) == kept + [x];
    SumAppend(kept, x);
  }

  /** Once ten samples have been taken, a new sample enters the last ten and the oldest
      of them leaves. */
  lemma RecentDeltaFull(prev: seq<real>, x: real)
    requires WINDOW <= |prev|
    ensures Sum(Recent(prev + [x])) == Sum(Recent(prev)) - prev[|prev| - WINDOW] + x
  {
    RecentSplitFull(prev);
    RecentAppendFull(prev, x);
  }

  /** Summing the whole buffer gives the sum of the recent samples: slots not yet
      written add 0, and every other slot holds one of the last ten samples. */
  lemma {:induction false} WindowSum(samples: seq<real>)
    ensures Sum(Window(samples)) == Sum(Recent(samples))
  {
    if samples == [] {
      forall i | 0 <= i < WINDOW {
        ZerosAreZero(WINDOW, i);
      }
      SumOfConstant(Window(samples), 0.0);
    } else {
      var prev, x := samples[..|samples| - 1], samples[|samples| - 1];
      assert samples == prev + [x];
      WindowSum(prev);
      if |prev| < WINDOW {
        WindowSumFilling(prev, x);
      } else {
        WindowDeltaFull(prev, x);
        RecentDeltaFull(prev, x);
      }
    }
  }

  /** `SumLast` sums the `k`-sample suffix. */
  lemma {:induction false} SumLastIsSum(samples: seq<real>, k: nat)
    requires k <= |samples|
    ensures SumLast(samples, k) == Sum(samples[|samples| - k..])
  {
    var n := |samples|;
    if k > 0 {
      SumLastIsSum(samples[..n - 1], k - 1);
      assert samples[n - k..][..k - 1] == samples[..n - 1][n - k..];
    }
  }

  /** The samples the average covers are the `Divisor` most recent ones. */
  lemma AverageOfRecent(samples: seq<real>)
    requires samples != []
    ensures Average(samples) == Mean(Sum(Recent(samples)), |Recent(samples)|)
  {
    SumLastIsSum(samples, Divisor(|samples|));
  }

  /** Dividing the buffer sum by the divisor gives the rolling average. */
  lemma BufferAverage(samples: seq<real>)
    requires samples != []
    ensures Average(samples) == Mean(Sum(Window(samples)), Divisor(|samples|))
  {
    WindowSum(samples);
    AverageOfRecent(samples);
  }

  /** Until the buffer first fills, the rolling average is the mean of every sample. */
  lemma AverageBeforeFull(samples: seq<real>)
    requires 0 < |samples| <= WINDOW
    ensures Average(samples) == Sum(samples) / (|samples| as real)
  {
    AverageOfRecent(samples);
    assert Recent(samples) == samples;
    MeanIsQuotient(Sum(samples), |samples|);
  }

  /** From the tenth sample on, the rolling average is the mean of the last ten. */
  lemma AverageWhenFull(samples: seq<real>)
    requires WINDOW <= |samples|
    ensures Average(samples) == Sum(samples[|samples| - WINDOW..]) / (WINDOW as real)
  {
    AverageOfRecent(samples);
  }

  /** Feeding the same reading `v` makes the rolling average `v`, however many samples
      there are. */
  lemma AverageOfConstant(samples: seq<real>, v: real)
    requires samples != []
    requires forall i :: 0 <= i < |samples| ==> samples[i] == v
    ensures Average(samples) == v
  {
    var r := Recent(samples);
    AverageOfRecent(samples);
    SumOfConstant(r, v);
  }

  lemma {:induction false} SumOfConstant(s: seq<real>, v: real)
    requires forall i :: 0 <= i < |s| ==> s[i] == v
    ensures Sum(s) == (|s| as real) * v
  {
    if s != [] {
      SumOfConstant(s[..|s| - 1], v);
    }
  }
}
