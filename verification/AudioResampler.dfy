/** The IQ-to-audio path of soapy_rf_source.cpp: samples are averaged in windows chosen by an
    accumulator so that `audioRate` PCM samples come out for every `iqRate` samples that go in.
    Demodulated samples are given; the accumulator only ever holds integers that a double represents
    exactly. */
module AudioResampler {
  import opened Prelude
  import opened Division

  datatype State = State(accumulator: nat, sum: real, count: nat)

  const INITIAL := State(0, 0.0, 0)

  /** One pass of the loop: the new state and, when a window is complete, its average. */
  function Feed(s: State, x: real, audioRate: nat, iqRate: nat): (State, Option<real>) {
    var acc, sum, count := s.accumulator + audioRate, s.sum + x, s.count + 1;
    if acc >= iqRate then (State(acc - iqRate, 0.0, 0), Some(sum / count as real))
    else (State(acc, sum, count), None)
  }

  /** The averages produced by a block, and the state after it. */
  function FeedAll(s: State, xs: seq<real>, audioRate: nat, iqRate: nat): (State, seq<real>)
    decreases |xs|
  {
    if xs == [] then (s, [])
    else
      var (t, out) := FeedAll(s, xs[..|xs| - 1], audioRate, iqRate);
      var (u, y) := Feed(t, xs[|xs| - 1], audioRate, iqRate);
      (u, if y.Some? then out + [y.value] else out)
  }

  /** Cutting the stream into blocks differently changes nothing. */
  lemma {:induction false} SplitIrrelevant(s: State, a: seq<real>, b: seq<real>, audioRate: nat, iqRate: nat)
    ensures var (t, out) := FeedAll(s, a, audioRate, iqRate);
            var (u, more) := FeedAll(t, b, audioRate, iqRate);
            FeedAll(s, a + b, audioRate, iqRate) == (u, out + more)
    decreases |b|
  {
    var (t, out) := FeedAll(s, a, audioRate, iqRate);
    if b == [] {
      assert a + b == a && out + [] == out;
    } else {
      var init := b[..|b| - 1];
      SplitIrrelevant(s, a, init, audioRate, iqRate);
      assert (a + b)[..|a + b| - 1] == a + init && (a + b)[|a + b| - 1] == b[|b| - 1];
      var (u, more) := FeedAll(t, init, audioRate, iqRate);
      var y := Feed(u, b[|b| - 1], audioRate, iqRate).1;
      if y.Some? {
        assert (out + more) + [y.value] == out + (more + [y.value]);
      }
    }
  }

  function Concat(blocks: seq<seq<real>>): seq<real>
    decreases |blocks|
  {
    if blocks == [] then [] else Concat(blocks[..|blocks| - 1]) + blocks[|blocks| - 1]
  }

  function FeedBlocks(s: State, blocks: seq<seq<real>>, audioRate: nat, iqRate: nat): (State, seq<real>)
    decreases |blocks|
  {
    if blocks == [] then (s, [])
    else
      var (t, out) := FeedBlocks(s, blocks[..|blocks| - 1], audioRate, iqRate);
      var (u, more) := FeedAll(t, blocks[|blocks| - 1], audioRate, iqRate);
      (u, out + more)
  }

  lemma {:induction false} BlocksAreOneStream(s: State, blocks: seq<seq<real>>, audioRate: nat, iqRate: nat)
    ensures FeedBlocks(s, blocks, audioRate, iqRate) == FeedAll(s, Concat(blocks), audioRate, iqRate)
    decreases |blocks|
  {
    if blocks != [] {
      var init := blocks[..|blocks| - 1];
      BlocksAreOneStream(s, init, audioRate, iqRate);
      SplitIrrelevant(s, Concat(init), blocks[|blocks| - 1], audioRate, iqRate);
    }
  }

  // --- The closed form ---

  function Sum(xs: seq<real>): real
    decreases |xs|
  {
    if xs == [] then 0.0 else Sum(xs[..|xs| - 1]) + xs[|xs| - 1]
  }

  function Mean(xs: seq<real>): real
    requires xs != []
  {
    Sum(xs) / |xs| as real
  }

  /** The number of samples after which the k-th window has been completed. */
  function WindowStart(k: nat, audioRate: nat, iqRate: nat): nat
    requires audioRate > 0
  {
    CeilDiv(k * iqRate, audioRate)
  }

  /** Samples are conserved: what came out, at the IQ rate, plus the accumulator is what went in, at
      the audio rate. */
  ghost predicate Conserved(n: nat, s: State, out: seq<real>, audioRate: nat, iqRate: nat) {
    |out| * iqRate + s.accumulator == n * audioRate && s.accumulator < iqRate
  }

  /** `y` is the mean of window k of the stream. */
  ghost predicate IsWindowMean(xs: seq<real>, k: nat, y: real, audioRate: nat, iqRate: nat)
    requires audioRate > 0
  {
    var first, stop := WindowStart(k, audioRate, iqRate), WindowStart(k + 1, audioRate, iqRate);
    first < stop <= |xs| && y == Mean(xs[first..stop])
  }

  /** The averages are the means of consecutive windows of the stream, and the integrator holds the
      samples since the last window. */
  ghost predicate Windowed(xs: seq<real>, s: State, out: seq<real>, audioRate: nat, iqRate: nat)
    requires audioRate > 0
  {
    && (forall k :: 0 <= k < |out| ==> IsWindowMean(xs, k, out[k], audioRate, iqRate))
    && WindowStart(|out|, audioRate, iqRate) + s.count == |xs|
    && s.sum == Sum(xs[WindowStart(|out|, audioRate, iqRate)..])
  }

  /** Conservation holds after every stream when the audio rate does not exceed the IQ rate. */
  lemma {:induction false} StreamConserved(xs: seq<real>, audioRate: nat, iqRate: nat)
    requires 0 < audioRate <= iqRate
    ensures var (s, out) := FeedAll(INITIAL, xs, audioRate, iqRate);
            Conserved(|xs|, s, out, audioRate, iqRate)
    decreases |xs|
  {
    if xs == [] {
      assert 0 * iqRate == 0 && 0 * audioRate == 0;
    } else {
      StreamConserved(xs[..|xs| - 1], audioRate, iqRate);
      var (t, out) := FeedAll(INITIAL, xs[..|xs| - 1], audioRate, iqRate);
      assert (|out| + 1) * iqRate == |out| * iqRate + iqRate;
      assert |xs| * audioRate == (|xs| - 1) * audioRate + audioRate;
    }
  }

  /** So the number of PCM samples is floor(N * audioRate / iqRate). */
  lemma EmittedCount(xs: seq<real>, audioRate: nat, iqRate: nat)
    requires 0 < audioRate <= iqRate
    ensures var (s, out) := FeedAll(INITIAL, xs, audioRate, iqRate);
            |out| == |xs| * audioRate / iqRate && s.accumulator == |xs| * audioRate % iqRate
  {
    StreamConserved(xs, audioRate, iqRate);
    var (s, out) := FeedAll(INITIAL, xs, audioRate, iqRate);
    QuotientIs(|xs| * audioRate, iqRate, |out|);
    DivisionAlgorithm(|xs| * audioRate, iqRate);
  }

  /** A window is complete at the first sample that brings the accumulator to the IQ rate. */
  lemma WindowBoundary(n: nat, k: nat, acc: nat, audioRate: nat, iqRate: nat)
    requires 0 < audioRate <= iqRate && k * iqRate + acc == n * audioRate && acc < iqRate
    ensures acc + audioRate >= iqRate ==> WindowStart(k + 1, audioRate, iqRate) == n + 1
  {
    var a := (k + 1) * iqRate;
    assert a == k * iqRate + iqRate;
    CeilDivLeast(a, audioRate, n);
    CeilDivLeast(a, audioRate, n + 1);
    assert (n + 1) * audioRate == n * audioRate + audioRate;
  }

  lemma PrefixSlice(xs: seq<real>, a: nat, b: nat)
    requires xs != [] && a <= b <= |xs| - 1
    ensures xs[..|xs| - 1][a..b] == xs[a..b]
  {
  }

  lemma SumOfOneMore(xs: seq<real>, a: nat)
    requires xs != [] && a <= |xs| - 1
    ensures Sum(xs[a..]) == Sum(xs[..|xs| - 1][a..]) + xs[|xs| - 1]
  {
    var tail := xs[a..];
    assert tail[..|tail| - 1] == xs[..|xs| - 1][a..];
  }

  /** Window k of the stream is exactly the samples from WindowStart(k) up to WindowStart(k + 1). */
  lemma {:induction false} StreamWindowed(xs: seq<real>, audioRate: nat, iqRate: nat)
    requires 0 < audioRate <= iqRate
    ensures var (s, out) := FeedAll(INITIAL, xs, audioRate, iqRate);
            Windowed(xs, s, out, audioRate, iqRate)
    decreases |xs|
  {
    if xs == [] {
      CeilDivLeast(0, audioRate, 0);
      assert 0 * iqRate == 0;
    } else {
      var n := |xs| - 1;
      var ys := xs[..n];
      StreamWindowed(ys, audioRate, iqRate);
      StreamConserved(ys, audioRate, iqRate);
      var (t, out) := FeedAll(INITIAL, ys, audioRate, iqRate);
      var w := WindowStart(|out|, audioRate, iqRate);
      WindowBoundary(n, |out|, t.accumulator, audioRate, iqRate);
      SumOfOneMore(xs, w);
      assert Sum(xs[w..]) == t.sum + xs[n];
      var (u, y) := Feed(t, xs[n], audioRate, iqRate);
      forall k | 0 <= k < |out|
        ensures IsWindowMean(xs, k, out[k], audioRate, iqRate)
      {
        EarlierWindow(xs, k, out[k], audioRate, iqRate);
      }
      if y.Some? {
        CompletedWindow(xs, |out|, t, audioRate, iqRate);
      }
    }
  }

  /** A window that was complete before the last sample stays what it was. */
  lemma EarlierWindow(xs: seq<real>, k: nat, y: real, audioRate: nat, iqRate: nat)
    requires xs != [] && audioRate > 0 && IsWindowMean(xs[..|xs| - 1], k, y, audioRate, iqRate)
    ensures IsWindowMean(xs, k, y, audioRate, iqRate)
  {
    PrefixSlice(xs, WindowStart(k, audioRate, iqRate), WindowStart(k + 1, audioRate, iqRate));
  }

  /** The window that the last sample completes. */
  lemma CompletedWindow(xs: seq<real>, k: nat, t: State, audioRate: nat, iqRate: nat)
    requires xs != [] && audioRate > 0
    requires WindowStart(k + 1, audioRate, iqRate) == |xs|
    requires WindowStart(k, audioRate, iqRate) + t.count == |xs| - 1
    requires t.sum + xs[|xs| - 1] == Sum(xs[WindowStart(k, audioRate, iqRate)..])
    ensures IsWindowMean(xs, k, (t.sum + xs[|xs| - 1]) / (t.count + 1) as real, audioRate, iqRate)
    ensures Sum(xs[WindowStart(k + 1, audioRate, iqRate)..]) == 0.0
  {
    var w := WindowStart(k, audioRate, iqRate);
    assert xs[w..|xs|] == xs[w..];
    assert xs[|xs|..] == [];
  }

  /** Every window has floor(iqRate / audioRate) or ceil(iqRate / audioRate) samples. */
  lemma WindowLength(k: nat, audioRate: nat, iqRate: nat)
    requires 0 < audioRate
    ensures var length := WindowStart(k + 1, audioRate, iqRate) - WindowStart(k, audioRate, iqRate);
            iqRate / audioRate <= length <= CeilDiv(iqRate, audioRate)
  {
    var a, c := k * iqRate, WindowStart(k, audioRate, iqRate);
    var f, g := iqRate / audioRate, CeilDiv(iqRate, audioRate);
    assert (k + 1) * iqRate == a + iqRate;
    CeilDivLeast(a, audioRate, c);
    CeilDivLeast(iqRate, audioRate, g);
    assert (c + g) * audioRate == c * audioRate + g * audioRate;
    CeilDivLeast(a + iqRate, audioRate, c + g);
    DivisionAlgorithm(iqRate, audioRate);
    if c + f > 0 {
      CeilDivLeast(a + iqRate, audioRate, c + f - 1);
      if c > 0 {
        CeilDivLeast(a, audioRate, c - 1);
        assert (c + f - 1) * audioRate == (c - 1) * audioRate + f * audioRate;
      } else {
        assert a == 0 by {
          assert a <= 0 * audioRate;
        }
        assert (f - 1) * audioRate == f * audioRate - audioRate;
      }
    }
  }

  /** With an audio rate above the IQ rate every sample is emitted on its own and the accumulator
      grows without bound, so the guarantees above hold exactly up to equal rates. */
  lemma {:induction false} FasterAudioDrifts(xs: seq<real>, audioRate: nat, iqRate: nat)
    requires 0 < iqRate < audioRate
    ensures var (s, out) := FeedAll(INITIAL, xs, audioRate, iqRate);
            && |out| == |xs| && s.accumulator == |xs| * (audioRate - iqRate)
    decreases |xs|
  {
    var d := audioRate - iqRate;
    if xs == [] {
      assert 0 * d == 0;
    } else {
      FasterAudioDrifts(xs[..|xs| - 1], audioRate, iqRate);
      assert |xs| * d == (|xs| - 1) * d + d;
    }
  }

  /** The accumulator stays below the IQ rate on every stream if and only if audio is not faster. */
  lemma BoundedAccumulatorIff(audioRate: nat, iqRate: nat)
    requires 0 < audioRate && 0 < iqRate
    ensures audioRate <= iqRate <==>
              forall xs: seq<real> :: FeedAll(INITIAL, xs, audioRate, iqRate).0.accumulator < iqRate
  {
    if audioRate <= iqRate {
      forall xs: seq<real>
        ensures FeedAll(INITIAL, xs, audioRate, iqRate).0.accumulator < iqRate
      {
        StreamConserved(xs, audioRate, iqRate);
      }
    } else {
      var xs := seq(iqRate, i => 0.0);
      FasterAudioDrifts(xs, audioRate, iqRate);
      ProductBounds(iqRate, 1, audioRate - iqRate);
      assert FeedAll(INITIAL, xs, audioRate, iqRate).0.accumulator >= iqRate;
    }
  }

  /** A block never produces more than the capacity reserved for it, wherever in the stream it comes and
      whichever rate is the higher one. */
  lemma BlockFitsReserve(s: State, xs: seq<real>, audioRate: nat, iqRate: nat)
    requires 0 < iqRate && (audioRate <= iqRate ==> s.accumulator < iqRate)
    ensures var (t, out) := FeedAll(s, xs, audioRate, iqRate);
            && |out| * iqRate + t.accumulator == |xs| * audioRate + s.accumulator
            && (audioRate <= iqRate ==> t.accumulator < iqRate)
            && |out| <= |xs| * audioRate / iqRate + 1
  {
    BlockBalance(s, xs, audioRate, iqRate);
    var (t, out) := FeedAll(s, xs, audioRate, iqRate);
    ProductBounds(|xs|, 0, audioRate);
    if audioRate <= iqRate {
      AtMostOneMore(|out|, |xs| * audioRate, s.accumulator, t.accumulator, iqRate);
    } else {
      ProductBounds(|xs|, iqRate, audioRate);
      QuotientBound(|xs|, |xs| * audioRate, iqRate);
    }
  }

  lemma AtMostOneMore(count: nat, total: nat, before: nat, after: nat, d: nat)
    requires before < d && count * d + after == total + before
    ensures count <= total / d + 1
  {
    if count > 0 {
      assert (count - 1) * d == count * d - d;
      QuotientBound(count - 1, total, d);
    }
  }

  lemma {:induction false} BlockBalance(s: State, xs: seq<real>, audioRate: nat, iqRate: nat)
    requires 0 < iqRate
    ensures var (t, out) := FeedAll(s, xs, audioRate, iqRate);
            && |out| * iqRate + t.accumulator == |xs| * audioRate + s.accumulator && |out| <= |xs|
            && (audioRate <= iqRate && s.accumulator < iqRate ==> t.accumulator < iqRate)
    decreases |xs|
  {
    if xs == [] {
      assert 0 * iqRate == 0 && 0 * audioRate == 0;
    } else {
      BlockBalance(s, xs[..|xs| - 1], audioRate, iqRate);
      var (t, out) := FeedAll(s, xs[..|xs| - 1], audioRate, iqRate);
      assert (|out| + 1) * iqRate == |out| * iqRate + iqRate;
      assert |xs| * audioRate == (|xs| - 1) * audioRate + audioRate;
    }
  }

  // --- The receiver ---

  datatype Mode = AM | NFM | WFM

  function Clamp(x: real, low: real, high: real): real
    requires low <= high
  {
    if x < low then low else if x > high then high else x
  }

  /** The cast of a double to a 16-bit integer truncates towards zero. */
  function Truncate(x: real): int {
    if x >= 0.0 then x.Floor else -((-x).Floor)
  }

  function ToPcm(average: real, volume: real, mode: Mode): (sample: int)
    ensures -32768 <= sample <= 32767
  {
    var scale := if mode == AM then 30_000.0 else 8_000.0;
    Truncate(Clamp(average * volume * scale, -32768.0, 32767.0))
  }

  /** A sample is the mean, scaled by the volume and by 30000 for AM or 8000 otherwise, cut towards zero
      and saturated at the 16-bit range. */
  lemma PcmIs(average: real, volume: real, mode: Mode)
    ensures var x := average * volume * (match mode case AM => 30_000.0 case NFM => 8_000.0 case WFM => 8_000.0);
            var pcm := ToPcm(average, volume, mode) as real;
            && (x >= 32767.0 ==> pcm == 32767.0) && (x <= -32768.0 ==> pcm == -32768.0)
            && (0.0 <= x <= 32767.0 ==> pcm <= x < pcm + 1.0)
            && (-32768.0 <= x <= 0.0 ==> pcm - 1.0 < x <= pcm)
  {
  }

  function AllPcm(averages: seq<real>, volume: real, mode: Mode): (pcm: seq<int>)
    ensures |pcm| == |averages|
    ensures forall k :: 0 <= k < |pcm| ==> pcm[k] == ToPcm(averages[k], volume, mode)
  {
    seq(|averages|, k requires 0 <= k < |averages| => ToPcm(averages[k], volume, mode))
  }

  class AudioReceiver {
    const iqRate: nat
    var audioRate: nat
    var mode: Mode
    var volume: real
    var enabled: bool
    var socketOpen: bool
    var accumulator: nat
    var integrator: real
    var integratorSamples: nat

    ghost function View(): State
      reads this
    {
      State(accumulator, integrator, integratorSamples)
    }

    constructor (iqRate: nat, audioRate: nat, socketOpen: bool)
      ensures this.iqRate == iqRate && this.audioRate == audioRate && this.socketOpen == socketOpen
      ensures View() == INITIAL && !enabled
    {
      this.iqRate, this.audioRate, this.socketOpen := iqRate, audioRate, socketOpen;
      mode, volume, enabled := NFM, 1.0, false;
      accumulator, integrator, integratorSamples := 0, 0.0, 0;
    }

    /** startNativeAudio: every session begins in the initial state. */
    method StartNativeAudio(mode: Mode, rate: int, volume: real)
      modifies this
      ensures View() == INITIAL && enabled && this.mode == mode
      ensures audioRate == if 8000 <= rate <= 192000 then rate else old(audioRate)
      ensures this.volume == Clamp(volume, 0.0, 4.0) && socketOpen == old(socketOpen)
    {
      if rate >= 8000 && rate <= 192000 {
        audioRate := rate;
      }
      this.mode := mode;
      this.volume := Clamp(volume, 0.0, 4.0);
      accumulator := 0;
      integrator, integratorSamples := 0.0, 0;
      enabled := true;
    }

    /** The integrator's part of the loop body: a mean when a window is complete. */
    method ProcessSample(sample: real) returns (filtered: Option<real>)
      modifies this`accumulator, this`integrator, this`integratorSamples
      ensures (View(), filtered) == Feed(old(View()), sample, audioRate, iqRate)
    {
      accumulator := accumulator + audioRate;
      integrator := integrator + sample;
      integratorSamples := integratorSamples + 1;
      filtered := None;
      if accumulator >= iqRate {
        accumulator := accumulator - iqRate;
        filtered := Some(integrator / integratorSamples as real);
        integrator := 0.0;
        integratorSamples := 0;
      }
    }

    /** processAudio on one block of demodulated samples; the result is the PCM data it sends. */
    method ProcessAudio(samples: seq<real>) returns (pcm: seq<int>)
      modifies this`accumulator, this`integrator, this`integratorSamples
      ensures if socketOpen && iqRate > 0
              then (View(), pcm) == (FeedAll(old(View()), samples, audioRate, iqRate).0,
                                     AllPcm(FeedAll(old(View()), samples, audioRate, iqRate).1, volume, mode))
              else View() == old(View()) && pcm == []
      ensures socketOpen && iqRate > 0 && (audioRate <= iqRate ==> old(accumulator) < iqRate) ==>
                && |pcm| < |samples| * audioRate / iqRate + 2
                && (audioRate <= iqRate ==> accumulator < iqRate)
    {
      pcm := [];
      if !socketOpen || iqRate == 0 {
        return;
      }
      ghost var before := View();
      ghost var averages: seq<real> := [];
      for i := 0 to |samples|
        invariant (View(), averages) == FeedAll(before, samples[..i], audioRate, iqRate)
        invariant pcm == AllPcm(averages, volume, mode)
      {
        assert samples[..i + 1][..i] == samples[..i];
        var filtered := ProcessSample(samples[i]);
        if filtered.Some? {
          pcm := pcm + [ToPcm(filtered.value, volume, mode)];
          averages := averages + [filtered.value];
        }
      }
      assert samples[..|samples|] == samples;
      if audioRate <= iqRate ==> before.accumulator < iqRate {
        BlockFitsReserve(before, samples, audioRate, iqRate);
      }
    }
  }
}
