/** `downsample` of aaronia_worker_main.cpp: peak-preserving reduction of a spectrum to a point limit. */
module Downsample {
  import opened Prelude
  import opened Division
  import opened FrequencyAxis
  import Envelope

  const BLANK := -200.0

  function Factor(size: nat, maximum: nat): nat
    requires maximum > 0
  {
    Max(1, CeilDiv(size, maximum))
  }

  /** The factor is the least one that meets the limit, so no resolution is given away. */
  lemma FactorIsLeast(size: nat, maximum: nat, f: nat)
    requires maximum > 0 && f > 0
    ensures CeilDiv(size, f) <= maximum <==> Factor(size, maximum) <= f
  {
    CeilDivLeast(size, f, maximum);
    CeilDivLeast(size, maximum, f);
    assert maximum * f == f * maximum;
  }

  /** The largest finite sample of a block, or -200 if there is none. */
  function BlockPeak(p: seq<Power>, first: nat, stop: nat): real
    requires first <= stop <= |p|
  {
    var m := Envelope.PeakIndex(p, first, stop);
    if m >= 0 then p[m].value else BLANK
  }

  function BlockStart(j: nat, factor: nat): nat {
    j * factor
  }

  /** `output` holds the peaks of the consecutive blocks of `factor` samples, the last one shorter. */
  ghost predicate BlockPeaks(p: seq<Power>, factor: nat, output: seq<real>) {
    forall j :: 0 <= j < |output| ==>
      && BlockStart(j, factor) < |p|
      && output[j] == BlockPeak(p, BlockStart(j, factor), Min(|p|, BlockStart(j, factor) + factor))
  }

  method Downsample(input: seq<Power>, maximum: nat) returns (output: seq<real>, factor: nat)
    requires maximum > 0
    ensures factor == Factor(|input|, maximum)
    ensures |output| == CeilDiv(|input|, factor) <= maximum
    ensures BlockPeaks(input, factor, output)
  {
    factor := Max(1, (|input| + maximum - 1) / maximum);
    FactorIsLeast(|input|, maximum, factor);
    output := [];
    var start := 0;
    while start < |input|
      invariant start == BlockStart(|output|, factor)
      invariant |output| <= CeilDiv(|input|, factor)
      invariant BlockPeaks(input, factor, output)
      decreases |input| + factor - start
    {
      var peak := PeakOf(input, start, Min(|input|, start + factor));
      CeilDivLeast(|input|, factor, |output|);
      output := output + [if peak.Dbm? then peak.value else BLANK];
      start := start + factor;
      assert BlockStart(|output|, factor) == BlockStart(|output| - 1, factor) + factor;
    }
    CeilDivLeast(|input|, factor, |output|);
  }

  /** The inner loop; the result is not finite for a block without finite samples. */
  method PeakOf(input: seq<Power>, first: nat, stop: nat) returns (peak: Power)
    requires first <= stop <= |input|
    ensures peak.Dbm? <==> Envelope.PeakIndex(input, first, stop) >= 0
    ensures peak.Dbm? ==> peak.value == BlockPeak(input, first, stop)
  {
    peak := NotFinite;
    for index := first to stop
      invariant peak.Dbm? <==> Envelope.PeakIndex(input, first, index) >= 0
      invariant peak.Dbm? ==> peak.value == BlockPeak(input, first, index)
    {
      if input[index].Dbm? && (peak.NotFinite? || input[index].value > peak.value) {
        peak := input[index];
      }
    }
  }

  /** Every sample belongs to the block its index selects. */
  lemma BlockOfSample(size: nat, factor: nat, i: nat) returns (j: nat)
    requires factor > 0 && i < size
    ensures j < CeilDiv(size, factor)
    ensures BlockStart(j, factor) <= i < BlockStart(j, factor) + factor
  {
    j := i / factor;
    DivisionAlgorithm(i, factor);
    CeilDivLeast(size, factor, j);
  }

  /** Some block has no finite sample. */
  ghost predicate HasBlankBlock(p: seq<Power>, factor: nat) {
    exists j: nat :: BlockStart(j, factor) < |p| && IsBlank(p, factor, j)
  }

  ghost predicate IsBlank(p: seq<Power>, factor: nat, j: nat)
    requires BlockStart(j, factor) < |p|
  {
    Envelope.PeakIndex(p, BlockStart(j, factor), Min(|p|, BlockStart(j, factor) + factor)) < 0
  }

  /** `g` is the greatest value of `output`. */
  ghost predicate Greatest(output: seq<real>, g: real) {
    g in output && forall j :: 0 <= j < |output| ==> output[j] <= g
  }

  /** The peak of the whole spectrum is the greatest output exactly when it is at least -200 or no
      block is blank; in particular whenever some finite sample is at least -200. */
  lemma GlobalPeakSurvivesIff(p: seq<Power>, factor: nat, output: seq<real>)
    requires factor > 0 && |output| == CeilDiv(|p|, factor) && BlockPeaks(p, factor, output)
    requires Envelope.AnyFinite(p, 0, |p|)
    ensures Greatest(output, BlockPeak(p, 0, |p|)) <==> BlockPeak(p, 0, |p|) >= BLANK || !HasBlankBlock(p, factor)
  {
    var m := Envelope.PeakIndex(p, 0, |p|);
    var g := p[m].value;
    var j := BlockOfSample(|p|, factor, m);
    var stop := Min(|p|, BlockStart(j, factor) + factor);
    assert Envelope.IsPeak(p, BlockStart(j, factor), stop, m);
    Envelope.PeakIsUnique(p, BlockStart(j, factor), stop, m, Envelope.PeakIndex(p, BlockStart(j, factor), stop));
    assert output[j] == g;
    forall k | 0 <= k < |output|
      ensures output[k] <= g || (output[k] == BLANK && IsBlank(p, factor, k))
    {
    }
    if HasBlankBlock(p, factor) && g < BLANK {
      var k: nat :| BlockStart(k, factor) < |p| && IsBlank(p, factor, k);
      assert k < |output| by {
        CeilDivLeast(|p|, factor, k);
        assert k * factor == BlockStart(k, factor);
      }
      assert output[k] == BLANK;
    }
  }
}
