/** The Session-local meter bank: what is measured in a block, and when it may be published. */
module Meter {
  import opened Frames

  datatype Sample = Finite(value: real) | NonFinite

  /** `power` is the mean square of the finite samples, whose root is the RMS amplitude. */
  datatype Reading = Reading(peak: real, power: real, clipped: nat, nonFinite: nat)

  datatype Accumulator = Accumulator(peak: real, clipped: nat, nonFinite: nat, squares: real, finite: nat) {
    function Summary(): Reading {
      Reading(peak, if finite > 0 then squares / finite as real else 0.0, clipped, nonFinite)
    }
  }

  const EMPTY: Accumulator := Accumulator(0.0, 0, 0, 0.0, 0)

  function Magnitude(x: real): (m: real)
    ensures m >= 0.0 && (m == x || m == -x)
  {
    if x < 0.0 then -x else x
  }

  function Observe(a: Accumulator, sample: Sample): Accumulator {
    match sample
    case NonFinite => a.(nonFinite := a.nonFinite + 1)
    case Finite(x) =>
      var m := Magnitude(x);
      Accumulator(if a.peak < m then m else a.peak, if m > 1.0 then a.clipped + 1 else a.clipped,
                  a.nonFinite, a.squares + x * x, a.finite + 1)
  }

  ghost function Accumulated(column: seq<Sample>): Accumulator {
    if |column| == 0 then EMPTY else Observe(Accumulated(column[..|column| - 1]), column[|column| - 1])
  }

  ghost function Indices(column: seq<Sample>, holds: Sample -> bool): (indices: set<nat>) {
    set i: nat | i < |column| && holds(column[i])
  }

  predicate Clips(sample: Sample) { sample.Finite? && Magnitude(sample.value) > 1.0 }

  predicate IsFinite(sample: Sample) { sample.Finite? }

  predicate IsNonFinite(sample: Sample) { sample.NonFinite? }

  ghost function SquareSum(column: seq<Sample>): real {
    if |column| == 0 then 0.0 else
    var x := column[|column| - 1];
    SquareSum(column[..|column| - 1]) + if x.Finite? then x.value * x.value else 0.0
  }

  /** A reading states the facts of one channel: the greatest finite magnitude, how many samples
      clipped or were not finite, and the mean square. */
  ghost predicate IsReading(reading: Reading, column: seq<Sample>) {
    && (forall i :: 0 <= i < |column| && column[i].Finite? ==> Magnitude(column[i].value) <= reading.peak)
    && (reading.peak == 0.0 || exists i :: 0 <= i < |column| && column[i].Finite? && Magnitude(column[i].value) == reading.peak)
    && reading.clipped == |Indices(column, Clips)|
    && reading.nonFinite == |Indices(column, IsNonFinite)|
    && (if |Indices(column, IsFinite)| == 0 then reading.power == 0.0
        else reading.power * |Indices(column, IsFinite)| as real == SquareSum(column))
  }

  lemma IndicesGrow(column: seq<Sample>, sample: Sample, holds: Sample -> bool)
    ensures |Indices(column + [sample], holds)| == |Indices(column, holds)| + (if holds(sample) then 1 else 0)
  {
    var more := column + [sample];
    if holds(sample) {
      assert Indices(more, holds) == Indices(column, holds) + {|column|};
    } else {
      assert Indices(more, holds) == Indices(column, holds);
    }
  }

  lemma {:induction false} AccumulatedCounts(column: seq<Sample>)
    ensures var a := Accumulated(column);
            && a.clipped == |Indices(column, Clips)| && a.nonFinite == |Indices(column, IsNonFinite)|
            && a.finite == |Indices(column, IsFinite)| && a.squares == SquareSum(column)
    decreases |column|
  {
    if |column| > 0 {
      var head, last := column[..|column| - 1], column[|column| - 1];
      AccumulatedCounts(head);
      IndicesGrow(head, last, Clips);
      IndicesGrow(head, last, IsNonFinite);
      IndicesGrow(head, last, IsFinite);
      assert column == head + [last];
    }
  }

  lemma {:induction false} AccumulatedPeak(column: seq<Sample>)
    ensures var peak := Accumulated(column).peak;
            && (forall i :: 0 <= i < |column| && column[i].Finite? ==> Magnitude(column[i].value) <= peak)
            && (peak == 0.0 || exists i :: 0 <= i < |column| && column[i].Finite? && Magnitude(column[i].value) == peak)
    decreases |column|
  {
    if |column| > 0 {
      var head, last := column[..|column| - 1], column[|column| - 1];
      AccumulatedPeak(head);
      var before := Accumulated(head).peak;
      assert forall i :: 0 <= i < |head| ==> head[i] == column[i];
      if before != 0.0 {
        var i :| 0 <= i < |head| && head[i].Finite? && Magnitude(head[i].value) == before;
        assert column[i].Finite? && Magnitude(column[i].value) == before;
      }
    }
  }

  /** What the accumulators of one block add up to is a reading of it. */
  lemma AccumulatedReads(column: seq<Sample>)
    ensures IsReading(Accumulated(column).Summary(), column)
  {
    AccumulatedPeak(column);
    AccumulatedCounts(column);
    MeanTimesCount(SquareSum(column), Accumulated(column).finite);
    hide Accumulated, Magnitude, Indices, SquareSum;
  }

  lemma MeanTimesCount(sum: real, count: nat)
    ensures count > 0 ==> sum / count as real * count as real == sum
  {}

  ghost function Column(block: seq<seq<Sample>>, channels: nat, c: nat): (column: seq<Sample>)
    requires c < channels && forall i :: 0 <= i < |block| ==> |block[i]| == channels
  {
    seq(|block|, i requires 0 <= i < |block| => block[i][c])
  }

  class AudioMeterBank {
    const channels: nat
    var serial: nat
    var start: int
    var frames: nat
    var targets: seq<seq<Reading>>
    var measured: seq<bool>
    /** For each target, the block it was measured in. */
    ghost var stamps: seq<nat>
    ghost var block: nat

    ghost predicate Valid()
      reads this
    {
      && |targets| == |measured| == |stamps|
      && (forall t :: 0 <= t < |targets| ==> |targets[t]| == channels)
      && (forall t :: 0 <= t < |targets| && measured[t] ==> stamps[t] == block)
    }

    constructor (channels: nat, targetCount: nat)
      ensures Valid() && this.channels == channels && |targets| == targetCount
      ensures forall t :: 0 <= t < targetCount ==> !measured[t]
      ensures serial == 0 && start == 0 && frames == 0
      ensures forall t, c :: 0 <= t < targetCount && 0 <= c < channels ==> targets[t][c] == Reading(0.0, 0.0, 0, 0)
    {
      this.channels := channels;
      serial, start, frames := 0, 0, 0;
      targets := seq(targetCount, _ => seq(channels, _ => Reading(0.0, 0.0, 0, 0)));
      measured := seq(targetCount, _ => false);
      stamps, block := seq(targetCount, _ => 0), 0;
    }

    /** Nothing of an earlier block counts as measured any more. */
    method BeginBlock(serial: nat, start: int, frames: nat)
      requires Valid()
      modifies this
      ensures Valid() && this.serial == serial && this.start == start && this.frames == frames
      ensures block == old(block) + 1 && stamps == old(stamps) && targets == old(targets)
      ensures |measured| == old(|measured|) && forall t :: 0 <= t < |measured| ==> !measured[t]
    {
      this.serial, this.start, this.frames := serial, start, frames;
      measured := seq(|measured|, _ => false);
      block := block + 1;
    }

    /** Measure one strip over the whole block, or refuse PCM of another size. */
    method MeasureTarget(target: nat, pcm: seq<seq<Sample>>) returns (ok: bool)
      requires Valid() && forall i :: 0 <= i < |pcm| ==> |pcm[i]| == channels
      modifies this`targets, this`measured, this`stamps
      ensures Valid()
      ensures ok <==> |pcm| == frames && target < |old(targets)|
      ensures !ok ==> targets == old(targets) && measured == old(measured) && stamps == old(stamps)
      ensures ok ==> |targets| == |old(targets)| && measured == old(measured)[target := true] && stamps == old(stamps)[target := block]
      ensures ok ==> forall t :: 0 <= t < |targets| && t != target ==> targets[t] == old(targets)[t]
      ensures ok ==> forall c :: 0 <= c < channels ==> IsReading(targets[target][c], Column(pcm, channels, c))
    {
      if |pcm| != frames || target >= |targets| {
        return false;
      }
      var accumulators := Accumulate(pcm);
      var readings := seq(channels, c requires 0 <= c < |accumulators| => accumulators[c].Summary());
      forall c | 0 <= c < channels
        ensures IsReading(readings[c], Column(pcm, channels, c))
      {
        AccumulatedReads(Column(pcm, channels, c));
      }
      targets := targets[target := readings];
      measured := measured[target := true];
      stamps := stamps[target := block];
      ok := true;
    }

    method Accumulate(pcm: seq<seq<Sample>>) returns (accumulators: seq<Accumulator>)
      requires forall i :: 0 <= i < |pcm| ==> |pcm[i]| == channels
      ensures |accumulators| == channels
      ensures forall c :: 0 <= c < channels ==> accumulators[c] == Accumulated(Column(pcm, channels, c))
    {
      accumulators := seq(channels, _ => EMPTY);
      for i := 0 to |pcm|
        invariant |accumulators| == channels
        invariant forall c :: 0 <= c < channels ==> accumulators[c] == Accumulated(Column(pcm[..i], channels, c))
      {
        ghost var before := accumulators;
        for c := 0 to channels
          invariant |accumulators| == channels
          invariant forall d :: 0 <= d < c ==> accumulators[d] == Accumulated(Column(pcm[..i + 1], channels, d))
          invariant forall d :: c <= d < channels ==> accumulators[d] == before[d]
        {
          assert Column(pcm[..i + 1], channels, c)[..i] == Column(pcm[..i], channels, c);
          accumulators := accumulators[c := Observe(accumulators[c], pcm[i][c])];
        }
      }
      assert pcm[..|pcm|] == pcm;
    }

    /** The bank may be published exactly when every strip was measured in this block. */
    method PublishCompletedBlock() returns (publish: bool)
      requires Valid()
      ensures publish <==> forall t :: 0 <= t < |measured| ==> measured[t]
      ensures publish ==> forall t :: 0 <= t < |targets| ==> stamps[t] == block
    {
      for t := 0 to |measured|
        invariant forall u :: 0 <= u < t ==> measured[u]
      {
        if !measured[t] {
          return false;
        }
      }
      publish := true;
    }
  }
}
