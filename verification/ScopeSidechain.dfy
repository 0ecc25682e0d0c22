/** Sidechains into the rack of a contribution. Such a rack runs over the executing part of a block, but what its
    processors listen to is read from the begin of the block. */
module ScopeSidechain {
  import opened Frames
  import opened Graph
  import opened Processors
  import opened SourceFrames
  import opened Schedule
  import opened Host
  import opened Alignment
  import opened Playback
  import Delay
  import Witness

  /** The first `frames` of every snapshot of the block, wherever in the block the rack begins. */
  function Heads(snapshots: seq<seq<Frame>>, frames: nat): (heads: seq<seq<Frame>>)
    requires forall s :: s in snapshots ==> frames <= |s|
    ensures |heads| == |snapshots|
  {
    seq(|snapshots|, b requires 0 <= b < |snapshots| => snapshots[b][..frames])
  }

  /** Gather the auxiliary buses of one processor of a scope rack that executes `frames` samples of the block. */
  method PrepareScopeAuxiliary(bindings: seq<Binding>, buses: nat, lanes: seq<seq<Frame>>, snapshots: seq<seq<Frame>>, channels: nat,
                               start: int, frames: nat)
    returns (block: seq<AuxFrame>, advanced: seq<seq<Frame>>)
    requires |lanes| == |bindings| && forall b :: 0 <= b < |bindings| ==> bindings[b].sourceBuffer < |snapshots|
    requires forall s :: s in snapshots ==> frames <= |s|
    ensures LanesFit(bindings, lanes, Heads(snapshots, frames), frames)
    ensures block == MixedBlock(bindings, buses, lanes, Heads(snapshots, frames), channels, start, frames)
    ensures |advanced| == |lanes|
    ensures forall b :: 0 <= b < |lanes| ==> advanced[b] == Delay.Retained(lanes[b], snapshots[bindings[b].sourceBuffer][..frames])
  {
    hide MixedBlock;
    block, advanced := PrepareAuxiliary(bindings, buses, lanes, Heads(snapshots, frames), channels, start, frames);
  }

  // ------------------------------------------------------------------ one lane over a run of blocks

  /** What a port carries over one block. */
  ghost function Snapshot(port: int -> Frame, e: int, n: nat): (block: seq<Frame>)
    ensures |block| == n
  {
    seq(n, i requires 0 <= i < n => port(e + i))
  }

  /** What one block feeds into a lane of the scope rack: nothing while the contribution does not execute. */
  ghost function FedBlock<S(!new)>(c: Contribution<S>, port: int -> Frame, e: int, n: nat): seq<Frame> {
    var extent := ContributionExecutionFrames(c, e, n);
    if extent.None? then [] else Snapshot(port, e, n)[..extent.value.1]
  }

  ghost function Fed<S(!new)>(w: World<S>, c: Contribution<S>, port: int -> Frame, sizes: seq<nat>): seq<Frame>
    decreases |sizes|
  {
    if |sizes| == 0 then [] else
    var earlier := sizes[..|sizes| - 1];
    Fed(w, c, port, earlier) + FedBlock(c, port, w.entry + Total(earlier), sizes[|sizes| - 1])
  }

  /** The content of the lane behind a run of blocks. */
  ghost function Held<S(!new)>(w: World<S>, c: Contribution<S>, port: int -> Frame, delay: nat, sizes: seq<nat>): seq<Frame>
    decreases |sizes|
  {
    if |sizes| == 0 then seq(delay, _ => Silence(w.schedule.channels)) else
    var earlier := sizes[..|sizes| - 1];
    Delay.Retained(Held(w, c, port, delay, earlier), FedBlock(c, port, w.entry + Total(earlier), sizes[|sizes| - 1]))
  }

  /** Everything the processor has heard from it, one frame for each executed sample. */
  ghost function Heard<S(!new)>(w: World<S>, c: Contribution<S>, port: int -> Frame, delay: nat, sizes: seq<nat>): seq<Frame>
    decreases |sizes|
  {
    if |sizes| == 0 then [] else
    var earlier := sizes[..|sizes| - 1];
    Heard(w, c, port, delay, earlier)
    + Delay.Emitted(Held(w, c, port, delay, earlier), FedBlock(c, port, w.entry + Total(earlier), sizes[|sizes| - 1]))
  }

  lemma {:induction false} HeardIsDelayed<S(!new)>(w: World<S>, c: Contribution<S>, port: int -> Frame, delay: nat, sizes: seq<nat>)
    ensures var silence := seq(delay, _ => Silence(w.schedule.channels));
            && Held(w, c, port, delay, sizes) == Delay.Retained(silence, Fed(w, c, port, sizes))
            && Heard(w, c, port, delay, sizes) == Delay.Emitted(silence, Fed(w, c, port, sizes))
    decreases |sizes|
  {
    hide FedBlock;
    var silence := seq(delay, _ => Silence(w.schedule.channels));
    if |sizes| > 0 {
      var earlier := sizes[..|sizes| - 1];
      HeardIsDelayed(w, c, port, delay, earlier);
      Delay.SplitBlock(silence, Fed(w, c, port, earlier), FedBlock(c, port, w.entry + Total(earlier), sizes[|sizes| - 1]));
    }
  }

  /** Begin and end of the last block that does not begin behind sample `a`. */
  ghost function BlockOf<S(!new)>(w: World<S>, sizes: seq<nat>, a: int): (int, int)
    decreases |sizes|
  {
    if |sizes| == 0 then (w.entry, w.entry) else
    var earlier := sizes[..|sizes| - 1];
    var e := w.entry + Total(earlier);
    if a < e then BlockOf(w, earlier, a) else (e, e + sizes[|sizes| - 1])
  }

  /** Frames of the rack that begins at `a` inside the block `[begin, end)`: those of this block come from its begin. */
  ghost predicate Misplaced(fed: seq<Frame>, port: int -> Frame, a: int, begin: int, end: int) {
    && (|fed| > 0 ==> begin <= a < end)
    && forall j: nat :: j < |fed| ==> fed[j] == if a + j < end then port(begin + j) else port(a + j)
  }

  /** As many frames are fed as the rack executed. */
  lemma {:induction false} FedAt<S(!new)>(w: World<S>, c: Contribution<S>, port: int -> Frame, sizes: seq<nat>)
    ensures |Fed(w, c, port, sizes)| == ScopeLength(w, c, w.entry + Total(sizes))
    ensures var (begin, end) := BlockOf(w, sizes, RackStart(w, c));
            Misplaced(Fed(w, c, port, sizes), port, RackStart(w, c), begin, end) && end <= w.entry + Total(sizes)
    decreases |sizes|
  {
    hide Misplaced, ScopeLength, FedBlock, RackStart;
    if |sizes| == 0 {
      NothingFed(w, c, port);
    } else {
      var earlier := sizes[..|sizes| - 1];
      var (begin, end) := BlockOf(w, earlier, RackStart(w, c));
      FedAt(w, c, port, earlier);
      FeedsOn(w, c, port, w.entry + Total(earlier), sizes[|sizes| - 1], Fed(w, c, port, earlier), begin, end);
    }
  }

  lemma NothingFed<S(!new)>(w: World<S>, c: Contribution<S>, port: int -> Frame)
    ensures ScopeLength(w, c, w.entry) == 0 && Misplaced([], port, RackStart(w, c), w.entry, w.entry)
  {}

  lemma FeedsOn<S(!new)>(w: World<S>, c: Contribution<S>, port: int -> Frame, e: int, n: nat, before: seq<Frame>, begin: int, end: int)
    requires e >= w.entry && |before| == ScopeLength(w, c, e) && Misplaced(before, port, RackStart(w, c), begin, end) && end <= e
    ensures var fed := before + FedBlock(c, port, e, n);
            && |fed| == ScopeLength(w, c, e + n)
            && if RackStart(w, c) < e then Misplaced(fed, port, RackStart(w, c), begin, end) else Misplaced(fed, port, RackStart(w, c), e, e + n)
  {
    ExecutionTiles(w, c, e, n);
    var fed, block := before + FedBlock(c, port, e, n), FedBlock(c, port, e, n);
    assert forall i: nat :: i < |block| ==> block[i] == port(e + i);
    forall j: nat | j < |fed|
      ensures RackStart(w, c) < e ==> fed[j] == if RackStart(w, c) + j < end then port(begin + j) else port(RackStart(w, c) + j)
      ensures RackStart(w, c) >= e ==> fed[j] == port(e + j) && RackStart(w, c) + j < e + n
    {
      if j < |before| {
        assert fed[j] == before[j];
      } else {
        assert fed[j] == block[j - |before|];
      }
    }
  }

  /** Every frame heard belongs to the sample it is heard at, late by the delay of the lane. */
  ghost predicate Aligned<S(!new)>(w: World<S>, c: Contribution<S>, delay: nat, sizes: seq<nat>, port: int -> Frame) {
    forall j :: delay <= j < |Heard(w, c, port, delay, sizes)| ==> Heard(w, c, port, delay, sizes)[j] == port(RackStart(w, c) + j - delay)
  }

  /** What a scope rack hears is what was carried at the same time, whatever that was, exactly when a block begins
      where the rack begins, as long as anything was heard at all. */
  lemma AlignedExactly<S(!new)>(w: World<S>, c: Contribution<S>, delay: nat, sizes: seq<nat>)
    ensures (forall port: int -> Frame :: Aligned(w, c, delay, sizes, port))
            <==> ScopeLength(w, c, w.entry + Total(sizes)) <= delay || BlockOf(w, sizes, RackStart(w, c)).0 == RackStart(w, c)
  {
    hide Fed, Held, Heard, BlockOf, ScopeLength;
    var begins := BlockOf(w, sizes, RackStart(w, c)).0 == RackStart(w, c);
    forall port: int -> Frame
      ensures begins || ScopeLength(w, c, w.entry + Total(sizes)) <= delay ==> Aligned(w, c, delay, sizes, port)
    {
      HeardAt(w, c, port, delay, sizes);
    }
    if !begins && ScopeLength(w, c, w.entry + Total(sizes)) > delay {
      var clock: int -> Frame := k => [k as real];
      HeardAt(w, c, clock, delay, sizes);
      var begin, heard := BlockOf(w, sizes, RackStart(w, c)).0, Heard(w, c, clock, delay, sizes);
      assert heard[delay] == clock(begin + delay - delay) == [begin as real];
      assert heard[delay] != clock(RackStart(w, c) + delay - delay);
      assert !Aligned(w, c, delay, sizes, clock);
    }
  }

  lemma HeardAt<S(!new)>(w: World<S>, c: Contribution<S>, port: int -> Frame, delay: nat, sizes: seq<nat>)
    ensures var (begin, end) := BlockOf(w, sizes, RackStart(w, c));
            var heard := Heard(w, c, port, delay, sizes);
            && |heard| == ScopeLength(w, c, w.entry + Total(sizes))
            && (|heard| > delay ==> begin <= RackStart(w, c) < end)
            && forall j :: delay <= j < |heard| ==>
                 heard[j] == if RackStart(w, c) + j - delay < end then port(begin + j - delay) else port(RackStart(w, c) + j - delay)
  {
    hide Fed, Held, Heard, BlockOf, ScopeLength;
    HeardIsDelayed(w, c, port, delay, sizes);
    FedAt(w, c, port, sizes);
    var fed, heard := Fed(w, c, port, sizes), Heard(w, c, port, delay, sizes);
    forall j | delay <= j < |heard|
      ensures heard[j] == fed[j - delay]
    {
      Delay.EmittedIsShift(delay, Silence(w.schedule.channels), fed, j);
    }
  }

  /** So PCM depends on the partition into blocks: of two samples whose second one begins a clip, one block lets its
      rack hear the first, two blocks the second. */
  lemma PartitionIsHeard<S(!new)>(w: World<S>, c: Contribution<S>, port: int -> Frame)
    requires c.start == w.entry + 1 && (c.executionEnd.Some? ==> c.executionEnd.value >= w.entry + 2)
    ensures Heard(w, c, port, 0, [2]) == [port(w.entry)] && Heard(w, c, port, 0, [1, 1]) == [port(w.entry + 1)]
  {
    hide Held, Heard, FedBlock;
    HeardIsDelayed(w, c, port, 0, [2]);
    HeardIsDelayed(w, c, port, 0, [1, 1]);
    OneBlock(w, c, port, 2);
    OneBlock(w, c, port, 1);
    assert [1, 1][..1] == [1];
    BeginsInside(c, port, w.entry);
  }

  lemma OneBlock<S(!new)>(w: World<S>, c: Contribution<S>, port: int -> Frame, n: nat)
    ensures Total([n]) == n && Fed(w, c, port, [n]) == FedBlock(c, port, w.entry, n)
  {
    hide FedBlock;
    assert [n][..0] == [];
  }

  lemma BeginsInside<S(!new)>(c: Contribution<S>, port: int -> Frame, e: int)
    requires c.start == e + 1 && (c.executionEnd.Some? ==> c.executionEnd.value >= e + 2)
    ensures FedBlock(c, port, e, 2) == [port(e)] && FedBlock(c, port, e, 1) == [] && FedBlock(c, port, e + 1, 1) == [port(e + 1)]
  {}

  /** One sidechain without compensation at unity gain, into the only bus of a processor. */
  function Keyed(): Binding { Binding(0, Constant(1.0), 0, 0) }

  /** What a processor that plays its detector makes of the executing part of one block. */
  ghost function PlayedBlock<S(!new)>(c: Contribution<S>, port: int -> Frame, channels: nat, e: int, n: nat, main: seq<Frame>): seq<Frame> {
    var heads := FedBlock(c, port, e, n);
    Witness.Copied(main, MixedBlock([Keyed()], 1, [[]], [heads], channels, e, |heads|))
  }

  lemma PlaysWhatIsFed<S(!new)>(c: Contribution<S>, port: int -> Frame, channels: nat, e: int, n: nat, main: seq<Frame>)
    requires |main| == |FedBlock(c, port, e, n)| && forall k: int :: |port(k)| == channels
    ensures PlayedBlock(c, port, channels, e, n, main) == FedBlock(c, port, e, n)
  {
    var heads, bindings, lanes := FedBlock(c, port, e, n), [Keyed()], [[]];
    var played := PlayedBlock(c, port, channels, e, n, main);
    forall i: nat | i < |heads|
      ensures played[i] == heads[i]
    {
      var delayed := Delay.Emitted(lanes[0], heads)[i];
      assert delayed == heads[i] == port(e + i);
      assert MixedLane(bindings, lanes, [heads], channels, 0, 0, e, i) == Silence(channels);
      assert MixedLane(bindings, lanes, [heads], channels, 1, 0, e, i) == Add(Silence(channels), Scale(delayed, 1.0));
      assert Add(Silence(channels), Scale(delayed, 1.0)) == delayed;
    }
  }

  /** And such a clip plays one or the other. */
  lemma PartitionIsPlayed<S(!new)>(w: World<S>, c: Contribution<S>, port: int -> Frame, source: Frame)
    requires c.start == w.entry + 1 && (c.executionEnd.Some? ==> c.executionEnd.value >= w.entry + 2)
    requires forall k: int :: |port(k)| == w.schedule.channels
    ensures PlayedBlock(c, port, w.schedule.channels, w.entry, 2, [source]) == [port(w.entry)]
    ensures PlayedBlock(c, port, w.schedule.channels, w.entry, 1, []) == []
    ensures PlayedBlock(c, port, w.schedule.channels, w.entry + 1, 1, [source]) == [port(w.entry + 1)]
  {
    hide FedBlock, PlayedBlock;
    BeginsInside(c, port, w.entry);
    PlaysWhatIsFed(c, port, w.schedule.channels, w.entry, 2, [source]);
    PlaysWhatIsFed(c, port, w.schedule.channels, w.entry, 1, []);
    PlaysWhatIsFed(c, port, w.schedule.channels, w.entry + 1, 1, [source]);
  }
}
