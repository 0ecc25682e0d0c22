/** A nested public output as a pull source: a window of child PCM that must agree
    with the child's stream at every demanded frame. */
module NestedSource {
  import opened Frames
  import opened Processors
  import opened SourceFrames
  import opened Schedule
  import opened Render
  import opened Historyless
  import opened Session
  import opened Playback

  datatype SourceError =
    | BlockTooLarge
    | OutputSizeMismatch
    | UnsupportedDirection
    | EpochExhausted
    | Canceled
    | ChildFailed(error: RenderError)

  /** An error that is not one of the demand: the reader gave up, there is no epoch left to enter, or the child failed. */
  ghost predicate IsChildError(error: SourceError, canceled: bool, nextEpoch: nat) {
    match error
    case Canceled => canceled
    case EpochExhausted => nextEpoch == 0xFFFF_FFFF_FFFF_FFFF
    case ChildFailed(_) => true
    case _ => false
  }

  // ------------------------------------------------------------------ demands

  /** Demands that are not silent never go back, neither in the block nor behind `last`. */
  ghost predicate NonDecreasing(last: Option<int>, demand: seq<int>) {
    && (last.Some? ==> forall i :: 0 <= i < |demand| && demand[i] >= 0 ==> last.value <= demand[i])
    && (forall i, j :: 0 <= i < j < |demand| && demand[i] >= 0 && demand[j] >= 0 ==> demand[i] <= demand[j])
  }

  /** The last demanded frame so far. */
  function LastDemand(last: Option<int>, demand: seq<int>): (latest: Option<int>)
    ensures latest == last || exists i :: 0 <= i < |demand| && demand[i] >= 0 && latest == Some(demand[i])
    ensures (forall i :: 0 <= i < |demand| ==> demand[i] < 0) ==> latest == last
    ensures forall i :: 0 <= i < |demand| && demand[i] >= 0 && (forall j :: i < j < |demand| ==> demand[j] < 0) ==> latest == Some(demand[i])
    decreases |demand|
  {
    if |demand| == 0 then last
    else if demand[|demand| - 1] >= 0 then Some(demand[|demand| - 1])
    else LastDemand(last, demand[..|demand| - 1])
  }

  method ValidateDemandOrder(last: Option<int>, demand: seq<int>) returns (ok: bool)
    ensures ok <==> NonDecreasing(last, demand)
  {
    var previous := last;
    for i := 0 to |demand|
      invariant NonDecreasing(last, demand[..i])
      invariant previous.None? ==> last.None? && forall j :: 0 <= j < i ==> demand[j] < 0
      invariant previous.Some? ==> previous == last || exists j :: 0 <= j < i && demand[j] >= 0 && previous.value == demand[j]
      invariant previous.Some? && last.Some? ==> last.value <= previous.value
      invariant previous.Some? ==> forall j :: 0 <= j < i && demand[j] >= 0 ==> demand[j] <= previous.value
    {
      if demand[i] >= 0 {
        if previous.Some? && demand[i] < previous.value {
          return false;
        }
        previous := Some(demand[i]);
      }
    }
    assert demand[..|demand|] == demand;
    ok := true;
  }

  ghost predicate Demanding(demand: seq<int>, order: seq<nat>) {
    forall k :: 0 <= k < |order| ==> order[k] < |demand| && demand[order[k]] >= 0
  }

  ghost predicate Ascending(demand: seq<int>, order: seq<nat>)
    requires Demanding(demand, order)
  {
    forall k, l :: 0 <= k < l < |order| ==> demand[order[k]] <= demand[order[l]]
  }

  ghost predicate Covers(demand: seq<int>, n: nat, order: seq<nat>)
    requires n <= |demand|
  {
    forall i: nat :: i < n && demand[i] >= 0 ==> i in order
  }

  /** The output frames with a demand, in the order of the frames they demand. */
  method OrderOutputs(demand: seq<int>) returns (order: seq<nat>)
    ensures Demanding(demand, order) && Ascending(demand, order) && Covers(demand, |demand|, order)
  {
    order := [];
    for i := 0 to |demand|
      invariant Demanding(demand, order) && Ascending(demand, order) && Covers(demand, i, order)
    {
      if demand[i] >= 0 {
        order := Insert(demand, i, order);
      }
    }
  }

  method Insert(demand: seq<int>, i: nat, order: seq<nat>) returns (longer: seq<nat>)
    requires i < |demand| && demand[i] >= 0
    requires Demanding(demand, order) && Ascending(demand, order) && Covers(demand, i, order)
    ensures Demanding(demand, longer) && Ascending(demand, longer) && Covers(demand, i + 1, longer)
  {
    hide Ascending, Covers;
    var at: nat := |order|;
    while at > 0 && demand[i] < demand[order[at - 1]]
      invariant at <= |order|
      invariant at < |order| ==> demand[i] < demand[order[at]]
    {
      at := at - 1;
    }
    InsertKeepsOrder(demand, i, order, at);
    InsertCovers(demand, i, order, at);
    longer := order[..at] + [i] + order[at..];
  }

  lemma InsertKeepsOrder(demand: seq<int>, i: nat, order: seq<nat>, at: nat)
    requires i < |demand| && demand[i] >= 0 && at <= |order| && Demanding(demand, order) && Ascending(demand, order)
    requires at > 0 ==> demand[order[at - 1]] <= demand[i]
    requires at < |order| ==> demand[i] <= demand[order[at]]
    ensures Demanding(demand, order[..at] + [i] + order[at..]) && Ascending(demand, order[..at] + [i] + order[at..])
  {
    var longer := order[..at] + [i] + order[at..];
    assert forall k {:trigger longer[k]} :: 0 <= k < |longer| ==> longer[k] == if k < at then order[k] else if k == at then i else order[k - 1];
    forall k, l | 0 <= k < l < |longer|
      ensures demand[longer[k]] <= demand[longer[l]]
    {}
  }

  lemma InsertCovers(demand: seq<int>, i: nat, order: seq<nat>, at: nat)
    requires i < |demand| && at <= |order| && Covers(demand, i, order)
    ensures Covers(demand, i + 1, order[..at] + [i] + order[at..])
  {
    assert order == order[..at] + order[at..];
  }

  // ------------------------------------------------------------------ the window

  class NestedRuntimeSource<S(!new)> {
    const child: AudioRenderSession<S>
    const read: SourceRead
    const cache: array<Frame>
    const blockCapacity: nat
    var cacheStart: Option<int>
    var nextSample: Option<int>
    var nextEpoch: nat
    var lastDemanded: Option<int>
    /** How often the child was entered since continuity began. */
    ghost var entries: nat
    /** No read of a child without declared state failed so far. */
    ghost var trusted: bool

    ghost predicate Valid()
      reads this, child, cache
    {
      && Consistent() && (nextSample.Some? ==> cacheStart.Some?)
      && (if lastDemanded.Some? then NotPassed(lastDemanded.value) else child.schedule.requiresStateEntry ==> cacheStart.None?)
    }

    ghost predicate Consistent()
      reads this`cacheStart, this`nextSample, this`nextEpoch, this`trusted, child, cache
    {
      && child.Valid() && SourceAgrees(read, child.signal, child.schedule.channels)
      && cache.Length > 0
      && (child.continuity.Unentered? || child.continuity.epoch < nextEpoch) && nextEpoch <= U64_MAX
      && (if child.schedule.requiresStateEntry then StatefulWindow() else nextSample.None?)
      && (trusted ==> Healthy()) && (child.schedule.requiresStateEntry ==> trusted)
      && (cacheStart.Some? && trusted ==> Cached())
    }

    /** An entered child stands right behind the window. */
    ghost predicate StatefulWindow()
      reads this`cacheStart, this`nextSample, child
    {
      && (nextSample.Some? ==>
            child.continuity.Active? && child.continuity.nextPublic == nextSample.value && child.entry <= nextSample.value)
      && (cacheStart.Some? ==>
            nextSample == Some(cacheStart.value + cache.Length) && child.entry <= cacheStart.value)
    }

    /** The window of a child with history did not move past `frame`. */
    ghost predicate NotPassed(frame: int)
      reads this`cacheStart
    {
      child.schedule.requiresStateEntry && cacheStart.Some? ==> cacheStart.value <= frame
    }

    /** No processor of a child without declared state has failed. */
    ghost predicate Healthy()
      reads child
    {
      child.schedule.requiresStateEntry || NoInstanceFailed(child.history)
    }

    ghost function Owed(frame: int): Frame
      requires child.schedule.WellFormed()
      reads child
    {
      OwedAt(child.schedule, child.signal, child.entry, frame)
    }

    ghost predicate Cached()
      requires cacheStart.Some? && child.schedule.WellFormed()
      reads this`cacheStart, child, cache
    {
      forall i :: 0 <= i < cache.Length ==> cache[i] == Owed(cacheStart.value + i)
    }

    predicate Holds(frame: int)
      reads this`cacheStart
    {
      cacheStart.Some? && cacheStart.value <= frame < cacheStart.value + cache.Length
    }

    constructor (child: AudioRenderSession<S>, read: SourceRead, cacheFrames: nat, blockCapacity: nat)
      requires child.Valid() && SourceAgrees(read, child.signal, child.schedule.channels)
      requires cacheFrames > 0 && child.continuity.Unentered? && NoInstanceFailed(child.history)
      ensures Valid() && this.child == child && this.read == read && this.blockCapacity == blockCapacity
      ensures cache.Length == cacheFrames && fresh(cache) && nextSample.None? && lastDemanded.None? && entries == 0 && trusted
    {
      this.child, this.read, this.blockCapacity := child, read, blockCapacity;
      cache := new Frame[cacheFrames](_ => []);
      cacheStart, nextSample, lastDemanded := None, None, None;
      nextEpoch, entries, trusted := 1, 0, true;
    }

    lemma ChildIsWellFormed()
      requires Consistent()
      ensures child.schedule.WellFormed()
    {}

    method BeginContinuity()
      requires Valid()
      modifies this
      ensures Valid() && nextSample.None? && lastDemanded.None? && entries == 0
      ensures nextEpoch == old(nextEpoch) && trusted == old(trusted)
    {
      hide NoInstanceFailed, SourceAgrees, OwedAt, Shaped, AllAligned, AudioRenderSession.Valid;
      cacheStart, nextSample, lastDemanded := None, None, None;
      entries := 0;
    }

    /** Have the child render a whole window. */
    method RenderChild(start: int) returns (failed: Option<RenderError>)
      requires Consistent() && (child.schedule.requiresStateEntry ==> nextSample == Some(start))
      modifies child, cache
      ensures child.Valid() && SourceAgrees(read, child.signal, child.schedule.channels) && child.entry == old(child.entry)
      ensures child.schedule.WellFormed() && (child.continuity.Unentered? || child.continuity.epoch < nextEpoch)
      ensures failed.None? && trusted ==> Healthy() && forall i :: 0 <= i < cache.Length ==> cache[i] == Owed(start + i)
      ensures failed.None? && child.schedule.requiresStateEntry ==>
                child.continuity.Active? && child.continuity.nextPublic == start + cache.Length && child.entry <= start
    {
      hide NoInstanceFailed, SourceAgrees, PublicAt, InstantAt, Shaped, AllAligned, Gapless, Stuck, NodesStuck, Explains, StatelessPlanRuns, Silence;
      failed := child.RenderInto(read, start, cache.Length, cache);
    }

    /** Replace the window by the child's PCM from `start` on. */
    method RenderCache(start: int, canceled: bool) returns (error: Option<SourceError>)
      requires Consistent() && (child.schedule.requiresStateEntry ==> nextSample == Some(start))
      modifies this`cacheStart, this`nextSample, this`trusted, child, cache
      ensures Consistent() && child.entry == old(child.entry)
      ensures error.Some? ==> cacheStart.None? && nextSample.None? && IsChildError(error.value, canceled, nextEpoch)
      ensures error == Some(Canceled) <==> canceled
      ensures error.None? ==> cacheStart == Some(start) && trusted == old(trusted)
      ensures error.None? && child.schedule.requiresStateEntry ==> nextSample == Some(start + cache.Length)
    {
      hide NoInstanceFailed, SourceAgrees, OwedAt, AudioRenderSession.Valid;
      cacheStart := None;
      if canceled {
        nextSample := None;
        return Some(Canceled);
      }
      var failed := RenderChild(start);
      if failed.Some? {
        nextSample, trusted := None, child.schedule.requiresStateEntry;
        return Some(ChildFailed(failed.value));
      }
      cacheStart := Some(start);
      if child.schedule.requiresStateEntry {
        nextSample := Some(start + cache.Length);
      }
      error := None;
    }

    /** Enter the child in an epoch it never saw. */
    method EnterChild(start: int) returns (error: Option<SourceError>)
      requires Consistent() && child.schedule.requiresStateEntry
      modifies this`nextEpoch, this`cacheStart, this`nextSample, this`entries, child
      ensures Consistent()
      ensures error.Some? ==> IsChildError(error.value, false, nextEpoch) && entries == old(entries) && (old(nextSample).None? ==> nextSample.None?)
      ensures error == Some(EpochExhausted) <==> old(nextEpoch) == 0xFFFF_FFFF_FFFF_FFFF
      ensures nextEpoch == if error == Some(EpochExhausted) then old(nextEpoch) else old(nextEpoch) + 1
      ensures error.None? ==> child.entry == start && nextSample == Some(start) && entries == old(entries) + 1
    {
      hide NoInstanceFailed, SourceAgrees, Shaped, AllAligned, Gapless, Stuck, NodesStuck, PlanEnters;
      if nextEpoch + 1 > U64_MAX {
        return Some(EpochExhausted);
      }
      var epoch := nextEpoch;
      nextEpoch := nextEpoch + 1;
      cacheStart, nextSample := None, None;
      var failed := child.EnterState(epoch, start);
      if failed.Some? {
        return Some(ChildFailed(failed.value));
      }
      nextSample := Some(start);
      entries := entries + 1;
      error := None;
    }

    /** Make the window hold `frame`. A child with history is entered only when it was not yet entered;
        from then on it renders contiguous blocks. */
    method EnsureCached(frame: int, canceled: bool) returns (error: Option<SourceError>)
      requires Consistent() && NotPassed(frame) && (nextSample.Some? ==> cacheStart.Some?)
      modifies this`nextEpoch, this`cacheStart, this`nextSample, this`entries, this`trusted, child, cache
      ensures Consistent() && (nextSample.Some? ==> cacheStart.Some?)
      ensures error.None? ==> Holds(frame) && trusted == old(trusted)
      ensures old(Holds(frame)) ==> error.None?
      ensures canceled && !old(Holds(frame)) ==> error.Some?
      ensures error.None? && child.schedule.requiresStateEntry ==>
                if old(nextSample).Some? then child.entry == old(child.entry) && entries == old(entries)
                else child.entry == frame && entries == old(entries) + 1
      ensures !child.schedule.requiresStateEntry ==> child.entry == old(child.entry) && entries == old(entries)
      ensures error.Some? ==> IsChildError(error.value, canceled, nextEpoch) && (child.schedule.requiresStateEntry ==> cacheStart.None?)
    {
      hide NoInstanceFailed, SourceAgrees, OwedAt, Shaped, AllAligned;
      if Holds(frame) {
        return None;
      }
      if !child.schedule.requiresStateEntry {
        error := RenderCache(frame, canceled);
        return;
      }
      if nextSample.None? || frame < nextSample.value {
        error := EnterChild(frame);
        if error.Some? {
          return;
        }
      }
      error := RenderUpTo(frame, canceled);
    }

    method RenderUpTo(frame: int, canceled: bool) returns (error: Option<SourceError>)
      requires Consistent() && child.schedule.requiresStateEntry
      requires nextSample.Some? && nextSample.value <= frame
      modifies this`cacheStart, this`nextSample, this`trusted, child, cache
      ensures Consistent() && child.entry == old(child.entry) && trusted
      ensures error.None? ==> Holds(frame)
      ensures canceled ==> error.Some?
      ensures error.Some? ==> nextSample.None? && IsChildError(error.value, canceled, nextEpoch)
    {
      hide NoInstanceFailed, SourceAgrees, OwedAt, Shaped, AllAligned;
      error := None;
      while nextSample.Some? && frame >= nextSample.value
        invariant Consistent() && child.entry == old(child.entry)
        invariant error.None? && nextSample.Some?
        invariant frame < nextSample.value ==> Holds(frame) && !canceled
        decreases frame - nextSample.value
      {
        error := RenderCache(nextSample.value, canceled);
        if error.Some? {
          return;
        }
      }
    }

    /** Copy the demanded frames out of the window, in the order of the frames. */
    method FillOrdered(demand: seq<int>, order: seq<nat>, destination: array<Frame>, canceled: bool) returns (error: Option<SourceError>)
      requires Consistent() && (nextSample.Some? ==> cacheStart.Some?)
      requires destination != cache && destination.Length == |demand|
      requires Demanding(demand, order) && Ascending(demand, order)
      requires |order| > 0 ==> NotPassed(demand[order[0]])
      modifies this`nextEpoch, this`cacheStart, this`nextSample, this`entries, this`trusted, child, cache, destination
      ensures Consistent() && (nextSample.Some? ==> cacheStart.Some?)
      ensures error.Some? ==> IsChildError(error.value, canceled, nextEpoch) && (child.schedule.requiresStateEntry ==> cacheStart.None?)
      ensures forall i :: 0 <= i < |demand| && i !in order ==> destination[i] == old(destination[i])
      ensures error.None? ==>
                && trusted == old(trusted) && (|order| > 0 ==> Holds(demand[order[|order| - 1]]))
                && (|order| == 0 || !child.schedule.requiresStateEntry || old(nextSample).Some? ==>
                      child.entry == old(child.entry) && entries == old(entries))
                && (|order| > 0 && child.schedule.requiresStateEntry && old(nextSample).None? ==>
                      child.entry == demand[order[0]] && entries == old(entries) + 1)
                && (|order| == 0 ==> cacheStart == old(cacheStart) && nextSample == old(nextSample))
                && (|order| > 0 && child.schedule.requiresStateEntry ==> nextSample.Some?)
                && (trusted ==> forall i :: i in order ==> destination[i] == Owed(demand[i]))
    {
      hide NoInstanceFailed, SourceAgrees, OwedAt, Shaped, AllAligned;
      error := None;
      for k := 0 to |order|
        invariant Consistent() && (nextSample.Some? ==> cacheStart.Some?)
        invariant error.None? && trusted == old(trusted)
        invariant forall i :: 0 <= i < |demand| && i !in order ==> destination[i] == old(destination[i])
        invariant k == 0 ==> child.entry == old(child.entry) && entries == old(entries) && nextSample == old(nextSample) && cacheStart == old(cacheStart)
        invariant k > 0 ==> Holds(demand[order[k - 1]]) && (child.schedule.requiresStateEntry ==> nextSample.Some?)
        invariant !child.schedule.requiresStateEntry || old(nextSample).Some? ==> child.entry == old(child.entry) && entries == old(entries)
        invariant k > 0 && child.schedule.requiresStateEntry && old(nextSample).None? ==>
                    child.entry == demand[order[0]] && entries == old(entries) + 1
        invariant k < |order| ==> NotPassed(demand[order[k]])
        invariant trusted ==> forall j {:trigger order[j]} :: 0 <= j < k ==> destination[order[j]] == Owed(demand[order[j]])
      {
        var frame := demand[order[k]];
        error := EnsureCached(frame, canceled);
        if error.Some? {
          return;
        }
        destination[order[k]] := cache[frame - cacheStart.value];
      }
    }

    /** The part of a read behind its checks. */
    method ReadOrdered(demand: seq<int>, destination: array<Frame>, canceled: bool) returns (error: Option<SourceError>)
      requires Valid() && destination != cache && destination.Length == |demand|
      requires child.schedule.requiresStateEntry ==> NonDecreasing(lastDemanded, demand)
      modifies this, child, cache, destination
      ensures Valid()
      ensures error.Some? ==> IsChildError(error.value, canceled, nextEpoch) && lastDemanded == old(lastDemanded)
      ensures error.None? ==>
                && trusted == old(trusted) && lastDemanded == LastDemand(old(lastDemanded), demand)
                && EnteredOnce(demand, old(nextSample), old(child.entry), old(entries))
                && (trusted ==> forall i :: 0 <= i < |demand| ==>
                      destination[i] == if demand[i] < 0 then Silence(child.schedule.channels) else Owed(demand[i]))
    {
      hide Consistent, OwedAt, NonDecreasing, LastDemand, Ascending, Demanding, Covers, Demands, IsFirst, EnteredOnce;
      var order := OrderOutputs(demand);
      DemandsFollow(lastDemanded, demand, order);
      error := FillBlock(demand, order, destination, canceled);
      if error.None? {
        lastDemanded := LastDemand(lastDemanded, demand);
      }
    }

    method FillBlock(demand: seq<int>, order: seq<nat>, destination: array<Frame>, canceled: bool) returns (error: Option<SourceError>)
      requires Consistent() && (nextSample.Some? ==> cacheStart.Some?)
      requires destination != cache && destination.Length == |demand|
      requires Demanding(demand, order) && Ascending(demand, order) && Covers(demand, |demand|, order)
      requires |order| > 0 ==> NotPassed(demand[order[0]])
      modifies this`nextEpoch, this`cacheStart, this`nextSample, this`entries, this`trusted, child, cache, destination
      ensures Consistent() && (nextSample.Some? ==> cacheStart.Some?)
      ensures error.Some? ==> IsChildError(error.value, canceled, nextEpoch) && (child.schedule.requiresStateEntry ==> cacheStart.None?)
      ensures error.None? ==>
                && trusted == old(trusted)
                && (if |order| > 0 then Holds(demand[order[|order| - 1]]) else cacheStart == old(cacheStart))
                && EnteredOnce(demand, old(nextSample), old(child.entry), old(entries))
                && (trusted ==> forall i :: 0 <= i < |demand| ==>
                      destination[i] == if demand[i] < 0 then Silence(child.schedule.channels) else Owed(demand[i]))
    {
      hide Consistent, OwedAt, Ascending, Covers, IsFirst;
      forall i | 0 <= i < destination.Length {
        destination[i] := Silence(child.schedule.channels);
      }
      FirstIsLeast(demand, order);
      hide Demands;
      error := FillOrdered(demand, order, destination, canceled);
    }

    /** The child was entered by this read only if it had not been entered, at the first frame demanded of it. */
    ghost predicate EnteredOnce(demand: seq<int>, nextBefore: Option<int>, entryBefore: int, entriesBefore: nat)
      reads this`nextSample, this`entries, child`entry
    {
      if !child.schedule.requiresStateEntry || nextBefore.Some? || !Demands(demand)
      then child.entry == entryBefore && entries == entriesBefore && (child.schedule.requiresStateEntry ==> nextSample.Some? == nextBefore.Some?)
      else IsFirst(child.entry, demand) && entries == entriesBefore + 1 && nextSample.Some?
    }

    /** Deliver the demanded frames. Silence stands for negative demands; everything else is the child's stream. */
    method ReadIndexed(demand: seq<int>, destination: array<Frame>, canceled: bool) returns (error: Option<SourceError>)
      requires Valid() && destination != cache
      modifies this, child, cache, destination
      ensures Valid()
      ensures error == Some(SourceError.OutputSizeMismatch) <==> destination.Length != |demand|
      ensures error == Some(UnsupportedDirection) <==>
                destination.Length == |demand| && child.schedule.requiresStateEntry && !NonDecreasing(old(lastDemanded), demand)
      ensures error == Some(SourceError.BlockTooLarge) <==>
                && destination.Length == |demand| && (child.schedule.requiresStateEntry ==> NonDecreasing(old(lastDemanded), demand))
                && |demand| > blockCapacity
      ensures error.Some? ==> error.value.OutputSizeMismatch? || error.value.UnsupportedDirection? || error.value.BlockTooLarge? || IsChildError(error.value, canceled, nextEpoch)
      ensures error.Some? ==> lastDemanded == old(lastDemanded)
      ensures error.None? ==>
                && trusted == old(trusted) && lastDemanded == LastDemand(old(lastDemanded), demand)
                && EnteredOnce(demand, old(nextSample), old(child.entry), old(entries))
                && (trusted ==> forall i :: 0 <= i < |demand| ==>
                      destination[i] == if demand[i] < 0 then Silence(child.schedule.channels) else Owed(demand[i]))
    {
      hide Consistent, OwedAt, NonDecreasing, LastDemand, Ascending, EnteredOnce;
      if destination.Length != |demand| {
        return Some(SourceError.OutputSizeMismatch);
      }
      if child.schedule.requiresStateEntry {
        var ok := ValidateDemandOrder(lastDemanded, demand);
        if !ok {
          return Some(UnsupportedDirection);
        }
      }
      if |demand| > blockCapacity {
        return Some(SourceError.BlockTooLarge);
      }
      error := ReadOrdered(demand, destination, canceled);
    }
  }

  ghost predicate Demands(demand: seq<int>) {
    exists i :: 0 <= i < |demand| && demand[i] >= 0
  }

  ghost predicate IsFirst(frame: int, demand: seq<int>) {
    frame in demand && forall i :: 0 <= i < |demand| && demand[i] >= 0 ==> frame <= demand[i]
  }

  lemma FirstIsLeast(demand: seq<int>, order: seq<nat>)
    requires Demanding(demand, order) && Ascending(demand, order) && Covers(demand, |demand|, order)
    ensures |order| > 0 <==> Demands(demand)
    ensures |order| > 0 ==> IsFirst(demand[order[0]], demand)
    ensures forall i: nat :: i < |demand| ==> (i in order <==> demand[i] >= 0)
  {
    if |order| > 0 {
      forall i | 0 <= i < |demand| && demand[i] >= 0
        ensures demand[order[0]] <= demand[i]
      {
        assert i in order;
        var k :| 0 <= k < |order| && order[k] == i;
        assert k == 0 || demand[order[0]] <= demand[order[k]];
      }
    }
  }

  /** An ordered demand begins behind the last one and ends with its own last one. */
  lemma DemandsFollow(last: Option<int>, demand: seq<int>, order: seq<nat>)
    requires Demanding(demand, order) && Ascending(demand, order) && Covers(demand, |demand|, order)
    ensures NonDecreasing(last, demand) && last.Some? && |order| > 0 ==> last.value <= demand[order[0]]
    ensures NonDecreasing(last, demand) && |order| > 0 ==> LastDemand(last, demand) == Some(demand[order[|order| - 1]])
    ensures |order| == 0 ==> LastDemand(last, demand) == last
    ensures |order| > 0 ==> LastDemand(last, demand).Some?
  {
    hide LastDemand, NonDecreasing, Ascending;
    if |order| > 0 {
      var final := FinalDemand(demand, order[0]);
      FinalIsGreatest(last, demand, order, final);
    } else {
      assert forall i :: 0 <= i < |demand| ==> demand[i] < 0;
    }
  }

  lemma FinalIsGreatest(last: Option<int>, demand: seq<int>, order: seq<nat>, final: nat)
    requires Demanding(demand, order) && Ascending(demand, order) && Covers(demand, |demand|, order) && |order| > 0
    requires final < |demand| && demand[final] >= 0 && forall j :: final < j < |demand| ==> demand[j] < 0
    ensures NonDecreasing(last, demand) && last.Some? ==> last.value <= demand[order[0]]
    ensures NonDecreasing(last, demand) ==> demand[final] == demand[order[|order| - 1]]
  {
    assert final in order;
    var k :| 0 <= k < |order| && order[k] == final;
    var greatest := order[|order| - 1];
    assert demand[order[k]] <= demand[greatest];
    assert greatest <= final;
  }

  lemma {:induction false} FinalDemand(demand: seq<int>, from: nat) returns (final: nat)
    requires from < |demand| && demand[from] >= 0
    ensures from <= final < |demand| && demand[final] >= 0 && forall j :: final < j < |demand| ==> demand[j] < 0
  {
    final := |demand| - 1;
    while demand[final] < 0
      invariant from <= final < |demand|
      invariant forall j :: final < j < |demand| ==> demand[j] < 0
      decreases final
    {
      final := final - 1;
    }
  }

  ghost predicate Answers<S(!new)>(source: NestedRuntimeSource<S>, demand: seq<int>, pcm: seq<Frame>)
    reads source.child
  {
    source.child.schedule.WellFormed() && AnswersFrom(source.child.schedule, source.child.signal, source.child.entry, demand, pcm)
  }

  /** The frames of one stream at the demands, silence at negative ones. */
  ghost predicate AnswersFrom<S(!new)>(s: Schedule<S>, signal: (nat, int) -> Frame, entry: int, demand: seq<int>, pcm: seq<Frame>)
    requires s.WellFormed()
  {
    && |pcm| == |demand|
    && forall i :: 0 <= i < |demand| ==> pcm[i] == if demand[i] < 0 then Silence(s.channels) else OwedAt(s, signal, entry, demand[i])
  }

  lemma AnswersJoin<S(!new)>(s: Schedule<S>, signal: (nat, int) -> Frame, before: int, entry: int, a: seq<int>, pcmA: seq<Frame>, b: seq<int>, pcmB: seq<Frame>)
    requires s.WellFormed() && AnswersFrom(s, signal, before, a, pcmA) && AnswersFrom(s, signal, entry, b, pcmB)
    requires entry == before || !Demands(a)
    ensures AnswersFrom(s, signal, entry, a + b, pcmA + pcmB)
  {
    hide OwedAt, Schedule.WellFormed;
  }

  lemma DemandsJoin(a: seq<int>, b: seq<int>)
    ensures Demands(a + b) <==> Demands(a) || Demands(b)
  {
    if i :| 0 <= i < |a| && a[i] >= 0 {
      assert (a + b)[i] >= 0;
    }
    if i :| 0 <= i < |b| && b[i] >= 0 {
      assert (a + b)[|a| + i] >= 0;
    }
  }

  /** What the stream of an entered child answers to any demand: as a read that an outer Session can be given. */
  ghost function OwedRead<S(!new)>(s: Schedule<S>, signal: (nat, int) -> Frame, entry: int): SourceRead
    requires s.WellFormed()
  {
    (k: nat, demand: seq<int>) => Some(seq(|demand|, i requires 0 <= i < |demand| =>
      if demand[i] < 0 then Silence(s.channels) else OwedAt(s, signal, entry, demand[i])))
  }

  /** It never fails and agrees with the child's stream as the signal of every contribution. */
  lemma OwedServes<S(!new)>(s: Schedule<S>, signal: (nat, int) -> Frame, entry: int)
    requires s.WellFormed()
    ensures SourceAgrees(OwedRead(s, signal, entry), (k, f) => OwedAt(s, signal, entry, f), s.channels)
    ensures Reliable(OwedRead(s, signal, entry))
  {
    hide OwedAt;
  }

  lemma AnswersAreOwed<S(!new)>(source: NestedRuntimeSource<S>, demand: seq<int>, pcm: seq<Frame>, k: nat)
    requires Answers(source, demand, pcm)
    ensures OwedRead(source.child.schedule, source.child.signal, source.child.entry)(k, demand) == Some(pcm)
  {
    hide OwedAt;
    var read := OwedRead(source.child.schedule, source.child.signal, source.child.entry)(k, demand);
    assert read.value == pcm;
  }

  /** All reads of one continuity: however the demand is cut into calls, the child is entered at most
      once and every frame that was answered belongs to that one stream. So the calls cannot be told from
      one read without state, which serves an outer Session. */
  method ReadCalls<S(!new)>(source: NestedRuntimeSource<S>, calls: seq<seq<int>>) returns (error: Option<SourceError>, answers: seq<seq<Frame>>)
    requires source.Valid() && source.trusted
    requires source.nextSample.None? && source.lastDemanded.None? && source.entries == 0
    modifies source, source.child, source.cache
    ensures source.Valid()
    ensures error.None? ==>
              && |answers| == |calls| && source.entries <= 1
              && source.child.schedule.WellFormed()
              && forall c, k: nat :: 0 <= c < |calls| ==>
                   OwedRead(source.child.schedule, source.child.signal, source.child.entry)(k, calls[c]) == Some(answers[c])
  {
    hide NestedRuntimeSource.Consistent, OwedAt, NonDecreasing, LastDemand, OwedRead, AnswersFrom, Demands, IsFirst;
    error, answers := None, [];
    source.ChildIsWellFormed();
    ghost var s, signal := source.child.schedule, source.child.signal;
    for c := 0 to |calls|
      invariant s.WellFormed() && source.Valid() && source.trusted && |answers| == c
      invariant source.entries == if s.requiresStateEntry && source.nextSample.Some? then 1 else 0
      invariant s.requiresStateEntry && source.nextSample.None? ==> forall b :: 0 <= b < c ==> !Demands(calls[b])
      invariant !s.requiresStateEntry ==> source.nextSample.None? || source.entries == 0
      invariant forall b :: 0 <= b < c ==> AnswersFrom(s, signal, source.child.entry, calls[b], answers[b])
    {
      ghost var entry := source.child.entry;
      var answer;
      error, answer := ReadCall(source, calls[c]);
      if error.Some? {
        return;
      }
      forall b | 0 <= b < c
        ensures AnswersFrom(s, signal, source.child.entry, calls[b], answers[b])
      {
        SilenceAnswers(s, signal, entry, source.child.entry, calls[b], answers[b]);
      }
      answers := answers + [answer];
    }
    forall c, k: nat | 0 <= c < |calls|
      ensures OwedRead(source.child.schedule, source.child.signal, source.child.entry)(k, calls[c]) == Some(answers[c])
    {
      AnswersAreOwed(source, calls[c], answers[c], k);
    }
  }

  /** One read of the continuity. */
  method ReadCall<S(!new)>(source: NestedRuntimeSource<S>, demand: seq<int>) returns (error: Option<SourceError>, answer: seq<Frame>)
    requires source.Valid() && source.trusted
    modifies source, source.child, source.cache
    ensures source.Valid() && source.child.schedule.WellFormed()
    ensures error.None? ==>
              && source.trusted && source.EnteredOnce(demand, old(source.nextSample), old(source.child.entry), old(source.entries))
              && AnswersFrom(source.child.schedule, source.child.signal, source.child.entry, demand, answer)
  {
    hide NestedRuntimeSource.Consistent, OwedAt, NonDecreasing, LastDemand, AnswersFrom, NestedRuntimeSource.EnteredOnce;
    var destination := new Frame[|demand|](_ => []);
    error := source.ReadIndexed(demand, destination, false);
    answer := destination[..];
    source.ChildIsWellFormed();
    if error.None? {
      AnswersHere(source, demand, answer);
    }
  }

  /** A call that demands nothing is answered by any stream. */
  lemma SilenceAnswers<S(!new)>(s: Schedule<S>, signal: (nat, int) -> Frame, before: int, entry: int, demand: seq<int>, pcm: seq<Frame>)
    requires s.WellFormed() && AnswersFrom(s, signal, before, demand, pcm) && (entry == before || !Demands(demand))
    ensures AnswersFrom(s, signal, entry, demand, pcm)
  {
    hide OwedAt, Schedule.WellFormed;
  }

  // ------------------------------------------------------------------ a live child inside the blocks of another Session

  /** The world of a Session whose contributions all play that child. */
  ghost function ChildWorld<S(!new), T(!new)>(s: Schedule<T>, source: NestedRuntimeSource<S>, entry: int): World<T>
    requires source.child.schedule.WellFormed()
    reads source.child
  {
    var child, signal, from := source.child.schedule, source.child.signal, source.child.entry;
    World(s, (k, f) => OwedAt(child, signal, from, f), entry)
  }

  /** What a placement demands of its source over a run of blocks. */
  ghost predicate Demanded<T(!new)>(s: Schedule<T>, k: nat, start: int, demand: seq<int>)
    requires s.WellFormed() && k < |s.contributions|
  {
    assert s.ContributionInPlace(k);
    var c := s.contributions[k];
    forall i :: 0 <= i < |demand| ==> demand[i] == Demand(c.timeMap, s.rate, c.start, c.end, start + i)
  }

  lemma AnswersAreSource<S(!new), T(!new)>(s: Schedule<T>, k: nat, start: int, source: NestedRuntimeSource<S>, entry: int, demand: seq<int>, pcm: seq<Frame>)
    requires s.WellFormed() && k < |s.contributions| && Demanded(s, k, start, demand)
    requires Answers(source, demand, pcm) && s.channels == source.child.schedule.channels
    ensures forall i :: 0 <= i < |pcm| ==> pcm[i] == SourceAt(ChildWorld(s, source, entry), k, start + i)
  {
    hide OwedAt, Schedule.WellFormed;
    assert s.ContributionInPlace(k) by {
      InItsPlace(s, k);
    }
  }

  lemma InItsPlace<T(!new)>(s: Schedule<T>, k: nat)
    requires s.WellFormed() && k < |s.contributions|
    ensures s.ContributionInPlace(k) && s.rate > 0 && s.contributions[k].timeMap.Valid()
  {}

  /** Of all these demands of one continuity the child was entered for the first one that is not silent. */
  ghost predicate Asked<S(!new)>(source: NestedRuntimeSource<S>, demanded: seq<int>)
    reads source, source.child
  {
    && source.entries == (if source.child.schedule.requiresStateEntry && source.nextSample.Some? then 1 else 0)
    && (source.child.schedule.requiresStateEntry && source.nextSample.None? ==> !Demands(demanded))
    && (!source.child.schedule.requiresStateEntry ==> source.nextSample.None? || source.entries == 0)
  }

  /** One more read of the live child leaves all earlier answers true. */
  method ReadMore<S(!new)>(source: NestedRuntimeSource<S>, ghost demanded: seq<int>, ghost answered: seq<Frame>, demand: seq<int>)
    returns (error: Option<SourceError>, block: seq<Frame>)
    requires source.Valid() && source.trusted && Asked(source, demanded) && Answers(source, demanded, answered)
    modifies source, source.child, source.cache
    ensures source.Valid()
    ensures error.None? ==>
              && source.trusted && |block| == |demand|
              && Asked(source, demanded + demand) && Answers(source, demanded + demand, answered + block)
  {
    hide NestedRuntimeSource.Consistent, OwedAt, NonDecreasing, LastDemand, Demands, AnswersFrom, Schedule.WellFormed, IsFirst;
    var destination := new Frame[|demand|](_ => []);
    ghost var entry := source.child.entry;
    error := source.ReadIndexed(demand, destination, false);
    block := destination[..];
    if error.None? {
      DemandsJoin(demanded, demand);
      assert source.child.entry != entry ==> !Demands(demanded);
      assert Answers(source, demand, block) by {
        AnswersHere(source, demand, block);
      }
      AnswersJoin(source.child.schedule, source.child.signal, entry, source.child.entry, demanded, answered, demand, block);
    }
  }

  lemma AnswersHere<S(!new)>(source: NestedRuntimeSource<S>, demand: seq<int>, pcm: seq<Frame>)
    requires source.Valid() && |pcm| == |demand|
    requires forall i :: 0 <= i < |demand| ==> pcm[i] == if demand[i] < 0 then Silence(source.child.schedule.channels) else source.Owed(demand[i])
    ensures Answers(source, demand, pcm)
  {
    hide OwedAt, NestedRuntimeSource.Consistent;
    source.ChildIsWellFormed();
  }

  lemma SilentMore<S(!new)>(source: NestedRuntimeSource<S>, demanded: seq<int>, answered: seq<Frame>, demand: seq<int>, block: seq<Frame>)
    requires Asked(source, demanded) && Answers(source, demanded, answered) && |block| == |demand|
    requires forall i :: 0 <= i < |demand| ==> demand[i] < 0 && block[i] == Silence(source.child.schedule.channels)
    ensures Asked(source, demanded + demand) && Answers(source, demanded + demand, answered + block)
  {
    hide OwedAt;
  }

  lemma DemandsMore<T(!new)>(s: Schedule<T>, k: nat, start: int, demanded: seq<int>, demand: seq<int>)
    requires s.WellFormed() && k < |s.contributions| && s.ContributionInPlace(k) && Demanded(s, k, start, demanded)
    requires var c := s.contributions[k];
             forall i :: 0 <= i < |demand| ==> demand[i] == Demand(c.timeMap, s.rate, c.start, c.end, start + |demanded| + i)
    ensures Demanded(s, k, start, demanded + demand)
  {
    hide Schedule.WellFormed;
  }

  /** Block by block, as `ReadContribution` does with a source that holds no state: only blocks that meet the placement
      ask the live child, and whatever blocks the outer Session renders, all their source PCM is that of the one world
      in which the stream of the child is the signal. */
  method ReadLiveBlocks<S(!new), T(!new)>(s: Schedule<T>, k: nat, start: int, sizes: seq<nat>, source: NestedRuntimeSource<S>)
    returns (error: Option<SourceError>, pcm: seq<Frame>)
    requires s.WellFormed() && k < |s.contributions| && s.channels == source.child.schedule.channels
    requires source.Valid() && source.trusted && source.nextSample.None? && source.lastDemanded.None? && source.entries == 0
    modifies source, source.child, source.cache
    ensures source.Valid()
    ensures error.None? ==>
              && source.entries <= 1 && source.child.schedule.WellFormed() && |pcm| == Total(sizes)
              && forall i :: 0 <= i < |pcm| ==> pcm[i] == SourceAt(ChildWorld(s, source, start), k, start + i)
  {
    hide NestedRuntimeSource.Valid, OwedAt, Schedule.WellFormed, Demanded, Demands, Answers, Asked;
    error, pcm := None, [];
    InItsPlace(s, k);
    var c := s.contributions[k];
    ghost var demanded: seq<int> := [];
    NothingAsked(s, k, start, source);
    for b := 0 to |sizes|
      invariant source.Valid() && source.trusted && |pcm| == |demanded| == Total(sizes[..b])
      invariant Demanded(s, k, start, demanded) && Asked(source, demanded) && Answers(source, demanded, pcm)
    {
      assert sizes[..b + 1][..b] == sizes[..b];
      var demand := new int[sizes[b]](_ => -1);
      var active := PrepareSourceFrames(c.timeMap, s.rate, c.start, c.end, start + |pcm|, demand);
      DemandsMore(s, k, start, demanded, demand[..]);
      var block := seq(sizes[b], _ => Silence(s.channels));
      if active {
        error, block := ReadMore(source, demanded, pcm, demand[..]);
        if error.Some? {
          return;
        }
      } else {
        SilentMore(source, demanded, pcm, demand[..], block);
      }
      pcm := pcm + block;
      demanded := demanded + demand[..];
    }
    assert sizes[..|sizes|] == sizes;
    EntersOnce(source, demanded, pcm);
    AnswersAreSource(s, k, start, source, start, demanded, pcm);
  }

  lemma NothingAsked<S(!new), T(!new)>(s: Schedule<T>, k: nat, start: int, source: NestedRuntimeSource<S>)
    requires s.WellFormed() && k < |s.contributions|
    requires source.Valid() && source.nextSample.None? && source.entries == 0
    ensures Demanded(s, k, start, []) && Asked(source, []) && Answers(source, [], [])
  {
    source.ChildIsWellFormed();
  }

  lemma EntersOnce<S(!new)>(source: NestedRuntimeSource<S>, demanded: seq<int>, answered: seq<Frame>)
    requires Asked(source, demanded) && Answers(source, demanded, answered)
    ensures source.entries <= 1 && source.child.schedule.WellFormed()
  {}
}
