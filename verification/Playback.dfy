/** Whole runs of a Session: any partition into blocks, and the continuity machine over any history of calls. */
module Playback {
  import opened Frames
  import opened Graph
  import opened Processors
  import opened Schedule
  import opened Host
  import opened Alignment
  import opened Render
  import opened Historyless
  import opened Session

  // ------------------------------------------------------------------ block partitions

  ghost function Total(sizes: seq<nat>): nat {
    if |sizes| == 0 then 0 else Total(sizes[..|sizes| - 1]) + sizes[|sizes| - 1]
  }

  /** What a caller is owed for sample `p`, however it asks: within an epoch the stream that began at
      its entry, without history the instantaneous output. */
  ghost function OwedAt<S(!new)>(s: Schedule<S>, signal: (nat, int) -> Frame, entry: int, p: int): Frame
    requires s.WellFormed()
  {
    if s.requiresStateEntry then PublicAt(World(s, signal, entry), p) else InstantAt(s, signal, p)
  }

  lemma {:induction false} TotalGrows(sizes: seq<nat>, b: nat)
    requires b <= |sizes|
    ensures Total(sizes[..b]) <= Total(sizes)
    decreases |sizes|
  {
    if b < |sizes| {
      TotalGrows(sizes[..|sizes| - 1], b);
      assert sizes[..|sizes| - 1][..b] == sizes[..b];
    } else {
      assert sizes[..b] == sizes;
    }
  }

  /** The Session may continue at `start`. */
  ghost predicate StandsAt<S(!new)>(session: AudioRenderSession<S>, start: int)
    reads session
  {
    session.schedule.requiresStateEntry ==> session.continuity.Active? && session.continuity.nextPublic == start
  }

  /** Why a run of blocks ended early: a read or a processor that fails, a block over the prepared maximum,
      or a counter at the end of its range. */
  ghost predicate Justified<S(!new)>(s: Schedule<S>, read: SourceRead, start: int, sizes: seq<nat>, meterSerial: nat, error: RenderError) {
    match error
    case BlockTooLarge => exists b :: 0 <= b < |sizes| && sizes[b] > s.maxBlock
    case BufferTooLarge => start + Total(sizes) + s.lookahead > I64_MAX
    case MeterSerialExhausted => meterSerial + |sizes| > U64_MAX
    case ExecutionFailed(status) => (status.SourceUnavailable? && !Reliable(read)) || (status.ProcessorFailed? && !PlanRuns(s))
    case _ => false
  }

  lemma RejectionJustified<S(!new)>(s: Schedule<S>, read: SourceRead, continuity: Continuity, start: int, sizes: seq<nat>, b: nat, meterSerial: nat)
    requires s.WellFormed() && b < |sizes|
    requires s.requiresStateEntry ==> continuity.Active? && continuity.nextPublic == start + Total(sizes[..b])
    ensures var rejection := Rejection(s, continuity, start + Total(sizes[..b]), sizes[b], sizes[b]);
            rejection.Some? ==> Justified(s, read, start, sizes, meterSerial, rejection.value)
  {
    TotalGrows(sizes, b + 1);
    assert sizes[..b + 1][..b] == sizes[..b];
  }

  lemma ErrorJustified<S(!new)>(s: Schedule<S>, read: SourceRead, before: History<S>, after: History<S>, start: int, sizes: seq<nat>, b: nat,
                                meterSerial: nat, serial: nat, error: RenderError)
    requires b < |sizes| && serial == meterSerial + b
    requires error in {BufferTooLarge, MeterSerialExhausted, ExecutionFailed(SourceUnavailable), ExecutionFailed(ProcessorFailed)}
    requires Explains(s, read, before, after, Some(error), start + Total(sizes[..b + 1])) && (error == MeterSerialExhausted ==> serial == U64_MAX)
    ensures Justified(s, read, start, sizes, meterSerial, error)
  {
    hide HistoryMoves, PlanCulprit, PlanRuns, Reliable;
    TotalGrows(sizes, b + 1);
    if error == ExecutionFailed(ProcessorFailed) {
      PlanCulpritFails(s, after);
    }
  }

  lemma PlaysWellFormed<S(!new)>(session: AudioRenderSession<S>)
    requires session.Valid()
    ensures session.schedule.WellFormed()
  {}

  /** One block of a public range: the stream that is owed at its place, or a failure with its cause. */
  method NextBlock<S(!new)>(session: AudioRenderSession<S>, read: SourceRead, start: int, size: nat)
    returns (error: Option<RenderError>, block: seq<Frame>)
    requires session.Valid() && SourceAgrees(read, session.signal, session.schedule.channels)
    requires !session.schedule.requiresStateEntry ==> NoInstanceFailed(session.history)
    modifies session
    ensures session.Valid() && session.entry == old(session.entry)
    ensures error.None? ==> |block| == size && forall i :: 0 <= i < size ==> block[i] == OwedAt(session.schedule, session.signal, session.entry, start + i)
    ensures error.None? ==> session.meterSerial == old(session.meterSerial) + 1 && (!session.schedule.requiresStateEntry ==> NoInstanceFailed(session.history))
    ensures error.None? && old(StandsAt(session, start)) ==> StandsAt(session, start + size)
    ensures error.Some? ==>
              var rejection := Rejection(session.schedule, old(session.continuity), start, size, size);
              if rejection.Some? then error == rejection
              else
                && (error.value in {BufferTooLarge, MeterSerialExhausted, ExecutionFailed(SourceUnavailable), ExecutionFailed(ProcessorFailed)})
                && Explains(session.schedule, read, old(session.history), session.history, error, start + size)
                && (error.value == MeterSerialExhausted ==> old(session.meterSerial) == U64_MAX)
  {
    hide PublicAt, InstantAt, Shaped, AllAligned, NoInstanceFailed, SourceAgrees, Explains, Stuck, NodesStuck, StatelessPlanRuns, Silence;
    var destination := new Frame[size](_ => []);
    error := session.RenderInto(read, start, size, destination);
    block := destination[..];
  }

  /** Render a public range block by block. The delivered PCM does not depend on the block sizes. */
  method RenderBlocks<S(!new)>(session: AudioRenderSession<S>, read: SourceRead, start: int, sizes: seq<nat>)
    returns (error: Option<RenderError>, pcm: seq<Frame>)
    requires session.Valid() && SourceAgrees(read, session.signal, session.schedule.channels)
    requires !session.schedule.requiresStateEntry ==> NoInstanceFailed(session.history)
    modifies session
    ensures session.Valid() && session.entry == old(session.entry)
    ensures error.None? ==> |pcm| == Total(sizes)
    ensures error.Some? && old(StandsAt(session, start)) ==>
              Justified(session.schedule, read, start, sizes, old(session.meterSerial), error.value)
    ensures forall i :: 0 <= i < |pcm| ==> pcm[i] == OwedAt(session.schedule, session.signal, session.entry, start + i)
  {
    hide OwedAt, NoInstanceFailed, SourceAgrees, Explains, Justified, AudioRenderSession.Valid, Rejection, Schedule.WellFormed;
    PlaysWellFormed(session);
    error, pcm := None, [];
    for b := 0 to |sizes|
      invariant error.None? && session.Valid() && session.entry == old(session.entry) && |pcm| == Total(sizes[..b])
      invariant !session.schedule.requiresStateEntry ==> NoInstanceFailed(session.history)
      invariant old(StandsAt(session, start)) ==> StandsAt(session, start + |pcm|)
      invariant session.meterSerial == old(session.meterSerial) + b
      invariant forall i :: 0 <= i < |pcm| ==> pcm[i] == OwedAt(session.schedule, session.signal, session.entry, start + i)
    {
      TotalGrows(sizes, b + 1);
      assert sizes[..b + 1][..b] == sizes[..b];
      ghost var continuity, history, serial := session.continuity, session.history, session.meterSerial;
      if old(StandsAt(session, start)) {
        RejectionJustified(session.schedule, read, continuity, start, sizes, b, old(session.meterSerial));
      }
      var block;
      error, block := NextBlock(session, read, start + |pcm|, sizes[b]);
      if error.Some? {
        if old(StandsAt(session, start)) && Rejection(session.schedule, continuity, start + |pcm|, sizes[b], sizes[b]).None? {
          ErrorJustified(session.schedule, read, history, session.history, start, sizes, b, old(session.meterSerial), serial, error.value);
        }
        return;
      }
      pcm := pcm + block;
    }
    assert sizes[..|sizes|] == sizes;
  }

  /** Nor does the state that is left behind: at one execution sample there is only one
      content of every delay line and one state of every processor with declared history. */
  lemma AlignedDetermines<S(!new)>(w: World<S>, a: History<S>, b: History<S>, e: int)
    requires w.schedule.WellFormed() && Shaped(w.schedule, a) && Shaped(w.schedule, b)
    requires AllAligned(w, a, 0, |w.schedule.nodes|, e) && AllAligned(w, b, 0, |w.schedule.nodes|, e)
    requires NoInstanceFailed(a) && NoInstanceFailed(b) && e > w.entry
    ensures a.routes == b.routes && a.contributions == b.contributions
    ensures forall n :: 0 <= n < |w.schedule.nodes| ==>
              && SameHeld(w.schedule.nodes[n].preRack, a.preRacks[n], b.preRacks[n])
              && SameHeld(w.schedule.nodes[n].postRack, a.postRacks[n], b.postRacks[n])
    ensures forall k :: 0 <= k < |w.schedule.contributions| && ScopeLength(w, w.schedule.contributions[k], e) > 0 ==>
              SameHeld(w.schedule.contributions[k].rack, a.scopes[k], b.scopes[k])
  {
    hide RackAligned, ContributionAligned, LineAligned, NoneFailed, SameHeld, RackShaped, ScopeLength;
    var s := w.schedule;
    forall r | 0 <= r < |s.routes|
      ensures a.routes[r] == b.routes[r]
    {
      assert s.RouteInPlace(r);
      assert NodeAligned(w, a, s.routes[r].destination, e) && NodeAligned(w, b, s.routes[r].destination, e);
      SameLine(w, r, a.routes[r], b.routes[r], e);
    }
    forall k | 0 <= k < |s.contributions|
      ensures a.contributions[k] == b.contributions[k]
      ensures ScopeLength(w, s.contributions[k], e) > 0 ==> SameHeld(s.contributions[k].rack, a.scopes[k], b.scopes[k])
    {
      assert s.ContributionInPlace(k);
      assert NodeAligned(w, a, s.contributions[k].track, e) && NodeAligned(w, b, s.contributions[k].track, e);
      SameContribution(w, k, a.contributions[k], b.contributions[k], a.scopes[k], b.scopes[k], e);
    }
    forall n | 0 <= n < |s.nodes|
      ensures SameHeld(s.nodes[n].preRack, a.preRacks[n], b.preRacks[n]) && SameHeld(s.nodes[n].postRack, a.postRacks[n], b.postRacks[n])
    {
      assert NodeAligned(w, a, n, e) && NodeAligned(w, b, n, e);
      SameRack(w, n, false, a.preRacks[n], b.preRacks[n], e);
      SameRack(w, n, true, a.postRacks[n], b.postRacks[n], e);
    }
  }

  /** The same lanes, and the same state wherever history is declared. */
  ghost predicate SameHeld<S>(rack: Rack<S>, a: RackState<S>, b: RackState<S>) {
    && a.lanes == b.lanes && |a.instances| == |b.instances| == |rack.slots|
    && forall j :: 0 <= j < |rack.slots| && rack.slots[j].processor.requiresStateEntry ==> a.instances[j].state == b.instances[j].state
  }

  lemma SameLine<S(!new)>(w: World<S>, r: nat, a: seq<Frame>, b: seq<Frame>, e: int)
    requires w.schedule.WellFormed() && r < |w.schedule.routes| && LineAligned(w, r, a, e) && LineAligned(w, r, b, e)
    ensures a == b
  {}

  lemma SameContribution<S(!new)>(w: World<S>, k: nat, a: seq<Frame>, b: seq<Frame>, scopeA: RackState<S>, scopeB: RackState<S>, e: int)
    requires w.schedule.WellFormed() && k < |w.schedule.contributions|
    requires ContributionAligned(w, k, a, scopeA, e) && ContributionAligned(w, k, b, scopeB, e)
    requires NoneFailed(scopeA) && NoneFailed(scopeB)
    ensures a == b
    ensures ScopeLength(w, w.schedule.contributions[k], e) > 0 ==> SameHeld(w.schedule.contributions[k].rack, scopeA, scopeB)
  {
    hide Ready, ScopeInput, SilentAux;
    assert w.schedule.ContributionInPlace(k);
    var c := w.schedule.contributions[k];
    var length := ScopeLength(w, c, e);
    if length > 0 {
      ReadyDetermines(c.rack.slots, scopeA.instances, scopeB.instances, RackStart(w, c), ScopeInput(w, k, length), SilentAux(c.rack, w.schedule.channels, length));
    }
  }

  lemma SameRack<S(!new)>(w: World<S>, n: nat, post: bool, a: RackState<S>, b: RackState<S>, e: int)
    requires w.schedule.WellFormed() && n < |w.schedule.nodes| && e > w.entry
    requires RackAligned(w, n, post, a, e) && RackAligned(w, n, post, b, e) && NoneFailed(a) && NoneFailed(b)
    ensures SameHeld(w.schedule.nodes[n].RackAt(post), a, b)
  {
    hide Ready, RackInputAt, AuxHistory, PortWindow;
    var rack := w.schedule.nodes[n].RackAt(post);
    assert w.schedule.NodeInPlace(n);
    ReadyDetermines(rack.slots, a.instances, b.instances, w.entry, RackInput(w, n, post, e - w.entry), AuxHistory(w, n, post, e - w.entry));
    forall j | 0 <= j < |rack.bindings|
      ensures a.lanes[j] == b.lanes[j]
    {
      assert LaneSetAligned(w, n, rack.bindings[j], rack.buses[j], a.lanes[j], e);
      assert LaneSetAligned(w, n, rack.bindings[j], rack.buses[j], b.lanes[j], e);
    }
  }

  lemma ReadyDetermines<S(!new)>(slots: seq<Slot<S>>, a: seq<Hosted<S>>, b: seq<Hosted<S>>, start: int, main: seq<Frame>, aux: seq<seq<AuxFrame>>)
    requires RackReady(slots, a, start, main, aux) && RackReady(slots, b, start, main, aux) && |main| > 0
    requires forall j :: 0 <= j < |a| ==> !a[j].continuity.Failed? && !b[j].continuity.Failed?
    ensures forall j :: 0 <= j < |slots| && slots[j].processor.requiresStateEntry ==> a[j].state == b[j].state
  {
    hide Stage, Run;
    forall j | 0 <= j < |slots| && slots[j].processor.requiresStateEntry
      ensures a[j].state == b[j].state
    {
      assert Ready(slots, j, a[j], start, main, aux) && Ready(slots, j, b[j], start, main, aux);
    }
  }

  // ------------------------------------------------------------------ the continuity machine

  /** One call on a Session and whether it succeeded. */
  datatype Event =
    | Enter(epoch: Epoch, start: int, succeeded: bool)
    | Render(start: int, frames: nat, destination: nat, succeeded: bool)

  /** How the calls move continuity, as the contracts of `EnterState` and `RenderInto` state it. */
  function Step<S(!new)>(s: Schedule<S>, before: Continuity, event: Event): Continuity {
    match event
    case Enter(epoch, start, succeeded) => AfterEntry(s, before, epoch, start, succeeded)
    case Render(start, frames, destination, succeeded) =>
      if Rejection(s, before, start, frames, destination).Some? then before
      else AfterRender(s, before, start, frames, succeeded)
  }

  function Replay<S(!new)>(s: Schedule<S>, before: Continuity, events: seq<Event>): Continuity
    decreases |events|
  {
    if |events| == 0 then before else Step(s, Replay(s, before, events[..|events| - 1]), events[|events| - 1])
  }

  /** Frames that were really delivered. */
  function Delivered<S(!new)>(s: Schedule<S>, before: Continuity, events: seq<Event>): nat
    decreases |events|
  {
    if |events| == 0 then 0 else
    var earlier := events[..|events| - 1];
    var last := events[|events| - 1];
    Delivered(s, before, earlier) +
    (if last.Render? && last.succeeded && Rejection(s, Replay(s, before, earlier), last.start, last.frames, last.destination).None? then last.frames else 0)
  }

  /** No event of the run enters another epoch. */
  predicate StaysIn(events: seq<Event>, epoch: Epoch) {
    forall i :: 0 <= i < |events| && events[i].Enter? ==> events[i].epoch == epoch
  }

  /** After any failure behind the entry checks nothing is rendered until a different epoch is entered. */
  lemma {:induction false} FailureSticks<S(!new)>(s: Schedule<S>, epoch: Epoch, events: seq<Event>)
    requires s.requiresStateEntry && StaysIn(events, epoch)
    ensures Replay(s, Poisoned(epoch), events) == Poisoned(epoch)
    ensures Delivered(s, Poisoned(epoch), events) == 0
    ensures forall start: int, frames: nat, destination: nat :: Rejection(s, Poisoned(epoch), start, frames, destination).Some?
    decreases |events|
  {
    if |events| > 0 {
      FailureSticks(s, epoch, events[..|events| - 1]);
    }
  }

  /** Within an epoch the public position is the entry plus what was delivered, and execution runs ahead
      of it by nothing until the first frame was delivered and by exactly the lookahead from then on. */
  lemma {:induction false} PositionsFollow<S(!new)>(s: Schedule<S>, before: Continuity, epoch: Epoch, entry: int, events: seq<Event>)
    requires s.requiresStateEntry && StaysIn(events, epoch) && !Reused(before, epoch)
    ensures var entered := AfterEntry(s, before, epoch, entry, true);
            var after := Replay(s, entered, events);
            var delivered := Delivered(s, entered, events);
            && (after == Poisoned(epoch) || (after.Active? && after.epoch == epoch))
            && (after.Active? ==>
                  && after.nextPublic == entry + delivered
                  && after.primed == (s.lookahead == 0 || delivered > 0)
                  && after.nextExecution == after.nextPublic + if after.primed then s.lookahead else 0)
    decreases |events|
  {
    if |events| > 0 {
      PositionsFollow(s, before, epoch, entry, events[..|events| - 1]);
    }
  }

  // ------------------------------------------------------------------ runs of calls

  datatype Call = EnterCall(epoch: Epoch, start: int) | RenderCall(start: int, frames: nat)

  /** The event records how this call ended. */
  predicate Records(call: Call, event: Event) {
    match call
    case EnterCall(epoch, start) => event.Enter? && event.epoch == epoch && event.start == start
    case RenderCall(start, frames) => event.Render? && event.start == start && event.frames == event.destination == frames
  }

  /** An entry succeeds exactly in a new epoch whose eager states all admit it. */
  ghost predicate Recovers<S(!new)>(s: Schedule<S>, before: Continuity, events: seq<Event>, i: nat)
    requires i < |events|
  {
    events[i].Enter? ==>
      (events[i].succeeded <==> !Reused(Replay(s, before, events[..i]), events[i].epoch) && PlanEnters(s, events[i].start))
  }

  lemma ReplayStep<S(!new)>(s: Schedule<S>, before: Continuity, events: seq<Event>, event: Event)
    ensures Replay(s, before, events + [event]) == Step(s, Replay(s, before, events), event)
  {
    assert (events + [event])[..|events|] == events;
  }

  lemma RecoversOn<S(!new)>(s: Schedule<S>, before: Continuity, events: seq<Event>, event: Event)
    requires forall i :: 0 <= i < |events| ==> Recovers(s, before, events, i)
    requires event.Enter? ==> (event.succeeded <==> !Reused(Replay(s, before, events), event.epoch) && PlanEnters(s, event.start))
    ensures forall i :: 0 <= i <= |events| ==> Recovers(s, before, events + [event], i)
  {
    hide PlanEnters, Replay;
    forall i | 0 <= i <= |events|
      ensures Recovers(s, before, events + [event], i)
    {
      assert (events + [event])[..i] == events[..i];
      if i < |events| {
        assert Recovers(s, before, events, i);
      } else {
        assert events[..i] == events;
      }
    }
  }

  lemma StuckNodes<S(!new)>(s: Schedule<S>, h: History<S>)
    ensures NodesStuck(s, h) ==> Stuck(s, h)
  {}

  /** Any calls in any order move a Session as `Step` says. Once an instance without declared state has failed, no
      entry ever succeeds again and nothing more is delivered; as long as none of those fails, every entry into
      a new epoch recovers from whatever failed before. */
  method Drive<S(!new)>(session: AudioRenderSession<S>, read: SourceRead, calls: seq<Call>) returns (events: seq<Event>)
    requires session.Valid() && SourceAgrees(read, session.signal, session.schedule.channels)
    modifies session
    ensures session.Valid()
    ensures |events| == |calls| && forall i :: 0 <= i < |calls| ==> Records(calls[i], events[i])
    ensures session.continuity == Replay(session.schedule, old(session.continuity), events)
    ensures old(Stuck(session.schedule, session.history)) ==>
              && Stuck(session.schedule, session.history)
              && (forall i :: 0 <= i < |events| && events[i].Enter? ==> !events[i].succeeded)
              && (session.schedule.requiresStateEntry && !old(session.continuity).Active? ==> forall i :: 0 <= i < |events| ==> !events[i].succeeded)
    ensures old(NodesStuck(session.schedule, session.history)) && !session.schedule.requiresStateEntry ==>
              forall i :: 0 <= i < |events| ==> !events[i].succeeded
    ensures StatelessPlanRuns(session.schedule) && !old(Stuck(session.schedule, session.history)) ==>
              && !Stuck(session.schedule, session.history)
              && forall i :: 0 <= i < |events| ==> Recovers(session.schedule, old(session.continuity), events, i)
  {
    hide PublicAt, InstantAt, Shaped, AllAligned, NoInstanceFailed, SourceAgrees, PlanEnters, Explains, Stuck, NodesStuck, StatelessPlanRuns, Driven, Replay;
    events := [];
    ghost var s, before, held := session.schedule, session.continuity, session.history;
    NothingDriven(s, before, held);
    for c := 0 to |calls|
      invariant session.Valid() && |events| == c
      invariant forall i :: 0 <= i < c ==> Records(calls[i], events[i])
      invariant Driven(s, before, held, session.continuity, session.history, events)
    {
      StuckNodes(s, session.history);
      ghost var continuity, history := session.continuity, session.history;
      var error, event;
      match calls[c] {
        case EnterCall(epoch, start) =>
          error := session.EnterState(epoch, start);
          event := Enter(epoch, start, error.None?);
        case RenderCall(start, frames) =>
          var destination := new Frame[frames](_ => []);
          error := session.RenderInto(read, start, frames, destination);
          event := Render(start, frames, frames, error.None?);
      }
      DrivenOn(s, before, held, continuity, history, events, session.continuity, session.history, event);
      events := events + [event];
    }
    DrivenAll(s, before, held, session.continuity, session.history, events);
  }

  predicate NoneSucceeded(events: seq<Event>) {
    forall i :: 0 <= i < |events| ==> !events[i].succeeded
  }

  predicate NoneEntered(events: seq<Event>) {
    forall i :: 0 <= i < |events| && events[i].Enter? ==> !events[i].succeeded
  }

  /** What the events of a run mean for the continuity and the instances of the Session. */
  ghost predicate Driven<S(!new)>(s: Schedule<S>, before: Continuity, held: History<S>, continuity: Continuity, h: History<S>, events: seq<Event>) {
    && continuity == Replay(s, before, events)
    && (Stuck(s, held) ==>
          && Stuck(s, h) && NoneEntered(events)
          && (s.requiresStateEntry && !before.Active? ==> !continuity.Active? && NoneSucceeded(events)))
    && (NodesStuck(s, held) ==> NodesStuck(s, h) && (!s.requiresStateEntry ==> NoneSucceeded(events)))
    && (StatelessPlanRuns(s) && !Stuck(s, held) ==> !Stuck(s, h) && forall i :: 0 <= i < |events| ==> Recovers(s, before, events, i))
  }

  lemma NothingDriven<S(!new)>(s: Schedule<S>, before: Continuity, held: History<S>)
    ensures Driven(s, before, held, before, held, [])
  {
    hide Stuck, NodesStuck, StatelessPlanRuns;
  }

  /** One call more, as the contracts of `EnterState` and `RenderInto` state it. */
  lemma DrivenOn<S(!new)>(s: Schedule<S>, before: Continuity, held: History<S>, continuity: Continuity, h: History<S>, events: seq<Event>,
                          next: Continuity, after: History<S>, event: Event)
    requires Driven(s, before, held, continuity, h, events) && next == Step(s, continuity, event)
    requires Stuck(s, h) ==> Stuck(s, after)
    requires NodesStuck(s, h) ==> NodesStuck(s, after) && Stuck(s, h)
    requires StatelessPlanRuns(s) ==> Stuck(s, after) == Stuck(s, h)
    requires event.Enter? && Stuck(s, h) ==> !event.succeeded
    requires event.Enter? && !Stuck(s, h) ==> (event.succeeded <==> !Reused(continuity, event.epoch) && PlanEnters(s, event.start))
    requires event.Render? && event.succeeded ==> if s.requiresStateEntry then continuity.Active? else !NodesStuck(s, h)
    ensures Driven(s, before, held, next, after, events + [event])
  {
    hide Stuck, NodesStuck, StatelessPlanRuns, PlanEnters, Recovers, Replay;
    ReplayStep(s, before, events, event);
    if StatelessPlanRuns(s) && !Stuck(s, held) {
      RecoversOn(s, before, events, event);
    }
  }

  lemma DrivenAll<S(!new)>(s: Schedule<S>, before: Continuity, held: History<S>, continuity: Continuity, h: History<S>, events: seq<Event>)
    requires Driven(s, before, held, continuity, h, events)
    ensures continuity == Replay(s, before, events)
    ensures Stuck(s, held) ==> Stuck(s, h) && NoneEntered(events) && (s.requiresStateEntry && !before.Active? ==> NoneSucceeded(events))
    ensures NodesStuck(s, held) && !s.requiresStateEntry ==> NoneSucceeded(events)
    ensures StatelessPlanRuns(s) && !Stuck(s, held) ==> !Stuck(s, h) && forall i :: 0 <= i < |events| ==> Recovers(s, before, events, i)
  {
    hide Stuck, NodesStuck, StatelessPlanRuns, Recovers;
  }
}
