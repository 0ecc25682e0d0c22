/** Hosted processors as state machines over blocks. A rack runs its processors
    one after the other over the same block. */
module Processors {
  import opened Frames

  /** The auxiliary frames one processor sees beside one main frame, one for each auxiliary bus. */
  type AuxFrame = seq<Frame>

  /** One realized processor. `process` takes the state, the first signal sample,
      the main block and the auxiliary block; None is a failed call. */
  datatype Processor<!S> = Processor(
    latency: nat,
    requiresStateEntry: bool,
    created: S,
    enter: int -> Option<S>,
    process: (S, int, seq<Frame>, seq<AuxFrame>) -> Option<(S, seq<Frame>)>)

  /** Run `second` from where `first` stopped and join what they produced. */
  ghost function AndThen<S>(p: Processor<S>, first: Option<(S, seq<Frame>)>, start: int, main: seq<Frame>, aux: seq<AuxFrame>)
    : Option<(S, seq<Frame>)>
  {
    if first.None? then None else
    var second := p.process(first.value.0, start, main, aux);
    if second.None? then None else Some((second.value.0, first.value.1 + second.value.1))
  }

  ghost predicate SplitsAt<S>(p: Processor<S>, s: S, start: int, a: seq<Frame>, b: seq<Frame>, xa: seq<AuxFrame>, xb: seq<AuxFrame>) {
    p.process(s, start, a + b, xa + xb) == AndThen(p, p.process(s, start, a, xa), start + |a|, b, xb)
  }

  ghost predicate KeepsLength<S>(p: Processor<S>, s: S, start: int, a: seq<Frame>, xa: seq<AuxFrame>) {
    p.process(s, start, a, xa).Some? ==> |p.process(s, start, a, xa).value.1| == |a|
  }

  /** Without declared state the output does not depend on what ran before. */
  ghost predicate ForgetsState<S>(p: Processor<S>, s: S, t: S, start: int, a: seq<Frame>, xa: seq<AuxFrame>) {
    var u, v := p.process(s, start, a, xa), p.process(t, start, a, xa);
    u.Some? == v.Some? && (u.Some? ==> u.value.1 == v.value.1)
  }

  ghost predicate IdlesOnEmpty<S>(p: Processor<S>, s: S, start: int) {
    p.process(s, start, [], []) == Some((s, []))
  }

  /** What the Host relies on: one output frame for each input frame, the same PCM
      for every partition into blocks (an empty block does nothing), and history
      only where it is declared. */
  ghost predicate Streaming<S(!new)>(p: Processor<S>) {
    && (forall s: S, start: int, a: seq<Frame>, b: seq<Frame>, xa: seq<AuxFrame>, xb: seq<AuxFrame> | |a| == |xa| && |b| == |xb| ::
          SplitsAt(p, s, start, a, b, xa, xb))
    && (forall s: S, start: int, a: seq<Frame>, xa: seq<AuxFrame> :: KeepsLength(p, s, start, a, xa))
    && (forall s: S, start: int :: IdlesOnEmpty(p, s, start))
    && (!p.requiresStateEntry ==> forall s: S, t: S, start: int, a: seq<Frame>, xa: seq<AuxFrame> :: ForgetsState(p, s, t, start, a, xa))
  }

  /** The state a processor holds on entry at signal sample `start`. */
  ghost function Entered<S>(p: Processor<S>, start: int): Option<S> {
    if p.requiresStateEntry then p.enter(start) else Some(p.created)
  }

  /** The run of one processor over its whole input since entry. */
  ghost function Run<S>(p: Processor<S>, start: int, main: seq<Frame>, aux: seq<AuxFrame>): Option<(S, seq<Frame>)> {
    if Entered(p, start).None? then None else p.process(Entered(p, start).value, start, main, aux)
  }

  ghost predicate RunsOn<S>(p: Processor<S>, start: int, main: seq<Frame>, aux: seq<AuxFrame>) {
    Run(p, start, main, aux).Some?
  }

  /** No call of the processor ever fails, wherever it is entered and whatever it is fed. */
  ghost predicate AlwaysRuns<S(!new)>(p: Processor<S>) {
    forall start: int, main: seq<Frame>, aux: seq<AuxFrame> | |aux| == |main| :: RunsOn(p, start, main, aux)
  }

  /** `state` is what the processor holds after consuming `main` since entry at `start`.
      An undeclared state is irrelevant. */
  ghost predicate Holds<S>(p: Processor<S>, state: S, start: int, main: seq<Frame>, aux: seq<AuxFrame>) {
    Run(p, start, main, aux).Some? && (p.requiresStateEntry ==> Run(p, start, main, aux).value.0 == state)
  }

  /** A block processed from a held state continues the whole run exactly. */
  lemma Continue<S(!new)>(p: Processor<S>, state: S, start: int, main: seq<Frame>, aux: seq<AuxFrame>, block: seq<Frame>, auxBlock: seq<AuxFrame>)
    requires Streaming(p)
    requires |main| == |aux| && |block| == |auxBlock|
    requires Holds(p, state, start, main, aux)
    ensures p.process(state, start + |main|, block, auxBlock).Some?
            <==> Run(p, start, main + block, aux + auxBlock).Some?
    ensures p.process(state, start + |main|, block, auxBlock).Some? ==>
              var (next, out) := p.process(state, start + |main|, block, auxBlock).value;
              && |out| == |block|
              && Holds(p, next, start, main + block, aux + auxBlock)
              && Run(p, start, main + block, aux + auxBlock).value.1 == Run(p, start, main, aux).value.1 + out
  {
    var entered := Entered(p, start).value;
    assert SplitsAt(p, entered, start, main, block, aux, auxBlock);
    var held := Run(p, start, main, aux).value.0;
    assert KeepsLength(p, state, start + |main|, block, auxBlock);
    if !p.requiresStateEntry {
      assert ForgetsState(p, held, state, start + |main|, block, auxBlock);
    }
  }

  /** Whether a longer run succeeds decides that the shorter one did, with a prefix of its output. */
  lemma RunPrefix<S(!new)>(p: Processor<S>, start: int, main: seq<Frame>, aux: seq<AuxFrame>, more: seq<Frame>, moreAux: seq<AuxFrame>)
    requires Streaming(p)
    requires |main| == |aux| && |more| == |moreAux|
    requires Run(p, start, main + more, aux + moreAux).Some?
    ensures Run(p, start, main, aux).Some?
    ensures |Run(p, start, main, aux).value.1| == |main|
    ensures |Run(p, start, main + more, aux + moreAux).value.1| == |main| + |more|
    ensures Run(p, start, main, aux).value.1 == Run(p, start, main + more, aux + moreAux).value.1[..|main|]
  {
    var entered := Entered(p, start).value;
    assert SplitsAt(p, entered, start, main, more, aux, moreAux);
    assert KeepsLength(p, entered, start, main, aux);
    assert KeepsLength(p, entered, start, main + more, aux + moreAux);
  }

  /** One processor of a rack together with how far its input lags the execution sample. */
  datatype Slot<!S> = Slot(processor: Processor<S>, inputDelay: nat)

  ghost predicate RackRuns<S(!new)>(rack: seq<Slot<S>>) {
    forall k :: 0 <= k < |rack| ==> AlwaysRuns(rack[k].processor)
  }

  ghost predicate StreamingRack<S(!new)>(rack: seq<Slot<S>>) {
    forall k :: 0 <= k < |rack| ==> Streaming(rack[k].processor)
  }

  /** What leaves the first `k` processors of a rack entered at execution sample `start`
      after the whole input `main`; `aux[k]` is the auxiliary input of processor `k`. */
  ghost function Stage<S>(rack: seq<Slot<S>>, k: nat, start: int, main: seq<Frame>, aux: seq<seq<AuxFrame>>): Option<seq<Frame>>
    requires k <= |rack| == |aux|
    decreases k
  {
    if k == 0 then Some(main) else
    var before := Stage(rack, k - 1, start, main, aux);
    if before.None? then None else
    var run := Run(rack[k - 1].processor, start - rack[k - 1].inputDelay, before.value, aux[k - 1]);
    if run.None? then None else Some(run.value.1)
  }

  ghost predicate AuxLengths(aux: seq<seq<AuxFrame>>, n: nat) {
    forall k :: 0 <= k < |aux| ==> |aux[k]| == n
  }

  ghost function Joined(aux: seq<seq<AuxFrame>>, more: seq<seq<AuxFrame>>): (joined: seq<seq<AuxFrame>>)
    requires |aux| == |more|
  {
    seq(|aux|, k requires 0 <= k < |aux| => aux[k] + more[k])
  }

  ghost predicate SlotHolds<S>(rack: seq<Slot<S>>, k: nat, state: S, start: int, main: seq<Frame>, aux: seq<seq<AuxFrame>>)
    requires k < |rack| == |aux|
  {
    && Stage(rack, k, start, main, aux).Some?
    && Holds(rack[k].processor, state, start - rack[k].inputDelay, Stage(rack, k, start, main, aux).value, aux[k])
  }

  lemma {:induction false} StageLength<S(!new)>(rack: seq<Slot<S>>, k: nat, start: int, main: seq<Frame>, aux: seq<seq<AuxFrame>>)
    requires StreamingRack(rack) && k <= |rack| == |aux|
    ensures Stage(rack, k, start, main, aux).Some? ==> |Stage(rack, k, start, main, aux).value| == |main|
    decreases k
  {
    if k > 0 && Stage(rack, k, start, main, aux).Some? {
      StageLength(rack, k - 1, start, main, aux);
      var p := rack[k - 1].processor;
      var begin := start - rack[k - 1].inputDelay;
      var before := Stage(rack, k - 1, start, main, aux).value;
      assert KeepsLength(p, Entered(p, begin).value, begin, before, aux[k - 1]);
    }
  }

  /** A later input cannot change what already left any stage. */
  lemma {:induction false} StagePrefix<S(!new)>(rack: seq<Slot<S>>, k: nat, start: int, main: seq<Frame>, aux: seq<seq<AuxFrame>>, more: seq<Frame>, moreAux: seq<seq<AuxFrame>>)
    requires StreamingRack(rack) && k <= |rack| == |aux| == |moreAux|
    requires AuxLengths(aux, |main|) && AuxLengths(moreAux, |more|)
    requires Stage(rack, k, start, main + more, Joined(aux, moreAux)).Some?
    ensures Stage(rack, k, start, main, aux).Some?
    ensures |Stage(rack, k, start, main + more, Joined(aux, moreAux)).value| == |main| + |more|
    ensures Stage(rack, k, start, main, aux).value == Stage(rack, k, start, main + more, Joined(aux, moreAux)).value[..|main|]
    decreases k
  {
    if k > 0 {
      StagePrefix(rack, k - 1, start, main, aux, more, moreAux);
      var whole := Stage(rack, k - 1, start, main + more, Joined(aux, moreAux)).value;
      var head := Stage(rack, k - 1, start, main, aux).value;
      assert whole == head + whole[|main|..];
      RunPrefix(rack[k - 1].processor, start - rack[k - 1].inputDelay, head, aux[k - 1], whole[|main|..], moreAux[k - 1]);
      StageLength(rack, k, start, main + more, Joined(aux, moreAux));
    }
  }

  ghost function Taken(aux: seq<seq<AuxFrame>>, n: nat): (taken: seq<seq<AuxFrame>>)
    requires forall k :: 0 <= k < |aux| ==> n <= |aux[k]|
    ensures |taken| == |aux| && AuxLengths(taken, n)
  {
    seq(|aux|, k requires 0 <= k < |aux| => aux[k][..n])
  }

  /** What left a rack after `n` frames is the first `n` frames of what leaves it in the end. */
  lemma StageAt<S(!new)>(rack: seq<Slot<S>>, start: int, main: seq<Frame>, aux: seq<seq<AuxFrame>>, n: nat)
    requires StreamingRack(rack) && |rack| == |aux| && AuxLengths(aux, |main|) && n <= |main|
    requires Stage(rack, |rack|, start, main, aux).Some?
    ensures |Stage(rack, |rack|, start, main, aux).value| == |main|
    ensures Stage(rack, |rack|, start, main[..n], Taken(aux, n)) == Some(Stage(rack, |rack|, start, main, aux).value[..n])
  {
    var rest := seq(|aux|, k requires 0 <= k < |aux| => aux[k][n..]);
    assert main == main[..n] + main[n..];
    forall k | 0 <= k < |aux|
      ensures aux[k] == Joined(Taken(aux, n), rest)[k]
    {
      assert aux[k] == aux[k][..n] + aux[k][n..];
    }
    assert aux == Joined(Taken(aux, n), rest);
    StagePrefix(rack, |rack|, start, main[..n], Taken(aux, n), main[n..], rest);
  }
}
