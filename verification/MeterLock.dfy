/** The published meter bank: one writer storing atomics one by one, any number of
    readers loading them one by one, a sequence counter between them. */
module MeterLock {
  import opened Frames

  /** The publication sequence wraps at this many increments. */
  const WRAP: nat := 0x1_0000_0000_0000_0000

  /** Which meter target owns each atomic cell; None for block serial, start sample and frame count. */
  type Layout = seq<Option<nat>>

  /** The content of a bank. `stamps[t]` is the block in which target `t` was measured. */
  datatype Bank = Bank(words: seq<int>, block: nat, stamps: seq<nat>)

  datatype Snapshot = Snapshot(words: seq<int>, index: nat)

  /** One call of `snapshot`: about to load the sequence, or between its two loads. */
  datatype Phase = Calling | Loading(before: nat, seen: nat, got: seq<int>)

  datatype Reader = Reader(phase: Phase, returned: seq<Snapshot>)

  /** `frame` and `measured` belong to the Session; `sequence` and `cells` are shared atomics.
      `increments` counts every fetch_add without wrapping, and `published` keeps every
      completed bank, the initial one first. */
  datatype State = State(
    frame: Bank, measured: seq<bool>, storing: Option<nat>,
    sequence: nat, cells: seq<int>,
    increments: nat, published: seq<Bank>, readers: seq<Reader>)

  datatype Action =
    | BeginBlock(words: seq<int>)
    | MeasureTarget(target: nat, words: seq<int>)
    | Announce
    | Store
    | Complete
    | LoadBefore(reader: nat)
    | LoadCell(reader: nat)
    | LoadAfter(reader: nat)

  /** Words may differ only in cells of `owner`. */
  predicate OnlyTouches(layout: Layout, owner: Option<nat>, before: seq<int>, after: seq<int>) {
    && |before| == |after| == |layout|
    && forall c :: 0 <= c < |layout| && layout[c] != owner ==> after[c] == before[c]
  }

  function Increment(sequence: nat): nat { (sequence + 1) % WRAP }

  lemma Advances(n: nat)
    ensures Increment(n % WRAP) == (n + 1) % WRAP
  {}

  /** One atomic step; None when the step is not possible in this state. */
  function Perform(layout: Layout, s: State, action: Action): Option<State> {
    match action
    case BeginBlock(words) =>
      if s.storing.None? && OnlyTouches(layout, None, s.frame.words, words)
      then Some(s.(frame := Bank(words, s.frame.block + 1, s.frame.stamps), measured := seq(|s.measured|, _ => false)))
      else None
    case MeasureTarget(target, words) =>
      if s.storing.None? && target < |s.measured| == |s.frame.stamps| && OnlyTouches(layout, Some(target), s.frame.words, words)
      then Some(s.(frame := Bank(words, s.frame.block, s.frame.stamps[target := s.frame.block]), measured := s.measured[target := true]))
      else None
    case Announce =>
      if s.storing.None? && false !in s.measured
      then Some(s.(storing := Some(0), sequence := Increment(s.sequence), increments := s.increments + 1))
      else None
    case Store =>
      if s.storing.Some? && s.storing.value < |s.cells| == |s.frame.words|
      then Some(s.(storing := Some(s.storing.value + 1), cells := s.cells[s.storing.value := s.frame.words[s.storing.value]]))
      else None
    case Complete =>
      if s.storing == Some(|s.cells|)
      then Some(s.(storing := None, sequence := Increment(s.sequence), increments := s.increments + 1, published := s.published + [s.frame]))
      else None
    case LoadBefore(r) =>
      if r < |s.readers| && s.readers[r].phase.Calling?
      then Some(if s.sequence % 2 != 0 then s else s.(readers := s.readers[r := s.readers[r].(phase := Loading(s.sequence, s.increments, []))]))
      else None
    case LoadCell(r) =>
      if r < |s.readers| && s.readers[r].phase.Loading? && |s.readers[r].phase.got| < |s.cells| then
        var phase := s.readers[r].phase;
        Some(s.(readers := s.readers[r := s.readers[r].(phase := phase.(got := phase.got + [s.cells[|phase.got|]]))]))
      else None
    case LoadAfter(r) =>
      if r < |s.readers| && s.readers[r].phase.Loading? && |s.readers[r].phase.got| == |s.cells| then
        var phase := s.readers[r].phase;
        var returned := if s.sequence == phase.before
                        then s.readers[r].returned + [Snapshot(phase.got, phase.seen / 2)] else s.readers[r].returned;
        Some(s.(readers := s.readers[r := Reader(Calling, returned)]))
      else None
  }

  function Initial(layout: Layout, targets: nat, readers: nat): State {
    var blank := Bank(seq(|layout|, _ => 0), 0, seq(targets, _ => 0));
    State(blank, seq(targets, _ => false), None, 0, blank.words, 0, [blank], seq(readers, _ => Reader(Calling, [])))
  }

  function Execute(layout: Layout, s: State, actions: seq<Action>): Option<State>
    decreases |actions|
  {
    if |actions| == 0 then Some(s) else
    var before := Execute(layout, s, actions[..|actions| - 1]);
    if before.None? then None else Perform(layout, before.value, actions[|actions| - 1])
  }

  // ------------------------------------------------------------------ the invariant

  predicate BankShaped(layout: Layout, targets: nat, bank: Bank) {
    |bank.words| == |layout| && |bank.stamps| == targets
  }

  /** Every cell of the bank was measured during the one block it is published for. */
  predicate OfOneBlock(bank: Bank) {
    forall t :: 0 <= t < |bank.stamps| ==> bank.stamps[t] == bank.block
  }

  predicate WriterHolds(layout: Layout, targets: nat, s: State) {
    && BankShaped(layout, targets, s.frame) && |s.measured| == targets
    && (forall t :: 0 <= t < targets && s.measured[t] ==> s.frame.stamps[t] == s.frame.block)
    && (s.storing.Some? ==> false !in s.measured)
  }

  predicate PublishedHolds(layout: Layout, targets: nat, s: State) {
    && |s.published| > 0
    && (forall i :: 0 <= i < |s.published| ==> BankShaped(layout, targets, s.published[i]) && OfOneBlock(s.published[i]))
  }

  predicate CellsHold(layout: Layout, s: State) {
    && |s.cells| == |layout| && |s.published| > 0 && |s.frame.words| == |layout| && |s.published[|s.published| - 1].words| == |layout|
    && s.sequence == s.increments % WRAP
    && match s.storing
       case None => s.increments == 2 * (|s.published| - 1) && s.cells == s.published[|s.published| - 1].words
       case Some(k) =>
         && s.increments == 2 * (|s.published| - 1) + 1 && k <= |layout|
         && (forall c :: 0 <= c < k ==> s.cells[c] == s.frame.words[c])
  }

  /** A reader that saw the current count has loaded cells of the latest bank only. */
  predicate LoadingHolds(s: State, phase: Phase) {
    phase.Loading? ==>
      && phase.seen <= s.increments && phase.seen % 2 == 0 && phase.before == phase.seen % WRAP
      && phase.seen / 2 < |s.published|
      && |phase.got| <= |s.cells|
      && (phase.seen == s.increments ==> s.storing.None? && phase.got == s.cells[..|phase.got|])
  }

  /** Each returned snapshot is one published bank, and none is older than the one before. */
  predicate ReturnedHolds(s: State, returned: seq<Snapshot>) {
    && (forall i :: 0 <= i < |returned| ==> returned[i].index < |s.published| && returned[i].words == s.published[returned[i].index].words)
    && (forall i, j :: 0 <= i < j < |returned| ==> returned[i].index <= returned[j].index)
  }

  predicate ReaderHolds(s: State, reader: Reader) {
    && LoadingHolds(s, reader.phase)
    && ReturnedHolds(s, reader.returned)
    && (reader.phase.Loading? ==> forall i :: 0 <= i < |reader.returned| ==> reader.returned[i].index <= reader.phase.seen / 2)
  }

  predicate Holds(layout: Layout, targets: nat, s: State) {
    && WriterHolds(layout, targets, s) && PublishedHolds(layout, targets, s) && CellsHold(layout, s)
    && forall r :: 0 <= r < |s.readers| ==> ReaderHolds(s, s.readers[r])
  }

  /** No reader that is between its two loads was overtaken by a whole turn of the counter,
      that is by 2^63 publications. */
  predicate NotLapped(s: State) {
    forall r :: 0 <= r < |s.readers| && s.readers[r].phase.Loading? ==> s.increments - s.readers[r].phase.seen < WRAP
  }

  /** What a writer step needs to leave a reader alone: cells change only while the count is odd. */
  predicate Undisturbed(s: State, after: State) {
    && |after.cells| == |s.cells| && after.increments >= s.increments && s.published <= after.published
    && (after.increments == s.increments && s.storing.None? ==> after.storing.None? && after.cells == s.cells)
  }

  lemma WriterStep(layout: Layout, targets: nat, s: State, action: Action)
    requires Holds(layout, targets, s) && Perform(layout, s, action).Some?
    requires !action.LoadBefore? && !action.LoadCell? && !action.LoadAfter?
    ensures Holds(layout, targets, Perform(layout, s, action).value)
  {
    var after := Perform(layout, s, action).value;
    WriterMoves(layout, targets, s, action);
    hide Perform, WriterHolds, PublishedHolds, CellsHold;
    forall r | 0 <= r < |after.readers|
      ensures ReaderHolds(after, after.readers[r])
    {
      assert ReaderHolds(s, s.readers[r]);
      ReaderUndisturbed(s, after, s.readers[r]);
    }
  }

  lemma WriterMoves(layout: Layout, targets: nat, s: State, action: Action)
    requires WriterHolds(layout, targets, s) && PublishedHolds(layout, targets, s) && CellsHold(layout, s) && Perform(layout, s, action).Some?
    requires !action.LoadBefore? && !action.LoadCell? && !action.LoadAfter?
    ensures var after := Perform(layout, s, action).value;
            && WriterHolds(layout, targets, after) && PublishedHolds(layout, targets, after) && CellsHold(layout, after)
            && Undisturbed(s, after) && after.readers == s.readers
  {
    hide WriterHolds, PublishedHolds, CellsHold, Perform, Undisturbed;
    match action {
      case BeginBlock(_) => FrameMoves(layout, targets, s, action);
      case MeasureTarget(_, _) => FrameMoves(layout, targets, s, action);
      case Announce => AnnounceMoves(layout, targets, s, action);
      case Store => StoreMoves(layout, targets, s, action);
      case Complete => CompleteMoves(layout, targets, s, action);
    }
  }

  lemma FrameMoves(layout: Layout, targets: nat, s: State, action: Action)
    requires WriterHolds(layout, targets, s) && PublishedHolds(layout, targets, s) && CellsHold(layout, s) && Perform(layout, s, action).Some?
    requires action.BeginBlock? || action.MeasureTarget?
    ensures var after := Perform(layout, s, action).value;
            && WriterHolds(layout, targets, after) && PublishedHolds(layout, targets, after) && CellsHold(layout, after)
            && Undisturbed(s, after) && after.readers == s.readers
  {}

  lemma AnnounceMoves(layout: Layout, targets: nat, s: State, action: Action)
    requires WriterHolds(layout, targets, s) && PublishedHolds(layout, targets, s) && CellsHold(layout, s) && Perform(layout, s, action).Some?
    requires action.Announce?
    ensures var after := Perform(layout, s, action).value;
            && WriterHolds(layout, targets, after) && PublishedHolds(layout, targets, after) && CellsHold(layout, after)
            && Undisturbed(s, after) && after.readers == s.readers
  {
    hide Increment;
    Advances(s.increments);
  }

  lemma StoreMoves(layout: Layout, targets: nat, s: State, action: Action)
    requires WriterHolds(layout, targets, s) && PublishedHolds(layout, targets, s) && CellsHold(layout, s) && Perform(layout, s, action).Some?
    requires action.Store?
    ensures var after := Perform(layout, s, action).value;
            && WriterHolds(layout, targets, after) && PublishedHolds(layout, targets, after) && CellsHold(layout, after)
            && Undisturbed(s, after) && after.readers == s.readers
  {}

  lemma CompleteMoves(layout: Layout, targets: nat, s: State, action: Action)
    requires WriterHolds(layout, targets, s) && PublishedHolds(layout, targets, s) && CellsHold(layout, s) && Perform(layout, s, action).Some?
    requires action.Complete?
    ensures var after := Perform(layout, s, action).value;
            && WriterHolds(layout, targets, after) && PublishedHolds(layout, targets, after) && CellsHold(layout, after)
            && Undisturbed(s, after) && after.readers == s.readers
  {
    hide Increment;
    Advances(s.increments);
    assert s.cells == s.frame.words;
  }

  lemma ReaderUndisturbed(s: State, after: State, reader: Reader)
    requires ReaderHolds(s, reader) && Undisturbed(s, after)
    ensures ReaderHolds(after, reader)
  {}

  lemma ReaderStep(layout: Layout, targets: nat, s: State, action: Action)
    requires Holds(layout, targets, s) && NotLapped(s) && Perform(layout, s, action).Some?
    requires action.LoadBefore? || action.LoadCell? || action.LoadAfter?
    ensures Holds(layout, targets, Perform(layout, s, action).value)
  {
    hide PublishedHolds, WriterHolds, ReaderHolds, CellsHold;
    var after := Perform(layout, s, action).value;
    assert ReaderHolds(s, s.readers[action.reader]);
    OneReaderMoves(layout, targets, s, action);
    forall r | 0 <= r < |after.readers|
      ensures ReaderHolds(after, after.readers[r])
    {
      assert r == action.reader || after.readers[r] == s.readers[r];
      SameBank(s, after, after.readers[r]);
    }
    SameCells(layout, targets, s, after);
  }

  lemma SameBank(s: State, after: State, reader: Reader)
    requires after == s.(readers := after.readers)
    ensures ReaderHolds(s, reader) == ReaderHolds(after, reader)
  {}

  lemma SameCells(layout: Layout, targets: nat, s: State, after: State)
    requires after == s.(readers := after.readers)
    ensures WriterHolds(layout, targets, s) == WriterHolds(layout, targets, after)
    ensures PublishedHolds(layout, targets, s) == PublishedHolds(layout, targets, after)
    ensures CellsHold(layout, s) == CellsHold(layout, after)
  {}

  lemma OneReaderMoves(layout: Layout, targets: nat, s: State, action: Action)
    requires CellsHold(layout, s) && NotLapped(s) && Perform(layout, s, action).Some?
    requires action.LoadBefore? || action.LoadCell? || action.LoadAfter?
    requires ReaderHolds(s, s.readers[action.reader])
    ensures ReaderHolds(s, Perform(layout, s, action).value.readers[action.reader])
  {
    hide Perform, ReaderHolds, CellsHold;
    match action {
      case LoadBefore(_) => BeforeLoads(layout, s, action.reader);
      case LoadCell(_) => CellLoads(layout, s, action.reader);
      case LoadAfter(_) => AfterLoads(layout, s, action.reader);
    }
  }

  lemma BeforeLoads(layout: Layout, s: State, r: nat)
    requires CellsHold(layout, s) && Perform(layout, s, LoadBefore(r)).Some? && ReaderHolds(s, s.readers[r])
    ensures ReaderHolds(s, Perform(layout, s, LoadBefore(r)).value.readers[r])
  {
    EvenIsQuiet(s.increments);
  }

  lemma CellLoads(layout: Layout, s: State, r: nat)
    requires CellsHold(layout, s) && Perform(layout, s, LoadCell(r)).Some? && ReaderHolds(s, s.readers[r])
    ensures ReaderHolds(s, Perform(layout, s, LoadCell(r)).value.readers[r])
  {
    var got := s.readers[r].phase.got;
    if s.readers[r].phase.seen == s.increments {
      assert got + [s.cells[|got|]] == s.cells[..|got| + 1];
    }
  }

  lemma AfterLoads(layout: Layout, s: State, r: nat)
    requires CellsHold(layout, s) && NotLapped(s) && Perform(layout, s, LoadAfter(r)).Some? && ReaderHolds(s, s.readers[r])
    ensures ReaderHolds(s, Perform(layout, s, LoadAfter(r)).value.readers[r])
  {
    var phase, returned := s.readers[r].phase, s.readers[r].returned;
    Accepts(s, phase);
    if s.sequence == phase.before {
      assert s.cells[..|s.cells|] == s.cells;
      ReturnsMore(s, returned, Snapshot(phase.got, phase.seen / 2));
    }
    hide ReturnedHolds, CellsHold;
  }

  lemma ReturnsMore(s: State, returned: seq<Snapshot>, snapshot: Snapshot)
    requires ReturnedHolds(s, returned) && forall i :: 0 <= i < |returned| ==> returned[i].index <= snapshot.index
    requires snapshot.index < |s.published| && snapshot.words == s.published[snapshot.index].words
    ensures ReturnedHolds(s, returned + [snapshot])
  {}

  lemma EvenIsQuiet(increments: nat)
    ensures increments % WRAP % 2 == increments % 2
  {
    var turns := increments / WRAP;
    assert increments == 2 * (turns * (WRAP / 2)) + increments % WRAP;
  }

  /** Equal sequence words mean that nothing at all was published in between. */
  lemma Accepts(s: State, phase: Phase)
    requires phase.Loading? && LoadingHolds(s, phase) && s.sequence == s.increments % WRAP
    requires s.increments - phase.seen < WRAP
    ensures s.sequence == phase.before <==> s.increments == phase.seen
  {}

  // ------------------------------------------------------------------ whole runs

  /** Every reader finished, or was overtaken by less than a turn, at every point of the run. */
  ghost predicate NeverLapped(layout: Layout, s: State, actions: seq<Action>)
    decreases |actions|
  {
    Execute(layout, s, actions).Some? ==>
      && NotLapped(Execute(layout, s, actions).value)
      && (|actions| > 0 ==> NeverLapped(layout, s, actions[..|actions| - 1]))
  }

  lemma InitialHolds(layout: Layout, targets: nat, readers: nat)
    ensures Holds(layout, targets, Initial(layout, targets, readers))
  {}

  /** Every published bank was measured during its one block; every snapshot that a reader returned is one of them word by
      word; and no reader was ever given an older one than before. */
  ghost predicate Safe(s: State) {
    && (forall b, t :: 0 <= b < |s.published| && 0 <= t < |s.published[b].stamps| ==> s.published[b].stamps[t] == s.published[b].block)
    && (forall r, i :: 0 <= r < |s.readers| && 0 <= i < |s.readers[r].returned| ==>
          && s.readers[r].returned[i].index < |s.published|
          && s.readers[r].returned[i].words == s.published[s.readers[r].returned[i].index].words)
    && (forall r, i, j :: 0 <= r < |s.readers| && 0 <= i < j < |s.readers[r].returned| ==>
          s.readers[r].returned[i].index <= s.readers[r].returned[j].index)
  }

  lemma HoldsIsSafe(layout: Layout, targets: nat, s: State)
    requires Holds(layout, targets, s)
    ensures Safe(s)
  {
    hide WriterHolds, CellsHold, LoadingHolds;
    forall r | 0 <= r < |s.readers|
      ensures ReturnedHolds(s, s.readers[r].returned)
    {
      assert ReaderHolds(s, s.readers[r]);
    }
    forall b | 0 <= b < |s.published|
      ensures OfOneBlock(s.published[b])
    {}
  }

  /** In every interleaving of the writer with any number of readers every returned snapshot is one
      completely published bank of one block, or the initial one, and no reader ever goes backwards. */
  lemma {:induction false} SnapshotsAreBanks(layout: Layout, targets: nat, readers: nat, actions: seq<Action>)
    requires Execute(layout, Initial(layout, targets, readers), actions).Some?
    requires NeverLapped(layout, Initial(layout, targets, readers), actions)
    ensures Holds(layout, targets, Execute(layout, Initial(layout, targets, readers), actions).value)
    ensures Safe(Execute(layout, Initial(layout, targets, readers), actions).value)
    decreases |actions|
  {
    hide Holds, Safe, Perform, NotLapped;
    var start := Initial(layout, targets, readers);
    if |actions| == 0 {
      InitialHolds(layout, targets, readers);
    } else {
      SnapshotsAreBanks(layout, targets, readers, actions[..|actions| - 1]);
      var before := Execute(layout, start, actions[..|actions| - 1]).value;
      var action := actions[|actions| - 1];
      LappedBefore(layout, start, actions[..|actions| - 1]);
      if action.LoadBefore? || action.LoadCell? || action.LoadAfter? {
        ReaderStep(layout, targets, before, action);
      } else {
        WriterStep(layout, targets, before, action);
      }
    }
    HoldsIsSafe(layout, targets, Execute(layout, start, actions).value);
  }

  lemma LappedBefore(layout: Layout, s: State, actions: seq<Action>)
    requires NeverLapped(layout, s, actions) && Execute(layout, s, actions).Some?
    ensures NotLapped(Execute(layout, s, actions).value)
  {}

  /** What a call returns is the latest published bank at the very step at which it returns. */
  lemma ReturnsLatest(layout: Layout, targets: nat, s: State, r: nat)
    requires Holds(layout, targets, s) && NotLapped(s) && Perform(layout, s, LoadAfter(r)).Some?
    ensures var returned := Perform(layout, s, LoadAfter(r)).value.readers[r].returned;
            || returned == s.readers[r].returned
            || returned == s.readers[r].returned + [Snapshot(s.published[|s.published| - 1].words, |s.published| - 1)]
  {
    hide PublishedHolds, WriterHolds;
    assert ReaderHolds(s, s.readers[r]);
    Accepts(s, s.readers[r].phase);
    assert s.cells[..|s.cells|] == s.cells;
  }

  /** A call that nothing is published during cannot be sent back. */
  lemma QuietCallReturns(layout: Layout, targets: nat, s: State, r: nat)
    requires Holds(layout, targets, s) && Perform(layout, s, LoadAfter(r)).Some?
    requires s.readers[r].phase.seen == s.increments
    ensures |Perform(layout, s, LoadAfter(r)).value.readers[r].returned| == |s.readers[r].returned| + 1
  {
    hide PublishedHolds, WriterHolds;
    assert ReaderHolds(s, s.readers[r]);
  }

  // ------------------------------------------------------------------ the bound is exact

  /** Block serial, start sample and frame count, and one target with one word. */
  const SMALL: Layout := [None, None, None, Some(0)]

  const ZEROS: seq<int> := [0, 0, 0, 0]
  const ONES: seq<int> := [1, 1, 1, 1]

  ghost predicate Reachable(s: State) {
    exists actions: seq<Action> :: Execute(SMALL, Initial(SMALL, 1, 1), actions) == Some(s)
  }

  lemma Reaches(s: State, action: Action)
    requires Reachable(s) && Perform(SMALL, s, action).Some?
    ensures Reachable(Perform(SMALL, s, action).value)
  {
    hide Perform;
    var actions: seq<Action> :| Execute(SMALL, Initial(SMALL, 1, 1), actions) == Some(s);
    assert (actions + [action])[..|actions|] == actions;
    assert Execute(SMALL, Initial(SMALL, 1, 1), actions + [action]) == Perform(SMALL, s, action);
  }

  function OnesBank(block: nat): Bank { Bank(ONES, block, [block]) }

  /** A reader loaded the first cell of the initial bank, then `k` banks of ones were published. */
  function Overtaken(k: nat): State {
    State(if k == 0 then Bank(ZEROS, 0, [0]) else OnesBank(k), [k > 0], None,
          2 * k % WRAP, if k == 0 then ZEROS else ONES, 2 * k,
          [Bank(ZEROS, 0, [0])] + seq(k, (i: nat) => OnesBank(i + 1)),
          [Reader(Loading(0, 0, [0]), [])])
  }

  /** The writer stores the four words of the announced bank one after the other. */
  function Halfway(k: nat, stored: nat): State
    requires stored <= 4
  {
    var s := Overtaken(k);
    s.(frame := OnesBank(k + 1), measured := [true], storing := Some(stored), sequence := (2 * k + 1) % WRAP,
       increments := 2 * k + 1, cells := if k == 0 then seq(4, c => if c < stored then 1 else 0) else ONES)
  }

  lemma OneMoreBank(k: nat)
    ensures Overtaken(k).published + [OnesBank(k + 1)] == Overtaken(k + 1).published
  {}

  lemma Announces(k: nat)
    requires Reachable(Overtaken(k))
    ensures Reachable(Halfway(k, 0))
  {
    hide Reachable;
    var s := Overtaken(k);
    assert seq(|s.measured|, _ => false) == [false];
    var header := if k == 0 then [1, 1, 1, 0] else ONES;
    Reaches(s, BeginBlock(header));
    var begun := s.(frame := Bank(header, k + 1, [k]), measured := [false]);
    assert Perform(SMALL, s, BeginBlock(header)) == Some(begun);
    Reaches(begun, MeasureTarget(0, ONES));
    assert begun.measured[0 := true] == [true] && begun.frame.stamps[0 := k + 1] == [k + 1];
    var measured := s.(frame := OnesBank(k + 1), measured := [true]);
    assert Perform(SMALL, begun, MeasureTarget(0, ONES)) == Some(measured);
    Reaches(measured, Announce);
    Advances(2 * k);
    assert s.cells == Halfway(k, 0).cells;
    assert Perform(SMALL, measured, Announce) == Some(Halfway(k, 0));
  }

  lemma Stores(k: nat, stored: nat)
    requires stored < 4 && Reachable(Halfway(k, stored))
    ensures Reachable(Halfway(k, stored + 1))
  {
    hide Reachable;
    Reaches(Halfway(k, stored), Store);
    assert Halfway(k, stored).cells[stored := 1] == Halfway(k, stored + 1).cells;
    assert Perform(SMALL, Halfway(k, stored), Store) == Some(Halfway(k, stored + 1));
  }

  lemma Completes(k: nat)
    requires Reachable(Halfway(k, 4))
    ensures Reachable(Overtaken(k + 1))
  {
    hide Reachable;
    var s := Halfway(k, 4);
    Reaches(s, Complete);
    Advances(2 * k + 1);
    OneMoreBank(k);
    assert s.cells == ONES;
    hide Increment;
    assert Perform(SMALL, s, Complete) == Some(Overtaken(k + 1));
  }

  lemma {:induction false} Overtakes(k: nat)
    ensures Reachable(Overtaken(k))
    decreases k
  {
    hide Reachable, Overtaken, Halfway;
    if k == 0 {
      BeginsToRead();
    } else {
      Overtakes(k - 1);
      Announces(k - 1);
      Stores(k - 1, 0);
      Stores(k - 1, 1);
      Stores(k - 1, 2);
      Stores(k - 1, 3);
      Completes(k - 1);
    }
  }

  function Started(reader: Reader): State {
    State(Bank(ZEROS, 0, [0]), [false], None, 0, ZEROS, 0, [Bank(ZEROS, 0, [0])], [reader])
  }

  lemma StartsSmall()
    ensures Reachable(Started(Reader(Calling, [])))
  {
    var start := Initial(SMALL, 1, 1);
    assert Execute(SMALL, start, []) == Some(start);
    assert start.cells == ZEROS && start.frame == Bank(ZEROS, 0, [0]) && start.measured == [false];
    assert start.readers == [Reader(Calling, [])];
  }

  lemma BeginsToRead()
    ensures Reachable(Overtaken(0))
  {
    hide Reachable;
    StartsSmall();
    var start, loading := Started(Reader(Calling, [])), Started(Reader(Loading(0, 0, []), []));
    Reaches(start, LoadBefore(0));
    assert start.readers[0 := Reader(Loading(0, 0, []), [])] == loading.readers;
    assert Perform(SMALL, start, LoadBefore(0)) == Some(loading);
    Reaches(loading, LoadCell(0));
    assert [] + [ZEROS[0]] == [0];
    assert loading.readers[0 := Reader(Loading(0, 0, [0]), [])] == Overtaken(0).readers;
    assert loading.published == Overtaken(0).published;
    assert Perform(SMALL, loading, LoadCell(0)) == Some(Overtaken(0));
  }

  lemma LoadsOne(s: State, got: seq<int>)
    requires Reachable(s) && s.readers == [Reader(Loading(0, 0, got), [])] && |got| < 4 && s.cells == ONES
    ensures Reachable(s.(readers := [Reader(Loading(0, 0, got + [1]), [])]))
  {
    hide Reachable;
    Reaches(s, LoadCell(0));
    assert s.readers[0 := Reader(Loading(0, 0, got + [1]), [])] == [Reader(Loading(0, 0, got + [1]), [])];
    assert Perform(SMALL, s, LoadCell(0)) == Some(s.(readers := [Reader(Loading(0, 0, got + [1]), [])]));
  }

  /** After exactly a whole turn of the counter, which is 2^63 publications during one call,
      a reader accepts a snapshot that is no published bank: the bound of `NotLapped` is exact. */
  lemma LappedReaderIsTorn() returns (torn: State)
    ensures Reachable(torn) && torn.increments == WRAP && |torn.readers| == 1
    ensures torn.readers[0].returned == [Snapshot([0, 1, 1, 1], 0)]
    ensures forall i :: 0 <= i < |torn.published| ==> torn.published[i].words != [0, 1, 1, 1]
  {
    hide Reachable;
    var k := WRAP / 2;
    Overtakes(k);
    var s := Overtaken(k);
    LoadsOne(s, [0]);
    LoadsOne(s.(readers := [Reader(Loading(0, 0, [0] + [1]), [])]), [0] + [1]);
    LoadsOne(s.(readers := [Reader(Loading(0, 0, [0] + [1] + [1]), [])]), [0] + [1] + [1]);
    torn := Accepted(s, [0] + [1] + [1] + [1]);
    assert [0] + [1] + [1] + [1] == [0, 1, 1, 1];
  }

  lemma Accepted(s: State, got: seq<int>) returns (accepted: State)
    requires Reachable(s.(readers := [Reader(Loading(0, 0, got), [])])) && s.sequence == 0 && |got| == |s.cells|
    ensures accepted == s.(readers := [Reader(Calling, [Snapshot(got, 0)])]) && Reachable(accepted)
  {
    hide Reachable;
    var loaded := s.(readers := [Reader(Loading(0, 0, got), [])]);
    Reaches(loaded, LoadAfter(0));
    accepted := s.(readers := [Reader(Calling, [Snapshot(got, 0)])]);
    assert [] + [Snapshot(got, 0)] == [Snapshot(got, 0)];
    assert loaded.readers[0 := Reader(Calling, [Snapshot(got, 0)])] == accepted.readers;
    assert Perform(SMALL, loaded, LoadAfter(0)) == Some(accepted);
  }
}
