/** Admission of a nested closure of runtimes against one closure-wide grant. */
module Admission {
  import opened Frames
  import opened Graph

  const RUNTIME_SOURCE_BINDING_BYTES: nat := 256
  const NESTED_RUNTIME_BINDING_BYTES: nat := 512

  /** What is counted: runtime occurrences, and bytes by their purpose. */
  datatype Footprint = Footprint(
    occurrences: nat, fixedResident: nat, preparedLogical: nat,
    renderScratch: nat, processorSession: nat, compensationDelay: nat, parameterEvents: nat,
    mediaWindows: nat, nestedWindows: nat)
  {
    function Plus(more: Footprint): Footprint {
      Footprint(occurrences + more.occurrences, fixedResident + more.fixedResident, preparedLogical + more.preparedLogical,
                renderScratch + more.renderScratch, processorSession + more.processorSession,
                compensationDelay + more.compensationDelay, parameterEvents + more.parameterEvents,
                mediaWindows + more.mediaWindows, nestedWindows + more.nestedWindows)
    }

    /** Field by field, zero at least. */
    function Minus(before: Footprint): Footprint {
      Footprint(Saturating(occurrences, before.occurrences), Saturating(fixedResident, before.fixedResident),
                Saturating(preparedLogical, before.preparedLogical), Saturating(renderScratch, before.renderScratch),
                Saturating(processorSession, before.processorSession), Saturating(compensationDelay, before.compensationDelay),
                Saturating(parameterEvents, before.parameterEvents), Saturating(mediaWindows, before.mediaWindows),
                Saturating(nestedWindows, before.nestedWindows))
    }

    /** Every field fits the machine. */
    predicate Representable() {
      && occurrences <= USIZE_MAX && fixedResident <= USIZE_MAX && preparedLogical <= USIZE_MAX
      && renderScratch <= USIZE_MAX && processorSession <= USIZE_MAX && compensationDelay <= USIZE_MAX
      && parameterEvents <= USIZE_MAX && mediaWindows <= USIZE_MAX && nestedWindows <= USIZE_MAX
    }
  }

  function Saturating(a: nat, b: nat): (rest: nat)
    ensures a <= b ==> rest == 0
    ensures a >= b ==> rest + b == a
  {
    if a < b then 0 else a - b
  }

  const NOTHING: Footprint := Footprint(0, 0, 0, 0, 0, 0, 0, 0, 0)

  datatype Grant = Grant(occurrences: nat, fixedResident: nat, preparedLogical: nat)

  datatype Category = RuntimeOccurrences | FixedResidentBytes | PreparedLogicalBytes

  datatype BuildError = ExtentOverflow | GrantExceeded(category: Category, required: nat, granted: nat)

  /** One runtime of the closure: its sources in order, and what its Session needs. */
  datatype Occurrence = Occurrence(sources: seq<Source>, session: Footprint)

  /** A decoded window, or the public output of a nested runtime behind a window. */
  datatype Source = Media(windowBytes: nat) | Nested(child: Occurrence, windowBytes: nat)

  function MediaFootprint(windowBytes: nat): Footprint {
    var bytes := windowBytes + RUNTIME_SOURCE_BINDING_BYTES;
    NOTHING.(fixedResident := bytes, mediaWindows := bytes)
  }

  function NestedFootprint(windowBytes: nat): Footprint {
    var bytes := windowBytes + RUNTIME_SOURCE_BINDING_BYTES + NESTED_RUNTIME_BINDING_BYTES;
    NOTHING.(fixedResident := bytes, nestedWindows := bytes)
  }

  function SessionFootprint(session: Footprint): Footprint {
    session.(occurrences := 1, mediaWindows := 0, nestedWindows := 0)
  }

  /** Everything in the closure below and including one runtime. */
  function Total(o: Occurrence): Footprint
    decreases o, 1
  {
    TotalOfSources(o, |o.sources|).Plus(SessionFootprint(o.session))
  }

  function TotalOfSource(source: Source): Footprint
    decreases source
  {
    match source
    case Media(bytes) => MediaFootprint(bytes)
    case Nested(child, bytes) => Total(child).Plus(NestedFootprint(bytes))
  }

  function TotalOfSources(o: Occurrence, k: nat): Footprint
    requires k <= |o.sources|
    decreases o, 0, k
  {
    if k == 0 then NOTHING else TotalOfSources(o, k - 1).Plus(TotalOfSource(o.sources[k - 1]))
  }

  // ------------------------------------------------------------------ the total in numbers

  datatype Purpose =
    | Occurrences | FixedResident | PreparedLogical
    | RenderScratch | ProcessorSession | CompensationDelay | ParameterEvents
    | MediaWindows | NestedWindows

  ghost function Part(f: Footprint, purpose: Purpose): nat {
    match purpose
    case Occurrences => f.occurrences
    case FixedResident => f.fixedResident
    case PreparedLogical => f.preparedLogical
    case RenderScratch => f.renderScratch
    case ProcessorSession => f.processorSession
    case CompensationDelay => f.compensationDelay
    case ParameterEvents => f.parameterEvents
    case MediaWindows => f.mediaWindows
    case NestedWindows => f.nestedWindows
  }

  /** A Session is one runtime and has no windows of its own. */
  ghost function SessionWeight(session: Footprint, purpose: Purpose): nat {
    if purpose.Occurrences? then 1 else if purpose.MediaWindows? || purpose.NestedWindows? then 0 else Part(session, purpose)
  }

  /** A window weighs its bytes and a binding of 256 bytes. */
  ghost function MediaWeight(bytes: nat, purpose: Purpose): nat {
    if purpose.FixedResident? || purpose.MediaWindows? then bytes + 256 else 0
  }

  /** A nested one another 512 bytes. */
  ghost function NestedWeight(bytes: nat, purpose: Purpose): nat {
    if purpose.FixedResident? || purpose.NestedWindows? then bytes + 768 else 0
  }

  /** What the closure of a runtime needs for one purpose. */
  ghost function Weight(o: Occurrence, purpose: Purpose): nat
    decreases o, 1
  {
    WeightOfSources(o, |o.sources|, purpose) + SessionWeight(o.session, purpose)
  }

  ghost function WeightOfSources(o: Occurrence, k: nat, purpose: Purpose): nat
    requires k <= |o.sources|
    decreases o, 0, k
  {
    if k == 0 then 0 else
    WeightOfSources(o, k - 1, purpose) +
    match o.sources[k - 1]
    case Media(bytes) => MediaWeight(bytes, purpose)
    case Nested(child, bytes) => Weight(child, purpose) + NestedWeight(bytes, purpose)
  }

  lemma PartsAdd(a: Footprint, b: Footprint, purpose: Purpose)
    ensures Part(a.Plus(b), purpose) == Part(a, purpose) + Part(b, purpose)
  {}

  lemma PartsOfPieces(session: Footprint, bytes: nat, purpose: Purpose)
    ensures Part(NOTHING, purpose) == 0 && Part(SessionFootprint(session), purpose) == SessionWeight(session, purpose)
    ensures Part(MediaFootprint(bytes), purpose) == MediaWeight(bytes, purpose) && Part(NestedFootprint(bytes), purpose) == NestedWeight(bytes, purpose)
  {}

  lemma {:induction false} SourcesWeigh(o: Occurrence, k: nat, purpose: Purpose)
    requires k <= |o.sources|
    ensures Part(TotalOfSources(o, k), purpose) == WeightOfSources(o, k, purpose)
    decreases o, 0, k
  {
    hide Part, Footprint.Plus, SessionFootprint, MediaFootprint, NestedFootprint, SessionWeight, MediaWeight, NestedWeight, Total, Weight;
    PartsOfPieces(o.session, 0, purpose);
    if k > 0 {
      SourcesWeigh(o, k - 1, purpose);
      PartsAdd(TotalOfSources(o, k - 1), TotalOfSource(o.sources[k - 1]), purpose);
      PartsOfPieces(o.session, o.sources[k - 1].windowBytes, purpose);
      if o.sources[k - 1].Nested? {
        TotalWeighs(o.sources[k - 1].child, purpose);
        PartsAdd(Total(o.sources[k - 1].child), NestedFootprint(o.sources[k - 1].windowBytes), purpose);
      }
    }
  }

  /** The total is, purpose by purpose, what all Sessions and windows of the closure weigh. */
  lemma {:induction false} TotalWeighs(o: Occurrence, purpose: Purpose)
    ensures Part(Total(o), purpose) == Weight(o, purpose)
    decreases o, 1
  {
    hide Part, Footprint.Plus, SessionFootprint, SessionWeight, TotalOfSources, WeightOfSources;
    SourcesWeigh(o, |o.sources|, purpose);
    PartsAdd(TotalOfSources(o, |o.sources|), SessionFootprint(o.session), purpose);
    PartsOfPieces(o.session, 0, purpose);
  }

  /** The runtimes of the closure. */
  ghost function Runtimes(o: Occurrence): nat
    decreases o, 1
  {
    RuntimesBelow(o, |o.sources|) + 1
  }

  ghost function RuntimesBelow(o: Occurrence, k: nat): nat
    requires k <= |o.sources|
    decreases o, 0, k
  {
    if k == 0 then 0 else RuntimesBelow(o, k - 1) + if o.sources[k - 1].Nested? then Runtimes(o.sources[k - 1].child) else 0
  }

  lemma {:induction false} SourcesAreRuntimes(o: Occurrence, k: nat)
    requires k <= |o.sources|
    ensures WeightOfSources(o, k, Occurrences) == RuntimesBelow(o, k)
    decreases o, 0, k
  {
    if k > 0 {
      SourcesAreRuntimes(o, k - 1);
      if o.sources[k - 1].Nested? {
        OccurrencesAreRuntimes(o.sources[k - 1].child);
      }
    }
  }

  /** The occurrences counted for a closure are its runtimes. */
  lemma {:induction false} OccurrencesAreRuntimes(o: Occurrence)
    ensures Weight(o, Occurrences) == Runtimes(o)
    decreases o, 1
  {
    SourcesAreRuntimes(o, |o.sources|);
  }

  /** One more thing stays representable for every purpose and within the grant. */
  ghost predicate Affords(now: Footprint, more: Footprint, grant: Grant) {
    && (forall purpose: Purpose :: Part(now, purpose) + Part(more, purpose) < 0x1_0000_0000_0000_0000)
    && now.occurrences + more.occurrences <= grant.occurrences
    && now.fixedResident + more.fixedResident <= grant.fixedResident
    && now.preparedLogical + more.preparedLogical <= grant.preparedLogical
  }

  lemma AffordsAdmitted(now: Footprint, more: Footprint, grant: Grant)
    ensures Affords(now, more, grant) <==> Admitted(now.Plus(more), grant)
    ensures now.Plus(more).Representable() <==> forall purpose: Purpose :: Part(now, purpose) + Part(more, purpose) < 0x1_0000_0000_0000_0000
  {
    if forall purpose: Purpose :: Part(now, purpose) + Part(more, purpose) < 0x1_0000_0000_0000_0000 {
      assert Part(now, Occurrences) + Part(more, Occurrences) < 0x1_0000_0000_0000_0000;
      assert Part(now, FixedResident) + Part(more, FixedResident) < 0x1_0000_0000_0000_0000;
      assert Part(now, PreparedLogical) + Part(more, PreparedLogical) < 0x1_0000_0000_0000_0000;
      assert Part(now, RenderScratch) + Part(more, RenderScratch) < 0x1_0000_0000_0000_0000;
      assert Part(now, ProcessorSession) + Part(more, ProcessorSession) < 0x1_0000_0000_0000_0000;
      assert Part(now, CompensationDelay) + Part(more, CompensationDelay) < 0x1_0000_0000_0000_0000;
      assert Part(now, ParameterEvents) + Part(more, ParameterEvents) < 0x1_0000_0000_0000_0000;
      assert Part(now, MediaWindows) + Part(more, MediaWindows) < 0x1_0000_0000_0000_0000;
      assert Part(now, NestedWindows) + Part(more, NestedWindows) < 0x1_0000_0000_0000_0000;
    }
  }

  /** The refusal names what is exceeded first: the machine, then occurrences, resident bytes and prepared bytes. */
  ghost predicate Names(error: BuildError, now: Footprint, more: Footprint, grant: Grant) {
    var represented := forall purpose: Purpose :: Part(now, purpose) + Part(more, purpose) < 0x1_0000_0000_0000_0000;
    match error
    case ExtentOverflow => !represented
    case GrantExceeded(RuntimeOccurrences, required, granted) =>
      represented && required == now.occurrences + more.occurrences > granted == grant.occurrences
    case GrantExceeded(FixedResidentBytes, required, granted) =>
      && represented && now.occurrences + more.occurrences <= grant.occurrences
      && required == now.fixedResident + more.fixedResident > granted == grant.fixedResident
    case GrantExceeded(PreparedLogicalBytes, required, granted) =>
      && represented && now.occurrences + more.occurrences <= grant.occurrences && now.fixedResident + more.fixedResident <= grant.fixedResident
      && required == now.preparedLogical + more.preparedLogical > granted == grant.preparedLogical
  }

  /** A grant that was exceeded, and by what. */
  ghost predicate Exceeds(error: BuildError, grant: Grant) {
    match error
    case ExtentOverflow => true
    case GrantExceeded(RuntimeOccurrences, required, granted) => required > granted == grant.occurrences
    case GrantExceeded(FixedResidentBytes, required, granted) => required > granted == grant.fixedResident
    case GrantExceeded(PreparedLogicalBytes, required, granted) => required > granted == grant.preparedLogical
  }

  /** The whole closure stays representable for every purpose and within the grant beside what was reserved before. */
  ghost predicate Fits(before: Footprint, o: Occurrence, grant: Grant) {
    && (forall purpose: Purpose :: Part(before, purpose) + Weight(o, purpose) < 0x1_0000_0000_0000_0000)
    && before.occurrences + Runtimes(o) <= grant.occurrences
    && before.fixedResident + Weight(o, FixedResident) <= grant.fixedResident
    && before.preparedLogical + Weight(o, PreparedLogical) <= grant.preparedLogical
  }

  lemma FitsAdmitted(before: Footprint, o: Occurrence, grant: Grant)
    ensures Fits(before, o, grant) <==> Admitted(before.Plus(Total(o)), grant)
    ensures forall purpose: Purpose :: Part(Total(o), purpose) == Weight(o, purpose)
    ensures Total(o).occurrences == Runtimes(o)
  {
    hide Admitted, Total, Weight, Runtimes, Footprint.Plus;
    forall purpose: Purpose
      ensures Part(Total(o), purpose) == Weight(o, purpose)
    {
      TotalWeighs(o, purpose);
    }
    OccurrencesAreRuntimes(o);
    AffordsAdmitted(before, Total(o), grant);
    assert Total(o).occurrences == Part(Total(o), Occurrences) && Total(o).fixedResident == Part(Total(o), FixedResident) && Total(o).preparedLogical == Part(Total(o), PreparedLogical);
  }

  predicate Admitted(f: Footprint, grant: Grant) {
    && f.Representable()
    && f.occurrences <= grant.occurrences && f.fixedResident <= grant.fixedResident && f.preparedLogical <= grant.preparedLogical
  }

  predicate Below(f: Footprint, g: Footprint) {
    && f.occurrences <= g.occurrences && f.fixedResident <= g.fixedResident && f.preparedLogical <= g.preparedLogical
    && f.renderScratch <= g.renderScratch && f.processorSession <= g.processorSession
    && f.compensationDelay <= g.compensationDelay && f.parameterEvents <= g.parameterEvents
    && f.mediaWindows <= g.mediaWindows && f.nestedWindows <= g.nestedWindows
  }

  lemma PlusAssociates(a: Footprint, b: Footprint, c: Footprint)
    ensures a.Plus(b).Plus(c) == a.Plus(b.Plus(c))
    ensures a.Plus(NOTHING) == a && a.Plus(b).Minus(a) == b
    ensures Below(a.Plus(b), a.Plus(b).Plus(c))
  {}

  /** What is refused stays refused when more is asked for. */
  lemma RefusedStaysRefused(f: Footprint, g: Footprint, grant: Grant)
    requires Below(f, g) && !Admitted(f, grant)
    ensures !Admitted(g, grant)
  {}

  /** The sources before one are no more than all sources. */
  lemma {:induction false} SourcesGrow(o: Occurrence, k: nat)
    requires k <= |o.sources|
    ensures Below(TotalOfSources(o, k), TotalOfSources(o, |o.sources|))
    decreases |o.sources| - k
  {
    hide TotalOfSource;
    if k < |o.sources| {
      SourcesGrow(o, k + 1);
    }
  }

  class AdmissionLedger {
    const grant: Grant
    var footprint: Footprint

    ghost predicate Valid()
      reads this
    {
      Admitted(footprint, grant)
    }

    constructor (grant: Grant)
      ensures Valid() && footprint == NOTHING && this.grant == grant
    {
      this.grant := grant;
      footprint := NOTHING;
    }

    /** Count one more thing, or refuse it and count nothing. */
    method Reserve(delta: Footprint) returns (error: Option<BuildError>)
      requires Valid()
      modifies this
      ensures Valid()
      ensures error.None? <==> Affords(old(footprint), delta, grant)
      ensures error.Some? ==> Names(error.value, old(footprint), delta, grant)
      ensures error.Some? ==> footprint == old(footprint)
      ensures error.None? ==> forall purpose: Purpose :: Part(footprint, purpose) == Part(old(footprint), purpose) + Part(delta, purpose)
      ensures error.None? ==> footprint == old(footprint).Plus(delta)
    {
      hide Part;
      var next := footprint.Plus(delta);
      AffordsAdmitted(footprint, delta, grant);
      forall purpose: Purpose
        ensures Part(next, purpose) == Part(footprint, purpose) + Part(delta, purpose)
      {
        PartsAdd(footprint, delta, purpose);
      }
      if !next.Representable() {
        return Some(ExtentOverflow);
      }
      if next.occurrences > grant.occurrences {
        return Some(GrantExceeded(RuntimeOccurrences, next.occurrences, grant.occurrences));
      }
      if next.fixedResident > grant.fixedResident {
        return Some(GrantExceeded(FixedResidentBytes, next.fixedResident, grant.fixedResident));
      }
      if next.preparedLogical > grant.preparedLogical {
        return Some(GrantExceeded(PreparedLogicalBytes, next.preparedLogical, grant.preparedLogical));
      }
      footprint := next;
      error := None;
    }

    method ReserveMediaWindow(bytes: nat) returns (error: Option<BuildError>)
      requires Valid()
      modifies this
      ensures Valid()
      ensures error.None? <==> Affords(old(footprint), MediaFootprint(bytes), grant)
      ensures error.Some? ==> footprint == old(footprint) && Names(error.value, old(footprint), MediaFootprint(bytes), grant)
      ensures error.None? ==> forall purpose: Purpose :: Part(footprint, purpose) == Part(old(footprint), purpose) + MediaWeight(bytes, purpose)
      ensures error.None? ==> footprint == old(footprint).Plus(MediaFootprint(bytes))
    {
      hide Part;
      forall purpose: Purpose
        ensures Part(MediaFootprint(bytes), purpose) == MediaWeight(bytes, purpose)
      {
        PartsOfPieces(NOTHING, bytes, purpose);
      }
      assert Part(MediaFootprint(bytes), FixedResident) == bytes + 256;
      if bytes + RUNTIME_SOURCE_BINDING_BYTES > USIZE_MAX {
        return Some(ExtentOverflow);
      }
      error := Reserve(MediaFootprint(bytes));
    }

    method ReserveNestedWindow(bytes: nat) returns (error: Option<BuildError>)
      requires Valid()
      modifies this
      ensures Valid()
      ensures error.None? <==> Affords(old(footprint), NestedFootprint(bytes), grant)
      ensures error.Some? ==> footprint == old(footprint) && Names(error.value, old(footprint), NestedFootprint(bytes), grant)
      ensures error.None? ==> forall purpose: Purpose :: Part(footprint, purpose) == Part(old(footprint), purpose) + NestedWeight(bytes, purpose)
      ensures error.None? ==> footprint == old(footprint).Plus(NestedFootprint(bytes))
    {
      hide Part;
      forall purpose: Purpose
        ensures Part(NestedFootprint(bytes), purpose) == NestedWeight(bytes, purpose)
      {
        PartsOfPieces(NOTHING, bytes, purpose);
      }
      assert Part(NestedFootprint(bytes), FixedResident) == bytes + 768;
      if bytes + RUNTIME_SOURCE_BINDING_BYTES + NESTED_RUNTIME_BINDING_BYTES > USIZE_MAX {
        return Some(ExtentOverflow);
      }
      error := Reserve(NestedFootprint(bytes));
    }

    /** Build one runtime and everything below it. It succeeds exactly when the whole closure fits the grant beside what
        was reserved before, although it is reserved piece by piece, depth first; then every runtime reports exactly
        its own closure. A failed build never leaves more reserved than was granted. */
    method Build(o: Occurrence) returns (error: Option<BuildError>, own: Footprint)
      requires Valid()
      modifies this
      ensures Valid()
      ensures error.None? <==> Fits(old(footprint), o, grant)
      ensures error.Some? ==> Exceeds(error.value, grant)
      ensures error.None? ==> forall purpose: Purpose :: Part(own, purpose) == Weight(o, purpose)
      ensures error.None? ==> own.occurrences == Runtimes(o)
      ensures error.None? ==> footprint == old(footprint).Plus(Total(o)) && own == Total(o)
      decreases o
    {
      hide Admitted, Total, TotalOfSource, TotalOfSources, Below, Footprint.Plus, Footprint.Minus, Part, Weight, Runtimes, Fits, Affords;
      var before := footprint;
      FitsAdmitted(before, o, grant);
      own := NOTHING;
      Starts(o, before);
      for k := 0 to |o.sources|
        invariant Valid() && footprint == before.Plus(TotalOfSources(o, k))
      {
        OneSource(o, k, before, grant);
        match o.sources[k] {
          case Media(bytes) =>
            AffordsAdmitted(footprint, MediaFootprint(bytes), grant);
            error := ReserveMediaWindow(bytes);
          case Nested(child, bytes) =>
            PlusAssociates(footprint, Total(child), NestedFootprint(bytes));
            FitsAdmitted(footprint, child, grant);
            error, own := Build(child);
            if error.Some? {
              RefusedStaysRefused(before.Plus(TotalOfSources(o, k)).Plus(Total(child)), before.Plus(TotalOfSources(o, k + 1)), grant);
              return;
            }
            AffordsAdmitted(footprint, NestedFootprint(bytes), grant);
            error := ReserveNestedWindow(bytes);
        }
        if error.Some? {
          return;
        }
      }
      Closes(o, before);
      AffordsAdmitted(footprint, SessionFootprint(o.session), grant);
      error := Reserve(SessionFootprint(o.session));
      own := footprint.Minus(before);
    }
  }

  lemma Starts(o: Occurrence, before: Footprint)
    ensures before == before.Plus(TotalOfSources(o, 0))
  {}

  /** One more source on the way to the whole closure. */
  lemma OneSource(o: Occurrence, k: nat, before: Footprint, grant: Grant)
    requires k < |o.sources|
    ensures before.Plus(TotalOfSources(o, k)).Plus(TotalOfSource(o.sources[k])) == before.Plus(TotalOfSources(o, k + 1))
    ensures o.sources[k].Media? ==> TotalOfSource(o.sources[k]) == MediaFootprint(o.sources[k].windowBytes)
    ensures o.sources[k].Nested? ==>
              var reached, child := before.Plus(TotalOfSources(o, k)), Total(o.sources[k].child);
              && reached.Plus(child).Plus(NestedFootprint(o.sources[k].windowBytes)) == before.Plus(TotalOfSources(o, k + 1))
              && Below(reached.Plus(child), before.Plus(TotalOfSources(o, k + 1)))
    ensures !Admitted(before.Plus(TotalOfSources(o, k + 1)), grant) ==> !Admitted(before.Plus(Total(o)), grant)
  {
    hide Total, TotalOfSources;
    assert TotalOfSources(o, k + 1) == TotalOfSources(o, k).Plus(TotalOfSource(o.sources[k])) by {
      SourcesStep(o, k);
    }
    SourcesGrow(o, k + 1);
    WholeIsMore(o);
  }

  lemma SourcesStep(o: Occurrence, k: nat)
    requires k < |o.sources|
    ensures TotalOfSources(o, k + 1) == TotalOfSources(o, k).Plus(TotalOfSource(o.sources[k]))
  {
    hide TotalOfSource;
  }

  lemma WholeIsMore(o: Occurrence)
    ensures Below(TotalOfSources(o, |o.sources|), Total(o))
  {
    hide TotalOfSources;
  }

  lemma Closes(o: Occurrence, before: Footprint)
    ensures before.Plus(TotalOfSources(o, |o.sources|)).Plus(SessionFootprint(o.session)) == before.Plus(Total(o))
    ensures before.Plus(Total(o)).Minus(before) == Total(o)
  {
    hide TotalOfSources;
  }
}
