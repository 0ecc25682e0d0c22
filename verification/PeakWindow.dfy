/** The monotonic ring of peak candidates, and the sliding maximum it computes. */
module PeakWindow {
  import opened Frames
  import opened SourceFrames

  /** One candidate: the index of a frame and its peak. */
  datatype Candidate = Candidate(index: nat, value: real)

  function DropExpired(entries: seq<Candidate>, minimum: nat): seq<Candidate> {
    if |entries| > 0 && entries[0].index < minimum then DropExpired(entries[1..], minimum) else entries
  }

  function DropDominated(entries: seq<Candidate>, value: real): seq<Candidate> {
    if |entries| > 0 && entries[|entries| - 1].value <= value then DropDominated(entries[..|entries| - 1], value) else entries
  }

  /** `entries` are the candidates of the peaks from index `from` on: strictly later,
      strictly smaller ones, each the peak of its frame, and every peak is matched or
      exceeded by a candidate that is not older. */
  ghost predicate IsWindow(entries: seq<Candidate>, peaks: seq<real>, from: nat) {
    && (forall j :: 0 <= j < |entries| ==> from <= entries[j].index < |peaks| && entries[j].value == peaks[entries[j].index])
    && (forall j, k :: 0 <= j < k < |entries| ==> entries[j].index < entries[k].index && entries[j].value > entries[k].value)
    && (forall i :: from <= i < |peaks| ==> Matched(entries, peaks, i))
  }

  ghost predicate Matched(entries: seq<Candidate>, peaks: seq<real>, i: nat)
    requires i < |peaks|
  {
    exists j :: 0 <= j < |entries| && entries[j].index >= i && entries[j].value >= peaks[i]
  }

  /** The greatest of the peaks from `from` on, including the latest. */
  ghost function WindowMaximum(peaks: seq<real>, from: nat): (maximum: real)
    requires from < |peaks|
    ensures forall i :: from <= i < |peaks| ==> peaks[i] <= maximum
    ensures exists i :: from <= i < |peaks| && peaks[i] == maximum
    decreases |peaks| - from
  {
    if from == |peaks| - 1 then peaks[from] else
    var rest := WindowMaximum(peaks, from + 1);
    if peaks[from] > rest then peaks[from] else rest
  }

  /** The front candidate is the maximum of the whole window. */
  lemma FrontIsMaximum(entries: seq<Candidate>, peaks: seq<real>, from: nat)
    requires IsWindow(entries, peaks, from) && from < |peaks|
    ensures |entries| > 0 && entries[0].value == WindowMaximum(peaks, from)
  {
    var maximum := WindowMaximum(peaks, from);
    var i :| from <= i < |peaks| && peaks[i] == maximum;
    assert Matched(entries, peaks, i);
    var j :| 0 <= j < |entries| && entries[j].index >= i && entries[j].value >= peaks[i];
    assert entries[0].value >= entries[j].value;
    assert peaks[entries[0].index] <= maximum;
  }

  /** A window never holds more candidates than frames. */
  lemma {:induction false} WindowFits(entries: seq<Candidate>, low: nat, high: nat)
    requires low <= high
    requires forall j :: 0 <= j < |entries| ==> low <= entries[j].index < high
    requires forall j, k :: 0 <= j < k < |entries| ==> entries[j].index < entries[k].index
    ensures |entries| <= high - low
    decreases |entries|
  {
    if |entries| > 0 {
      WindowFits(entries[1..], entries[0].index + 1, high);
    }
  }

  lemma {:induction false} ExpireKeepsWindow(entries: seq<Candidate>, peaks: seq<real>, from: nat, minimum: nat)
    requires IsWindow(entries, peaks, from) && from <= minimum
    ensures IsWindow(DropExpired(entries, minimum), peaks, minimum)
  {
    ExpiredSuffix(entries, minimum);
    var kept := DropExpired(entries, minimum);
    var d := |entries| - |kept|;
    forall i | minimum <= i < |peaks|
      ensures Matched(kept, peaks, i)
    {
      assert Matched(entries, peaks, i);
      var j :| 0 <= j < |entries| && entries[j].index >= i && entries[j].value >= peaks[i];
      assert kept[j - d] == entries[j];
    }
    forall j | 0 <= j < |kept|
      ensures minimum <= kept[j].index
    {
      assert kept[0].index <= kept[j].index;
    }
  }

  /** Expiry removes exactly the leading candidates below the minimum. */
  lemma {:induction false} ExpiredSuffix(entries: seq<Candidate>, minimum: nat)
    ensures |DropExpired(entries, minimum)| <= |entries|
    ensures DropExpired(entries, minimum) == entries[|entries| - |DropExpired(entries, minimum)|..]
    ensures forall j :: 0 <= j < |entries| - |DropExpired(entries, minimum)| ==> entries[j].index < minimum
    ensures |DropExpired(entries, minimum)| > 0 ==> DropExpired(entries, minimum)[0].index >= minimum
  {
    if |entries| > 0 && entries[0].index < minimum {
      ExpiredSuffix(entries[1..], minimum);
    }
  }

  /** Domination removes exactly the trailing candidates that are not greater. */
  lemma {:induction false} DominatedPrefix(entries: seq<Candidate>, value: real)
    ensures |DropDominated(entries, value)| <= |entries|
    ensures DropDominated(entries, value) == entries[..|DropDominated(entries, value)|]
    ensures forall j :: |DropDominated(entries, value)| <= j < |entries| ==> entries[j].value <= value
    ensures |DropDominated(entries, value)| > 0 ==> DropDominated(entries, value)[|DropDominated(entries, value)| - 1].value > value
  {
    if |entries| > 0 && entries[|entries| - 1].value <= value {
      DominatedPrefix(entries[..|entries| - 1], value);
    }
  }

  lemma PushKeepsWindow(entries: seq<Candidate>, peaks: seq<real>, from: nat, value: real)
    requires IsWindow(entries, peaks, from) && from <= |peaks|
    ensures IsWindow(DropDominated(entries, value) + [Candidate(|peaks|, value)], peaks + [value], from)
    ensures |DropDominated(entries, value)| <= |peaks| - from
  {
    hide DropDominated, Matched;
    DominatedPrefix(entries, value);
    var kept := DropDominated(entries, value);
    WindowFits(kept, from, |peaks|);
    forall i | from <= i < |peaks| + 1
      ensures Matched(kept + [Candidate(|peaks|, value)], peaks + [value], i)
    {
      PushMatches(entries, kept, peaks, value, from, i);
    }
    PushOrdered(entries, kept, peaks, from, value);
  }

  lemma PushOrdered(entries: seq<Candidate>, kept: seq<Candidate>, peaks: seq<real>, from: nat, value: real)
    requires IsWindow(entries, peaks, from) && from <= |peaks|
    requires |kept| <= |entries| && kept == entries[..|kept|]
    requires |kept| > 0 ==> kept[|kept| - 1].value > value
    ensures var after, all := kept + [Candidate(|peaks|, value)], peaks + [value];
            && (forall j :: 0 <= j < |after| ==> from <= after[j].index < |all| && after[j].value == all[after[j].index])
            && (forall j, k :: 0 <= j < k < |after| ==> after[j].index < after[k].index && after[j].value > after[k].value)
  {
    hide Matched;
    var after := kept + [Candidate(|peaks|, value)];
    forall j, k | 0 <= j < k < |after|
      ensures after[j].index < after[k].index && after[j].value > after[k].value
    {
      assert after[j] == entries[j];
      if k == |kept| {
        assert entries[j].value >= kept[|kept| - 1].value;
      }
    }
  }

  lemma PushMatches(entries: seq<Candidate>, kept: seq<Candidate>, peaks: seq<real>, value: real, from: nat, i: nat)
    requires IsWindow(entries, peaks, from) && from <= i <= |peaks|
    requires |kept| <= |entries| && kept == entries[..|kept|]
    requires forall j :: |kept| <= j < |entries| ==> entries[j].value <= value
    ensures Matched(kept + [Candidate(|peaks|, value)], peaks + [value], i)
  {
    var after := kept + [Candidate(|peaks|, value)];
    assert after[|kept|] == Candidate(|peaks|, value);
    if i < |peaks| {
      assert Matched(entries, peaks, i);
      var j :| 0 <= j < |entries| && entries[j].index >= i && entries[j].value >= peaks[i];
      if j < |kept| {
        assert after[j] == entries[j];
      }
    }
  }

  // ------------------------------------------------------------------ the ring

  /** Position `i` steps behind `head` on a ring. */
  function Around(head: nat, i: nat, capacity: nat): (slot: nat)
    requires head < capacity && i <= capacity
    ensures slot < capacity
  {
    if head + i < capacity then head + i else head + i - capacity
  }

  /** The code writes it as a remainder. */
  lemma AroundIsRemainder(head: nat, i: nat, capacity: nat)
    requires head < capacity && i <= capacity
    ensures (head + i) % capacity == Around(head, i, capacity)
  {
    var turns := if head + i < capacity then 0 else 1;
    QuotientUnique(head + i, capacity, turns, Around(head, i, capacity));
  }

  /** The candidates a ring holds, oldest first. */
  ghost function Ring(values: seq<real>, indices: seq<nat>, head: nat, len: nat): (entries: seq<Candidate>)
    requires |values| == |indices| && len <= |values| && (len > 0 ==> head < |values|)
    ensures |entries| == len
  {
    seq(len, i requires 0 <= i < len => Candidate(indices[Around(head, i, |values|)], values[Around(head, i, |values|)]))
  }

  lemma RingWithoutFront(values: seq<real>, indices: seq<nat>, head: nat, len: nat)
    requires |values| == |indices| && 0 < len <= |values| && head < |values|
    ensures Ring(values, indices, Around(head, 1, |values|), len - 1) == Ring(values, indices, head, len)[1..]
  {}

  lemma RingWithoutBack(values: seq<real>, indices: seq<nat>, head: nat, len: nat, shorter: nat)
    requires |values| == |indices| && shorter <= len <= |values| && head < |values|
    ensures Ring(values, indices, head, shorter) == Ring(values, indices, head, len)[..shorter]
  {}

  lemma RingExtended(values: seq<real>, indices: seq<nat>, head: nat, len: nat, entry: Candidate)
    requires |values| == |indices| && len < |values| && head < |values|
    ensures var tail := Around(head, len, |values|);
            Ring(values[tail := entry.value], indices[tail := entry.index], head, len + 1) == Ring(values, indices, head, len) + [entry]
  {}

  class FixedPeakWindow {
    const values: array<real>
    const indices: array<nat>
    var head: nat
    var len: nat

    ghost predicate Valid()
      reads this
    {
      && values != indices as object
      && values.Length == indices.Length
      && len <= values.Length
      && (values.Length > 0 ==> head < values.Length)
    }

    /** The candidates, oldest first. */
    ghost function Entries(): (entries: seq<Candidate>)
      requires Valid()
      reads this, values, indices
      ensures |entries| == len
    {
      Ring(values[..], indices[..], head, len)
    }

    constructor (capacity: nat)
      ensures Valid() && fresh(values) && fresh(indices) && values.Length == capacity && Entries() == []
    {
      values := new real[capacity](_ => 0.0);
      indices := new nat[capacity](_ => 0);
      head, len := 0, 0;
    }

    method Clear()
      requires Valid()
      modifies this`head, this`len
      ensures Valid() && Entries() == []
    {
      head, len := 0, 0;
    }

    method ExpireBefore(minimum: nat)
      requires Valid()
      modifies this`head, this`len
      ensures Valid() && Entries() == DropExpired(old(Entries()), minimum)
    {
      while len > 0 && indices[head] < minimum
        invariant Valid()
        invariant DropExpired(Entries(), minimum) == DropExpired(old(Entries()), minimum)
        decreases len
      {
        RingWithoutFront(values[..], indices[..], head, len);
        assert Entries()[0].index == indices[head];
        AroundIsRemainder(head, 1, values.Length);
        head := (head + 1) % values.Length;
        len := len - 1;
      }
      assert len > 0 ==> Entries()[0].index == indices[head];
    }

    method DropBack(value: real)
      requires Valid()
      modifies this`len
      ensures Valid() && Entries() == DropDominated(old(Entries()), value)
    {
      while len > 0
        invariant Valid()
        invariant DropDominated(Entries(), value) == DropDominated(old(Entries()), value)
        decreases len
      {
        AroundIsRemainder(head, len - 1, values.Length);
        var back := (head + len - 1) % values.Length;
        assert Entries()[len - 1].value == values[back];
        if values[back] > value {
          break;
        }
        RingWithoutBack(values[..], indices[..], head, len, len - 1);
        len := len - 1;
      }
    }

    /** Insert a candidate behind everything greater; false when the ring is full. */
    method Push(index: nat, value: real) returns (ok: bool)
      requires Valid()
      modifies this`len, values, indices
      ensures Valid()
      ensures var kept := DropDominated(old(Entries()), value);
              && (ok <==> |kept| < values.Length)
              && Entries() == if ok then kept + [Candidate(index, value)] else kept
    {
      DropBack(value);
      if len == values.Length {
        return false;
      }
      RingExtended(values[..], indices[..], head, len, Candidate(index, value));
      AroundIsRemainder(head, len, values.Length);
      var tail := (head + len) % values.Length;
      ghost var valuesBefore, indicesBefore := values[..], indices[..];
      values[tail] := value;
      indices[tail] := index;
      assert values[..] == valuesBefore[tail := value] && indices[..] == indicesBefore[tail := index];
      len := len + 1;
      ok := true;
    }

    function Maximum(): (maximum: Option<real>)
      requires Valid()
      reads this, values, indices
      ensures maximum == if |Entries()| == 0 then None else Some(Entries()[0].value)
    {
      if len > 0 then Some(values[head]) else None
    }
  }
}
