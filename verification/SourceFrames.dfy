/** Exact positions of source frames under an affine time map, and the
    incremental integer stepping that computes them block by block. */
module SourceFrames {

  /** An exact time or scale. Representations need not be in lowest terms. */
  datatype Rational = Rational(numerator: int, denominator: int) {
    ghost predicate Valid() { denominator > 0 }

    ghost function Value(): real
      requires Valid()
    {
      numerator as real / denominator as real
    }
  }

  function Minus(a: Rational, b: Rational): (r: Rational)
    requires a.Valid() && b.Valid()
    ensures r.Valid() && r.Value() == a.Value() - b.Value()
  {
    var r := Rational(a.numerator * b.denominator - b.numerator * a.denominator, a.denominator * b.denominator);
    CommonDenominator(a.numerator, a.denominator, b.numerator, b.denominator);
    r
  }

  function Plus(a: Rational, b: Rational): (r: Rational)
    requires a.Valid() && b.Valid()
    ensures r.Valid() && r.Value() == a.Value() + b.Value()
  {
    CommonDenominator(a.numerator, a.denominator, b.numerator, b.denominator);
    Rational(a.numerator * b.denominator + b.numerator * a.denominator, a.denominator * b.denominator)
  }

  function Times(a: Rational, b: Rational): (r: Rational)
    requires a.Valid() && b.Valid()
    ensures r.Valid() && r.Value() == a.Value() * b.Value()
  {
    ProductOfQuotients(a.numerator, a.denominator, b.numerator, b.denominator);
    Rational(a.numerator * b.numerator, a.denominator * b.denominator)
  }

  lemma CommonDenominator(p: int, q: int, r: int, s: int)
    requires q > 0 && s > 0
    ensures q * s > 0
    ensures (p * s - r * q) as real / (q * s) as real == p as real / q as real - r as real / s as real
    ensures (p * s + r * q) as real / (q * s) as real == p as real / q as real + r as real / s as real
  {
    var x, y := p as real / q as real, r as real / s as real;
    assert x * q as real == p as real && y * s as real == r as real;
    var d := q as real * s as real;
    assert (q * s) as real == d;
    assert (x - y) * d == p as real * s as real - r as real * q as real;
    assert (x + y) * d == p as real * s as real + r as real * q as real;
    assert (p * s - r * q) as real == p as real * s as real - r as real * q as real;
    assert (p * s + r * q) as real == p as real * s as real + r as real * q as real;
  }

  lemma ProductOfQuotients(p: int, q: int, r: int, s: int)
    requires q > 0 && s > 0
    ensures q * s > 0
    ensures (p * r) as real / (q * s) as real == (p as real / q as real) * (r as real / s as real)
  {
    var x, y := p as real / q as real, r as real / s as real;
    assert x * q as real == p as real && y * s as real == r as real;
    var d := q as real * s as real;
    assert (q * s) as real == d;
    assert (x * y) * d == (x * q as real) * (y * s as real);
    assert (p * r) as real == p as real * r as real;
  }

  /** Whether a position belongs to the frame that begins at or before it, or to the last frame strictly before it. */
  datatype Boundary = Covering | StrictPredecessor

  datatype TimeMap = TimeMap(sequenceStart: Rational, sourceOrigin: Rational, scale: Rational, boundary: Boundary) {
    ghost predicate Valid() { sequenceStart.Valid() && sourceOrigin.Valid() && scale.Valid() }

    /** Resolve one Sequence time into source time. */
    function Map(time: Rational): (source: Rational)
      requires Valid() && time.Valid()
      ensures source.Valid()
      ensures source.Value() == sourceOrigin.Value() + (time.Value() - sequenceStart.Value()) * scale.Value()
    {
      Plus(sourceOrigin, Times(Minus(time, sequenceStart), scale))
    }

    /** The exact source position, in source frames, of one Sequence sample. */
    ghost function Position(rate: int, sample: int): real
      requires Valid() && rate > 0
    {
      (sourceOrigin.Value() + (sample as real / rate as real - sequenceStart.Value()) * scale.Value()) * rate as real
    }

    /** The frame owned by that position: the one covering it, or the last one strictly before it. */
    ghost function FrameAt(rate: int, sample: int): (frame: int)
      requires Valid() && rate > 0
      ensures boundary.Covering? ==> frame as real <= Position(rate, sample) < (frame + 1) as real
      ensures boundary.StrictPredecessor? ==> (frame as real) < Position(rate, sample) <= (frame + 1) as real
    {
      var position := Position(rate, sample);
      if boundary.Covering? || position.Floor as real != position then position.Floor else position.Floor - 1
    }
  }

  /** Euclidean division by a positive number is the floor of the exact quotient. */
  lemma DivisionFloors(n: int, d: int)
    requires d > 0
    ensures (n as real / d as real).Floor == n / d
    ensures ((n as real / d as real).Floor as real == n as real / d as real) <==> n % d == 0
  {
    var q, r := n / d, n % d;
    assert n == q * d + r && 0 <= r < d;
    var x := n as real / d as real;
    assert x * d as real == n as real;
    assert n as real == q as real * d as real + r as real;
    assert (x - q as real) * d as real == r as real;
    MultipleOrder(x - q as real, d as real);
    assert q as real <= x < (q + 1) as real;
  }

  /** How a factor compares with 0 and 1 decides how its multiple of `d` compares with 0 and `d`. */
  lemma MultipleOrder(y: real, d: real)
    requires d > 0.0
    ensures y < 0.0 ==> y * d < 0.0
    ensures y >= 1.0 ==> y * d >= d
    ensures y == 0.0 <==> y * d == 0.0
  {}

  /** Subtracting one from the numerator turns the floor into the strict predecessor. */
  lemma DivisionPrecedes(n: int, d: int)
    requires d > 0
    ensures (n - 1) / d == if n % d == 0 then n / d - 1 else n / d
  {
    var q, r := n / d, n % d;
    assert n == q * d + r;
    if r == 0 {
      assert n - 1 == (q - 1) * d + (d - 1);
      QuotientUnique(n - 1, d, q - 1, d - 1);
    } else {
      assert n - 1 == q * d + (r - 1);
      QuotientUnique(n - 1, d, q, r - 1);
    }
  }

  lemma QuotientUnique(n: int, d: int, q: int, r: int)
    requires d > 0 && n == q * d + r && 0 <= r < d
    ensures n / d == q
  {
    var p, m := n / d, n % d;
    assert n == p * d + m;
    SmallMultiple(q - p, d, m - r) by {
      assert (q - p) * d == q * d - p * d;
    }
  }

  lemma SmallMultiple(k: int, d: int, x: int)
    requires d > 0 && k * d == x && -d < x < d
    ensures k == 0
  {
    assert k >= 1 ==> k * d >= d;
    assert k <= -1 ==> (-k) * d >= d;
  }

  /** The running numerator over the fixed denominator is the exact position of every sample it is advanced to. */
  lemma NumeratorIsPosition(timeMap: TimeMap, rate: int, first: int, time: Rational, source: Rational, i: int)
    requires timeMap.Valid() && rate > 0
    requires time.Valid() && time.Value() == first as real / rate as real
    requires source.Valid() && source.Value() == timeMap.Map(time).Value()
    ensures source.denominator * timeMap.scale.denominator > 0
    ensures var numerator := source.numerator * rate * timeMap.scale.denominator + i * (timeMap.scale.numerator * source.denominator);
            numerator as real / (source.denominator * timeMap.scale.denominator) as real == timeMap.Position(rate, first + i)
  {
    hide Rational.Value, TimeMap.Position;
    StepsOver(source, timeMap.scale, rate, i);
    PositionAdvances(timeMap, rate, first, i);
    PositionOf(timeMap, rate, first, time, source.Value());
  }

  lemma PositionOf(timeMap: TimeMap, rate: int, sample: int, time: Rational, source: real)
    requires timeMap.Valid() && rate > 0 && time.Valid() && time.Value() == sample as real / rate as real
    requires source == timeMap.Map(time).Value()
    ensures timeMap.Position(rate, sample) == source * rate as real
  {
    hide Rational.Value, TimeMap.Map;
  }

  /** A value advanced by `i` steps, over the product of both denominators. */
  lemma StepsOver(value: Rational, step: Rational, rate: int, i: int)
    requires value.Valid() && step.Valid()
    ensures value.denominator * step.denominator > 0
    ensures (value.numerator * rate * step.denominator + i * (step.numerator * value.denominator)) as real / (value.denominator * step.denominator) as real
            == value.Value() * rate as real + i as real * step.Value()
  {
    hide Rational.Value;
    var vd, kd := value.denominator, step.denominator;
    var v, k := value.Value(), step.Value();
    ValueOver(value);
    ValueOver(step);
    CastProduct(vd, kd);
    CastStep(value.numerator, rate, kd, i, step.numerator, vd);
    StepOverDenominator(v, k, vd as real, kd as real, rate as real, i as real, value.numerator as real, step.numerator as real);
    Quotient((value.numerator * rate * kd + i * (step.numerator * vd)) as real, (vd * kd) as real, v * rate as real + i as real * k);
  }

  lemma ValueOver(r: Rational)
    requires r.Valid()
    ensures r.Value() * r.denominator as real == r.numerator as real
  {}

  lemma CastProduct(a: int, b: int)
    requires a > 0 && b > 0
    ensures a * b > 0 && (a * b) as real == a as real * b as real
  {}

  lemma CastStep(n: int, rate: int, kd: int, i: int, kn: int, sd: int)
    ensures (n * rate * kd + i * (kn * sd)) as real
            == n as real * rate as real * kd as real + i as real * (kn as real * sd as real)
  {
    assert (n * rate * kd) as real == (n * rate) as real * kd as real == n as real * rate as real * kd as real;
    assert (i * (kn * sd)) as real == i as real * (kn * sd) as real;
    assert (kn * sd) as real == kn as real * sd as real;
  }

  lemma StepOverDenominator(v: real, k: real, sd: real, kd: real, rate: real, i: real, vn: real, kn: real)
    requires vn == v * sd && kn == k * kd
    ensures vn * rate * kd + i * (kn * sd) == (v * rate + i * k) * (sd * kd)
  {
    assert vn * rate * kd == (v * rate) * (sd * kd);
    assert i * (kn * sd) == (i * k) * (sd * kd);
  }

  lemma Quotient(n: real, d: real, x: real)
    requires d > 0.0 && n == x * d
    ensures n / d == x
  {}

  /** One sample further is one scale further. */
  lemma PositionAdvances(timeMap: TimeMap, rate: int, first: int, i: int)
    requires timeMap.Valid() && rate > 0
    ensures timeMap.Position(rate, first + i) == timeMap.Position(rate, first) + i as real * timeMap.scale.Value()
  {
    var r, k := rate as real, timeMap.scale.Value();
    var a, b := first as real / r, i as real / r;
    assert a * r == first as real && b * r == i as real;
    assert (first + i) as real / r == a + b by {
      assert (a + b) * r == (first + i) as real;
    }
    var o, s := timeMap.sourceOrigin.Value(), timeMap.sequenceStart.Value();
    calc {
      (o + (a + b - s) * k) * r;
      (o + (a - s) * k) * r + (b * k) * r;
      (o + (a - s) * k) * r + (b * r) * k;
    }
  }

  /** The source frame demanded at each sample of a block: -1 outside the placement. */
  ghost function Demand(timeMap: TimeMap, rate: int, start: int, end: int, sample: int): int
    requires timeMap.Valid() && rate > 0
  {
    if start <= sample < end then timeMap.FrameAt(rate, sample) else -1
  }

  function Max(a: int, b: int): int { if a < b then b else a }

  function Min(a: int, b: int): int { if a < b then a else b }

  /** Fill the demanded source frame of every frame of the block that starts at
      `blockStart`; `destination` comes in filled with -1. Returns whether the
      block meets the placement `[start, end)`. */
  method PrepareSourceFrames(timeMap: TimeMap, rate: int, start: int, end: int, blockStart: int, destination: array<int>)
    returns (active: bool)
    requires timeMap.Valid() && rate > 0
    requires forall i :: 0 <= i < destination.Length ==> destination[i] == -1
    modifies destination
    ensures active <==> 0 < destination.Length && start < end && blockStart < end && start < blockStart + destination.Length
    ensures forall i :: 0 <= i < destination.Length ==> destination[i] == Demand(timeMap, rate, start, end, blockStart + i)
  {
    var activeStart := Max(blockStart, start);
    var activeEnd := Min(blockStart + destination.Length, end);
    if activeStart >= activeEnd {
      return false;
    }
    var first := activeStart - blockStart;
    assert 0 <= first < destination.Length && start <= blockStart + first < end;
    var time := Rational(activeStart, rate);
    var source := timeMap.Map(time);
    var denominator := source.denominator * timeMap.scale.denominator;
    var numerator := source.numerator * rate * timeMap.scale.denominator;
    var step := timeMap.scale.numerator * source.denominator;
    NumeratorIsPosition(timeMap, rate, activeStart, time, source, 0);
    ghost var origin := numerator;
    for frame := first to activeEnd - blockStart
      invariant numerator == origin + (frame - first) * step
      invariant forall i :: 0 <= i < frame ==> destination[i] == Demand(timeMap, rate, start, end, blockStart + i)
      invariant forall i :: frame <= i < destination.Length ==> destination[i] == -1
    {
      NumeratorIsPosition(timeMap, rate, activeStart, time, source, frame - first);
      DivisionFloors(numerator, denominator);
      DivisionPrecedes(numerator, denominator);
      var indexed := if timeMap.boundary.Covering? then numerator else numerator - 1;
      destination[frame] := indexed / denominator;
      assert destination[frame] == timeMap.FrameAt(rate, blockStart + frame);
      numerator := numerator + step;
      assert (frame + 1 - first) * step == (frame - first) * step + step;
    }
    active := true;
  }
}
