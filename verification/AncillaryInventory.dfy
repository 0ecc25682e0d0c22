/** The canonical inventory of one frame: sorted by placement, and checked for collisions between neighbours only. */
module AncillaryInventory {
  import opened St291
  import opened VancRow
  import opened Placement
  import AjaRaster

  const MAX_WORDS_PER_FRAME: nat := 16384

  /** Ancillary space, field and line, in the order in which they compare. */
  datatype Area = Area(space: nat, field: nat, line: nat)

  datatype Located = Located(area: Area, offset: nat, packet: Packet) {
    function End(): nat { offset + EncodedWordCount(packet) }
  }

  function EncodedWordCount(p: Packet): nat { 7 + |p.userData| }

  predicate AreaBefore(a: Area, b: Area) {
    a.space < b.space || (a.space == b.space && (a.field < b.field || (a.field == b.field && a.line < b.line)))
  }

  predicate NotAfter(a: Located, b: Located) {
    AreaBefore(a.area, b.area) || (a.area == b.area && a.offset <= b.offset)
  }

  predicate PlacementsOverlap(a: Located, b: Located) {
    a.area == b.area && a.offset < b.End() && b.offset < a.End()
  }

  /** Placements compare by space, then by field, then by line, and one of two different areas always comes first. */
  lemma AreasCompare(a: Area, b: Area, c: Area)
    ensures AreaBefore(a, b) ==> !AreaBefore(b, a)
    ensures a != b ==> AreaBefore(a, b) || AreaBefore(b, a)
    ensures AreaBefore(a, b) && AreaBefore(b, c) ==> AreaBefore(a, c)
    ensures a.space < b.space ==> AreaBefore(a, b)
    ensures a.space == b.space && a.field < b.field ==> AreaBefore(a, b)
    ensures a.space == b.space && a.field == b.field && a.line < b.line ==> AreaBefore(a, b)
  {}

  /** Within one area they compare by offset. */
  lemma LocatedCompare(a: Located, b: Located)
    ensures a.area == b.area ==> (NotAfter(a, b) <==> a.offset <= b.offset)
    ensures a.area != b.area ==> (NotAfter(a, b) <==> AreaBefore(a.area, b.area))
  {}

  ghost predicate Sorted(packets: seq<Located>) {
    forall i, j :: 0 <= i < j < |packets| ==> NotAfter(packets[i], packets[j])
  }

  ghost predicate Apart(packets: seq<Located>) {
    forall i, j :: 0 <= i < j < |packets| ==> !PlacementsOverlap(packets[i], packets[j])
  }

  /** What the library sort promises. */
  ghost predicate Sorts(sort: seq<Located> -> seq<Located>) {
    forall packets :: Sorted(sort(packets)) && multiset(sort(packets)) == multiset(packets)
  }

  /** In placement order, packets that keep apart from their neighbours keep apart from all. */
  lemma NeighboursSuffice(packets: seq<Located>)
    requires Sorted(packets)
    requires forall i :: 0 <= i < |packets| - 1 ==> !PlacementsOverlap(packets[i], packets[i + 1])
    ensures Apart(packets)
  {
    forall i, j | 0 <= i < j < |packets|
      ensures !PlacementsOverlap(packets[i], packets[j])
    {
      if i + 1 < j {
        var next := packets[i + 1];
        assert NotAfter(packets[i], next) && NotAfter(next, packets[j]) && !PlacementsOverlap(packets[i], next);
      }
    }
  }

  /** Whether packets keep apart does not depend on their order. */
  lemma ApartInAnyOrder(a: seq<Located>, b: seq<Located>)
    requires Apart(a) && multiset(a) == multiset(b)
    ensures Apart(b)
  {
    forall i, j | 0 <= i < j < |b|
      ensures !PlacementsOverlap(b[i], b[j])
    {
      if b[i] == b[j] {
        CountsTwice(b, i, j);
        var k, l := OccursTwice(a, b[i]);
        assert !PlacementsOverlap(a[k], a[l]);
      } else {
        assert b[i] in multiset(b) && b[j] in multiset(b);
        var k :| 0 <= k < |a| && a[k] == b[i];
        var l :| 0 <= l < |a| && a[l] == b[j];
        assert if k < l then !PlacementsOverlap(a[k], a[l]) else !PlacementsOverlap(a[l], a[k]);
      }
    }
  }

  ghost function Words(packets: seq<Located>): nat {
    if |packets| == 0 then 0 else Words(packets[..|packets| - 1]) + EncodedWordCount(packets[|packets| - 1].packet)
  }

  lemma {:induction false} WordsWithout(packets: seq<Located>, k: nat)
    requires k < |packets|
    ensures Words(packets) == Words(packets[..k] + packets[k + 1..]) + EncodedWordCount(packets[k].packet)
    decreases |packets|
  {
    var last := |packets| - 1;
    var rest := packets[..k] + packets[k + 1..];
    if k == last {
      assert rest == packets[..last];
    } else {
      WordsWithout(packets[..last], k);
      assert rest[..|rest| - 1] == packets[..last][..k] + packets[..last][k + 1..];
    }
  }

  lemma SameRest<T>(a: multiset<T>, b: multiset<T>, item: T)
    requires a + multiset{item} == b + multiset{item}
    ensures a == b
  {
    assert (a + multiset{item}) - multiset{item} == a;
    assert (b + multiset{item}) - multiset{item} == b;
  }

  lemma {:induction false} WordsInAnyOrder(a: seq<Located>, b: seq<Located>)
    requires multiset(a) == multiset(b)
    ensures Words(a) == Words(b)
    decreases |a|
  {
    assert |multiset(a)| == |a| && |multiset(b)| == |b|;
    if |a| > 0 {
      var head, last := a[..|a| - 1], a[|a| - 1];
      assert a == head + [last] && last in multiset(b);
      var k: nat :| k < |b| && b[k] == last;
      var rest := b[..k] + b[k + 1..];
      assert b == b[..k] + [last] + b[k + 1..];
      assert multiset(b) == multiset(rest) + multiset{last} && multiset(a) == multiset(head) + multiset{last};
      SameRest(multiset(rest), multiset(head), last);
      WordsInAnyOrder(head, rest);
      WordsWithout(b, k);
    }
  }

  datatype FrameError = TooManyPackets | FrameCapacity | PlacementCollision

  datatype FrameResult = Frame(packets: seq<Located>) | Refused(error: FrameError)

  /** Validate, sort and collision-check one inventory. It is accepted exactly when it is bounded and no two of its
      packets overlap, wherever they stand in the inventory. */
  method NewFrame(packets: seq<Located>, sort: seq<Located> -> seq<Located>) returns (result: FrameResult)
    requires Sorts(sort)
    ensures result.Frame? <==> |packets| <= MAX_PACKETS && Words(packets) <= MAX_WORDS_PER_FRAME && Apart(packets)
    ensures result.Frame? ==> Sorted(result.packets) && Apart(result.packets) && multiset(result.packets) == multiset(packets)
    ensures result == Refused(TooManyPackets) <==> |packets| > MAX_PACKETS
    ensures result == Refused(PlacementCollision) <==> |packets| <= MAX_PACKETS && Words(packets) <= MAX_WORDS_PER_FRAME && !Apart(packets)
  {
    if |packets| > MAX_PACKETS {
      return Refused(TooManyPackets);
    }
    var sorted := sort(packets);
    WordsInAnyOrder(sorted, packets);
    var total := 0;
    for i := 0 to |sorted|
      invariant total == Words(sorted[..i])
    {
      assert sorted[..i + 1][..i] == sorted[..i];
      total := total + EncodedWordCount(sorted[i].packet);
    }
    assert sorted[..|sorted|] == sorted;
    if total > MAX_WORDS_PER_FRAME {
      return Refused(FrameCapacity);
    }
    var pairs := if |sorted| == 0 then 0 else |sorted| - 1;
    for i := 0 to pairs
      invariant forall j :: 0 <= j < i ==> !PlacementsOverlap(sorted[j], sorted[j + 1])
    {
      if PlacementsOverlap(sorted[i], sorted[i + 1]) {
        if Apart(packets) {
          ApartInAnyOrder(packets, sorted);
        }
        return Refused(PlacementCollision);
      }
    }
    NeighboursSuffice(sorted);
    ApartInAnyOrder(sorted, packets);
    result := Frame(sorted);
  }

  // ------------------------------------------------------------------ on the raster

  /** The packets of one space and field, as they are handed to a raster. */
  ghost function OnLines(packets: seq<Located>): (placed: seq<Placed>)
    ensures |placed| == |packets|
  {
    seq(|packets|, i requires 0 <= i < |packets| => Placed(packets[i].area.line, packets[i].offset, packets[i].packet))
  }

  ghost predicate OneRegion(packets: seq<Located>) {
    forall p, q :: p in packets && q in packets ==> p.area.space == q.area.space && p.area.field == q.area.field
  }

  lemma {:induction false} SameTotal(packets: seq<Located>, wire: seq<VancPacket>)
    requires |wire| == |packets| && forall i :: 0 <= i < |packets| ==> |wire[i].words| == EncodedWordCount(packets[i].packet)
    ensures VancRow.Total(wire) == Words(packets)
    decreases |packets|
  {
    if |packets| > 0 {
      SameTotal(packets[..|packets| - 1], wire[..|wire| - 1]);
    }
  }

  lemma WireEnds(packets: seq<Located>, i: nat)
    requires AllConstructible(OnLines(packets)) && i < |packets|
    ensures var wire := Wire(OnLines(packets));
            && wire[i].line == packets[i].area.line && wire[i].offset == packets[i].offset
            && |wire[i].words| == EncodedWordCount(packets[i].packet) && WellFormed(wire[i].words)
  {
    hide WellFormed, ParityWord, Sum, WithInverse;
    assert Constructible(OnLines(packets)[i].packet);
    EncodingIsWellFormed(packets[i].packet);
    EncodedShape(packets[i].packet);
  }

  /** The packets on the wire are bounded, well formed and apart as the frame was. */
  lemma WireFits(packets: seq<Located>)
    requires AllConstructible(OnLines(packets)) && OneRegion(packets) && Apart(packets)
    ensures var wire := Wire(OnLines(packets));
            && VancRow.Total(wire) == Words(packets) && Disjoint(wire)
            && forall i :: 0 <= i < |wire| ==>
                 WellFormed(wire[i].words) && wire[i].line == packets[i].area.line && wire[i].End() == packets[i].End()
  {
    hide WellFormed, Constructible, Encoded, OnWire, Words, VancRow.Total;
    var wire := Wire(OnLines(packets));
    forall i | 0 <= i < |packets|
      ensures wire[i].line == packets[i].area.line && wire[i].offset == packets[i].offset
      ensures |wire[i].words| == EncodedWordCount(packets[i].packet) && WellFormed(wire[i].words)
    {
      WireEnds(packets, i);
    }
    SameTotal(packets, wire);
    forall i, j | 0 <= i < j < |wire|
      ensures !Overlap(wire[i], wire[j])
    {
      assert packets[i] in packets && packets[j] in packets && !PlacementsOverlap(packets[i], packets[j]);
    }
  }

  /** A raster refuses an accepted frame only for a line that it does not represent or a packet beyond its width. */
  lemma AcceptedFrameIsAdmitted(packets: seq<Located>, g: AjaRaster.Geometry)
    requires AllConstructible(OnLines(packets)) && OneRegion(packets)
    requires |packets| <= MAX_PACKETS && Words(packets) <= MAX_WORDS_PER_FRAME && Apart(packets)
    ensures AjaRaster.Admitted(Wire(OnLines(packets)), g) <==>
              forall p :: p in packets ==> p.area.line in g.lines && p.End() <= g.width
  {
    hide WellFormed, Constructible, Apart, OneRegion, Words;
    WireFits(packets);
    AdmittedExactly(packets, Wire(OnLines(packets)), g);
  }

  lemma {:induction false} AdmittedExactly(packets: seq<Located>, wire: seq<VancPacket>, g: AjaRaster.Geometry)
    requires |wire| == |packets| <= MAX_PACKETS && Disjoint(wire) && VancRow.Total(wire) <= MAX_WORDS_PER_FRAME
    requires forall i :: 0 <= i < |wire| ==>
               WellFormed(wire[i].words) && wire[i].line == packets[i].area.line && wire[i].End() == packets[i].End()
    ensures AjaRaster.Admitted(wire, g) <==> forall p :: p in packets ==> p.area.line in g.lines && p.End() <= g.width
  {
    hide WellFormed;
    if AjaRaster.Admitted(wire, g) {
      forall p | p in packets
        ensures p.area.line in g.lines && p.End() <= g.width
      {
        var i :| 0 <= i < |packets| && packets[i] == p;
        assert wire[i] in wire;
      }
    }
  }
}
