/** Ancillary packets in the rows above the active picture of one device raster. */
module AjaRaster {
  import opened Frames
  import opened St291
  import opened VancRow
  import opened Placement

  const BUDGET: nat := 16384

  /** One SMPTE line for each row above the active picture. `rowWords` counts packed words of a row. */
  datatype Geometry = Geometry(width: nat, height: nat, firstActive: nat, rowWords: nat, lines: seq<nat>)

  /** What is demanded of a raster and its lines. */
  ghost predicate GeometryFits(raster: seq<Row>, g: Geometry) {
    && 12 <= g.width <= 4096 && g.height <= 4096
    && 0 < g.firstActive < g.height && |g.lines| == g.firstActive
    && g.rowWords >= (g.width * 2 + 2) / 3
    && |raster| == g.height && (forall r :: 0 <= r < |raster| ==> |raster[r]| == g.rowWords)
    && (forall r :: 0 <= r < |g.lines| ==> 0 < g.lines[r] <= 2047)
    && (forall r, s :: 0 <= r < s < |g.lines| ==> g.lines[r] != g.lines[s])
  }

  /** Insert one line number into sorted ones. */
  method InsertLine(sorted: seq<nat>, line: nat) returns (more: seq<nat>)
    requires Ascending(sorted)
    ensures Ascending(more) && multiset(more) == multiset(sorted) + multiset{line}
  {
    var i := 0;
    while i < |sorted| && sorted[i] <= line
      invariant i <= |sorted| && forall j :: 0 <= j < i ==> sorted[j] <= line
    {
      i := i + 1;
    }
    more := sorted[..i] + [line] + sorted[i..];
    InsertKeepsAll(sorted, i, line);
    InsertAscends(sorted, i, line);
  }

  lemma InsertKeepsAll(sorted: seq<nat>, i: nat, line: nat)
    requires i <= |sorted|
    ensures multiset(sorted[..i] + [line] + sorted[i..]) == multiset(sorted) + multiset{line}
  {
    assert sorted == sorted[..i] + sorted[i..];
  }

  lemma InsertAscends(sorted: seq<nat>, i: nat, line: nat)
    requires Ascending(sorted) && i <= |sorted| && (i > 0 ==> sorted[i - 1] <= line) && (i < |sorted| ==> line <= sorted[i])
    ensures Ascending(sorted[..i] + [line] + sorted[i..])
  {
    var more := sorted[..i] + [line] + sorted[i..];
    forall a, b | 0 <= a < b < |more|
      ensures more[a] <= more[b]
    {
      var before := if a < i then sorted[a] else if a == i then line else sorted[a - 1];
      var after := if b < i then sorted[b] else if b == i then line else sorted[b - 1];
      assert more[a] == before && more[b] == after;
      if a < i {
        assert sorted[a] <= sorted[i - 1];
      }
      if i < b {
        assert sorted[i] <= sorted[b - 1];
      }
    }
  }

  ghost predicate Ascending(lines: seq<nat>) {
    forall i, j :: 0 <= i < j < |lines| ==> lines[i] <= lines[j]
  }

  /** The library sort. */
  method SortLines(lines: seq<nat>) returns (sorted: seq<nat>)
    ensures Ascending(sorted) && multiset(sorted) == multiset(lines) && |sorted| == |lines|
  {
    sorted := [];
    for i := 0 to |lines|
      invariant Ascending(sorted) && multiset(sorted) == multiset(lines[..i])
    {
      sorted := InsertLine(sorted, lines[i]);
      assert lines[..i + 1] == lines[..i] + [lines[i]];
    }
    assert lines[..|lines|] == lines;
    assert |multiset(sorted)| == |multiset(lines)|;
  }

  /** Sorted line numbers are unambiguous when the ends are in range and no neighbours are equal. */
  method CheckLines(lines: seq<nat>) returns (ok: bool)
    requires |lines| > 0
    ensures ok <==> (forall r :: 0 <= r < |lines| ==> 0 < lines[r] <= 2047) && (forall r, s :: 0 <= r < s < |lines| ==> lines[r] != lines[s])
  {
    var sorted := SortLines(lines);
    SortedEnds(lines, sorted);
    if sorted[0] == 0 || sorted[|sorted| - 1] > 2047 {
      return false;
    }
    for i := 0 to |sorted| - 1
      invariant forall j :: 0 <= j < i ==> sorted[j] != sorted[j + 1]
    {
      if sorted[i] == sorted[i + 1] {
        EqualNeighbours(lines, sorted, i);
        return false;
      }
    }
    StrictlyDistinct(lines, sorted);
    ok := true;
  }

  lemma SortedEnds(lines: seq<nat>, sorted: seq<nat>)
    requires Ascending(sorted) && multiset(sorted) == multiset(lines) && |sorted| == |lines| > 0
    ensures (forall r :: 0 <= r < |lines| ==> 0 < lines[r] <= 2047) <==> sorted[0] != 0 && sorted[|sorted| - 1] <= 2047
  {
    assert sorted[0] in multiset(lines) && sorted[|sorted| - 1] in multiset(lines);
    forall r | 0 <= r < |lines|
      ensures sorted[0] <= lines[r] <= sorted[|sorted| - 1]
    {
      assert lines[r] in multiset(sorted);
      var i :| 0 <= i < |sorted| && sorted[i] == lines[r];
    }
  }

  lemma EqualNeighbours(lines: seq<nat>, sorted: seq<nat>, i: nat)
    requires multiset(sorted) == multiset(lines) && i + 1 < |sorted| && sorted[i] == sorted[i + 1]
    ensures exists r, s :: 0 <= r < s < |lines| && lines[r] == lines[s]
  {
    CountsTwice(sorted, i, i + 1);
    var r, s := OccursTwice(lines, sorted[i]);
  }

  lemma StrictlyDistinct(lines: seq<nat>, sorted: seq<nat>)
    requires Ascending(sorted) && multiset(sorted) == multiset(lines)
    requires forall j :: 0 <= j < |sorted| - 1 ==> sorted[j] != sorted[j + 1]
    ensures forall r, s :: 0 <= r < s < |lines| ==> lines[r] != lines[s]
  {
    forall i, j | 0 <= i < j < |sorted|
      ensures sorted[i] < sorted[j]
    {
      assert sorted[i] <= sorted[i + 1] <= sorted[j];
    }
    forall r, s | 0 <= r < s < |lines|
      ensures lines[r] != lines[s]
    {
      if lines[r] == lines[s] {
        CountsTwice(lines, r, s);
        var i, j := OccursTwice(sorted, lines[r]);
      }
    }
  }

  method CheckGeometry(raster: seq<Row>, g: Geometry) returns (ok: bool)
    ensures ok <==> GeometryFits(raster, g)
  {
    if g.width < 12 || g.width > 4096 || g.height > 4096 || g.firstActive == 0 || g.firstActive >= g.height || |g.lines| != g.firstActive
       || g.rowWords < (g.width * 2 + 2) / 3 || |raster| != g.height {
      return false;
    }
    for r := 0 to |raster|
      invariant forall q :: 0 <= q < r ==> |raster[q]| == g.rowWords
    {
      if |raster[r]| != g.rowWords {
        return false;
      }
    }
    ok := CheckLines(g.lines);
  }

  /** The row that represents a line. */
  method FindLine(lines: seq<nat>, line: nat) returns (row: nat)
    ensures row <= |lines| && (row < |lines| ==> lines[row] == line)
    ensures row == |lines| <==> line !in lines
  {
    row := 0;
    while row < |lines| && lines[row] != line
      invariant row <= |lines| && line !in lines[..row]
    {
      row := row + 1;
    }
    assert lines[..|lines|] == lines;
  }

  /** What may be written: a bounded inventory of well-formed packets that lie inside represented lines and do not overlap. */
  ghost predicate Admitted(packets: seq<VancPacket>, g: Geometry) {
    Fits(packets, g.width, 16384) && forall p :: p in packets ==> p.line in g.lines
  }

  /** A word is taken exactly when an earlier packet covers it. */
  ghost predicate Marks(occupied: seq<seq<bool>>, packets: seq<VancPacket>, g: Geometry) {
    && |occupied| == |g.lines|
    && forall r :: 0 <= r < |occupied| ==> MarksRow(occupied[r], packets, g.lines[r], g.width)
  }

  lemma MarksWith(occupied: seq<seq<bool>>, packets: seq<VancPacket>, g: Geometry, p: VancPacket, r: nat, row: seq<bool>)
    requires Marks(occupied, packets, g) && r < |g.lines| && g.lines[r] == p.line
    requires forall i, j :: 0 <= i < j < |g.lines| ==> g.lines[i] != g.lines[j]
    requires MarksRow(row, packets + [p], p.line, g.width)
    ensures Marks(occupied[r := row], packets + [p], g)
  {
    var more := packets + [p];
    forall i | 0 <= i < |occupied| && i != r
      ensures MarksRow(occupied[i], more, g.lines[i], g.width)
    {
      assert MarksRow(occupied[i], packets, g.lines[i], g.width);
      forall n | 0 <= n < g.width
        ensures occupied[i][n] <==> exists q :: q in more && Covers(q, g.lines[i], n)
      {
        assert g.lines[i] != p.line;
        if q :| q in packets && Covers(q, g.lines[i], n) {
          assert q in more;
        }
      }
    }
  }

  lemma FitsWith(packets: seq<VancPacket>, p: VancPacket, width: nat)
    requires Fits(packets, width, BUDGET) && |packets| < MAX_PACKETS && WellFormed(p.words)
    ensures Fits(packets + [p], width, BUDGET) <==>
              Total(packets) + |p.words| <= BUDGET && p.End() <= width && forall q :: q in packets ==> !Overlap(q, p)
  {
    hide WellFormed, Disjoint, Overlap, Total, VancPacket.End;
    var more := packets + [p];
    DisjointWith(packets, p);
    TotalOfOneMore(packets, p);
    assert p in more && forall q :: q in more ==> q == p || q in packets;
  }

  /** A prefix of an admitted inventory is admitted. */
  lemma AdmittedPrefix(packets: seq<VancPacket>, k: nat, g: Geometry)
    requires k <= |packets| && Admitted(packets, g)
    ensures Admitted(packets[..k], g)
  {
    var head := packets[..k];
    forall i, j | 0 <= i < j < |head|
      ensures !Overlap(head[i], head[j])
    {
      assert !Overlap(packets[i], packets[j]);
    }
    TotalPrefix(packets, k);
  }

  lemma {:induction false} TotalPrefix(packets: seq<VancPacket>, k: nat)
    requires k <= |packets|
    ensures Total(packets[..k]) <= Total(packets)
    decreases |packets|
  {
    if k < |packets| {
      TotalPrefix(packets[..|packets| - 1], k);
      assert packets[..|packets| - 1][..k] == packets[..k];
    } else {
      assert packets[..k] == packets;
    }
  }

  /** Validate the entire inventory before any raster word is touched. */
  method AdmitInventory(packets: seq<VancPacket>, g: Geometry) returns (ok: bool)
    requires |g.lines| == g.firstActive && forall i, j :: 0 <= i < j < |g.lines| ==> g.lines[i] != g.lines[j]
    ensures ok <==> Admitted(packets, g)
  {
    hide WellFormed, Admitted, Marks, MarksRow;
    if |packets| > MAX_PACKETS {
      TooMany(packets, g);
      return false;
    }
    var occupied := seq(g.firstActive, _ => seq(g.width, _ => false));
    var total: nat := 0;
    NothingAdmitted(occupied, g);
    for i := 0 to |packets|
      invariant Admitted(packets[..i], g) && total == Total(packets[..i])
      invariant |occupied| == |g.lines| && Marks(occupied, packets[..i], g)
    {
      var p := packets[i];
      ghost var earlier := packets[..i];
      assert packets[..i + 1] == earlier + [p] && packets[..i + 1][..i] == earlier;
      var valid := ValidateComponentPacket(p.words);
      var row := FindLine(g.lines, p.line);
      if !valid || total + |p.words| > BUDGET || row == |g.lines| || p.End() > g.width {
        NotAdmitted(packets, i, g);
        return false;
      }
      var free, after := OccupyRow(occupied, earlier, g, p, row);
      if !free {
        NotAdmitted(packets, i, g);
        return false;
      }
      total := total + |p.words|;
      occupied := occupied[row := after];
    }
    assert packets[..|packets|] == packets;
    ok := true;
  }

  lemma TooMany(packets: seq<VancPacket>, g: Geometry)
    requires |packets| > MAX_PACKETS
    ensures !Admitted(packets, g)
  {}

  lemma NothingAdmitted(occupied: seq<seq<bool>>, g: Geometry)
    requires occupied == seq(g.firstActive, _ => seq(g.width, _ => false)) && |g.lines| == g.firstActive
    ensures Admitted([], g) && Marks(occupied, [], g)
  {}

  /** A packet that cannot join the admitted packets before it keeps the whole inventory out. */
  lemma NotAdmitted(packets: seq<VancPacket>, i: nat, g: Geometry)
    requires i < |packets| && Admitted(packets[..i], g)
    requires !Joins(packets[..i], packets[i], g)
    ensures !Admitted(packets, g)
  {
    if Admitted(packets, g) {
      AdmittedPrefix(packets, i + 1, g);
      assert packets[..i + 1] == packets[..i] + [packets[i]];
      JoinsExactly(packets[..i], packets[i], g);
    }
  }

  ghost predicate Joins(packets: seq<VancPacket>, p: VancPacket, g: Geometry) {
    && WellFormed(p.words) && Total(packets) + |p.words| <= BUDGET && p.line in g.lines && p.End() <= g.width
    && forall q :: q in packets ==> !Overlap(q, p)
  }

  lemma JoinsExactly(packets: seq<VancPacket>, p: VancPacket, g: Geometry)
    requires Admitted(packets, g)
    ensures Admitted(packets + [p], g) <==> |packets| < MAX_PACKETS && Joins(packets, p, g)
  {
    hide WellFormed;
    assert p in packets + [p];
    if |packets| < MAX_PACKETS && WellFormed(p.words) {
      FitsWith(packets, p, g.width);
    }
  }

  method OccupyRow(occupied: seq<seq<bool>>, ghost packets: seq<VancPacket>, g: Geometry, p: VancPacket, row: nat)
    returns (free: bool, after: seq<bool>)
    requires Marks(occupied, packets, g) && Admitted(packets, g) && row < |g.lines| && g.lines[row] == p.line
    requires forall i, j :: 0 <= i < j < |g.lines| ==> g.lines[i] != g.lines[j]
    requires WellFormed(p.words) && Total(packets) + |p.words| <= BUDGET && p.End() <= g.width && |packets| < MAX_PACKETS
    ensures free <==> Joins(packets, p, g)
    ensures free ==> Marks(occupied[row := after], packets + [p], g) && Admitted(packets + [p], g)
  {
    hide WellFormed;
    assert MarksRow(occupied[row], packets, g.lines[row], g.width);
    LongEnough(p.words);
    forall q | q in packets
      ensures |q.words| > 0
    {
      LongEnough(q.words);
    }
    free, after := Occupy(occupied[row], packets, p);
    JoinsExactly(packets, p, g);
    if free {
      MarksWith(occupied, packets, g, p, row, after);
    }
  }

  // ------------------------------------------------------------------ writing

  /** A row above the picture after writing: the packets of its line, blank between them. */
  ghost predicate RowWritten(before: Row, after: Row, packets: seq<VancPacket>, line: nat, width: nat) {
    exists luma: seq<Word> :: |luma| == width && Carries(before, after, luma) && Laid(luma, packets, line)
  }

  ghost predicate Written(before: seq<Row>, after: seq<Row>, packets: seq<VancPacket>, g: Geometry) {
    && |after| == |before| && g.firstActive <= |after| && |g.lines| == g.firstActive
    && (forall r :: 0 <= r < g.firstActive ==> RowWritten(before[r], after[r], packets, g.lines[r], g.width))
    && (forall r :: g.firstActive <= r < |after| ==> after[r] == before[r])
  }

  /** Write an inventory into the rows above the picture. A refused inventory changes nothing, and active picture
      rows never change. */
  method WriteVancRaster(raster: array<Row>, g: Geometry, packets: seq<VancPacket>) returns (ok: bool)
    modifies raster
    ensures ok <==> GeometryFits(old(raster[..]), g) && Admitted(packets, g)
    ensures !ok ==> raster[..] == old(raster[..])
    ensures ok ==> Written(old(raster[..]), raster[..], packets, g)
  {
    hide Admitted, RowWritten, Holds;
    ghost var before := raster[..];
    var fits := CheckGeometry(raster[..], g);
    if !fits {
      return false;
    }
    ok := AdmitInventory(packets, g);
    if !ok {
      return;
    }
    for r := 0 to g.firstActive
      invariant forall i :: 0 <= i < r ==> RowWritten(before[i], raster[i], [], g.lines[i], g.width)
      invariant forall i :: r <= i < raster.Length ==> raster[i] == before[i]
    {
      RowHolds(raster[r], g);
      var blank := BlankLine(raster[r], g.width);
      raster[r] := blank;
      BlankIsWritten(before[r], raster[r], g.lines[r], g.width);
    }
    for k := 0 to |packets|
      invariant forall i :: 0 <= i < g.firstActive ==> RowWritten(before[i], raster[i], packets[..k], g.lines[i], g.width)
      invariant forall i :: g.firstActive <= i < raster.Length ==> raster[i] == before[i]
    {
      var p := packets[k];
      PacketJoins(packets, k, g);
      var r := FindLine(g.lines, p.line);
      ghost var laid := raster[..];
      var row := WritePacket(before[r], raster[r], packets[..k], p, g.width);
      raster[r] := row;
      assert packets[..k + 1] == packets[..k] + [p];
      forall i | 0 <= i < g.firstActive && i != r
        ensures RowWritten(before[i], raster[i], packets[..k + 1], g.lines[i], g.width)
      {
        OtherLineWritten(before[i], raster[i], packets[..k], p, g.lines[i], g.width);
      }
    }
    assert packets[..|packets|] == packets;
  }

  lemma RowHolds(row: Row, g: Geometry)
    requires |row| == g.rowWords && g.rowWords >= (g.width * 2 + 2) / 3
    ensures Holds(row, g.width)
  {}

  lemma BlankIsWritten(before: Row, after: Row, line: nat, width: nat)
    requires Carries(before, after, seq(width, _ => BLANK_LUMA))
    ensures RowWritten(before, after, [], line, width)
  {
    assert Laid(seq(width, _ => BLANK_LUMA), [], line);
  }

  lemma PacketJoins(packets: seq<VancPacket>, k: nat, g: Geometry)
    requires k < |packets| && Admitted(packets, g)
    ensures packets[k].line in g.lines && packets[k].End() <= g.width
    ensures forall n :: 0 <= n < |packets[k].words| ==> packets[k].words[n] < TEN_BITS
    ensures forall q :: q in packets[..k] ==> !Overlap(q, packets[k]) && |q.words| > 0
  {
    hide WellFormed;
    assert packets[k] in packets;
    TenBits(packets[k].words);
    forall q | q in packets[..k]
      ensures !Overlap(q, packets[k]) && |q.words| > 0
    {
      var i: nat :| i < k && packets[i] == q;
      assert q in packets;
      LongEnough(q.words);
    }
  }

  method WritePacket(ghost before: Row, row: Row, ghost packets: seq<VancPacket>, p: VancPacket, ghost width: nat) returns (after: Row)
    requires RowWritten(before, row, packets, p.line, width) && p.End() <= width
    requires forall n :: 0 <= n < |p.words| ==> p.words[n] < TEN_BITS
    requires forall q :: q in packets ==> !Overlap(q, p) && |q.words| > 0
    ensures RowWritten(before, after, packets + [p], p.line, width)
  {
    hide Carries;
    ghost var luma: seq<Word> :| |luma| == width && Carries(before, row, luma) && Laid(luma, packets, p.line);
    LaysOneMore(luma, packets, p.line, p);
    after := PutPacket(before, row, p, luma);
  }

  lemma OtherLineWritten(before: Row, after: Row, packets: seq<VancPacket>, p: VancPacket, line: nat, width: nat)
    requires RowWritten(before, after, packets, line, width) && p.line != line
    ensures RowWritten(before, after, packets + [p], line, width)
  {
    hide Carries;
    var luma: seq<Word> :| |luma| == width && Carries(before, after, luma) && Laid(luma, packets, line);
    var more := packets + [p];
    forall n | 0 <= n < |luma| && (forall q :: q in more ==> !Covers(q, line, n))
      ensures luma[n] == BLANK_LUMA
    {
      assert forall q :: q in packets ==> q in more && !Covers(q, line, n);
    }
    assert Laid(luma, more, line);
  }

  // ------------------------------------------------------------------ reading

  /** What is found in the rows above the picture, from row `r` on. */
  ghost function ReadRows(raster: seq<Row>, g: Geometry, r: nat, found: seq<VancPacket>): Scan
    requires GeometryFits(raster, g)
    decreases g.firstActive - r
  {
    if r >= g.firstActive then Inventory(found) else
    RowHolds(raster[r], g);
    var scan := ScanRow(Luma(raster[r], g.width), g.lines[r], 0, found, BUDGET);
    if scan.Rejected? then scan else ReadRows(raster, g, r + 1, scan.packets)
  }

  /** Strictly by row and offset. */
  ghost predicate Before(p: VancPacket, q: VancPacket, g: Geometry) {
    exists r, s :: 0 <= r <= s < |g.lines| && p.line == g.lines[r] && q.line == g.lines[s] && (r < s || p.offset < q.offset)
  }

  ghost predicate InOrder(packets: seq<VancPacket>, g: Geometry) {
    forall i, j :: 0 <= i < j < |packets| ==> Before(packets[i], packets[j], g)
  }

  /** The packets of the first `r` rows, in order. */
  ghost predicate FirstRows(found: seq<VancPacket>, packets: seq<VancPacket>, g: Geometry, r: nat)
    requires r <= |g.lines|
  {
    && (forall p :: p in found <==> p in packets && p.line in g.lines[..r])
    && InOrder(found, g)
  }

  /** Reading what was written gives exactly the written packets, in row and offset order. */
  lemma {:induction false} ReadsWhatWasWritten(before: seq<Row>, raster: seq<Row>, g: Geometry, packets: seq<VancPacket>, r: nat, found: seq<VancPacket>)
    returns (all: seq<VancPacket>)
    requires GeometryFits(raster, g) && Written(before, raster, packets, g) && Admitted(packets, g)
    requires r <= g.firstActive && FirstRows(found, packets, g, r)
    ensures ReadRows(raster, g, r, found) == Inventory(all)
    ensures InOrder(all, g) && forall p :: p in all <==> p in packets
    decreases g.firstActive - r
  {
    hide Carries, Laid, FirstRows, ScanRow, Fits;
    if r == g.firstActive {
      all := found;
      assert g.lines[..r] == g.lines;
      EveryRow(found, packets, g);
    } else {
      RowHolds(raster[r], g);
      assert RowWritten(before[r], raster[r], packets, g.lines[r], g.width);
      var luma: seq<Word> :| |luma| == g.width && Carries(before[r], raster[r], luma) && Laid(luma, packets, g.lines[r]);
      CarriesLuma(before[r], raster[r], luma);
      RowIsNew(found, packets, g, r);
      var tail := ScanFindsLaid(luma, g.lines[r], 0, found, BUDGET, packets);
      RowAdded(found, packets, g, r, tail);
      all := ReadsWhatWasWritten(before, raster, g, packets, r + 1, found + tail);
    }
  }

  lemma EveryRow(found: seq<VancPacket>, packets: seq<VancPacket>, g: Geometry)
    requires Admitted(packets, g) && FirstRows(found, packets, g, |g.lines|)
    ensures InOrder(found, g) && forall p :: p in found <==> p in packets
  {
    hide Fits;
    assert g.lines[..|g.lines|] == g.lines;
  }

  lemma RowIsNew(found: seq<VancPacket>, packets: seq<VancPacket>, g: Geometry, r: nat)
    requires r < |g.lines| && FirstRows(found, packets, g, r)
    requires forall i, j :: 0 <= i < j < |g.lines| ==> g.lines[i] != g.lines[j]
    ensures FoundBefore(found, packets, g.lines[r], 0) && Between(packets, g.lines[r], 0)
  {
    forall i, j | 0 <= i < j < |found|
      ensures found[i] != found[j]
    {
      assert Before(found[i], found[j], g);
    }
  }

  lemma RowAdded(found: seq<VancPacket>, packets: seq<VancPacket>, g: Geometry, r: nat, tail: seq<VancPacket>)
    requires r < |g.lines| && FirstRows(found, packets, g, r) && IsTail(tail, packets, g.lines[r], 0)
    ensures FirstRows(found + tail, packets, g, r + 1)
  {
    var all := found + tail;
    assert g.lines[..r + 1] == g.lines[..r] + [g.lines[r]];
    forall i, j | 0 <= i < j < |all|
      ensures Before(all[i], all[j], g)
    {
      if j < |found| {
        assert Before(found[i], found[j], g);
      } else if i < |found| {
        assert found[i] in found && all[j] in tail;
        var s: nat :| s < r && g.lines[s] == found[i].line;
      } else {
        assert all[i] in tail && all[j] in tail;
      }
    }
  }

  /** Read every packet above the picture; the raster is only read. */
  method ReadVancRaster(raster: array<Row>, g: Geometry) returns (scan: Option<Scan>)
    ensures scan.Some? <==> GeometryFits(raster[..], g)
    ensures scan.Some? ==> scan.value == ReadRows(raster[..], g, 0, [])
  {
    hide ScanRow;
    var fits := CheckGeometry(raster[..], g);
    if !fits {
      return None;
    }
    ghost var rows := raster[..];
    var found, total: nat := [], 0;
    for r := 0 to g.firstActive
      invariant total == Total(found)
      invariant ReadRows(rows, g, 0, []) == ReadRows(rows, g, r, found)
    {
      RowHolds(raster[r], g);
      var row;
      row, total := ScanLine(raster[r], g.width, g.lines[r], found, total, BUDGET);
      if row.Rejected? {
        return Some(row);
      }
      found := row.packets;
    }
    scan := Some(Inventory(found));
  }

  // ------------------------------------------------------------------ end to end

  /** Packets that can be constructed, encoded, written, read back and decoded again: exactly the same packets
      return, in row and offset order, whatever the raster held before. */
  method Transmit(raster: array<Row>, g: Geometry, placed: seq<Placed>) returns (ok: bool, back: seq<Placed>)
    requires AllConstructible(placed)
    modifies raster
    ensures ok <==> GeometryFits(old(raster[..]), g) && Admitted(Wire(placed), g)
    ensures !ok ==> raster[..] == old(raster[..])
    ensures ok ==> AllConstructible(back) && InOrder(Wire(back), g)
    ensures ok ==> forall p :: p in back <==> p in placed
    ensures ok ==> forall r :: g.firstActive <= r < raster.Length ==> raster[r] == old(raster[r])
  {
    hide Constructible, Admitted, WellFormed, Encoded;
    back := [];
    var packets := EncodeAll(placed);
    ghost var before := raster[..];
    ok := WriteVancRaster(raster, g, packets);
    if !ok {
      return;
    }
    WrittenFits(before, raster[..], packets, g);
    ghost var all := ReadsWhatWasWritten(before, raster[..], g, packets, 0, []);
    var scan := ReadVancRaster(raster, g);
    AdmittedAreWellFormed(packets, g);
    back := DecodeAll(scan.value.packets);
    SameOnWire(back, placed);
  }

  lemma AdmittedAreWellFormed(packets: seq<VancPacket>, g: Geometry)
    requires Admitted(packets, g)
    ensures forall p :: p in packets ==> WellFormed(p.words)
  {}

  lemma WrittenFits(before: seq<Row>, after: seq<Row>, packets: seq<VancPacket>, g: Geometry)
    requires GeometryFits(before, g) && Written(before, after, packets, g)
    ensures GeometryFits(after, g)
    ensures FirstRows([], packets, g, 0)
  {
    forall r | 0 <= r < |after|
      ensures |after[r]| == g.rowWords
    {
      if r < g.firstActive {
        assert RowWritten(before[r], after[r], packets, g.lines[r], g.width);
      }
    }
  }
}
