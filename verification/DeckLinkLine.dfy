/** The second codec for the same packets: one raw device line, patched in place. */
module DeckLinkLine {
  import opened Frames
  import opened St291
  import opened VancRow
  import opened Placement

  /** No line can hold more words than this many packets of the greatest length. */
  const BUDGET: nat := 16768

  /** A packet as it crosses the device boundary. */
  datatype WirePacket = WirePacket(packet: VancPacket, reserved: nat)

  /** Words of a line: 128 bytes for every 48 pixels that are begun. */
  function RowWords(width: nat): (words: nat)
    ensures width == 1920 ==> words == 1280
    ensures width == 1280 ==> words == 864
  {
    (width + 47) / 48 * 32
  }

  /** The two widths of a high-definition line. */
  ghost predicate IsHd(width: nat) { width == 1920 || width == 1280 }

  predicate Supported(width: nat) { width == 1920 || width == 1280 }

  lemma LinesFit(width: nat)
    requires IsHd(width)
    ensures 2 * width <= 3 * RowWords(width)
  {}

  ghost predicate Valid(p: WirePacket, width: nat) {
    p.reserved == 0 && 0 < p.packet.line <= 41 && WellFormed(p.packet.words) && p.packet.End() <= width
  }

  method ValidatePacket(p: WirePacket, width: nat) returns (ok: bool)
    ensures ok <==> Valid(p, width)
  {
    if p.reserved != 0 || p.packet.line == 0 || p.packet.line > 41 || p.packet.End() > width {
      return false;
    }
    ok := ValidateComponentPacket(p.packet.words);
  }

  ghost function Packets(wire: seq<WirePacket>): (packets: seq<VancPacket>)
    ensures |packets| == |wire|
  {
    seq(|wire|, i requires 0 <= i < |wire| => wire[i].packet)
  }

  /** What one line accepts: at most 64 valid packets, all of one line, without overlap. */
  ghost predicate Accepted(wire: seq<WirePacket>, width: nat) {
    && |wire| <= MAX_PACKETS && Disjoint(Packets(wire))
    && (forall i :: 0 <= i < |wire| ==> Valid(wire[i], width) && wire[i].packet.line == wire[0].packet.line)
  }

  ghost predicate Joins(wire: seq<WirePacket>, p: WirePacket, width: nat) {
    && Valid(p, width) && (|wire| > 0 ==> p.packet.line == wire[0].packet.line)
    && forall q :: q in Packets(wire) ==> !Overlap(q, p.packet)
  }

  lemma JoinsExactly(wire: seq<WirePacket>, p: WirePacket, width: nat)
    requires Accepted(wire, width)
    ensures Accepted(wire + [p], width) <==> |wire| < MAX_PACKETS && Joins(wire, p, width)
  {
    hide Valid;
    var more := wire + [p];
    assert Packets(more) == Packets(wire) + [p.packet];
    if Accepted(more, width) {
      assert more[|wire|] == p && (|wire| > 0 ==> more[0] == wire[0]);
      forall q | q in Packets(wire)
        ensures !Overlap(q, p.packet)
      {
        var i: nat :| i < |wire| && Packets(wire)[i] == q;
        assert !Overlap(Packets(more)[i], Packets(more)[|wire|]);
      }
    }
    if |wire| < MAX_PACKETS && Joins(wire, p, width) {
      forall i, j | 0 <= i < j < |more|
        ensures !Overlap(Packets(more)[i], Packets(more)[j])
      {
        if j < |wire| {
          assert !Overlap(Packets(wire)[i], Packets(wire)[j]);
        }
      }
    }
  }

  lemma AcceptedPrefix(wire: seq<WirePacket>, k: nat, width: nat)
    requires k <= |wire| && Accepted(wire, width)
    ensures Accepted(wire[..k], width)
  {
    hide Valid;
    var head := wire[..k];
    forall i, j | 0 <= i < j < |head|
      ensures !Overlap(Packets(head)[i], Packets(head)[j])
    {
      assert !Overlap(Packets(wire)[i], Packets(wire)[j]);
    }
  }

  /** Validate all placements before anything is written. */
  method AdmitLine(wire: seq<WirePacket>, width: nat) returns (ok: bool)
    ensures ok <==> Accepted(wire, width)
  {
    hide Valid, Accepted;
    if |wire| > MAX_PACKETS {
      TooMany(wire, width);
      return false;
    }
    var occupied := seq(width, _ => false);
    var line: nat := 0;
    NothingAccepted(occupied, width);
    for i := 0 to |wire|
      invariant Accepted(wire[..i], width) && line == (if i == 0 then 0 else wire[0].packet.line)
      invariant |occupied| == width && (i > 0 ==> line > 0 && MarksRow(occupied, Packets(wire[..i]), line, width))
      invariant i == 0 ==> forall any :: MarksRow(occupied, [], any, width)
    {
      var p := wire[i];
      ghost var earlier := wire[..i];
      assert wire[..i + 1] == earlier + [p] && Packets(wire[..i + 1]) == Packets(earlier) + [p.packet];
      assert i == 0 ==> Packets(earlier) == [];
      JoinsExactly(earlier, p, width);
      var valid := ValidatePacket(p, width);
      if !valid || (line != 0 && line != p.packet.line) {
        NotAccepted(wire, i, width);
        return false;
      }
      line := p.packet.line;
      ValidLine(p, width);
      EarlierAreLong(earlier, width);
      var free, after := Occupy(occupied, Packets(earlier), p.packet);
      if !free {
        NotAccepted(wire, i, width);
        return false;
      }
      occupied := after;
    }
    assert wire[..|wire|] == wire;
    ok := true;
  }

  lemma ValidLine(p: WirePacket, width: nat)
    requires Valid(p, width)
    ensures p.packet.line > 0 && |p.packet.words| >= 7 && p.packet.End() <= width
  {}

  lemma EarlierAreLong(wire: seq<WirePacket>, width: nat)
    requires Accepted(wire, width)
    ensures forall q :: q in Packets(wire) ==> |q.words| > 0
  {
    forall i | 0 <= i < |wire|
      ensures |Packets(wire)[i].words| > 0
    {
      ValidLine(wire[i], width);
    }
  }

  lemma TooMany(wire: seq<WirePacket>, width: nat)
    requires |wire| > MAX_PACKETS
    ensures !Accepted(wire, width)
  {}

  lemma NothingAccepted(occupied: seq<bool>, width: nat)
    requires occupied == seq(width, _ => false)
    ensures Accepted([], width) && forall line :: MarksRow(occupied, [], line, width)
  {}

  lemma NotAccepted(wire: seq<WirePacket>, i: nat, width: nat)
    requires i < |wire| && Accepted(wire[..i], width) && !Joins(wire[..i], wire[i], width)
    ensures !Accepted(wire, width)
  {
    if Accepted(wire, width) {
      AcceptedPrefix(wire, i + 1, width);
      assert wire[..i + 1] == wire[..i] + [wire[i]];
      JoinsExactly(wire[..i], wire[i], width);
    }
  }

  // ------------------------------------------------------------------ writing in place

  method Put(line: array<Packed>, index: nat, word: Word)
    requires index < 3 * line.Length && word < TEN_BITS
    modifies line
    ensures line[..] == WithComponent(old(line[..]), index, word)
  {
    line[index / 3] := Patched(line[index / 3], index % 3, word);
  }

  /** A packed line without any bit set. */
  function Zeros(n: nat): Row { seq(n, _ => 0) }

  /** Clear the line, blank its components and lay the packets on its luma. A refused line is left alone. */
  method WriteLine(line: array<Packed>, width: nat, wire: seq<WirePacket>) returns (ok: bool)
    requires IsHd(width) ==> line.Length == RowWords(width)
    modifies line
    ensures ok <==> IsHd(width) && Accepted(wire, width)
    ensures !ok ==> line[..] == old(line[..])
    ensures ok ==> LineCarries(line[..], Packets(wire), width, if |wire| == 0 then 0 else wire[0].packet.line)
  {
    hide Accepted, Component, WithComponent, Carries, Laid, BlankUpTo;
    if !Supported(width) {
      return false;
    }
    ok := AdmitLine(wire, width);
    if !ok {
      return;
    }
    LinesFit(width);
    forall i | 0 <= i < line.Length {
      line[i] := 0;
    }
    ghost var zeros := Zeros(line.Length);
    assert line[..] == zeros;
    NothingBlank(zeros);
    for x := 0 to width
      invariant BlankUpTo(zeros, line[..], 2 * x)
    {
      BlanksOne(zeros, line[..], 2 * x);
      Put(line, 2 * x, BLANK_CHROMA);
      BlanksOne(zeros, line[..], 2 * x + 1);
      Put(line, 2 * x + 1, BLANK_LUMA);
    }
    ghost var number := if |wire| == 0 then 0 else wire[0].packet.line;
    ghost var luma: seq<Word> := seq(width, _ => BLANK_LUMA);
    AllBlank(zeros, line[..], width);
    NothingLaid(width, number);
    for k := 0 to |wire|
      invariant LineWritten(line[..], luma, Packets(wire[..k]), width, number)
    {
      var p := wire[k].packet;
      AcceptedJoins(wire, k, width);
      LaysOneMore(luma, Packets(wire[..k]), number, p);
      PutWords(line, p, luma, zeros);
      luma := Overlay(luma, p.offset, p.words);
      assert Packets(wire[..k + 1]) == Packets(wire[..k]) + [p];
    }
    assert wire[..|wire|] == wire;
    assert LineWritten(line[..], luma, Packets(wire), width, number);
  }

  ghost predicate LineCarries(line: Row, packets: seq<VancPacket>, width: nat, number: nat) {
    exists luma: seq<Word> :: LineWritten(line, luma, packets, width, number)
  }

  /** The line carries blank chroma and the packets on its luma; every other bit is zero. */
  ghost predicate LineWritten(line: Row, luma: seq<Word>, packets: seq<VancPacket>, width: nat, number: nat) {
    |luma| == width && Carries(Zeros(|line|), line, luma) && Laid(luma, packets, number)
  }

  lemma NothingLaid(width: nat, number: nat)
    ensures Laid(seq(width, _ => BLANK_LUMA), [], number)
  {}

  lemma AcceptedJoins(wire: seq<WirePacket>, k: nat, width: nat)
    requires k < |wire| && Accepted(wire, width)
    ensures wire[k].packet.line == wire[0].packet.line && wire[k].packet.End() <= width
    ensures forall n :: 0 <= n < |wire[k].packet.words| ==> wire[k].packet.words[n] < TEN_BITS
    ensures forall q :: q in Packets(wire[..k]) ==> !Overlap(q, wire[k].packet) && |q.words| > 0
  {
    AcceptedPrefix(wire, k, width);
    EarlierAreLong(wire[..k], width);
    TenBits(wire[k].packet.words);
    forall q | q in Packets(wire[..k])
      ensures !Overlap(q, wire[k].packet)
    {
      var i: nat :| i < k && Packets(wire[..k])[i] == q;
      assert !Overlap(Packets(wire)[i], Packets(wire)[k]);
    }
  }

  method PutWords(line: array<Packed>, p: VancPacket, ghost luma: seq<Word>, ghost zeros: Row)
    requires Carries(zeros, line[..], luma) && p.End() <= |luma|
    requires forall n :: 0 <= n < |p.words| ==> p.words[n] < TEN_BITS
    modifies line
    ensures Carries(zeros, line[..], Overlay(luma, p.offset, p.words))
  {
    assert Holds(line[..], |luma|);
    hide Carries, Overlay, WithComponent;
    NoOverlay(luma, p.offset);
    for n := 0 to |p.words|
      invariant Carries(zeros, line[..], Overlay(luma, p.offset, p.words[..n]))
    {
      CarriesWord(zeros, line[..], luma, p.offset, p.words, n);
      Put(line, 2 * (p.offset + n) + 1, p.words[n]);
    }
    assert p.words[..|p.words|] == p.words;
  }

  // ------------------------------------------------------------------ reading

  /** Fewer than 64 packets of the greatest length leave room for one more. */
  lemma NeverTooLong(found: seq<VancPacket>, count: nat)
    requires Total(found) <= 262 * |found| && |found| < MAX_PACKETS && count <= 262
    ensures Total(found) + count <= BUDGET
  {}

  /** Read the packet that starts at one word, if it is whole and valid. */
  method ReadPacket(line: Row, width: nat, number: nat, x: nat, found: seq<VancPacket>) returns (packet: Option<VancPacket>)
    requires Holds(line, width) && 2 * width <= 3 * |line| && IsHd(width) && 0 < number <= 41 && x + 2 < width && StartsAt(Luma(line, width), x)
    requires Total(found) <= 262 * |found|
    ensures packet.None? ==> ScanRow(Luma(line, width), number, x, found, BUDGET).Rejected?
    ensures packet.Some? ==>
              && 0 < |packet.value.words| <= width - x && Total(found + [packet.value]) <= 262 * (|found| + 1)
              && ScanRow(Luma(line, width), number, x, found, BUDGET)
                 == ScanRow(Luma(line, width), number, x + |packet.value.words|, found + [packet.value], BUDGET)
  {
    hide WellFormed, Component, ScanRow, Total, ParityWord, Field;
    ScanFrom(Luma(line, width), number, x, found, BUDGET);
    if x + 6 >= width {
      return None;
    }
    var word := Component(line, 2 * (x + 5) + 1);
    if word != ParityWord(Byte(word)) {
      return None;
    }
    var count := Byte(word) + 7;
    if x + count > width || |found| >= MAX_PACKETS {
      return None;
    }
    var words := ReadWords(line, width, x, count);
    var valid := ValidatePacket(WirePacket(VancPacket(number, x, words), 0), width);
    if !valid {
      return None;
    }
    NoLonger(words);
    TotalOfOneMore(found, VancPacket(number, x, words));
    NeverTooLong(found, |words|);
    packet := Some(VancPacket(number, x, words));
  }

  /** Read the original words of one captured line; any damage refuses the whole line. */
  method ReadLine(line: array<Packed>, width: nat, number: nat) returns (packets: Option<seq<VancPacket>>)
    requires IsHd(width) ==> line.Length == RowWords(width)
    ensures IsHd(width) && 0 < number <= 41 ==>
              var scan := ReadScan(line[..], width, number);
              && (packets.Some? <==> scan.Inventory?)
              && (packets.Some? ==> packets.value == scan.packets)
    ensures !(IsHd(width) && 0 < number <= 41) ==> packets.None?
  {
    hide WellFormed, Component, ScanRow, Total, Field;
    if !Supported(width) || number == 0 || number > 41 {
      return None;
    }
    LinesFit(width);
    ghost var row := line[..];
    ghost var luma := Luma(row, width);
    NothingTotal();
    var found: seq<VancPacket>, x: nat := [], 0;
    while x + 2 < width
      invariant Total(found) <= 262 * |found|
      invariant ScanRow(luma, number, 0, [], BUDGET) == ScanRow(luma, number, x, found, BUDGET)
      decreases width - x
    {
      ScanFrom(luma, number, x, found, BUDGET);
      if Component(line[..], 2 * x + 1) != 0 || Component(line[..], 2 * (x + 1) + 1) != 1023 || Component(line[..], 2 * (x + 2) + 1) != 1023 {
        x := x + 1;
        continue;
      }
      var packet := ReadPacket(line[..], width, number, x, found);
      if packet.None? {
        return None;
      }
      found := found + [packet.value];
      x := x + |packet.value.words|;
    }
    ScanFrom(luma, number, x, found, BUDGET);
    packets := Some(found);
  }

  /** What a line holds. */
  ghost function ReadScan(line: Row, width: nat, number: nat): Scan
    requires IsHd(width) && |line| == RowWords(width)
  {
    LinesFit(width);
    ScanRow(Luma(line, width), number, 0, [], BUDGET)
  }

  /** A line that was written reads as exactly the packets that were written, by offset. */
  lemma LineReadsBack(line: Row, wire: seq<WirePacket>, width: nat, number: nat) returns (all: seq<VancPacket>)
    requires IsHd(width) && |line| == RowWords(width) && Accepted(wire, width)
    requires |wire| > 0 ==> number == wire[0].packet.line
    requires LineCarries(line, Packets(wire), width, if |wire| == 0 then 0 else wire[0].packet.line)
    ensures ReadScan(line, width, number) == Inventory(all) && IsTail(all, Packets(wire), number, 0)
    ensures forall p :: p in all <==> p in Packets(wire)
  {
    hide WellFormed, Carries, Laid;
    var packets := Packets(wire);
    var luma: seq<Word> :| LineWritten(line, luma, packets, width, if |wire| == 0 then 0 else wire[0].packet.line);
    LinesFit(width);
    CarriesLuma(Zeros(|line|), line, luma);
    AcceptedFits(wire, width);
    if |wire| == 0 {
      NothingOnAnyLine(luma, number);
    }
    all := ScanFindsLaid(luma, number, 0, [], BUDGET, packets);
  }

  lemma NothingOnAnyLine(luma: seq<Word>, number: nat)
    requires Laid(luma, [], 0)
    ensures Laid(luma, [], number)
  {}

  lemma AcceptedFits(wire: seq<WirePacket>, width: nat)
    requires Accepted(wire, width)
    ensures Fits(Packets(wire), width, BUDGET)
    ensures forall p :: p in Packets(wire) ==> |wire| > 0 && p.line == wire[0].packet.line
  {
    hide WellFormed;
    forall i | 0 <= i < |wire|
      ensures |Packets(wire)[i].words| <= 262
    {
      NoLonger(wire[i].packet.words);
    }
    TotalIsBounded(Packets(wire));
  }

  lemma NoLonger(words: seq<Word>)
    requires WellFormed(words)
    ensures |words| <= 262
  {}

  lemma {:induction false} TotalIsBounded(packets: seq<VancPacket>)
    requires forall i :: 0 <= i < |packets| ==> |packets[i].words| <= 262
    ensures Total(packets) <= 262 * |packets|
    decreases |packets|
  {
    if |packets| > 0 {
      TotalIsBounded(packets[..|packets| - 1]);
    }
  }

  // ------------------------------------------------------------------ end to end

  method WrapAll(packets: seq<VancPacket>) returns (wire: seq<WirePacket>)
    ensures Packets(wire) == packets && forall i :: 0 <= i < |wire| ==> wire[i].reserved == 0
  {
    wire := seq(|packets|, i requires 0 <= i < |packets| => WirePacket(packets[i], 0));
  }

  /** Encoded, written to a line, read back and decoded: exactly the same packets return, by offset. */
  method TransmitLine(line: array<Packed>, width: nat, number: nat, placed: seq<Placed>) returns (ok: bool, back: seq<Placed>)
    requires AllConstructible(placed) && (IsHd(width) ==> line.Length == RowWords(width))
    requires 0 < number <= 41 && forall p :: p in placed ==> p.line == number
    modifies line
    ensures !ok ==> line[..] == old(line[..])
    ensures ok <==> IsHd(width) && |placed| <= MAX_PACKETS && Disjoint(Wire(placed)) && forall p :: p in Wire(placed) ==> p.End() <= width
    ensures ok ==> AllConstructible(back) && forall i, j :: 0 <= i < j < |back| ==> back[i].offset < back[j].offset
    ensures ok ==> forall p :: p in back <==> p in placed
  {
    hide WellFormed, Constructible, Encoded;
    back := [];
    var packets := EncodeAll(placed);
    var wire := WrapAll(packets);
    AcceptedWhenDisjoint(placed, wire, width, number);
    ok := WriteLine(line, width, wire);
    if !ok {
      return;
    }
    ghost var all := LineReadsBack(line[..], wire, width, number);
    var read := ReadLine(line, width, number);
    back := DecodeAll(read.value);
    SameOnWire(back, placed);
    assert forall i :: 0 <= i < |back| ==> Wire(back)[i].offset == back[i].offset;
  }

  lemma AcceptedWhenDisjoint(placed: seq<Placed>, wire: seq<WirePacket>, width: nat, number: nat)
    requires AllConstructible(placed) && Packets(wire) == Wire(placed)
    requires forall i :: 0 <= i < |wire| ==> wire[i].reserved == 0
    requires 0 < number <= 41 && forall p :: p in placed ==> p.line == number
    ensures Accepted(wire, width) <==> |placed| <= MAX_PACKETS && Disjoint(Wire(placed)) && forall p :: p in Wire(placed) ==> p.End() <= width
    ensures Accepted(wire, width) ==> forall p :: p in Wire(placed) ==> WellFormed(p.words)
    ensures |wire| > 0 ==> wire[0].packet.line == number
  {
    hide WellFormed, Constructible, Encoded;
    forall i | 0 <= i < |wire|
      ensures WellFormed(wire[i].packet.words) && wire[i].packet.line == number && wire[i].packet in Wire(placed)
    {
      assert wire[i].packet == Packets(wire)[i] == Wire(placed)[i];
      assert placed[i] in placed;
      EncodingIsWellFormed(placed[i].packet);
    }
    assert forall i :: 0 <= i < |wire| ==> Wire(placed)[i] == wire[i].packet;
  }
}
