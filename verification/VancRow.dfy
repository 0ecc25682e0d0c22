/** One raster line of packed ten-bit components, and the packets on its luma components. */
module VancRow {
  import opened Frames
  import opened St291

  /** Three ten-bit components and two spare bits. */
  type Packed = w: int | 0 <= w < 0x1_0000_0000

  type Row = seq<Packed>

  const TEN_BITS: nat := 1024
  const BLANK_CHROMA: Word := 512
  const BLANK_LUMA: Word := 64

  /** The word without its `k` lowest fields. */
  function Above(w: Packed, k: nat): Packed
    requires k <= 3
  {
    if k == 0 then w else if k == 1 then w / 1024 else if k == 2 then w / 1024 / 1024 else w / 1024 / 1024 / 1024
  }

  function Field(w: Packed, k: nat): (field: Word)
    requires k < 3
    ensures field < TEN_BITS
  {
    Above(w, k) % TEN_BITS
  }

  /** The two bits above the three fields. */
  function Spare(w: Packed): (bits: nat)
    ensures bits < 4 && bits == w / 0x4000_0000
  {
    Above(w, 3)
  }

  function Scale(k: nat): nat
    requires k < 3
  {
    if k == 0 then 1 else if k == 1 then 1024 else 0x10_0000
  }

  /** The packed word with field `k` cleared and set to `value`. */
  function Patched(w: Packed, k: nat, value: Word): Packed
    requires k < 3 && value < TEN_BITS
  {
    PatchedFits(w, k, value);
    w - Field(w, k) * Scale(k) + value * Scale(k)
  }

  /** A packed word is its three fields and its spare bits. */
  lemma Unpacks(w: Packed)
    ensures w == Field(w, 0) + Field(w, 1) * 1024 + Field(w, 2) * 0x10_0000 + Spare(w) * 0x4000_0000
  {
    var one := w / 1024;
    var two := one / 1024;
    assert w == w % 1024 + one * 1024;
    assert one == one % 1024 + two * 1024;
    assert two == two % 1024 + two / 1024 * 1024;
  }

  lemma Packs(a: nat, b: nat, c: nat, spare: nat)
    requires a < TEN_BITS && b < TEN_BITS && c < TEN_BITS && spare < 4
    ensures var w := a + b * 1024 + c * 0x10_0000 + spare * 0x4000_0000;
            w < 0x1_0000_0000 && Field(w, 0) == a && Field(w, 1) == b && Field(w, 2) == c && Spare(w) == spare
  {
    var w := a + b * 1024 + c * 0x10_0000 + spare * 0x4000_0000;
    assert w / 1024 == b + c * 1024 + spare * 0x10_0000;
    assert w / 1024 / 1024 == c + spare * 1024;
  }

  lemma PatchedFits(w: Packed, k: nat, value: nat)
    requires k < 3 && value < TEN_BITS
    ensures 0 <= w - Field(w, k) * Scale(k) + value * Scale(k) < 0x1_0000_0000
  {
    Unpacks(w);
    hide Field, Spare;
  }

  /** Setting one component changes that component alone, and not the spare bits. */
  lemma PatchesOne(w: Packed, k: nat, value: Word, l: nat)
    requires k < 3 && l < 3 && value < TEN_BITS
    ensures Field(Patched(w, k, value), l) == if l == k then value else Field(w, l)
    ensures Spare(Patched(w, k, value)) == Spare(w)
  {
    Unpacks(w);
    var a, b, c := Field(w, 0), Field(w, 1), Field(w, 2);
    Packs(if k == 0 then value else a, if k == 1 then value else b, if k == 2 then value else c, Spare(w));
    hide Field, Spare;
  }

  // ------------------------------------------------------------------ components of a line

  /** A line holds chroma at even and luma at odd components. */
  predicate Holds(row: Row, width: nat) { 2 * width <= 3 * |row| }

  function Component(row: Row, index: nat): (word: Word)
    requires index < 3 * |row|
    ensures word < TEN_BITS
    ensures index % 3 == 0 ==> word == row[index / 3] % 1024
    ensures index % 3 == 1 ==> word == row[index / 3] / 1024 % 1024
    ensures index % 3 == 2 ==> word == row[index / 3] / 0x10_0000 % 1024
  {
    Field(row[index / 3], index % 3)
  }

  function WithComponent(row: Row, index: nat, word: Word): (after: Row)
    requires index < 3 * |row| && word < TEN_BITS
    ensures |after| == |row|
  {
    row[index / 3 := Patched(row[index / 3], index % 3, word)]
  }

  lemma ComponentsAreIndependent(row: Row, index: nat, word: Word, other: nat)
    requires index < 3 * |row| && other < 3 * |row| && word < TEN_BITS
    ensures Component(WithComponent(row, index, word), other) == if other == index then word else Component(row, other)
  {
    if other / 3 == index / 3 {
      PatchesOne(row[index / 3], index % 3, word, other % 3);
    }
  }

  lemma SpareIsKept(row: Row, index: nat, word: Word, i: nat)
    requires index < 3 * |row| && i < |row| && word < TEN_BITS
    ensures Spare(WithComponent(row, index, word)[i]) == Spare(row[i])
  {
    if i == index / 3 {
      PatchesOne(row[i], index % 3, word, 0);
    }
  }

  ghost function Luma(row: Row, width: nat): (luma: seq<Word>)
    requires Holds(row, width)
    ensures |luma| == width
  {
    seq(width, n requires 0 <= n < width => Component(row, 2 * n + 1))
  }

  /** Outside the components of the represented interval, which carry blank chroma and the given luma,
      the line is what it was: further components and all spare bits. */
  ghost predicate Carries(before: Row, after: Row, luma: seq<Word>) {
    && |after| == |before| && Holds(after, |luma|)
    && (forall n :: 0 <= n < |luma| ==> Component(after, 2 * n) == 512)
    && (forall n :: 0 <= n < |luma| ==> Component(after, 2 * n + 1) == luma[n])
    && (forall j :: 2 * |luma| <= j < 3 * |after| ==> Component(after, j) == Component(before, j))
    && (forall i :: 0 <= i < |after| ==> Spare(after[i]) == Spare(before[i]))
  }

  lemma CarriesLuma(before: Row, after: Row, luma: seq<Word>)
    requires Carries(before, after, luma)
    ensures Luma(after, |luma|) == luma
  {}

  lemma CarriesMore(before: Row, after: Row, luma: seq<Word>, n: nat, word: Word)
    requires Carries(before, after, luma) && n < |luma| && word < TEN_BITS
    ensures Carries(before, WithComponent(after, 2 * n + 1, word), luma[n := word])
  {
    hide Component, Spare;
    var next := WithComponent(after, 2 * n + 1, word);
    forall j | 0 <= j < 3 * |next|
      ensures Component(next, j) == if j == 2 * n + 1 then word else Component(after, j)
    {
      ComponentsAreIndependent(after, 2 * n + 1, word, j);
    }
    forall i | 0 <= i < |next|
      ensures Spare(next[i]) == Spare(before[i])
    {
      SpareIsKept(after, 2 * n + 1, word, i);
    }
  }

  /** `k` components from the start of the line on are blank. */
  ghost predicate BlankUpTo(before: Row, after: Row, k: nat) {
    && |after| == |before| && k <= 3 * |after|
    && (forall j :: 0 <= j < k ==> Component(after, j) == if j % 2 == 0 then BLANK_CHROMA else BLANK_LUMA)
    && (forall j :: k <= j < 3 * |after| ==> Component(after, j) == Component(before, j))
    && (forall i :: 0 <= i < |after| ==> Spare(after[i]) == Spare(before[i]))
  }

  lemma BlanksOne(before: Row, after: Row, k: nat)
    requires BlankUpTo(before, after, k) && k < 3 * |after|
    ensures BlankUpTo(before, WithComponent(after, k, if k % 2 == 0 then BLANK_CHROMA else BLANK_LUMA), k + 1)
  {
    hide Component, Spare;
    var word := if k % 2 == 0 then BLANK_CHROMA else BLANK_LUMA;
    var next := WithComponent(after, k, word);
    forall j | 0 <= j < 3 * |next|
      ensures Component(next, j) == if j == k then word else Component(after, j)
    {
      ComponentsAreIndependent(after, k, word, j);
    }
    forall i | 0 <= i < |next|
      ensures Spare(next[i]) == Spare(before[i])
    {
      SpareIsKept(after, k, word, i);
    }
  }

  method BlankLine(before: Row, width: nat) returns (row: Row)
    requires Holds(before, width)
    ensures Carries(before, row, seq(width, _ => BLANK_LUMA))
  {
    hide Component, Spare, BlankUpTo, Carries, WithComponent, Patched, Field;
    row := before;
    NothingBlank(before);
    for n := 0 to width
      invariant |row| == |before| && BlankUpTo(before, row, 2 * n)
    {
      BlanksTwo(before, row, n);
      row := WithComponent(row, 2 * n, BLANK_CHROMA);
      row := WithComponent(row, 2 * n + 1, BLANK_LUMA);
    }
    AllBlank(before, row, width);
  }

  lemma BlanksTwo(before: Row, row: Row, n: nat)
    requires BlankUpTo(before, row, 2 * n) && 2 * n + 1 < 3 * |row|
    ensures BlankUpTo(before, WithComponent(WithComponent(row, 2 * n, BLANK_CHROMA), 2 * n + 1, BLANK_LUMA), 2 * (n + 1))
  {
    hide Component, Spare, BlankUpTo, WithComponent, Patched, Field;
    assert 2 * n % 2 == 0 && (2 * n + 1) % 2 == 1;
    BlanksOne(before, row, 2 * n);
    BlanksOne(before, WithComponent(row, 2 * n, BLANK_CHROMA), 2 * n + 1);
  }

  lemma NothingBlank(before: Row)
    ensures BlankUpTo(before, before, 0)
  {}

  lemma AllBlank(before: Row, row: Row, width: nat)
    requires BlankUpTo(before, row, 2 * width)
    ensures Carries(before, row, seq(width, _ => BLANK_LUMA))
  {
    hide Component, Spare;
    forall n | 0 <= n < width
      ensures Component(row, 2 * n) == BLANK_CHROMA && Component(row, 2 * n + 1) == BLANK_LUMA
    {
      EvenAndOdd(n);
    }
  }

  lemma EvenAndOdd(n: nat)
    ensures 2 * n % 2 == 0 && (2 * n + 1) % 2 == 1
  {}

  // ------------------------------------------------------------------ packets on a line

  datatype VancPacket = VancPacket(line: nat, offset: nat, words: seq<Word>) {
    function End(): nat { offset + |words| }
  }

  ghost predicate Covers(p: VancPacket, line: nat, n: nat) {
    p.line == line && p.offset <= n < p.End()
  }

  ghost predicate Overlap(p: VancPacket, q: VancPacket) {
    p.line == q.line && p.offset < q.End() && q.offset < p.End()
  }

  ghost predicate Disjoint(packets: seq<VancPacket>) {
    forall i, j :: 0 <= i < j < |packets| ==> !Overlap(packets[i], packets[j])
  }

  function Total(packets: seq<VancPacket>): nat {
    if |packets| == 0 then 0 else Total(packets[..|packets| - 1]) + |packets[|packets| - 1].words|
  }

  /** The luma words carry the packets of the line, and are blank between them. */
  ghost predicate Laid(luma: seq<Word>, packets: seq<VancPacket>, line: nat) {
    && (forall p :: p in packets && p.line == line ==> p.End() <= |luma| && luma[p.offset..p.End()] == p.words)
    && (forall n :: 0 <= n < |luma| && (forall p :: p in packets ==> !Covers(p, line, n)) ==> luma[n] == 64)
  }

  function Overlay(luma: seq<Word>, offset: nat, words: seq<Word>): (after: seq<Word>)
    requires offset + |words| <= |luma|
    ensures |after| == |luma|
  {
    luma[..offset] + words + luma[offset + |words|..]
  }

  /** One more disjoint packet. */
  lemma LaysOneMore(luma: seq<Word>, packets: seq<VancPacket>, line: nat, p: VancPacket)
    requires Laid(luma, packets, line) && p.line == line && p.End() <= |luma|
    requires forall q :: q in packets ==> !Overlap(q, p) && |q.words| > 0
    ensures Laid(Overlay(luma, p.offset, p.words), packets + [p], line)
  {
    var after := Overlay(luma, p.offset, p.words);
    var more := packets + [p];
    assert after[p.offset..p.End()] == p.words;
    forall q | q in packets && q.line == line
      ensures q.End() <= |after| && after[q.offset..q.End()] == q.words
    {
      assert !Overlap(q, p);
      assert after[q.offset..q.End()] == luma[q.offset..q.End()];
    }
    forall n | 0 <= n < |after| && (forall q :: q in more ==> !Covers(q, line, n))
      ensures after[n] == BLANK_LUMA
    {
      assert p in more && !Covers(p, line, n);
      assert forall q :: q in packets ==> q in more && !Covers(q, line, n);
      assert luma[n] == BLANK_LUMA;
    }
  }

  /** Put the words of one packet on the luma components of its line. */
  method PutPacket(ghost before: Row, row: Row, p: VancPacket, ghost luma: seq<Word>) returns (after: Row)
    requires Carries(before, row, luma) && p.End() <= |luma|
    requires forall n :: 0 <= n < |p.words| ==> p.words[n] < TEN_BITS
    ensures Carries(before, after, Overlay(luma, p.offset, p.words))
  {
    assert |row| == |before| && Holds(row, |luma|);
    hide Carries, Overlay, WithComponent;
    after := row;
    NoOverlay(luma, p.offset);
    for n := 0 to |p.words|
      invariant |after| == |row|
      invariant Carries(before, after, Overlay(luma, p.offset, p.words[..n]))
    {
      CarriesWord(before, after, luma, p.offset, p.words, n);
      after := WithComponent(after, (p.offset + n) * 2 + 1, p.words[n]);
    }
    assert p.words[..|p.words|] == p.words;
  }

  lemma CarriesWord(before: Row, after: Row, luma: seq<Word>, offset: nat, words: seq<Word>, n: nat)
    requires offset + |words| <= |luma| && n < |words| && words[n] < TEN_BITS
    requires Carries(before, after, Overlay(luma, offset, words[..n]))
    ensures 2 * (offset + n) + 1 < 3 * |after|
    ensures Carries(before, WithComponent(after, 2 * (offset + n) + 1, words[n]), Overlay(luma, offset, words[..n + 1]))
  {
    hide Overlay, WithComponent, Component;
    CarriesMore(before, after, Overlay(luma, offset, words[..n]), offset + n, words[n]);
    OverlaysOne(luma, offset, words, n);
  }

  lemma NoOverlay(luma: seq<Word>, offset: nat)
    requires offset <= |luma|
    ensures Overlay(luma, offset, []) == luma
  {}

  lemma OverlaysOne(luma: seq<Word>, offset: nat, words: seq<Word>, n: nat)
    requires offset + |words| <= |luma| && n < |words|
    ensures Overlay(luma, offset, words[..n])[offset + n := words[n]] == Overlay(luma, offset, words[..n + 1])
  {}

  /** Every word of a well-formed packet fits a component. */
  lemma TenBits(words: seq<Word>)
    requires WellFormed(words)
    ensures forall n :: 0 <= n < |words| ==> words[n] < TEN_BITS
  {
    forall n | 0 <= n < |words|
      ensures words[n] < TEN_BITS
    {
      if 3 <= n < 6 {
        HeaderFits(words, n);
      } else if n == |words| - 1 {
        ChecksumNeverProtected(Sum(words[3..|words| - 1]));
      }
    }
  }

  // ------------------------------------------------------------------ scanning

  const MAX_PACKETS: nat := 64

  datatype ScanError = TruncatedHeader | TruncatedPacket | DataCountParity | InvalidPacket | BoundExceeded

  datatype Scan = Inventory(packets: seq<VancPacket>) | Rejected(error: ScanError)

  predicate StartsAt(luma: seq<Word>, x: nat)
    requires x + 2 < |luma|
  {
    luma[x] == 0 && luma[x + 1] == 1023 && luma[x + 2] == 1023
  }

  /** What a reader finds from luma word `x` on, after it has found `found`. */
  ghost function ScanRow(luma: seq<Word>, line: nat, x: nat, found: seq<VancPacket>, budget: nat): Scan
    decreases |luma| - x, 1
  {
    if x + 2 >= |luma| then Inventory(found)
    else if !StartsAt(luma, x) then ScanRow(luma, line, x + 1, found, budget)
    else if x + 6 >= |luma| then Rejected(TruncatedHeader)
    else if luma[x + 5] != ParityWord(Byte(luma[x + 5])) then Rejected(DataCountParity)
    else
      var extent := Byte(luma[x + 5]) + 7;
      if x + extent > |luma| then Rejected(ScanError.TruncatedPacket)
      else ScanPacket(luma, line, x, extent, found, budget)
  }

  /** What a reader makes of a packet of known extent. */
  ghost function ScanPacket(luma: seq<Word>, line: nat, x: nat, extent: nat, found: seq<VancPacket>, budget: nat): Scan
    requires x + extent <= |luma| && extent > 0
    decreases |luma| - x, 0
  {
    var packet := VancPacket(line, x, luma[x..x + extent]);
    if !WellFormed(packet.words) then Rejected(InvalidPacket)
    else if |found| >= MAX_PACKETS || Total(found) + extent > budget then Rejected(BoundExceeded)
    else ScanRow(luma, line, x + extent, found + [packet], budget)
  }

  ghost predicate Distinct(packets: seq<VancPacket>) {
    forall i, j :: 0 <= i < j < |packets| ==> packets[i] != packets[j]
  }

  /** Distinct packets of an inventory are not more, and not longer, than the inventory. */
  lemma {:induction false} PartIsSmaller(part: seq<VancPacket>, whole: seq<VancPacket>)
    requires Distinct(part) && forall p :: p in part ==> p in whole
    ensures |part| <= |whole| && Total(part) <= Total(whole)
    decreases |part|
  {
    if |part| > 0 {
      var head, last := part[..|part| - 1], part[|part| - 1];
      assert last in part;
      var k: nat :| k < |whole| && whole[k] == last;
      var rest := whole[..k] + whole[k + 1..];
      forall p | p in head
        ensures p in rest
      {
        assert p in part && p != last;
        assert whole == whole[..k] + [last] + whole[k + 1..];
      }
      PartIsSmaller(head, rest);
      TotalWithout(whole, k);
    }
  }

  lemma {:induction false} TotalWithout(packets: seq<VancPacket>, k: nat)
    requires k < |packets|
    ensures Total(packets[..k] + packets[k + 1..]) + |packets[k].words| == Total(packets)
    decreases |packets|
  {
    var n := |packets| - 1;
    var rest := packets[..k] + packets[k + 1..];
    if k == n {
      assert rest == packets[..n];
    } else {
      TotalWithout(packets[..n], k);
      assert rest[..|rest| - 1] == packets[..n][..k] + packets[..n][k + 1..];
    }
  }

  /** An inventory that may be written: bounded, well formed, inside the line, without overlap. */
  ghost predicate Fits(packets: seq<VancPacket>, width: nat, budget: nat) {
    && |packets| <= MAX_PACKETS && Total(packets) <= budget && Disjoint(packets)
    && forall p :: p in packets ==> WellFormed(p.words) && p.End() <= width
  }

  /** No packet of the line begins before `x` and ends behind it. */
  ghost predicate Between(packets: seq<VancPacket>, line: nat, x: nat) {
    forall p :: p in packets && p.line == line && p.offset < x ==> p.End() <= x
  }

  /** The packets of one line from `x` on, in order. */
  ghost predicate IsTail(tail: seq<VancPacket>, packets: seq<VancPacket>, line: nat, x: nat) {
    && (forall p :: p in tail <==> p in packets && p.line == line && p.offset >= x)
    && (forall i, j :: 0 <= i < j < |tail| ==> tail[i].offset < tail[j].offset)
  }

  /** What was found so far are packets of the inventory, none of them at `x` or behind it. */
  ghost predicate FoundBefore(found: seq<VancPacket>, packets: seq<VancPacket>, line: nat, x: nat) {
    Distinct(found) && forall p :: p in found ==> p in packets && !(p.line == line && p.offset >= x)
  }

  lemma DisjointWith(packets: seq<VancPacket>, p: VancPacket)
    ensures Disjoint(packets + [p]) <==> Disjoint(packets) && forall q :: q in packets ==> !Overlap(q, p)
  {
    hide Overlap;
    var more := packets + [p];
    assert forall i :: 0 <= i < |packets| ==> more[i] == packets[i];
    if Disjoint(more) {
      forall q | q in packets
        ensures !Overlap(q, p)
      {
        var i: nat :| i < |packets| && packets[i] == q;
        assert !Overlap(more[i], more[|packets|]);
      }
      forall i, j | 0 <= i < j < |packets|
        ensures !Overlap(packets[i], packets[j])
      {
        assert !Overlap(more[i], more[j]);
      }
    }
  }

  lemma DisjointMembers(packets: seq<VancPacket>, p: VancPacket, q: VancPacket)
    requires Disjoint(packets) && p in packets && q in packets && p != q
    ensures !Overlap(p, q)
  {
    var i: nat :| i < |packets| && packets[i] == p;
    var j: nat :| j < |packets| && packets[j] == q;
    assert if i < j then !Overlap(packets[i], packets[j]) else !Overlap(packets[j], packets[i]);
  }

  /** Between packets a line is blank. */
  lemma BlankBetween(luma: seq<Word>, packets: seq<VancPacket>, line: nat, x: nat)
    requires Laid(luma, packets, line) && Between(packets, line, x) && x < |luma|
    requires forall p :: p in packets && p.line == line ==> p.offset != x
    ensures luma[x] == BLANK_LUMA
  {
    forall p | p in packets
      ensures !Covers(p, line, x)
    {}
  }

  /** A scan of a laid line from between two packets finds exactly the packets from there on, in order. */
  lemma {:induction false} ScanFindsLaid(luma: seq<Word>, line: nat, x: nat, found: seq<VancPacket>, budget: nat, packets: seq<VancPacket>)
    returns (tail: seq<VancPacket>)
    requires Laid(luma, packets, line) && Fits(packets, |luma|, budget)
    requires Between(packets, line, x) && FoundBefore(found, packets, line, x)
    ensures ScanRow(luma, line, x, found, budget) == Inventory(found + tail)
    ensures IsTail(tail, packets, line, x)
    decreases |luma| - x
  {
    hide Distinct, Disjoint, WellFormed;
    if x + 2 >= |luma| {
      tail := [];
      assert found + tail == found;
      forall p | p in packets && p.line == line && p.offset >= x
        ensures false
      {
        LongEnough(p.words);
      }
    } else if p :| p in packets && p.line == line && p.offset == x {
      tail := ScanStep(luma, line, x, found, budget, packets, p);
    } else {
      BlankBetween(luma, packets, line, x);
      tail := ScanFindsLaid(luma, line, x + 1, found, budget, packets);
    }
  }

  lemma LongEnough(words: seq<Word>)
    requires WellFormed(words)
    ensures |words| >= 7 && words[0] == 0 && words[1] == 1023 && words[2] == 1023
    ensures words[5] == ParityWord(Byte(words[5])) && Byte(words[5]) + 7 == |words|
  {}

  lemma {:induction false} ScanStep(luma: seq<Word>, line: nat, x: nat, found: seq<VancPacket>, budget: nat, packets: seq<VancPacket>, p: VancPacket)
    returns (tail: seq<VancPacket>)
    requires Laid(luma, packets, line) && Fits(packets, |luma|, budget)
    requires FoundBefore(found, packets, line, x)
    requires p in packets && p.line == line && p.offset == x && x + 2 < |luma|
    ensures ScanRow(luma, line, x, found, budget) == Inventory(found + tail)
    ensures IsTail(tail, packets, line, x)
    decreases |luma| - x, 0
  {
    hide WellFormed, Laid, Disjoint, FoundBefore, Between, IsTail, ScanRow;
    var more := found + [p];
    forall q | q in packets
      ensures |q.words| >= 7
    {
      LongEnough(q.words);
    }
    FoundOneMore(found, packets, line, p);
    PartIsSmaller(more, packets);
    assert more[..|found|] == found;
    ReadsPacket(luma, line, x, found, budget, packets, p);
    NothingStraddles(packets, p);
    var rest := ScanFindsLaid(luma, line, p.End(), more, budget, packets);
    tail := [p] + rest;
    assert more + rest == found + tail;
    TailWith(packets, p, rest);
  }

  lemma FoundOneMore(found: seq<VancPacket>, packets: seq<VancPacket>, line: nat, p: VancPacket)
    requires FoundBefore(found, packets, line, p.offset) && p in packets && p.line == line && |p.words| > 0
    ensures FoundBefore(found + [p], packets, line, p.End()) && Distinct(found + [p])
    ensures forall q :: q in found + [p] ==> q in packets
  {}

  lemma ReadsPacket(luma: seq<Word>, line: nat, x: nat, found: seq<VancPacket>, budget: nat, packets: seq<VancPacket>, p: VancPacket)
    requires Laid(luma, packets, line) && p in packets && p.line == line && p.offset == x && WellFormed(p.words)
    requires |found| < MAX_PACKETS && Total(found) + |p.words| <= budget
    ensures ScanRow(luma, line, x, found, budget) == ScanRow(luma, line, p.End(), found + [p], budget)
    ensures x < p.End() <= |luma|
  {
    hide WellFormed, ParityWord, Total, Byte, ScanRow;
    LongEnough(p.words);
    assert luma[x..p.End()] == p.words;
    assert forall k :: 0 <= k < |p.words| ==> luma[x + k] == p.words[k];
    ScanFrom(luma, line, x, found, budget);
    assert VancPacket(line, x, luma[x..p.End()]) == p;
  }

  lemma NothingStraddles(packets: seq<VancPacket>, p: VancPacket)
    requires Disjoint(packets) && p in packets && |p.words| > 0
    ensures Between(packets, p.line, p.End())
  {
    forall q | q in packets && q != p
      ensures !Overlap(p, q)
    {
      DisjointMembers(packets, p, q);
    }
  }

  lemma TailWith(packets: seq<VancPacket>, p: VancPacket, rest: seq<VancPacket>)
    requires IsTail(rest, packets, p.line, p.End()) && Disjoint(packets) && p in packets
    requires forall q :: q in packets ==> |q.words| > 0
    ensures IsTail([p] + rest, packets, p.line, p.offset)
  {
    forall q | q in packets && q.line == p.line && q.offset >= p.offset && q != p
      ensures q.offset >= p.End() && q.offset > p.offset
    {
      DisjointMembers(packets, p, q);
    }
  }

  // ------------------------------------------------------------------ reading one line

  /** The luma words `[x, x + count)` of a line. */
  method ReadWords(row: Row, width: nat, x: nat, count: nat) returns (words: seq<Word>)
    requires Holds(row, width) && x + count <= width
    ensures words == Luma(row, width)[x..x + count]
  {
    words := [];
    for n := 0 to count
      invariant words == Luma(row, width)[x..x + n]
    {
      words := words + [Component(row, (x + n) * 2 + 1)];
    }
  }

  /** Read the packet that starts at one word, or reject the line for it. */
  method ReadPacketAt(row: Row, width: nat, line: nat, x: nat, found: seq<VancPacket>, total: nat, budget: nat) returns (rejection: Option<ScanError>, words: seq<Word>)
    requires Holds(row, width) && x + 2 < width && StartsAt(Luma(row, width), x) && total == Total(found)
    ensures rejection.Some? ==> ScanRow(Luma(row, width), line, x, found, budget) == Rejected(rejection.value)
    ensures rejection.None? ==>
              && 0 < |words| <= width - x && Total(found + [VancPacket(line, x, words)]) == total + |words|
              && ScanRow(Luma(row, width), line, x, found, budget)
                 == ScanRow(Luma(row, width), line, x + |words|, found + [VancPacket(line, x, words)], budget)
  {
    hide WellFormed, Component, ScanRow, Total, ParityWord, Field;
    rejection, words := None, [];
    ScanFrom(Luma(row, width), line, x, found, budget);
    if x + 6 >= width {
      return Some(TruncatedHeader), words;
    }
    var count := Component(row, 2 * (x + 5) + 1);
    if count != ParityWord(Byte(count)) {
      return Some(DataCountParity), words;
    }
    var extent := Byte(count) + 7;
    if x + extent > width {
      return Some(ScanError.TruncatedPacket), words;
    }
    words := ReadWords(row, width, x, extent);
    var valid := ValidateComponentPacket(words);
    if !valid {
      return Some(InvalidPacket), words;
    }
    if |found| >= MAX_PACKETS || total + extent > budget {
      return Some(BoundExceeded), words;
    }
    TotalOfOneMore(found, VancPacket(line, x, words));
  }

  /** Scan one line word by word, jumping over every packet that was read whole. */
  method ScanLine(row: Row, width: nat, line: nat, before: seq<VancPacket>, totalBefore: nat, budget: nat) returns (scan: Scan, total: nat)
    requires Holds(row, width) && totalBefore == Total(before)
    ensures scan == ScanRow(Luma(row, width), line, 0, before, budget)
    ensures scan.Inventory? ==> total == Total(scan.packets)
  {
    hide WellFormed, Component, ScanRow, Total, ParityWord, Field;
    ghost var luma := Luma(row, width);
    var found, x: nat := before, 0;
    total := totalBefore;
    while x + 2 < width
      invariant total == Total(found)
      invariant ScanRow(luma, line, 0, before, budget) == ScanRow(luma, line, x, found, budget)
      decreases width - x
    {
      ScanFrom(luma, line, x, found, budget);
      if Component(row, 2 * x + 1) != 0 || Component(row, 2 * (x + 1) + 1) != 1023 || Component(row, 2 * (x + 2) + 1) != 1023 {
        x := x + 1;
        continue;
      }
      var rejection, words := ReadPacketAt(row, width, line, x, found, total, budget);
      if rejection.Some? {
        return Rejected(rejection.value), total;
      }
      found := found + [VancPacket(line, x, words)];
      total := total + |words|;
      x := x + |words|;
    }
    ScanFrom(luma, line, x, found, budget);
    scan := Inventory(found);
  }

  lemma NothingTotal()
    ensures Total([]) == 0
  {}

  lemma TotalOfOneMore(packets: seq<VancPacket>, p: VancPacket)
    ensures Total(packets + [p]) == Total(packets) + |p.words|
  {
    assert (packets + [p])[..|packets|] == packets;
  }

  /** What a scan does at one word. */
  lemma ScanFrom(luma: seq<Word>, line: nat, x: nat, found: seq<VancPacket>, budget: nat)
    ensures x + 2 >= |luma| ==> ScanRow(luma, line, x, found, budget) == Inventory(found)
    ensures x + 2 < |luma| && !StartsAt(luma, x) ==> ScanRow(luma, line, x, found, budget) == ScanRow(luma, line, x + 1, found, budget)
    ensures x + 2 < |luma| && StartsAt(luma, x) && x + 6 >= |luma| ==> ScanRow(luma, line, x, found, budget) == Rejected(TruncatedHeader)
    ensures x + 6 < |luma| && StartsAt(luma, x) ==>
              ScanRow(luma, line, x, found, budget)
              == if luma[x + 5] != ParityWord(Byte(luma[x + 5])) then Rejected(DataCountParity)
                 else if x + Byte(luma[x + 5]) + 7 > |luma| then Rejected(ScanError.TruncatedPacket)
                 else ScanPacket(luma, line, x, Byte(luma[x + 5]) + 7, found, budget)
  {
    hide ScanPacket, ParityWord;
  }

  // ------------------------------------------------------------------ occupancy of one line

  /** A word is taken exactly when a packet covers it. */
  ghost predicate MarksRow(row: seq<bool>, packets: seq<VancPacket>, line: nat, width: nat) {
    |row| == width && forall n :: 0 <= n < width ==> (row[n] <==> exists p :: p in packets && Covers(p, line, n))
  }

  /** Take the words of one packet, or find one that is taken. */
  method Occupy(row: seq<bool>, ghost packets: seq<VancPacket>, p: VancPacket) returns (free: bool, after: seq<bool>)
    requires MarksRow(row, packets, p.line, |row|) && p.End() <= |row|
    requires |p.words| > 0 && forall q :: q in packets ==> |q.words| > 0
    ensures free <==> forall q :: q in packets ==> !Overlap(q, p)
    ensures free ==> MarksRow(after, packets + [p], p.line, |row|)
  {
    after := row;
    for n := p.offset to p.End()
      invariant |after| == |row|
      invariant forall m :: 0 <= m < |row| ==> (after[m] <==> row[m] || p.offset <= m < n)
      invariant forall m :: p.offset <= m < n ==> !row[m]
    {
      if after[n] {
        ghost var q :| q in packets && Covers(q, p.line, n);
        assert Overlap(q, p);
        return false, after;
      }
      after := after[n := true];
    }
    free := true;
    forall q | q in packets
      ensures !Overlap(q, p)
    {
      forall m | p.offset <= m < p.End()
        ensures !Covers(q, p.line, m)
      {
        assert !row[m];
      }
      var n := if q.offset < p.offset then p.offset else q.offset;
      assert Overlap(q, p) ==> Covers(q, p.line, n);
    }
    MarkedWith(row, packets, p, after);
  }

  lemma MarkedWith(row: seq<bool>, packets: seq<VancPacket>, p: VancPacket, after: seq<bool>)
    requires MarksRow(row, packets, p.line, |row|) && |after| == |row|
    requires forall m :: 0 <= m < |row| ==> (after[m] <==> row[m] || p.offset <= m < p.End())
    ensures MarksRow(after, packets + [p], p.line, |row|)
  {
    var more := packets + [p];
    forall n | 0 <= n < |after|
      ensures after[n] <==> exists q :: q in more && Covers(q, p.line, n)
    {
      assert p in more;
      if q :| q in packets && Covers(q, p.line, n) {
        assert q in more;
      }
    }
  }
}
