/** Packets with their places, and their words on the wire. */
module Placement {
  import opened St291
  import opened VancRow

  lemma {:induction false} OccursTwice<T>(items: seq<T>, item: T) returns (i: nat, j: nat)
    requires multiset(items)[item] >= 2
    ensures i < j < |items| && items[i] == item && items[j] == item
  {
    var last := |items| - 1;
    assert items == items[..last] + [items[last]];
    if items[last] == item {
      assert item in multiset(items[..last]);
      i :| 0 <= i < last && items[i] == item;
      j := last;
    } else {
      i, j := OccursTwice(items[..last], item);
    }
  }

  lemma CountsTwice<T>(items: seq<T>, i: nat, j: nat)
    requires i < j < |items| && items[i] == items[j]
    ensures multiset(items)[items[i]] >= 2
  {
    assert items == items[..i] + [items[i]] + items[i + 1..j] + [items[j]] + items[j + 1..];
  }

  /** A packet and where it is placed. */
  datatype Placed = Placed(line: nat, offset: nat, packet: Packet)

  ghost function OnWire(placed: Placed): VancPacket
    requires Constructible(placed.packet)
  {
    VancPacket(placed.line, placed.offset, Encoded(placed.packet))
  }

  ghost predicate AllConstructible(placed: seq<Placed>) {
    forall i :: 0 <= i < |placed| ==> Constructible(placed[i].packet)
  }

  ghost function Wire(placed: seq<Placed>): (packets: seq<VancPacket>)
    requires AllConstructible(placed)
    ensures |packets| == |placed|
  {
    seq(|placed|, i requires 0 <= i < |placed| => OnWire(placed[i]))
  }

  method EncodeAll(placed: seq<Placed>) returns (packets: seq<VancPacket>)
    requires AllConstructible(placed)
    ensures packets == Wire(placed)
  {
    hide Constructible, Encoded;
    packets := [];
    for i := 0 to |placed|
      invariant |packets| == i && packets == Wire(placed)[..i]
    {
      var words := ComponentWords(placed[i].packet);
      packets := packets + [VancPacket(placed[i].line, placed[i].offset, words)];
    }
  }

  method DecodeAll(packets: seq<VancPacket>) returns (placed: seq<Placed>)
    requires forall p :: p in packets ==> WellFormed(p.words)
    ensures AllConstructible(placed) && Wire(placed) == packets
  {
    hide WellFormed, Constructible, Encoded;
    placed := [];
    for i := 0 to |packets|
      invariant AllConstructible(placed) && Wire(placed) == packets[..i]
    {
      assert packets[i] in packets;
      var decoded := DecodeComponentWords(packets[i].words);
      EncodingsAreConstructible(packets[i].words, decoded.value);
      placed := placed + [Placed(packets[i].line, packets[i].offset, decoded.value)];
    }
  }

  lemma EncodingsAreConstructible(words: seq<Word>, p: Packet)
    requires IsEncoding(words, p)
    ensures Constructible(p) && words == Encoded(p)
  {}

  /** The same packets on the wire are the same packets. */
  lemma SameOnWire(a: seq<Placed>, b: seq<Placed>)
    requires AllConstructible(a) && AllConstructible(b)
    requires forall p :: p in Wire(a) <==> p in Wire(b)
    ensures forall p :: p in a <==> p in b
  {
    hide Constructible, Encoded;
    forall p | p in a
      ensures p in b
    {
      WireMember(a, b, p);
    }
    forall p | p in b
      ensures p in a
    {
      WireMember(b, a, p);
    }
  }

  lemma WireMember(a: seq<Placed>, b: seq<Placed>, p: Placed)
    requires AllConstructible(a) && AllConstructible(b) && p in a
    requires forall w :: w in Wire(a) ==> w in Wire(b)
    ensures p in b
  {
    hide Constructible, Encoded;
    var i: nat :| i < |a| && a[i] == p;
    assert Wire(a)[i] in Wire(b);
    var j: nat :| j < |b| && Wire(b)[j] == Wire(a)[i];
    SamePacket(a[i].packet, b[j].packet);
  }

  lemma SamePacket(p: Packet, q: Packet)
    requires Constructible(p) && Constructible(q) && Encoded(p) == Encoded(q)
    ensures p == q
  {
    EncodingIsUnique(Encoded(p), p, q);
  }
}
