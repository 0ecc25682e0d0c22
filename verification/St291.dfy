/** SMPTE ST 291-1 Type 2 packets as ten-bit component words. Masks, shifts and unions of
    disjoint bits are written as remainders, quotients and sums. */
module St291 {
  /** An unsigned sixteen-bit word. */
  type Word = w: int | 0 <= w < 0x1_0000

  const MAX_USER_DATA: nat := 255

  datatype Packet = Packet(did: Word, sdid: Word, userData: seq<Word>)

  datatype PacketError =
    | Type2Did
    | ReservedSdid
    | PayloadTooLong
    | NotTenBit(index: nat)
    | ProtectedCode(index: nat)
    | TruncatedPacket
    | InvalidAdf
    | Parity(index: nat)
    | DataCount(expected: nat)
    | Checksum(sum: Word)

  datatype Result<T> = Ok(value: T) | Err(error: PacketError)

  // ------------------------------------------------------------------ words

  /** How many bits of the number are set. */
  function CountOnes(value: nat): nat {
    if value == 0 then 0 else value % 2 + CountOnes(value / 2)
  }

  /** The low eight bits. */
  function Byte(word: Word): Word { word % 256 }

  /** The byte with its even parity in bit 8 and the inverse in bit 9. */
  function ParityWord(value: Word): Word
    requires value < 256
  {
    var parity := CountOnes(value) % 2;
    value + parity * 256 + (1 - parity) * 512
  }

  /** How many of the lowest `bits` bits are set. */
  ghost function OnesAmong(word: nat, bits: nat): nat {
    if bits == 0 then 0 else word % 2 + OnesAmong(word / 2, bits - 1)
  }

  /** Ten bits of which bit 9 is the inverse of bit 8. */
  ghost predicate TopBitsDiffer(word: Word) {
    word < 1024 && word / 512 == 1 - word / 256 % 2
  }

  /** Bits 0 to 8 hold an even number of ones, and bit 9 is the inverse of bit 8. */
  ghost predicate HasEvenParity(word: Word) {
    TopBitsDiffer(word) && OnesAmong(word, 9) % 2 == 0
  }

  /** A parity word carries its byte, fits ten bits and is never a protected code; its data bits
      and the parity bit together hold an even number of ones, and bit 9 is the inverse of bit 8. */
  lemma ParityCarries(value: Word)
    requires value < 256
    ensures ParityWord(value) % 256 == Byte(ParityWord(value)) == value && 3 < ParityWord(value) < 0x3fc
    ensures HasEvenParity(ParityWord(value))
  {
    hide CountOnes, OnesAmong, Shifted;
    var parity := CountOnes(value) % 2;
    var high := if parity == 0 then 2 else 1;
    assert ParityWord(value) == value + 256 * high;
    ShiftedByEight(1);
    ShiftedByEight(high);
    OnesAbove(value, high, 8, ParityWord(value));
  }

  lemma {:induction false} OnesAbove(low: nat, high: nat, bits: nat, word: nat)
    requires low < Shifted(1, bits) && word == low + Shifted(high, bits)
    ensures OnesAmong(word, bits + 1) == CountOnes(low) + high % 2
    decreases bits
  {
    if bits == 0 {
      assert OnesAmong(word, 1) == word % 2 + OnesAmong(word / 2, 0);
    } else {
      assert word == low + 2 * Shifted(high, bits - 1);
      OnesAbove(low / 2, high, bits - 1, word / 2);
    }
  }

  ghost function Shifted(value: nat, bits: nat): nat {
    if bits == 0 then value else 2 * Shifted(value, bits - 1)
  }

  lemma ShiftedByEight(value: nat)
    ensures Shifted(value, 8) == 256 * value
  {
    assert Shifted(value, 1) == 2 * value;
    assert Shifted(value, 2) == 4 * value;
    assert Shifted(value, 3) == 8 * value;
    assert Shifted(value, 4) == 16 * value;
    assert Shifted(value, 5) == 32 * value;
    assert Shifted(value, 6) == 64 * value;
    assert Shifted(value, 7) == 128 * value;
  }

  /** The parity word is the only word that carries the byte with even parity. */
  lemma ParityIsOnly(word: Word)
    requires HasEvenParity(word)
    ensures word == ParityWord(word % 256)
  {
    hide CountOnes, OnesAmong, Shifted;
    ShiftedByEight(1);
    ShiftedByEight(word / 256);
    OnesAbove(word % 256, word / 256, 8, word);
  }

  lemma ParityOnlyIf(word: Word)
    ensures HasEvenParity(word) <==> word == ParityWord(Byte(word))
  {
    if HasEvenParity(word) {
      ParityIsOnly(word);
    } else {
      ParityCarries(Byte(word));
    }
  }

  function DecodeParity(word: Word, index: nat): (byte: Result<Word>)
    ensures byte.Ok? <==> HasEvenParity(word)
    ensures byte.Ok? ==> byte.value == word % 256
    ensures byte.Err? ==> byte.error == if word > 1023 then NotTenBit(index) else Parity(index)
  {
    ParityCarries(Byte(word));
    ParityOnlyIf(word);
    if word > 0x3ff then Err(NotTenBit(index))
    else if word != ParityWord(Byte(word)) then Err(Parity(index))
    else Ok(Byte(word))
  }

  /** The parity word with the bits counted one by one. */
  method CountParity(value: Word) returns (word: Word)
    requires value < 256
    ensures word == ParityWord(value)
  {
    var count: nat, n: nat := 0, value;
    while n != 0
      invariant count + CountOnes(n) == CountOnes(value)
    {
      count := count + n % 2;
      n := n / 2;
    }
    word := value + count % 2 * 256 + (1 - count % 2) * 512;
  }

  // ------------------------------------------------------------------ checksum

  /** Wrapping sum of all words in sixteen bits. */
  ghost function Sum(words: seq<Word>): Word {
    if |words| == 0 then 0 else (Sum(words[..|words| - 1]) + words[|words| - 1]) % 0x1_0000
  }

  /** The plain sum of all words. */
  ghost function PlainSum(words: seq<Word>): nat {
    if |words| == 0 then 0 else PlainSum(words[..|words| - 1]) + words[|words| - 1]
  }

  lemma {:induction false} SumWraps(words: seq<Word>)
    ensures Sum(words) == PlainSum(words) % 0x1_0000 && Sum(words) % 512 == PlainSum(words) % 512
    decreases |words|
  {
    if |words| > 0 {
      SumWraps(words[..|words| - 1]);
      WrapsOnce(PlainSum(words[..|words| - 1]), words[|words| - 1]);
    }
    LowBits(PlainSum(words));
  }

  lemma WrapsOnce(sum: nat, word: Word)
    ensures (sum % 0x1_0000 + word) % 0x1_0000 == (sum + word) % 0x1_0000
  {}

  lemma LowBits(sum: nat)
    ensures sum % 0x1_0000 % 512 == sum % 512
  {
    var turns := sum / 0x1_0000;
    assert sum == 512 * (128 * turns) + sum % 0x1_0000;
  }

  /** The word carries the nine low bits of the sum of `words`, and the inverse of bit 8 in bit 9. */
  ghost predicate Checks(word: Word, words: seq<Word>) {
    TopBitsDiffer(word) && word % 512 == PlainSum(words) % 512
  }

  lemma ChecksOnly(word: Word, words: seq<Word>)
    ensures Checks(word, words) <==> word == WithInverse(Sum(words))
  {
    hide Sum, PlainSum, TopBitsDiffer;
    SumWraps(words);
    TenthBit(word, Sum(words) % 512);
  }

  /** Nine low bits leave one choice for the tenth. */
  lemma TenthBit(word: Word, low: nat)
    requires low < 512
    ensures TopBitsDiffer(word) && word % 512 == low <==> word == low + (1 - low / 256) * 512
  {
    if low < 256 {
      assert low / 256 == 0;
    } else {
      assert low / 256 == 1;
    }
  }

  /** Nine bits of the sum and the inverse of its top bit. */
  function WithInverse(sum: Word): Word {
    var value := sum % 512;
    value + (1 - value / 256) * 512
  }

  method ChecksumWord(words: seq<Word>) returns (word: Word)
    ensures word == WithInverse(Sum(words)) && Checks(word, words)
  {
    ChecksOnly(WithInverse(Sum(words)), words);
    var sum: Word := 0;
    for i := 0 to |words|
      invariant sum == Sum(words[..i])
    {
      assert words[..i + 1][..i] == words[..i];
      sum := (sum + words[i]) % 0x1_0000;
    }
    assert words[..|words|] == words;
    word := WithInverse(sum);
  }

  /** Adding the nine low bits step by step loses nothing. */
  lemma NineBitsSuffice(sum: Word, word: Word)
    ensures (sum % 512 + word) % 512 == (sum + word) % 0x1_0000 % 512
  {}

  /** No checksum is a protected code. */
  lemma ChecksumNeverProtected(sum: Word)
    ensures 3 < WithInverse(sum) < 0x3fc
  {}

  // ------------------------------------------------------------------ packets

  predicate Unprotected(word: Word) { 3 < word < 0x3fc }

  /** What construction accepts: a Type 2 DID, an SDID that is not reserved, and at most 255 legal user words. */
  ghost predicate Constructible(p: Packet) {
    && p.did < 0x80 && 0 < p.sdid < 256 && |p.userData| <= MAX_USER_DATA
    && forall i :: 0 <= i < |p.userData| ==> Unprotected(p.userData[i])
  }

  /** The first user word that may not be carried, and why. */
  ghost predicate IsPayloadFault(words: seq<Word>, error: PacketError) {
    exists i: nat :: i < |words| && FaultyAt(words, i, error)
  }

  ghost predicate FaultyAt(words: seq<Word>, i: nat, error: PacketError)
    requires i < |words|
  {
    && (forall j :: 0 <= j < i ==> Unprotected(words[j])) && !Unprotected(words[i])
    && error == if words[i] >= 1024 then NotTenBit(i) else ProtectedCode(i)
  }

  /** The first user word that may not be carried. */
  method ValidatePayload(words: seq<Word>) returns (error: Result<()>)
    ensures error.Ok? <==> forall i :: 0 <= i < |words| ==> Unprotected(words[i])
    ensures error.Err? ==> IsPayloadFault(words, error.error)
  {
    for i := 0 to |words|
      invariant forall j :: 0 <= j < i ==> Unprotected(words[j])
    {
      if words[i] > 0x3ff {
        assert FaultyAt(words, i, NotTenBit(i));
        return Err(NotTenBit(i));
      }
      if words[i] <= 0x003 || words[i] >= 0x3fc {
        assert FaultyAt(words, i, ProtectedCode(i));
        return Err(ProtectedCode(i));
      }
    }
    error := Ok(());
  }

  /** What is wrong first: the DID, the SDID, the length, a user word. */
  ghost predicate IsConstructionFault(did: Word, sdid: Word, userData: seq<Word>, error: PacketError) {
    if did >= 128 then error == Type2Did
    else if sdid == 0 then error == ReservedSdid
    else if |userData| > 255 then error == PayloadTooLong
    else IsPayloadFault(userData, error)
  }

  method New(did: Word, sdid: Word, userData: seq<Word>) returns (result: Result<Packet>)
    requires did < 256 && sdid < 256
    ensures result.Ok? <==> Constructible(Packet(did, sdid, userData))
    ensures result.Ok? ==> result.value == Packet(did, sdid, userData)
    ensures result.Err? ==> IsConstructionFault(did, sdid, userData, result.error)
  {
    if did / 128 % 2 != 0 {
      return Err(Type2Did);
    }
    if sdid == 0 {
      return Err(ReservedSdid);
    }
    if |userData| > MAX_USER_DATA {
      return Err(PayloadTooLong);
    }
    var valid := ValidatePayload(userData);
    if valid.Err? {
      return Err(valid.error);
    }
    result := Ok(Packet(did, sdid, userData));
  }

  /** The words from DID to the last user word: what the checksum covers. */
  ghost function Body(p: Packet): (body: seq<Word>)
    requires p.did < 256 && p.sdid < 256 && |p.userData| <= MAX_USER_DATA
  {
    [ParityWord(p.did), ParityWord(p.sdid), ParityWord(|p.userData|)] + p.userData
  }

  /** The complete packet: data flag, header, user words, checksum. */
  ghost function Encoded(p: Packet): (words: seq<Word>)
    requires p.did < 256 && p.sdid < 256 && |p.userData| <= MAX_USER_DATA
  {
    [0, 0x3ff, 0x3ff] + Body(p) + [WithInverse(Sum(Body(p)))]
  }

  method ComponentWords(p: Packet) returns (words: seq<Word>)
    requires Constructible(p)
    ensures words == Encoded(p) && Spells(words, p)
  {
    hide ParityWord, Sum, WithInverse, Checks, Spells;
    words := [0, 0x3ff, 0x3ff] + [ParityWord(p.did)] + [ParityWord(p.sdid)] + [ParityWord(|p.userData|)] + p.userData;
    assert words[3..] == Body(p);
    var checksum := ChecksumWord(words[3..]);
    words := words + [checksum];
    EncodingSpells(p);
  }

  /** The words of a packet, said bit by bit: the data flag; DID, SDID and data count with even parity; the user words;
      a checksum over everything behind the data flag. */
  ghost predicate Spells(words: seq<Word>, p: Packet) {
    && |words| == 7 + |p.userData| && words[0] == 0 && words[1] == 1023 && words[2] == 1023
    && words[3] % 256 == p.did && HasEvenParity(words[3])
    && words[4] % 256 == p.sdid && HasEvenParity(words[4])
    && words[5] % 256 == |p.userData| && HasEvenParity(words[5])
    && words[6..|words| - 1] == p.userData
    && Checks(words[|words| - 1], words[3..|words| - 1])
  }

  lemma EncodingSpells(p: Packet)
    requires Constructible(p)
    ensures Spells(Encoded(p), p)
  {
    hide ParityWord, Sum, WithInverse, Checks, HasEvenParity;
    ParityCarries(p.did);
    ParityCarries(p.sdid);
    ParityCarries(|p.userData|);
    EncodedShape(p);
    ChecksOnly(WithInverse(Sum(Body(p))), Body(p));
    EncodedEnds(p);
  }

  lemma EncodedEnds(p: Packet)
    requires p.did < 256 && p.sdid < 256 && |p.userData| <= MAX_USER_DATA
    ensures var words := Encoded(p);
            && words[0] == 0 && words[1] == words[2] == 1023
            && words[3] == ParityWord(p.did) && words[4] == ParityWord(p.sdid) && words[5] == ParityWord(|p.userData|)
            && words[|words| - 1] == WithInverse(Sum(Body(p)))
  {
    hide ParityWord, Sum, WithInverse;
  }

  /** Well-formed words spell the packet they carry, and whatever spells a packet that can be constructed is well formed. */
  lemma WellFormedSpells(words: seq<Word>)
    ensures WellFormed(words) <==> |words| >= 7 && Constructible(Carried(words)) && Spells(words, Carried(words))
  {
    hide Sum, PlainSum, ParityWord, CountOnes, OnesAmong, WithInverse, TopBitsDiffer;
    if |words| >= 7 {
      ParityOnlyIf(words[3]);
      ParityOnlyIf(words[4]);
      ParityOnlyIf(words[5]);
      ChecksOnly(words[|words| - 1], words[3..|words| - 1]);
      assert forall i :: 6 <= i < |words| - 1 ==> words[i] == Carried(words).userData[i - 6];
      assert forall i :: 0 <= i < |words| - 7 ==> Carried(words).userData[i] == words[i + 6];
    }
  }

  lemma SpelledIsCarried(words: seq<Word>, p: Packet)
    requires Spells(words, p)
    ensures Carried(words) == p
  {}

  /** Words are a packet when they are the encoding of one that can be constructed. */
  ghost predicate IsEncoding(words: seq<Word>, p: Packet) {
    Constructible(p) && words == Encoded(p)
  }

  /** The packet that words of the right shape carry. */
  ghost function Carried(words: seq<Word>): Packet
    requires |words| >= 7
  {
    Packet(Byte(words[3]), Byte(words[4]), words[6..|words| - 1])
  }

  /** Everything that decoding and both wire validators check. */
  ghost predicate WellFormed(words: seq<Word>) {
    && 7 <= |words| <= 262
    && words[0] == 0 && words[1] == 0x3ff && words[2] == 0x3ff
    && words[3] == ParityWord(Byte(words[3])) && Byte(words[3]) < 0x80
    && words[4] == ParityWord(Byte(words[4])) && Byte(words[4]) != 0
    && words[5] == ParityWord(Byte(words[5])) && Byte(words[5]) + 7 == |words|
    && (forall i :: 6 <= i < |words| - 1 ==> Unprotected(words[i]))
    && words[|words| - 1] == WithInverse(Sum(words[3..|words| - 1]))
  }

  /** Every packet that can be constructed encodes to well-formed words, which carry exactly it. */
  lemma EncodingIsWellFormed(p: Packet)
    requires Constructible(p)
    ensures WellFormed(Encoded(p)) && Carried(Encoded(p)) == p
  {
    hide Sum, ParityWord, CountOnes, WithInverse;
    ParityCarries(p.did);
    ParityCarries(p.sdid);
    ParityCarries(|p.userData|);
    EncodedShape(p);
  }

  lemma EncodedShape(p: Packet)
    requires p.did < 256 && p.sdid < 256 && |p.userData| <= MAX_USER_DATA
    ensures var words := Encoded(p);
            && |words| == 7 + |p.userData| && words[3..|words| - 1] == Body(p) && words[6..|words| - 1] == p.userData
            && (forall i :: 6 <= i < |words| - 1 ==> words[i] == p.userData[i - 6])
  {
    hide Sum, ParityWord, CountOnes, WithInverse;
    var words := Encoded(p);
    assert words[3..|words| - 1] == Body(p);
    assert Body(p)[3..] == p.userData;
    assert words[6..|words| - 1] == words[3..|words| - 1][3..];
  }

  /** Well-formed words are the encoding of the packet they carry, and of no other. */
  lemma WellFormedIsEncoding(words: seq<Word>)
    requires WellFormed(words)
    ensures IsEncoding(words, Carried(words))
  {
    var p := Carried(words);
    forall i | 0 <= i < |p.userData|
      ensures Unprotected(p.userData[i])
    {
      assert p.userData[i] == words[6 + i];
    }
    assert words[3..|words| - 1] == Body(p);
    assert words == Encoded(p);
  }

  ghost predicate AllParity(words: seq<Word>) {
    forall i :: 0 <= i < |words| ==> HasEvenParity(words[i])
  }

  /** The first word that is no parity word, and why. */
  ghost predicate IsParityFault(words: seq<Word>, error: PacketError) {
    exists i: nat :: i < |words| && ParityFailsAt(words, i, error)
  }

  ghost predicate ParityFailsAt(words: seq<Word>, i: nat, error: PacketError)
    requires i < |words|
  {
    AllParity(words[..i]) && !HasEvenParity(words[i]) && error == if words[i] >= 1024 then NotTenBit(i) else Parity(i)
  }

  /** What is wrong first with words on the wire. */
  ghost predicate IsDecodingFault(words: seq<Word>, error: PacketError) {
    if |words| < 7 then error == TruncatedPacket
    else if !(words[0] == 0 && words[1] == 1023 && words[2] == 1023) then error == InvalidAdf
    else if !AllParity(words[3..6]) then IsParityFault(words[3..6], error)
    else if |words| != 7 + words[5] % 256 then error == DataCount(7 + words[5] % 256)
    else if exists i :: 6 <= i < |words| - 1 && !Unprotected(words[i]) then IsPayloadFault(words[6..|words| - 1], error)
    else if !Checks(words[|words| - 1], words[3..|words| - 1]) then error.Checksum? && Checks(error.sum, words[3..|words| - 1])
    else error == if words[3] % 256 >= 128 then Type2Did else ReservedSdid
  }

  method DecodeComponentWords(words: seq<Word>) returns (result: Result<Packet>)
    ensures result.Ok? <==> WellFormed(words)
    ensures result.Ok? ==> IsEncoding(words, result.value) && Spells(words, result.value)
    ensures result.Err? ==> IsDecodingFault(words, result.error)
  {
    hide Sum, PlainSum, ParityWord, CountOnes, WithInverse, OnesAmong, TopBitsDiffer;
    if |words| < 7 {
      return Err(TruncatedPacket);
    }
    WellFormedSpells(words);
    if words[0] != 0 || words[1] != 0x3ff || words[2] != 0x3ff {
      return Err(InvalidAdf);
    }
    ParityOnlyIf(words[3]);
    ParityOnlyIf(words[4]);
    ParityOnlyIf(words[5]);
    var did := DecodeParity(words[3], 0);
    if did.Err? {
      assert ParityFailsAt(words[3..6], 0, did.error);
      return Err(did.error);
    }
    var sdid := DecodeParity(words[4], 1);
    if sdid.Err? {
      assert ParityFailsAt(words[3..6], 1, sdid.error);
      return Err(sdid.error);
    }
    var count := DecodeParity(words[5], 2);
    if count.Err? {
      assert ParityFailsAt(words[3..6], 2, count.error);
      return Err(count.error);
    }
    if |words| != 7 + count.value {
      return Err(DataCount(7 + count.value));
    }
    var payload := words[6..|words| - 1];
    var valid := ValidatePayload(payload);
    assert forall i :: 6 <= i < |words| - 1 ==> words[i] == payload[i - 6];
    if valid.Err? {
      return Err(valid.error);
    }
    var checksum := ChecksumWord(words[3..|words| - 1]);
    ChecksOnly(words[|words| - 1], words[3..|words| - 1]);
    if words[|words| - 1] != checksum {
      return Err(Checksum(checksum));
    }
    result := New(did.value, sdid.value, payload);
    if result.Ok? {
      assert WellFormed(words);
      WellFormedIsEncoding(words);
    }
  }

  /** Decoding gives back every packet that can be constructed. */
  method RoundTrip(p: Packet) returns (result: Result<Packet>)
    requires Constructible(p)
    ensures result == Ok(p)
  {
    EncodingIsWellFormed(p);
    var words := ComponentWords(p);
    result := DecodeComponentWords(words);
    EncodingIsUnique(words, p, result.value);
  }

  lemma EncodingIsUnique(words: seq<Word>, p: Packet, q: Packet)
    requires IsEncoding(words, p) && IsEncoding(words, q)
    ensures p == q
  {
    EncodingIsWellFormed(p);
    EncodingIsWellFormed(q);
  }

  // ------------------------------------------------------------------ eight-bit payloads

  /** Bytes with parity are legal user words, whatever they are. */
  method FromBytes(did: Word, sdid: Word, bytes: seq<Word>) returns (result: Result<Packet>)
    requires did < 256 && sdid < 256 && forall i :: 0 <= i < |bytes| ==> bytes[i] < 256
    ensures result.Ok? <==> did < 0x80 && sdid != 0 && |bytes| <= MAX_USER_DATA
    ensures result.Ok? ==> Constructible(result.value) && |result.value.userData| == |bytes|
    ensures result.Ok? ==> result.value.did == did && result.value.sdid == sdid
    ensures result.Ok? ==> forall i :: 0 <= i < |bytes| ==> result.value.userData[i] == ParityWord(bytes[i])
    ensures result.Ok? ==> forall i :: 0 <= i < |bytes| ==> result.value.userData[i] % 256 == bytes[i] && HasEvenParity(result.value.userData[i])
    ensures result.Err? ==> result.error == if did >= 128 then Type2Did else if sdid == 0 then ReservedSdid else PayloadTooLong
  {
    var words := seq(|bytes|, i requires 0 <= i < |bytes| => ParityWord(bytes[i]));
    forall i | 0 <= i < |words|
      ensures Unprotected(words[i]) && words[i] % 256 == bytes[i] && HasEvenParity(words[i])
    {
      ParityCarries(bytes[i]);
    }
    result := New(did, sdid, words);
  }

  /** Reading the payload of such a packet gives the bytes back. */
  method PayloadBytes(p: Packet) returns (result: Result<seq<Word>>)
    ensures result.Ok? <==> AllParity(p.userData)
    ensures result.Ok? ==> |result.value| == |p.userData|
    ensures result.Err? ==> IsParityFault(p.userData, result.error)
    ensures result.Ok? ==> forall i :: 0 <= i < |p.userData| ==> result.value[i] < 256 && ParityWord(result.value[i]) == p.userData[i]
  {
    var bytes: seq<Word> := [];
    for i := 0 to |p.userData|
      invariant |bytes| == i
      invariant forall j :: 0 <= j < i ==> HasEvenParity(p.userData[j])
      invariant forall j :: 0 <= j < i ==> bytes[j] < 256 && ParityWord(bytes[j]) == p.userData[j]
    {
      var byte := DecodeParity(p.userData[i], i);
      ParityOnlyIf(p.userData[i]);
      if byte.Err? {
        assert ParityFailsAt(p.userData, i, byte.error);
        return Err(byte.error);
      }
      bytes := bytes + [byte.value];
    }
    result := Ok(bytes);
  }

  /** The parity word determines its byte. */
  lemma ParityIsInjective(a: Word, b: Word)
    requires a < 256 && b < 256 && ParityWord(a) == ParityWord(b)
    ensures a == b
  {
    ParityCarries(a);
    ParityCarries(b);
  }

  /** Bytes through a packet, its component words and back: every legal payload arrives unchanged. */
  method CarryBytes(did: Word, sdid: Word, bytes: seq<Word>) returns (result: Result<seq<Word>>)
    requires did < 256 && sdid < 256 && forall i :: 0 <= i < |bytes| ==> bytes[i] < 256
    ensures result.Ok? <==> did < 0x80 && sdid != 0 && |bytes| <= MAX_USER_DATA
    ensures result.Ok? ==> result.value == bytes
  {
    hide Constructible, ParityWord;
    var packet := FromBytes(did, sdid, bytes);
    if packet.Err? {
      return Err(packet.error);
    }
    var decoded := RoundTrip(packet.value);
    forall i | 0 <= i < |bytes|
      ensures HasEvenParity(packet.value.userData[i])
    {
      ParityCarries(bytes[i]);
    }
    result := PayloadBytes(decoded.value);
    forall i | 0 <= i < |bytes|
      ensures result.value[i] == bytes[i]
    {
      ParityIsInjective(result.value[i], bytes[i]);
    }
  }

  // ------------------------------------------------------------------ the wire validator

  /** The check that both output devices run on words before they touch a raster. It accepts exactly the
      encodings of packets that can be constructed. */
  method ValidateComponentPacket(words: seq<Word>) returns (ok: bool)
    ensures ok <==> WellFormed(words)
    ensures ok <==> |words| >= 7 && Constructible(Carried(words)) && Spells(words, Carried(words))
  {
    hide Sum, PlainSum, ParityWord, CountOnes, OnesAmong, Spells, Constructible;
    WellFormedSpells(words);
    NothingSummed(words);
    if !(7 <= |words| <= 262 && words[0] == 0 && words[1] == 1023 && words[2] == 1023) {
      return false;
    }
    ok := HeaderAccepted(words);
    if !ok {
      return;
    }
    var sum: Word := 0;
    for n := 3 to |words| - 1
      invariant sum == Sum(words[3..n]) % 512
      invariant forall i :: 6 <= i < n ==> Unprotected(words[i])
    {
      if words[n] > 1023 || (n >= 6 && !(words[n] > 3 && words[n] < 1020)) {
        HeaderFits(words, n);
        return false;
      }
      SumOneMore(words, n);
      NineBitsSuffice(Sum(words[3..n]), words[n]);
      sum := (sum + words[n]) % 512;
    }
    ok := words[|words| - 1] == sum + (1 - sum / 256) * 512;
  }

  lemma SumOneMore(words: seq<Word>, n: nat)
    requires 3 <= n < |words|
    ensures Sum(words[3..n + 1]) == (Sum(words[3..n]) + words[n]) % 0x1_0000
  {
    assert words[3..n + 1][..n - 3] == words[3..n];
  }

  lemma NothingSummed(words: seq<Word>)
    ensures |words| >= 3 ==> Sum(words[3..3]) == 0
  {}

  ghost predicate HeaderWellFormed(words: seq<Word>)
    requires |words| >= 7
  {
    && words[3] == ParityWord(Byte(words[3])) && Byte(words[3]) < 0x80
    && words[4] == ParityWord(Byte(words[4])) && Byte(words[4]) != 0
    && words[5] == ParityWord(Byte(words[5])) && Byte(words[5]) + 7 == |words|
  }

  method HeaderAccepted(words: seq<Word>) returns (ok: bool)
    requires |words| >= 7
    ensures ok <==> HeaderWellFormed(words)
  {
    var did := CountParity(Byte(words[3]));
    var sdid := CountParity(Byte(words[4]));
    var count := CountParity(Byte(words[5]));
    ok := words[3] == did && Byte(words[3]) < 128 && words[4] == sdid && Byte(words[4]) != 0
          && words[5] == count && Byte(words[5]) + 7 == |words|;
  }

  lemma HeaderFits(words: seq<Word>, n: nat)
    requires |words| >= 7 && HeaderWellFormed(words) && 3 <= n < |words|
    ensures n < 6 ==> words[n] <= 1023
  {
    hide ParityWord;
    if n < 6 {
      ParityCarries(Byte(words[n]));
    }
  }
}
