/** Decoding of a captured bit frame. */
module Wiegand {
  import opened Wrappers

  datatype Frame =
    | Digit(d: u8)
    | Cancel
    | Enter
    | Card(facilityCode: u8, cardNumber: u16)
    | Unrecognized(bitCount: nat)

  const FACILITY_BITS: nat := 8
  const CARD_BITS: nat := 16

  function BitValue(bit: bool): u8 { if bit then 1 else 0 }

  /** The fold `(acc << 1) | bit` on 32-bit words: the shift drops the top bit, the or fills the free low bit. */
  function BitsToU32(bits: seq<bool>): u32 {
    if bits == [] then 0
    else 2 * BitsToU32(bits[..|bits| - 1]) % 0x1_0000_0000 + BitValue(bits[|bits| - 1])
  }

  function DecodeNibble(bits: seq<bool>): Frame {
    var value := BitsToU32(bits);
    if value <= 9 then Digit(value)
    else if value == 10 then Cancel
    else if value == 11 then Enter
    else Unrecognized(4)
  }

  function DecodeCard(bits: seq<bool>): Frame
    requires |bits| == 26
  {
    Card(BitsToU32(bits[1..9]) % 0x100, BitsToU32(bits[9..25]) % 0x1_0000)
  }

  function DecodeFrame(bits: seq<bool>): Frame {
    if |bits| == 4 then DecodeNibble(bits)
    else if |bits| == 26 then DecodeCard(bits)
    else Unrecognized(|bits|)
  }

  // ---------------------------------------------------------------- place value

  function Pow2(n: nat): nat {
    if n == 0 then 1 else 2 * Pow2(n - 1)
  }

  /** MSB-first binary value, most significant bit peeled off first. */
  function PlaceValue(bits: seq<bool>): nat {
    if bits == [] then 0 else BitValue(bits[0]) * Pow2(|bits| - 1) + PlaceValue(bits[1..])
  }

  /** The n low bits of v, most significant first. */
  function ToBits(v: nat, n: nat): seq<bool> {
    if n == 0 then [] else ToBits(v / 2, n - 1) + [v % 2 == 1]
  }

  lemma {:induction false} PlaceValueAppend(bits: seq<bool>, bit: bool)
    ensures PlaceValue(bits + [bit]) == 2 * PlaceValue(bits) + BitValue(bit)
  {
    if bits == [] {
      assert PlaceValue([bit]) == BitValue(bit) * Pow2(0) + PlaceValue([bit][1..]);
    } else {
      PlaceValueAppend(bits[1..], bit);
      assert (bits + [bit])[1..] == bits[1..] + [bit];
    }
  }

  lemma {:induction false} PlaceValueBound(bits: seq<bool>)
    ensures PlaceValue(bits) < Pow2(|bits|)
  {
    if bits != [] {
      PlaceValueBound(bits[1..]);
    }
  }

  lemma DoubleMod(p: nat, bit: bool)
    ensures 2 * (p % 0x1_0000_0000) % 0x1_0000_0000 + BitValue(bit) == (2 * p + BitValue(bit)) % 0x1_0000_0000
  {
    var q, r := p / 0x1_0000_0000, p % 0x1_0000_0000;
    assert 2 * p == 0x1_0000_0000 * (2 * q) + 2 * r;
    if r < 0x8000_0000 {
      assert (2 * p + BitValue(bit)) % 0x1_0000_0000 == 2 * r + BitValue(bit);
    } else {
      assert (2 * p + BitValue(bit)) % 0x1_0000_0000 == 2 * r + BitValue(bit) - 0x1_0000_0000;
    }
  }

  /** The fold is the place value, modulo the word size, for bit strings of any length. */
  lemma {:induction false} FoldIsPlaceValue(bits: seq<bool>)
    ensures BitsToU32(bits) == PlaceValue(bits) % 0x1_0000_0000
  {
    if bits != [] {
      var init, last := bits[..|bits| - 1], bits[|bits| - 1];
      FoldIsPlaceValue(init);
      PlaceValueAppend(init, last);
      DoubleMod(PlaceValue(init), last);
      assert bits == init + [last];
    }
  }

  lemma {:induction false} Pow2Monotone(m: nat, n: nat)
    requires m <= n
    ensures Pow2(m) <= Pow2(n)
    decreases n
  {
    if m < n {
      Pow2Monotone(m, n - 1);
    }
  }

  lemma Pow2Values()
    ensures Pow2(4) == 16 && Pow2(8) == 0x100 && Pow2(16) == 0x1_0000 && Pow2(31) == 0x8000_0000 &&
      Pow2(32) == 0x1_0000_0000
  {
    assert Pow2(8) == 16 * Pow2(4);
    assert Pow2(12) == 16 * Pow2(8);
    assert Pow2(16) == 16 * Pow2(12);
    assert Pow2(20) == 16 * Pow2(16);
    assert Pow2(24) == 16 * Pow2(20);
    assert Pow2(28) == 16 * Pow2(24);
    assert Pow2(32) == 16 * Pow2(28);
  }

  lemma Pow2Small(n: nat)
    requires n <= 32
    ensures Pow2(n) <= 0x1_0000_0000
    ensures n <= 31 ==> Pow2(n) <= 0x8000_0000
  {
    Pow2Values();
    Pow2Monotone(n, 32);
    if n <= 31 {
      Pow2Monotone(n, 31);
    }
  }

  lemma SmallModulo(x: nat)
    requires x < 0x1_0000_0000
    ensures x % 0x1_0000_0000 == x
  {}

  /** Up to 32 bits nothing is lost: the fold stays below 2^n. */
  lemma FoldBound(bits: seq<bool>)
    requires |bits| <= 32
    ensures BitsToU32(bits) == PlaceValue(bits) < Pow2(|bits|)
  {
    FoldIsPlaceValue(bits);
    PlaceValueBound(bits);
    Pow2Small(|bits|);
    SmallModulo(PlaceValue(bits));
  }

  /** While no bit is lost, one fold step doubles and adds. */
  lemma FoldStep(bits: seq<bool>)
    requires 0 < |bits| <= 32
    ensures BitsToU32(bits) == 2 * BitsToU32(bits[..|bits| - 1]) + BitValue(bits[|bits| - 1])
  {
    var init := bits[..|bits| - 1];
    FoldBound(init);
    Pow2Small(|init|);
    SmallModulo(2 * BitsToU32(init));
  }

  lemma {:induction false} ToBitsLength(v: nat, n: nat)
    ensures |ToBits(v, n)| == n
  {
    if n > 0 {
      ToBitsLength(v / 2, n - 1);
    }
  }

  /** Folding the encoding of v gives v back ... */
  lemma {:induction false} FoldOfToBits(v: nat, n: nat)
    requires n <= 32 && v < Pow2(n)
    ensures BitsToU32(ToBits(v, n)) == v
  {
    if n > 0 {
      FoldOfToBits(v / 2, n - 1);
      ToBitsLength(v / 2, n - 1);
      var bits := ToBits(v, n);
      assert bits[..|bits| - 1] == ToBits(v / 2, n - 1);
      FoldStep(bits);
    }
  }

  /**
   * ... and every bit string of up to 32 bits is the encoding of its fold, so the fold is a bijection
   * onto [0, 2^n).
   */
  lemma {:induction false} ToBitsOfFold(bits: seq<bool>)
    requires |bits| <= 32
    ensures ToBits(BitsToU32(bits), |bits|) == bits
  {
    if bits != [] {
      var init, last := bits[..|bits| - 1], bits[|bits| - 1];
      ToBitsOfFold(init);
      FoldStep(bits);
      assert BitsToU32(bits) / 2 == BitsToU32(init);
      assert bits == init + [last];
    }
  }

  /** A card read: parity bit, 8 facility bits, 16 card bits, parity bit; parity is not checked. */
  function CardBits(evenParity: bool, facilityCode: u8, cardNumber: u16, oddParity: bool): seq<bool> {
    [evenParity] + ToBits(facilityCode, FACILITY_BITS) + ToBits(cardNumber, CARD_BITS) + [oddParity]
  }

  lemma CardDecodes(p: bool, facility: seq<bool>, card: seq<bool>, q: bool)
    requires |facility| == 8 && |card| == 16
    requires BitsToU32(facility) < 0x100 && BitsToU32(card) < 0x1_0000
    ensures DecodeFrame([p] + facility + card + [q]) == Card(BitsToU32(facility), BitsToU32(card))
  {
    var bits := [p] + facility + card + [q];
    assert bits[1..9] == facility;
    assert bits[9..25] == card;
  }

  /** Encoding a number in n bits and folding it back, in the form the card fields need. */
  lemma FieldRoundTrip(v: nat, n: nat)
    requires n <= 32 && v < Pow2(n)
    ensures |ToBits(v, n)| == n && BitsToU32(ToBits(v, n)) == v
  {
    ToBitsLength(v, n);
    FoldOfToBits(v, n);
  }

  lemma CardRoundTrip(evenParity: bool, facilityCode: u8, cardNumber: u16, oddParity: bool)
    ensures DecodeFrame(CardBits(evenParity, facilityCode, cardNumber, oddParity)) == Card(facilityCode, cardNumber)
  {
    Pow2Values();
    var n, m := FACILITY_BITS, CARD_BITS;
    FieldRoundTrip(facilityCode, n);
    FieldRoundTrip(cardNumber, m);
    CardDecodes(evenParity, ToBits(facilityCode, n), ToBits(cardNumber, m), oddParity);
  }

  /** A burst is a key iff it has four bits, and which key is its place value; 12 to 15 are noise. */
  lemma KeyMeaning(bits: seq<bool>)
    ensures DecodeFrame(bits).Digit? <==> |bits| == 4 && PlaceValue(bits) <= 9
    ensures DecodeFrame(bits).Digit? ==> DecodeFrame(bits).d == PlaceValue(bits)
    ensures DecodeFrame(bits).Cancel? <==> |bits| == 4 && PlaceValue(bits) == 10
    ensures DecodeFrame(bits).Enter? <==> |bits| == 4 && PlaceValue(bits) == 11
  {
    if |bits| == 4 {
      FoldBound(bits);
    }
  }

  /** Everything else is noise, reported with its own length: no key value above 11, no other length. */
  lemma NoiseMeaning(bits: seq<bool>, n: nat)
    ensures DecodeFrame(bits) == Unrecognized(n) <==>
      n == |bits| && |bits| != 26 && (|bits| == 4 ==> PlaceValue(bits) >= 12)
  {
    if |bits| == 4 {
      FoldBound(bits);
    }
  }

  /** Only a 26-bit burst is a card, with its two fields at place value: the casts lose nothing. */
  lemma CardMeaning(bits: seq<bool>)
    ensures DecodeFrame(bits).Card? <==> |bits| == 26
    ensures |bits| == 26 ==>
      DecodeFrame(bits).facilityCode == PlaceValue(bits[1..9]) &&
        DecodeFrame(bits).cardNumber == PlaceValue(bits[9..25])
  {
    if |bits| == 26 {
      FoldBound(bits[1..9]);
      FoldBound(bits[9..25]);
      Pow2Values();
    }
  }
}
