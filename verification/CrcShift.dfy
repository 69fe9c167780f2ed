/**
  The shift register of CRC16-CCITT, x^16 + x^12 + x^5 + 1, most significant bit
  first. Everything rests on its being linear: the difference of two registers
  moves as a register fed with the difference of the two inputs.
*/
module CrcShift {
  const POLY: bv16 := 0x1021

  predicate Top(crc: bv16) { crc & 0x8000 != 0 }

  // The operations of the register, named so that proofs can treat them as the
  // operations of a group.

  function Xor(x: bv16, y: bv16): bv16 { x ^ y }

  function Shl(x: bv16): bv16 { x << 1 }

  /** One bit enters: the register shifts left, and the polynomial is subtracted
      when the bit that leaves differs from the one that enters. */
  function Feed(crc: bv16, bit: bool): bv16 {
    if Top(crc) != bit then Xor(Shl(crc), POLY) else Shl(crc)
  }

  function Subtracted(on: bool): bv16 { if on then POLY else 0 }

  lemma XorComm(x: bv16, y: bv16)
    ensures Xor(x, y) == Xor(y, x)
  {
  }

  lemma XorAssoc(x: bv16, y: bv16, z: bv16)
    ensures Xor(Xor(x, y), z) == Xor(x, Xor(y, z))
  {
  }

  lemma XorZero(x: bv16)
    ensures Xor(x, 0) == x && Xor(x, x) == 0
  {
  }

  lemma XorDiffers(x: bv16, y: bv16)
    requires x != y
    ensures Xor(x, y) != 0
  {
  }

  lemma XorRegroup(a: bv16, b: bv16, c: bv16, d: bv16)
    ensures Xor(Xor(a, b), Xor(c, d)) == Xor(Xor(a, c), Xor(b, d))
  {
    hide *;
    XorAssoc(a, b, Xor(c, d));
    XorAssoc(b, c, d);
    XorComm(b, c);
    XorAssoc(c, b, d);
    XorAssoc(a, c, Xor(b, d));
  }

  lemma FeedIs(crc: bv16, bit: bool)
    ensures Feed(crc, bit) == Xor(Shl(crc), Subtracted(Top(crc) != bit))
  {
    hide Xor, Shl, Top;
    XorZero(Shl(crc));
  }

  lemma ShlXor(x: bv16, y: bv16)
    ensures Shl(Xor(x, y)) == Xor(Shl(x), Shl(y))
  {
  }

  lemma SubtractedXor(p: bool, q: bool)
    ensures Xor(Subtracted(p), Subtracted(q)) == Subtracted(p != q)
  {
  }

  lemma TopXor(x: bv16, y: bv16)
    ensures Top(Xor(x, y)) == (Top(x) != Top(y))
  {
  }

  lemma FeedLinear(c: bv16, d: bv16, b: bool, e: bool)
    ensures Xor(Feed(c, b), Feed(d, e)) == Feed(Xor(c, d), b != e)
  {
    hide *;
    FeedIs(c, b);
    FeedIs(d, e);
    FeedIs(Xor(c, d), b != e);
    XorRegroup(Shl(c), Subtracted(Top(c) != b), Shl(d), Subtracted(Top(d) != e));
    SubtractedXor(Top(c) != b, Top(d) != e);
    ShlXor(c, d);
    TopXor(c, d);
  }

  lemma DifferenceSurvives(d: bv16)
    requires d != 0
    ensures Feed(d, false) != 0
  {
  }

  /** Different states never meet again on equal bits. */
  lemma FeedInjective(c: bv16, d: bv16, bit: bool)
    requires c != d
    ensures Feed(c, bit) != Feed(d, bit)
  {
    hide *;
    FeedLinear(c, d, bit, bit);
    if Feed(c, bit) == Feed(d, bit) {
      XorZero(Feed(c, bit));
      XorDiffers(c, d);
      DifferenceSurvives(Xor(c, d));
    }
  }

  /** The lowest j + 1 bits. */
  function Ones(j: nat): bv16
    requires j < 16
  {
    match j
    case 0 => 0x0001 case 1 => 0x0003 case 2 => 0x0007 case 3 => 0x000f
    case 4 => 0x001f case 5 => 0x003f case 6 => 0x007f case 7 => 0x00ff
    case 8 => 0x01ff case 9 => 0x03ff case 10 => 0x07ff case 11 => 0x0fff
    case 12 => 0x1fff case 13 => 0x3fff case 14 => 0x7fff case 15 => 0xffff
  }

  predicate Low(d: bv16, j: nat)
    requires j < 16
  {
    d & Ones(j) != 0
  }

  /** Two registers that differ in one of the lowest j + 1 bits. */
  predicate Apart(c: bv16, d: bv16, j: nat)
    requires j < 16
  {
    Low(Xor(c, d), j)
  }

  lemma ApartDiffers(c: bv16, j: nat)
    requires j < 16
    ensures !Apart(c, c, j)
  {
    hide Xor, Ones;
    XorZero(c);
  }

  /** The polynomial is odd: a difference in the lowest bits leaves one there, one
      bit further up at most. */
  lemma LowFed(d: bv16, bit: bool, j: nat)
    requires j < 15 && Low(d, j)
    ensures Low(Feed(d, bit), j + 1)
  {
  }

  lemma FeedApart(c: bv16, d: bv16, b: bool, e: bool, j: nat)
    requires j < 15 && Apart(c, d, j)
    ensures Apart(Feed(c, b), Feed(d, e), j + 1)
  {
    hide Feed, Xor, Low;
    FeedLinear(c, d, b, e);
    LowFed(Xor(c, d), b != e, j);
  }

  /** From one state, different bits lead to states that differ in the last bit. */
  lemma FirstDifference(crc: bv16, b: bool, e: bool)
    requires b != e
    ensures Apart(Feed(crc, b), Feed(crc, e), 0)
  {
    hide Feed, Xor, Low;
    FeedLinear(crc, crc, b, e);
    XorZero(crc);
    FedOnce();
  }

  lemma FedOnce()
    ensures Low(Feed(0, true), 0)
  {
  }

  /** A register fed with the bit that leaves it only shifts. */
  lemma FeedOwn(crc: bv16, bit: bool)
    requires bit == Top(crc)
    ensures Feed(crc, bit) == Shl(crc)
  {
  }

  /** Eight bits, as a closed form: each bit that leaves comes back as the
      polynomial, which fits until the top half has left. */
  function Closed(i: bv16): bv16 {
    var t := i ^ (i >> 4);
    (t << 12) ^ (t << 5) ^ t
  }

  function High(crc: bv16): bv8 { (crc >> 8) as bv8 }

  function ShlByte(crc: bv16): bv16 { crc << 8 }

  function Xor8(x: bv8, y: bv8): bv8 { x ^ y }

  predicate On(b: bv8, mask: bv8) { b & mask != 0 }

  function Feed4(crc: bv16, b3: bool, b2: bool, b1: bool, b0: bool): bv16 {
    Feed(Feed(Feed(Feed(crc, b3), b2), b1), b0)
  }

  /** A byte enters, most significant bit first. */
  function Feed8(crc: bv16, b: bv8): bv16 {
    Feed4(Feed4(crc, On(b, 0x80), On(b, 0x40), On(b, 0x20), On(b, 0x10)),
      On(b, 0x08), On(b, 0x04), On(b, 0x02), On(b, 0x01))
  }

  lemma FeedFresh(b: bv8)
    ensures Feed8(0, b) == Closed(b as bv16)
  {
  }

  lemma OnXor(b: bv8, h: bv8)
    ensures On(Xor8(b, h), 0x80) == (On(b, 0x80) != On(h, 0x80))
    ensures On(Xor8(b, h), 0x40) == (On(b, 0x40) != On(h, 0x40))
    ensures On(Xor8(b, h), 0x20) == (On(b, 0x20) != On(h, 0x20))
    ensures On(Xor8(b, h), 0x10) == (On(b, 0x10) != On(h, 0x10))
    ensures On(Xor8(b, h), 0x08) == (On(b, 0x08) != On(h, 0x08))
    ensures On(Xor8(b, h), 0x04) == (On(b, 0x04) != On(h, 0x04))
    ensures On(Xor8(b, h), 0x02) == (On(b, 0x02) != On(h, 0x02))
    ensures On(Xor8(b, h), 0x01) == (On(b, 0x01) != On(h, 0x01))
  {
  }

  lemma Feed4Linear(c: bv16, d: bv16, b3: bool, b2: bool, b1: bool, b0: bool, e3: bool, e2: bool, e1: bool, e0: bool)
    ensures Xor(Feed4(c, b3, b2, b1, b0), Feed4(d, e3, e2, e1, e0))
            == Feed4(Xor(c, d), b3 != e3, b2 != e2, b1 != e1, b0 != e0)
  {
    hide Feed, Xor;
    FeedLinear(c, d, b3, e3);
    var c1, d1 := Feed(c, b3), Feed(d, e3);
    FeedLinear(c1, d1, b2, e2);
    var c2, d2 := Feed(c1, b2), Feed(d1, e2);
    FeedLinear(c2, d2, b1, e1);
    var c3, d3 := Feed(c2, b1), Feed(d2, e1);
    FeedLinear(c3, d3, b0, e0);
  }

  lemma Feed8Linear(c: bv16, d: bv16, b: bv8, h: bv8)
    ensures Xor(Feed8(c, b), Feed8(d, h)) == Feed8(Xor(c, d), Xor8(b, h))
  {
    hide Feed4, On, Xor, Xor8;
    var b7, b6, b5, b4 := On(b, 0x80), On(b, 0x40), On(b, 0x20), On(b, 0x10);
    var b3, b2, b1, b0 := On(b, 0x08), On(b, 0x04), On(b, 0x02), On(b, 0x01);
    var h7, h6, h5, h4 := On(h, 0x80), On(h, 0x40), On(h, 0x20), On(h, 0x10);
    var h3, h2, h1, h0 := On(h, 0x08), On(h, 0x04), On(h, 0x02), On(h, 0x01);
    var c4, d4 := Feed4(c, b7, b6, b5, b4), Feed4(d, h7, h6, h5, h4);
    Feed4Linear(c, d, b7, b6, b5, b4, h7, h6, h5, h4);
    Feed4Linear(c4, d4, b3, b2, b1, b0, h3, h2, h1, h0);
    OnXor(b, h);
    assert Feed8(c, b) == Feed4(c4, b3, b2, b1, b0) && Feed8(d, h) == Feed4(d4, h3, h2, h1, h0);
    var x := Xor8(b, h);
    assert Feed8(Xor(c, d), x)
        == Feed4(Feed4(Xor(c, d), b7 != h7, b6 != h6, b5 != h5, b4 != h4), b3 != h3, b2 != h2, b1 != h1, b0 != h0);
  }

  lemma ShlTops(c: bv16, c1: bv16, c2: bv16, c3: bv16, c4: bv16, c5: bv16, c6: bv16, c7: bv16)
    requires c1 == Shl(c) && c2 == Shl(c1) && c3 == Shl(c2) && c4 == Shl(c3)
    requires c5 == Shl(c4) && c6 == Shl(c5) && c7 == Shl(c6)
    ensures var b := High(c);
            && On(b, 0x80) == Top(c) && On(b, 0x40) == Top(c1) && On(b, 0x20) == Top(c2) && On(b, 0x10) == Top(c3)
            && On(b, 0x08) == Top(c4) && On(b, 0x04) == Top(c5) && On(b, 0x02) == Top(c6) && On(b, 0x01) == Top(c7)
    ensures Shl(c7) == ShlByte(c)
  {
  }

  /** The top half of the register, fed back into it, shifts out the whole half. */
  lemma FeedTopHalf(c: bv16)
    ensures Feed8(c, High(c)) == ShlByte(c)
  {
    hide Feed, Top, On, Shl, ShlByte, High;
    var c1 := Shl(c);
    var c2 := Shl(c1);
    var c3 := Shl(c2);
    var c4 := Shl(c3);
    var c5 := Shl(c4);
    var c6 := Shl(c5);
    var c7 := Shl(c6);
    ShlTops(c, c1, c2, c3, c4, c5, c6, c7);
    FeedOwn(c, Top(c));
    FeedOwn(c1, Top(c1));
    FeedOwn(c2, Top(c2));
    FeedOwn(c3, Top(c3));
    FeedOwn(c4, Top(c4));
    FeedOwn(c5, Top(c5));
    FeedOwn(c6, Top(c6));
    FeedOwn(c7, Top(c7));
  }
}
