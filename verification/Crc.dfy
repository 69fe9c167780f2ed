/**
  The table-driven CRC16-CCITT, shown equal to the bit-serial shift register, and
  the error detection that follows.
*/
module Crc {
  import opened CrcShift
  import opened CrcTable

  function Wide(b: bv8): bv16 { b as bv16 }

  function Index(crc: bv16, b: bv8): bv16 { (crc >> 8) ^ Wide(b) }

  /** The loop of crc16_ccitt: one table look-up per byte. */
  function TableStep(crc: bv16, b: bv8): bv16 {
    Xor(Crc16Tab(Index(crc, b)), ShlByte(crc))
  }

  // -- The bit-serial checksum --------------------------------------------------

  function CrcBits(bits: seq<bool>, crc: bv16): bv16 {
    if bits == [] then crc else CrcBits(bits[1..], Feed(crc, bits[0]))
  }

  function ByteBits(b: bv8): (r: seq<bool>)
    ensures |r| == 8
  {
    [On(b, 0x80), On(b, 0x40), On(b, 0x20), On(b, 0x10), On(b, 0x08), On(b, 0x04), On(b, 0x02), On(b, 0x01)]
  }

  /** A message as bits, most significant bit of each byte first. */
  function Bits(m: seq<bv8>): (r: seq<bool>)
    ensures |r| == 8 * |m|
  {
    if m == [] then [] else ByteBits(m[0]) + Bits(m[1..])
  }

  /** The CRC of a message by the shift register. */
  function Crc(m: seq<bv8>, crc: bv16): bv16 { CrcBits(Bits(m), crc) }

  // -- The table is right ------------------------------------------------------

  lemma CrcBitsEight(b: bv8, crc: bv16)
    ensures CrcBits(ByteBits(b), crc) == Feed8(crc, b)
  {
    hide Feed, On;
    var s := ByteBits(b);
    assert s[..4] + s[4..] == s;
    CrcBitsSplit(s[..4], s[4..], crc);
    CrcBitsFour(s[..4], crc);
    CrcBitsFour(s[4..], CrcBits(s[..4], crc));
  }

  lemma CrcBitsFour(s: seq<bool>, crc: bv16)
    requires |s| == 4
    ensures CrcBits(s, crc) == Feed(Feed(Feed(Feed(crc, s[0]), s[1]), s[2]), s[3])
  {
    hide Feed;
    assert s[1..][1..] == s[2..] && s[2..][1..] == s[3..] && s[3..][1..] == [];
    var c1 := Feed(crc, s[0]);
    var c2 := Feed(c1, s[1]);
    var c3 := Feed(c2, s[2]);
    assert CrcBits(s, crc) == CrcBits(s[1..], c1) == CrcBits(s[2..], c2);
    assert CrcBits(s[2..], c2) == CrcBits(s[3..], c3) == CrcBits([], Feed(c3, s[3]));
  }

  lemma IndexIs(crc: bv16, b: bv8)
    ensures Index(crc, b) == Wide(Xor8(b, High(crc))) < 0x100
  {
  }

  /** Eight bits and one look-up agree: the byte is its difference from the top half
      of the register, which looks up the table, and that half itself, which the
      register shifts out. */
  lemma FeedByte(crc: bv16, b: bv8)
    ensures CrcBits(ByteBits(b), crc) == TableStep(crc, b)
  {
    hide *;
    var h := High(crc);
    var i := Xor8(b, h);
    CrcBitsEight(b, crc);
    Feed8Linear(0, crc, i, h);
    Xor8Back(b, h);
    XorComm(0, crc);
    XorZero(crc);
    FeedFresh(i);
    FeedTopHalf(crc);
    IndexIs(crc, b);
    TableClosed(Wide(i));
    TableStepIs(crc, b);
    ClosedOfByte(i);
  }

  lemma Xor8Back(b: bv8, h: bv8)
    ensures Xor8(Xor8(b, h), h) == b
  {
  }

  lemma ClosedOfByte(b: bv8)
    ensures Closed(b as bv16) == Closed(Wide(b))
  {
    hide Closed;
  }

  lemma TableStepIs(crc: bv16, b: bv8)
    ensures TableStep(crc, b) == Xor(Crc16Tab(Index(crc, b)), ShlByte(crc))
  {
    hide Xor, Crc16Tab, Index, ShlByte;
  }

  lemma {:induction false} CrcBitsSplit(x: seq<bool>, y: seq<bool>, crc: bv16)
    ensures CrcBits(x + y, crc) == CrcBits(y, CrcBits(x, crc))
  {
    if x == [] {
      assert x + y == y;
    } else {
      assert (x + y)[1..] == x[1..] + y;
      CrcBitsSplit(x[1..], y, Feed(crc, x[0]));
    }
  }

  lemma {:induction false} BitsSplit(m: seq<bv8>, n: seq<bv8>)
    ensures Bits(m + n) == Bits(m) + Bits(n)
  {
    if m == [] {
      assert m + n == n;
    } else {
      assert (m + n)[1..] == m[1..] + n;
      BitsSplit(m[1..], n);
    }
  }

  /** A checksum can be continued where it was left. */
  lemma CrcSplit(m: seq<bv8>, n: seq<bv8>, crc: bv16)
    ensures Crc(m + n, crc) == Crc(n, Crc(m, crc))
  {
    BitsSplit(m, n);
    CrcBitsSplit(Bits(m), Bits(n), crc);
  }

  lemma CrcOne(b: bv8, crc: bv16)
    ensures Crc([b], crc) == TableStep(crc, b)
  {
    assert Bits([b]) == ByteBits(b);
    FeedByte(crc, b);
  }

  lemma CrcOfEmpty(crc: bv16)
    ensures Crc([], crc) == crc
  {
  }

  /** crc16_ccitt: for every message and initial value the table computes the
      shift register. */
  method Crc16Ccitt(buf: seq<bv8>, init: bv16) returns (crc: bv16)
    ensures crc == Crc(buf, init)
  {
    hide *;
    crc := init;
    CrcOfEmpty(init);
    for i := 0 to |buf|
      invariant crc == Crc(buf[..i], init)
    {
      CrcSplit(buf[..i], [buf[i]], init);
      CrcOne(buf[i], crc);
      assert buf[..i] + [buf[i]] == buf[..i + 1];
      TableStepIs(crc, buf[i]);
      crc := Xor(Crc16Tab(Index(crc, buf[i])), ShlByte(crc));
    }
    assert buf[..|buf|] == buf;
  }

  function Low8(crc: bv16): bv8 { (crc & 0xff) as bv8 }

  /** Over a message followed by its own checksum, high byte first, it is zero. */
  lemma CrcOfOwnChecksum(m: seq<bv8>, init: bv16)
    ensures var crc := Crc(m, init);
            Crc(m + [High(crc), Low8(crc)], init) == 0
  {
    var crc := Crc(m, init);
    CrcSplit(m, [High(crc), Low8(crc)], init);
    assert [High(crc), Low8(crc)] == [High(crc)] + [Low8(crc)];
    CrcSplit([High(crc)], [Low8(crc)], crc);
    CrcOne(High(crc), crc);
    CrcOne(Low8(crc), TableStep(crc, High(crc)));
    OwnBytes(crc);
  }

  lemma OwnBytes(crc: bv16)
    ensures TableStep(TableStep(crc, High(crc)), Low8(crc)) == 0
  {
    hide Crc16Tab, Xor;
    assert Index(crc, High(crc)) == 0;
    TableOfZero();
    XorComm(0, ShlByte(crc));
    XorZero(ShlByte(crc));
    var next := ShlByte(crc);
    assert Index(next, Low8(crc)) == 0 && ShlByte(next) == 0;
    XorZero(0);
  }

  lemma TableOfZero()
    ensures Crc16Tab(0) == 0
  {
  }

  // -- Error detection ---------------------------------------------------------

  lemma {:induction false} CrcBitsInjective(bits: seq<bool>, c1: bv16, c2: bv16)
    requires c1 != c2
    ensures CrcBits(bits, c1) != CrcBits(bits, c2)
  {
    hide Feed;
    if bits == [] {
    } else {
      FeedInjective(c1, c2, bits[0]);
      CrcBitsInjective(bits[1..], Feed(c1, bits[0]), Feed(c2, bits[0]));
    }
  }

  /** Fewer than sixteen more bits cannot bring together two registers that differ
      low enough. */
  lemma {:induction false} WindowSeparates(x: seq<bool>, y: seq<bool>, c: bv16, d: bv16, j: nat)
    requires |x| == |y| && j + |x| < 16
    requires Apart(c, d, j)
    ensures CrcBits(x, c) != CrcBits(y, d)
    decreases |x|
  {
    hide Feed, Apart;
    if x == [] {
      ApartDiffers(c, j);
    } else {
      FeedApart(c, d, x[0], y[0], j);
      WindowSeparates(x[1..], y[1..], Feed(c, x[0]), Feed(d, y[0]), j + 1);
    }
  }

  /** Bit strings of one length that differ only within 16 consecutive bits. */
  ghost predicate BurstApart(x: seq<bool>, y: seq<bool>, s: int) {
    && |x| == |y| && x != y
    && forall i :: 0 <= i < |x| && !(s <= i < s + 16) ==> x[i] == y[i]
  }

  /** The first difference sets the states apart; the rest of the burst is too
      short to bring them together, and what follows it cannot. */
  lemma {:induction false} BurstDetected(x: seq<bool>, y: seq<bool>, s: int, crc: bv16)
    requires BurstApart(x, y, s)
    ensures CrcBits(x, crc) != CrcBits(y, crc)
    decreases |x|
  {
    hide Feed, Apart;
    if x[0] == y[0] {
      assert x[1..] != y[1..] by {
        assert x == [x[0]] + x[1..] && y == [y[0]] + y[1..];
      }
      BurstDetected(x[1..], y[1..], s - 1, Feed(crc, x[0]));
    } else {
      var e := if s + 16 <= |x| then s + 16 else |x|;
      assert s <= 0 < e;
      var c1, c2 := Feed(crc, x[0]), Feed(crc, y[0]);
      FirstDifference(crc, x[0], y[0]);
      var x1, y1 := x[1..e], y[1..e];
      WindowSeparates(x1, y1, c1, c2, 0);
      assert x[e..] == y[e..];
      CrcBitsInjective(x[e..], CrcBits(x1, c1), CrcBits(y1, c2));
      assert x[1..] == x1 + x[e..] && y[1..] == y1 + y[e..];
      CrcBitsSplit(x1, x[e..], c1);
      CrcBitsSplit(y1, y[e..], c2);
    }
  }

  lemma ByteBitsInjective(a: bv8, b: bv8)
    requires ByteBits(a) == ByteBits(b)
    ensures a == b
  {
    assert forall i :: 0 <= i < 8 ==> ByteBits(a)[i] == ByteBits(b)[i];
    var d := a ^ b;
    assert d & 0x80 == 0 && d & 0x40 == 0 && d & 0x20 == 0 && d & 0x10 == 0;
    assert d & 0x08 == 0 && d & 0x04 == 0 && d & 0x02 == 0 && d & 0x01 == 0;
  }

  lemma {:induction false} BitsInjective(m: seq<bv8>, n: seq<bv8>)
    requires |m| == |n| && Bits(m) == Bits(n)
    ensures m == n
  {
    if m == [] {
    } else {
      assert ByteBits(m[0]) == Bits(m)[..8] == Bits(n)[..8] == ByteBits(n[0]);
      assert Bits(m[1..]) == Bits(m)[8..] == Bits(n)[8..] == Bits(n[1..]);
      ByteBitsInjective(m[0], n[0]);
      BitsInjective(m[1..], n[1..]);
      assert m == [m[0]] + m[1..] && n == [n[0]] + n[1..];
    }
  }

  /** Two messages of one length that differ only within 16 consecutive bits
      never have the same checksum, whatever the initial value. */
  lemma BurstNeverMissed(m: seq<bv8>, n: seq<bv8>, s: int, init: bv16)
    requires |m| == |n| && m != n
    requires forall i :: 0 <= i < 8 * |m| && !(s <= i < s + 16) ==> Bits(m)[i] == Bits(n)[i]
    ensures Crc(m, init) != Crc(n, init)
  {
    if Bits(m) == Bits(n) {
      BitsInjective(m, n);
    } else {
      BurstDetected(Bits(m), Bits(n), s, init);
    }
  }

  /** Sixteen is the most that can be promised: a 17-bit burst in the pattern of
      the polynomial goes unnoticed. */
  lemma BurstOf17Missed()
    ensures Crc([0x01, 0x10, 0x21], 0) == Crc([0x00, 0x00, 0x00], 0)
  {
    CrcThree(0x01, 0x10, 0x21);
    CrcThree(0x00, 0x00, 0x00);
  }

  lemma CrcThree(a: bv8, b: bv8, c: bv8)
    ensures Crc([a, b, c], 0) == TableStep(TableStep(TableStep(0, a), b), c)
  {
    assert [a, b, c] == [a] + [b, c] && [b, c] == [b] + [c];
    CrcSplit([a], [b, c], 0);
    CrcOne(a, 0);
    CrcSplit([b], [c], TableStep(0, a));
    CrcOne(b, TableStep(0, a));
    CrcOne(c, TableStep(TableStep(0, a), b));
  }
}
