/** The checksum of message blocks, as computed by msgblock_crc16_ccitt in klippy/chelper/msgblock.c and
    by crc16_ccitt in klippy/msgproto.py, against the bit-serial definition in appendix C.2 of RFC 1662
    (without its final complement). */
module Crc {
  /** One bit of the frame check sequence with the polynomial 0x8408. */
  function BitStep(x: bv16): bv16 { if x & 1 == 1 then (x >> 1) ^ 0x8408 else x >> 1 }

  function EightBits(x: bv16): bv16 {
    BitStep(BitStep(BitStep(BitStep(BitStep(BitStep(BitStep(BitStep(x))))))))
  }

  /** One byte, bit by bit. */
  function SerialStep(crc: bv16, data: bv8): bv16 { EightBits(crc ^ (data as bv16)) }

  function Serial(crc: bv16, buf: seq<bv8>): bv16 {
    if |buf| == 0 then crc else SerialStep(Serial(crc, buf[..|buf| - 1]), buf[|buf| - 1])
  }

  function Fcs(buf: seq<bv8>): bv16 { Serial(0xffff, buf) }

  // ------------------------------------------------------------------ the C code

  /** The nibble trick. */
  function Nibbles(crc: bv16, data: bv8): bv16 {
    var d := data ^ ((crc & 0xff) as bv8);
    var e := d ^ (d << 4);
    var w := e as bv16;
    ((w << 8) | (crc >> 8)) ^ (w >> 4) ^ (w << 3)
  }

  lemma NibblesAreSerial(crc: bv16, data: bv8)
    ensures Nibbles(crc, data) == SerialStep(crc, data)
  {
    FourBits(crc ^ (data as bv16));
    FourBits(Four(crc ^ (data as bv16)));
    NibblesAreFours(crc, data);
  }

  /** Four bits at once: the nibble that leaves on the right comes back in three places. */
  function Four(x: bv16): bv16 { (x >> 4) ^ (x & 0xf) ^ ((x & 0xf) << 7) ^ ((x & 0xf) << 12) }

  /** Two bits at once. */
  function Two(x: bv16): bv16 { (x >> 2) ^ (if x & 1 == 1 then 0x4204 else 0) ^ (if x & 2 == 2 then 0x8408 else 0) }

  lemma TwoBits(x: bv16)
    ensures BitStep(BitStep(x)) == Two(x)
  {
    if x & 1 == 1 {
      assert ((x >> 1) ^ 0x8408) & 1 == (x >> 1) & 1;
    }
  }

  lemma TwiceTwo(x: bv16)
    ensures Two(Two(x)) == Four(x)
  {
    assert Two(x) & 3 == (x >> 2) & 3;
  }

  lemma FourBits(x: bv16)
    ensures BitStep(BitStep(BitStep(BitStep(x)))) == Four(x)
  {
    hide *;
    TwoBits(x);
    TwoBits(Two(x));
    TwiceTwo(x);
  }

  /** The nibble trick on a register that already holds the data. */
  function Folded(x: bv16): bv16 {
    var w := (x & 0xff) ^ ((x << 4) & 0xff);
    ((w << 8) | (x >> 8)) ^ (w >> 4) ^ (w << 3)
  }

  lemma FoldedIsFours(x: bv16)
    ensures Folded(x) == Four(Four(x))
  {
  }

  lemma NibblesFold(crc: bv16, data: bv8)
    ensures Nibbles(crc, data) == Folded(crc ^ (data as bv16))
  {
  }

  lemma NibblesAreFours(crc: bv16, data: bv8)
    ensures Nibbles(crc, data) == Four(Four(crc ^ (data as bv16)))
  {
    hide *;
    NibblesFold(crc, data);
    FoldedIsFours(crc ^ (data as bv16));
  }

  /** msgblock_crc16_ccitt. */
  method Crc16Ccitt(buf: seq<bv8>) returns (crc: bv16)
    ensures crc == Fcs(buf)
  {
    crc := 0xffff;
    for i := 0 to |buf|
      invariant crc == Serial(0xffff, buf[..i])
    {
      assert buf[..i + 1][..i] == buf[..i];
      NibblesAreSerial(crc, buf[i]);
      crc := Nibbles(crc, buf[i]);
    }
    assert buf[..|buf|] == buf;
  }

  // ------------------------------------------------------------------ the Python code

  /** The same trick on numbers that are never cut to 8 or 16 bits. */
  function PyStep(crc: bv32, data: bv32): bv32 {
    var d := data ^ (crc & 0xff);
    var e := d ^ ((d & 0x0f) << 4);
    ((e << 8) | (crc >> 8)) ^ (e >> 4) ^ (e << 3)
  }

  lemma PyStepIsNibbles(crc: bv16, data: bv8)
    ensures PyStep(crc as bv32, data as bv32) == Nibbles(crc, data) as bv32
  {
  }

  /** crc16_ccitt of msgproto.py gives the two bytes of the checksum, high byte first. */
  method PyCrc16Ccitt(buf: seq<bv8>) returns (high: bv32, low: bv32)
    ensures high == (Fcs(buf) >> 8) as bv32 && low == (Fcs(buf) & 0xff) as bv32
  {
    hide PyStep, Nibbles, SerialStep;
    var crc: bv32 := 0xffff;
    ghost var fcs: bv16 := 0xffff;
    for i := 0 to |buf|
      invariant crc == fcs as bv32 && fcs == Serial(0xffff, buf[..i])
    {
      assert buf[..i + 1][..i] == buf[..i];
      PyStepIsSerial(fcs, buf[i]);
      crc := PyStep(crc, buf[i] as bv32);
      fcs := SerialStep(fcs, buf[i]);
    }
    assert buf[..|buf|] == buf;
    Split(fcs);
    high, low := crc >> 8, crc & 0xff;
  }

  lemma PyStepIsSerial(crc: bv16, data: bv8)
    ensures PyStep(crc as bv32, data as bv32) == SerialStep(crc, data) as bv32
  {
    hide *;
    PyStepIsNibbles(crc, data);
    NibblesAreSerial(crc, data);
  }

  lemma Split(x: bv16)
    ensures (x as bv32) >> 8 == (x >> 8) as bv32 && (x as bv32) & 0xff == (x & 0xff) as bv32
  {
  }

  // ------------------------------------------------------------------ what it detects

  lemma BitStepInjective(x: bv16, y: bv16)
    requires BitStep(x) == BitStep(y)
    ensures x == y
  {
  }

  lemma EightBitsInjective(x: bv16, y: bv16)
    requires EightBits(x) == EightBits(y)
    ensures x == y
  {
    var x1, y1 := BitStep(x), BitStep(y);
    var x2, y2 := BitStep(x1), BitStep(y1);
    var x3, y3 := BitStep(x2), BitStep(y2);
    var x4, y4 := BitStep(x3), BitStep(y3);
    var x5, y5 := BitStep(x4), BitStep(y4);
    var x6, y6 := BitStep(x5), BitStep(y5);
    var x7, y7 := BitStep(x6), BitStep(y6);
    BitStepInjective(x7, y7);
    BitStepInjective(x6, y6);
    BitStepInjective(x5, y5);
    BitStepInjective(x4, y4);
    BitStepInjective(x3, y3);
    BitStepInjective(x2, y2);
    BitStepInjective(x1, y1);
    BitStepInjective(x, y);
  }

  /** The high byte of the register after a step depends only on its low byte before, one to one. */
  function High(low: bv16): bv16 {
    var w := low ^ ((low << 4) & 0xff);
    w ^ (w >> 5)
  }

  lemma HighByte(x: bv16)
    ensures Folded(x) >> 8 == High(x & 0xff)
  {
  }

  lemma HighInjective(p: bv16, q: bv16)
    requires p <= 0xff && q <= 0xff && High(p) == High(q)
    ensures p == q
  {
  }

  lemma StepHigh(crc: bv16, data: bv8)
    ensures SerialStep(crc, data) >> 8 == High((crc ^ (data as bv16)) & 0xff)
  {
    hide *;
    NibblesAreSerial(crc, data);
    NibblesFold(crc, data);
    HighByte(crc ^ (data as bv16));
  }

  /** Data changes the low byte only. */
  lemma SameHigh(x: bv16, y: bv16, a: bv8, b: bv8)
    requires x ^ (a as bv16) == y ^ (b as bv16)
    ensures x >> 8 == y >> 8 && (x == y ==> a == b) && (a == b ==> x == y)
  {
  }

  lemma SameLow(x: bv16, a: bv8, b: bv8)
    requires (x ^ (a as bv16)) & 0xff == (x ^ (b as bv16)) & 0xff
    ensures a == b
  {
  }

  lemma Below(x: bv16)
    ensures x & 0xff <= 0xff
  {
  }

  lemma StepInjective(x: bv16, y: bv16, a: bv8, b: bv8)
    requires SerialStep(x, a) == SerialStep(y, b)
    ensures x >> 8 == y >> 8 && (x == y ==> a == b) && (a == b ==> x == y)
  {
    hide EightBits;
    EightBitsInjective(x ^ (a as bv16), y ^ (b as bv16));
    SameHigh(x, y, a, b);
  }

  /** Two adjacent bytes cannot be changed without changing the register. */
  lemma TwoBytes(crc: bv16, a: bv8, b: bv8, a': bv8, b': bv8)
    requires SerialStep(SerialStep(crc, a), b) == SerialStep(SerialStep(crc, a'), b')
    ensures a == a' && b == b'
  {
    hide *;
    StepInjective(SerialStep(crc, a), SerialStep(crc, a'), b, b');
    StepHigh(crc, a);
    StepHigh(crc, a');
    Below(crc ^ (a as bv16));
    Below(crc ^ (a' as bv16));
    HighInjective((crc ^ (a as bv16)) & 0xff, (crc ^ (a' as bv16)) & 0xff);
    SameLow(crc, a, a');
  }

  lemma {:induction false} SerialJoin(crc: bv16, p: seq<bv8>, s: seq<bv8>)
    ensures Serial(crc, p + s) == Serial(Serial(crc, p), s)
  {
    if |s| == 0 {
      assert p + s == p;
    } else {
      var n := |s| - 1;
      assert (p + s)[..|p| + n] == p + s[..n];
      SerialJoin(crc, p, s[..n]);
    }
  }

  /** Different registers stay different. */
  lemma {:induction false} SerialInjective(x: bv16, y: bv16, s: seq<bv8>)
    requires Serial(x, s) == Serial(y, s)
    ensures x == y
  {
    hide SerialStep;
    if |s| > 0 {
      var n := |s| - 1;
      StepInjective(Serial(x, s[..n]), Serial(y, s[..n]), s[n], s[n]);
      SerialInjective(x, y, s[..n]);
    }
  }

  /** Buffers that differ only inside two adjacent bytes never share a checksum. */
  lemma BurstDetected(p: seq<bv8>, a: bv8, b: bv8, a': bv8, b': bv8, s: seq<bv8>)
    requires Fcs(p + [a, b] + s) == Fcs(p + [a', b'] + s)
    ensures a == a' && b == b'
  {
    hide SerialStep, EightBits;
    var crc := Serial(0xffff, p);
    SerialJoin(0xffff, p + [a, b], s);
    SerialJoin(0xffff, p + [a', b'], s);
    SerialJoin(0xffff, p, [a, b]);
    SerialJoin(0xffff, p, [a', b']);
    SerialInjective(Serial(crc, [a, b]), Serial(crc, [a', b']), s);
    TwoSteps(crc, a, b);
    TwoSteps(crc, a', b');
    TwoBytes(crc, a, b, a', b');
  }

  lemma TwoSteps(crc: bv16, a: bv8, b: bv8)
    ensures Serial(crc, [a, b]) == SerialStep(SerialStep(crc, a), b)
  {
    hide SerialStep;
    assert [a, b][..1] == [a] && [a][..0] == [];
    assert Serial(crc, [a]) == SerialStep(crc, a);
  }
}
