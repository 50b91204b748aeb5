/**
 The three CRC-32 loops: the bit-at-a-time reference, the nibble-table form that is
 compiled, and the mirrored form that shifts the register the other way.
 */
module Crc32 {

  const POLY_LE: bv32 := 0xedb88320
  const POLY_BE: bv32 := 0x04c11db6
  const INITIAL: bv32 := 0xffff_ffff
  const RESIDUE: bv32 := 0xdebb20e3

  // ----- The reference: eight conditional shifts per byte -----

  /** One pass of the inner loop of the reference: `c` holds the bits still to be fed. */
  function RefBit(crc: bv32, c: bv32): bv32 {
    var carry: bv32 := (if crc & 1 != 0 then 1 else 0) ^ (c & 1);
    if carry != 0 then (crc >> 1) ^ POLY_LE else crc >> 1
  }

  function RefBits(crc: bv32, c: bv32, n: nat): bv32
    decreases n
  {
    if n == 0 then crc else RefBits(RefBit(crc, c), c >> 1, n - 1)
  }

  function Feed(crc: bv32, buf: seq<bv8>): bv32
    decreases |buf|
  {
    if buf == [] then crc else Feed(RefBits(crc, buf[0] as bv32, 8), buf[1..])
  }

  function Crc(buf: seq<bv8>): bv32 {
    Feed(INITIAL, buf)
  }

  lemma {:induction false} FeedConcat(crc: bv32, a: seq<bv8>, b: seq<bv8>)
    ensures Feed(crc, a + b) == Feed(Feed(crc, a), b)
    decreases |a|
  {
    if a == [] {
      assert a + b == b;
    } else {
      FeedConcat(RefBits(crc, a[0] as bv32, 8), a[1..], b);
      assert (a + b)[1..] == a[1..] + b;
    }
  }

  lemma FeedNext(crc: bv32, buf: seq<bv8>, i: nat)
    requires i < |buf|
    ensures Feed(crc, buf[..i + 1]) == RefBits(Feed(crc, buf[..i]), buf[i] as bv32, 8)
  {
    hide RefBits;
    FeedConcat(crc, buf[..i], [buf[i]]);
    assert buf[..i + 1] == buf[..i] + [buf[i]];
    assert Feed(Feed(crc, buf[..i]), [buf[i]])
        == Feed(RefBits(Feed(crc, buf[..i]), buf[i] as bv32, 8), []);
  }

  // ----- The shift register as a linear map -----

  /** The register shifts towards bit zero; a one that falls out feeds the polynomial back. */
  function Shift(x: bv32): bv32 {
    if x & 1 == 1 then (x >> 1) ^ POLY_LE else x >> 1
  }

  function Shifts(x: bv32, n: nat): bv32
    decreases n
  {
    if n == 0 then x else Shifts(Shift(x), n - 1)
  }

  /** Addition of bit vectors modulo two, under a name of its own. */
  function Xor(x: bv32, y: bv32): bv32 {
    x ^ y
  }

  lemma XorBits(x: bv32, y: bv32, p: bv32)
    ensures (x ^ y) >> 1 == (x >> 1) ^ (y >> 1)
    ensures (x ^ y) & 1 == (x & 1) ^ (y & 1)
    ensures (x & 1 == 1 || x & 1 == 0) && (y & 1 == 1 || y & 1 == 0)
    ensures ((x >> 1) ^ p) ^ ((y >> 1) ^ p) == (x >> 1) ^ (y >> 1)
    ensures ((x >> 1) ^ p) ^ (y >> 1) == ((x >> 1) ^ (y >> 1)) ^ p
    ensures (x >> 1) ^ ((y >> 1) ^ p) == ((x >> 1) ^ (y >> 1)) ^ p
  {
  }

  lemma ShiftOfSum(x: bv32, y: bv32)
    ensures Shift(x ^ y) == Shift(x) ^ Shift(y)
  {
    XorBits(x, y, POLY_LE);
    if x & 1 == 1 {
      if y & 1 == 1 { } else { }
    } else {
      if y & 1 == 1 { } else { }
    }
  }

  lemma ShiftLinear(x: bv32, y: bv32)
    ensures Shift(Xor(x, y)) == Xor(Shift(x), Shift(y))
  {
    hide Shift;
    ShiftOfSum(x, y);
  }

  lemma {:induction false} ShiftsLinear(x: bv32, y: bv32, n: nat)
    ensures Shifts(Xor(x, y), n) == Xor(Shifts(x, n), Shifts(y, n))
    decreases n
  {
    hide Shift, Xor;
    if n > 0 {
      ShiftLinear(x, y);
      ShiftsLinear(Shift(x), Shift(y), n - 1);
    }
  }

  lemma ShiftInjective(x: bv32, y: bv32)
    requires Shift(x) == Shift(y)
    ensures x == y
  {
  }

  lemma {:induction false} ShiftsAdd(x: bv32, m: nat, n: nat)
    ensures Shifts(x, m + n) == Shifts(Shifts(x, m), n)
    decreases m
  {
    hide Shift;
    if m > 0 { ShiftsAdd(Shift(x), m - 1, n); }
  }

  /** Zero bits fall out without feedback. */
  lemma FirstZeros(x: bv32)
    requires x & 0xff == 0
    ensures Shift(x) == x >> 1 && Shift(x >> 1) == x >> 2
  {
  }

  lemma SecondZeros(x: bv32)
    requires x & 0xff == 0
    ensures Shift(x >> 2) == x >> 3 && Shift(x >> 3) == x >> 4
  {
  }

  lemma ThirdZeros(x: bv32)
    requires x & 0xff == 0
    ensures Shift(x >> 4) == x >> 5 && Shift(x >> 5) == x >> 6
  {
  }

  lemma FourthZeros(x: bv32)
    requires x & 0xff == 0
    ensures Shift(x >> 6) == x >> 7 && Shift(x >> 7) == x >> 8
  {
  }

  lemma ShiftsZeroByte(x: bv32)
    requires x & 0xff == 0
    ensures Shifts(x, 8) == x >> 8
  {
    hide Shift;
    FirstZeros(x);
    SecondZeros(x);
    ThirdZeros(x);
    FourthZeros(x);
    assert Shifts(x, 8) == Shifts(x >> 1, 7) == Shifts(x >> 2, 6) == Shifts(x >> 3, 5) == Shifts(x >> 4, 4);
    assert Shifts(x >> 4, 4) == Shifts(x >> 5, 3) == Shifts(x >> 6, 2) == Shifts(x >> 7, 1) == Shifts(x >> 8, 0);
  }

  lemma RefBitIsShift(crc: bv32, c: bv32)
    ensures RefBit(crc, c) ^ (c >> 1) == Shift(crc ^ c)
  {
    XorBits(crc, c, POLY_LE);
    if crc & 1 == 1 {
      if c & 1 == 1 { } else { }
    } else {
      if c & 1 == 1 { } else { }
    }
  }

  /** What is left of `c` once n of its bits have been fed. */
  function Unfed(c: bv32, n: nat): bv32
    decreases n
  {
    if n == 0 then c else Unfed(c >> 1, n - 1)
  }

  /** Feeding bits one at a time equals adding all of them first and shifting afterwards. */
  lemma {:induction false} RefBitsAreShifts(crc: bv32, c: bv32, n: nat)
    ensures Xor(RefBits(crc, c, n), Unfed(c, n)) == Shifts(Xor(crc, c), n)
    decreases n
  {
    hide Shift, RefBit, Xor;
    if n > 0 {
      assert Xor(RefBit(crc, c), c >> 1) == Shift(Xor(crc, c)) by { RefBitIsXorShift(crc, c); }
      RefBitsAreShifts(RefBit(crc, c), c >> 1, n - 1);
    }
  }

  lemma RefBitIsXorShift(crc: bv32, c: bv32)
    ensures Xor(RefBit(crc, c), c >> 1) == Shift(Xor(crc, c))
  {
    hide Shift, RefBit;
    RefBitIsShift(crc, c);
  }

  lemma {:induction false} UnfedAdd(c: bv32, m: nat, n: nat)
    ensures Unfed(c, m + n) == Unfed(Unfed(c, m), n)
    decreases m
  {
    if m > 0 { UnfedAdd(c >> 1, m - 1, n); }
  }

  lemma UnfedByte(b: bv8)
    ensures Unfed(b as bv32, 8) == 0
  {
    var c := b as bv32;
    UnfedAdd(c, 4, 4);
    assert Unfed(c, 4) == Unfed(c >> 2, 2) == c >> 4;
    assert Unfed(c >> 4, 4) == Unfed(c >> 6, 2) == c >> 8;
  }

  lemma XorZero(x: bv32)
    ensures Xor(x, 0) == x && Xor(x, x) == 0
  {
  }

  lemma RefByteIsShifts(crc: bv32, b: bv8)
    ensures RefBits(crc, b as bv32, 8) == Shifts(Xor(crc, b as bv32), 8)
  {
    hide Shift, RefBit, RefBits, Shifts, Xor, Unfed;
    RefBitsAreShifts(crc, b as bv32, 8);
    UnfedByte(b);
    XorZero(RefBits(crc, b as bv32, 8));
  }

  // ----- The table -----

  const TABLE: seq<bv32> := [
    0x00000000, 0x1db71064, 0x3b6e20c8, 0x26d930ac,
    0x76dc4190, 0x6b6b51f4, 0x4db26158, 0x5005713c,
    0xedb88320, 0xf00f9344, 0xd6d6a3e8, 0xcb61b38c,
    0x9b64c2b0, 0x86d3d2d4, 0xa00ae278, 0xbdbdf21c
  ]

  function Entry(i: bv32): bv32
    requires i < 16
  {
    TABLE[i as int]
  }

  lemma EntryIsFourShifts(i: bv32)
    requires i < 16
    ensures Entry(i) == Shifts(i, 4)
  {
  }

  function LowNibble(x: bv32): (n: bv32)
    ensures n < 16
  {
    x & 0xf
  }

  function Rest(x: bv32): bv32 {
    x & 0xffff_fff0
  }

  function Upper(x: bv32): bv32 {
    x >> 4
  }

  lemma SplitNibble(x: bv32)
    ensures x == Xor(Rest(x), LowNibble(x))
    ensures LowNibble(Rest(x)) == 0 && Upper(Rest(x)) == Upper(x)
  {
  }

  lemma ShiftFourZeros(x: bv32)
    requires x & 0xf == 0
    ensures Shift(x) == x >> 1 && Shift(x >> 1) == x >> 2
    ensures Shift(x >> 2) == x >> 3 && Shift(x >> 3) == x >> 4
  {
  }

  lemma ShiftsZeroNibble(x: bv32)
    requires LowNibble(x) == 0
    ensures Shifts(x, 4) == Upper(x)
  {
    hide Shift;
    ShiftFourZeros(x);
    assert Shifts(x, 4) == Shifts(x >> 1, 3) == Shifts(x >> 2, 2) == Shifts(x >> 3, 1) == Shifts(x >> 4, 0);
  }

  /** One table step of the compiled loop. */
  function Nibble(x: bv32): bv32 {
    Xor(Upper(x), Entry(LowNibble(x)))
  }

  lemma NibbleIsFourShifts(x: bv32)
    ensures Nibble(x) == Shifts(x, 4)
  {
    hide Shift, Shifts, Xor, Entry, Rest, LowNibble, Upper;
    SplitNibble(x);
    ShiftsLinear(Rest(x), LowNibble(x), 4);
    ShiftsZeroNibble(Rest(x));
    EntryIsFourShifts(LowNibble(x));
  }

  function TableByte(crc: bv32, b: bv8): bv32 {
    Nibble(Nibble(Xor(crc, b as bv32)))
  }

  lemma TwoNibbles(x: bv32)
    ensures Nibble(Nibble(x)) == Shifts(x, 8)
  {
    hide Shift, Shifts, Nibble;
    NibbleIsFourShifts(x);
    NibbleIsFourShifts(Nibble(x));
    ShiftsAdd(x, 4, 4);
  }

  /** Two table steps feed one byte exactly as eight reference steps do. */
  lemma TableByteIsRefByte(crc: bv32, b: bv8)
    ensures TableByte(crc, b) == RefBits(crc, b as bv32, 8)
  {
    hide Shift, Shifts, Nibble, Xor, RefBits;
    TwoNibbles(Xor(crc, b as bv32));
    RefByteIsShifts(crc, b);
  }

  method Crc32Le(buf: seq<bv8>) returns (crc: bv32)
    ensures crc == Crc(buf)
  {
    hide RefBits, Feed, Nibble, Xor;
    crc := INITIAL;
    assert buf[..0] == [];
    FeedNothing(INITIAL);
    for i := 0 to |buf|
      invariant crc == Feed(INITIAL, buf[..i])
    {
      FeedNext(INITIAL, buf, i);
      TableByteIsRefByte(crc, buf[i]);
      crc := Xor(crc, buf[i] as bv32);
      crc := Nibble(crc);
      crc := Nibble(crc);
    }
    assert buf[..|buf|] == buf;
  }

  lemma FeedNothing(crc: bv32)
    ensures Feed(crc, []) == crc
  {
  }

  lemma RefBitsNext(crc: bv32, c: bv32, n: nat)
    requires n > 0
    ensures RefBits(crc, c, n) == RefBits(RefBit(crc, c), c >> 1, n - 1)
  {
  }

  method Crc32LeReference(buf: seq<bv8>) returns (crc: bv32)
    ensures crc == Crc(buf)
  {
    hide Feed, RefBits;
    crc := INITIAL;
    assert buf[..0] == [];
    FeedNothing(INITIAL);
    for i := 0 to |buf|
      invariant crc == Feed(INITIAL, buf[..i])
    {
      FeedNext(INITIAL, buf, i);
      var c := buf[i] as bv32;
      ghost var before := crc;
      for j := 0 to 8
        invariant RefBits(crc, c, 8 - j) == RefBits(before, buf[i] as bv32, 8)
      {
        RefBitsNext(crc, c, 8 - j);
        var carry: bv32 := (if crc & 0x01 != 0 then 1 else 0) ^ (c & 0x01);
        crc := crc >> 1;
        c := c >> 1;
        if carry != 0 {
          crc := crc ^ POLY_LE;
        }
      }
      RefBitsDone(crc, c);
    }
    assert buf[..|buf|] == buf;
  }

  lemma RefBitsDone(crc: bv32, c: bv32)
    ensures RefBits(crc, c, 0) == crc
  {
  }

  // ----- The mirrored loop -----

  /** The 32 bits in the opposite order, by swapping ever larger neighbours. */
  function Mirror(x: bv32): bv32 {
    var a := ((x & 0x5555_5555) << 1) | ((x >> 1) & 0x5555_5555);
    var b := ((a & 0x3333_3333) << 2) | ((a >> 2) & 0x3333_3333);
    var c := ((b & 0x0f0f_0f0f) << 4) | ((b >> 4) & 0x0f0f_0f0f);
    var d := ((c & 0x00ff_00ff) << 8) | ((c >> 8) & 0x00ff_00ff);
    (d << 16) | (d >> 16)
  }

  function Left(x: bv32): bv32 { x << 1 }
  function Right(x: bv32): bv32 { x >> 1 }
  function Top(x: bv32): bv32 { x >> 31 }
  function Low(x: bv32): bv32 { x & 1 }

  /** What reversing means: ends swap, shifts change direction, and twice is nothing. */
  lemma MirrorReverses(x: bv32)
    ensures Mirror(Left(x)) == Right(Mirror(x))
    ensures Low(Mirror(x)) == Top(x) && Top(Mirror(x)) == Low(x)
    ensures Mirror(Mirror(x)) == x
  {
  }

  lemma MirrorLinear(x: bv32, y: bv32)
    ensures Mirror(Xor(x, y)) == Xor(Mirror(x), Mirror(y))
  {
  }

  /** One pass of the inner loop: the register shifts away from bit zero. */
  function BeBit(crc: bv32, c: bv32): bv32 {
    var carry: bv32 := (if crc & 0x8000_0000 != 0 then 1 else 0) ^ (c & 1);
    if carry != 0 then ((crc << 1) ^ POLY_BE) | carry else crc << 1
  }

  /** The carry supplies the lowest coefficient that ETHER_CRC_POLY_BE leaves out. */
  lemma CarryCompletesPolynomial(crc: bv32)
    ensures ((crc << 1) ^ POLY_BE) | 1 == (crc << 1) ^ 0x04c11db7
  {
  }

  lemma MirrorPolynomial()
    ensures Mirror(0x04c11db7) == POLY_LE
  {
  }

  /** Whether the bit that leaves the register differs from the next message bit. */
  predicate Carries(leaving: bv32, c: bv32) {
    leaving ^ (c & 1) == 1
  }

  lemma BeBitCases(crc: bv32, c: bv32)
    ensures BeBit(crc, c) == if Carries(Top(crc), c) then Xor(Left(crc), 0x04c11db7) else Left(crc)
  {
  }

  lemma RefBitCases(crc: bv32, c: bv32)
    ensures RefBit(crc, c) == if Carries(Low(crc), c) then Xor(Right(crc), POLY_LE) else Right(crc)
  {
  }

  /** One step of the mirrored loop is one reference step seen in a mirror. */
  lemma BeBitMirrors(crc: bv32, c: bv32)
    ensures Mirror(BeBit(crc, c)) == RefBit(Mirror(crc), c)
  {
    hide Mirror, BeBit, RefBit, Carries, Left, Right, Top, Low, Xor;
    BeBitCases(crc, c);
    RefBitCases(Mirror(crc), c);
    MirrorReverses(crc);
    MirrorLinear(Left(crc), 0x04c11db7);
    MirrorPolynomial();
  }

  method Crc32Be(buf: seq<bv8>) returns (crc: bv32)
    ensures Mirror(crc) == Crc(buf)
  {
    hide Feed, RefBits, RefBit, BeBit, Mirror;
    crc := INITIAL;
    assert buf[..0] == [];
    FeedNothing(INITIAL);
    MirrorInitial();
    for i := 0 to |buf|
      invariant Mirror(crc) == Feed(INITIAL, buf[..i])
    {
      FeedNext(INITIAL, buf, i);
      var c := buf[i] as bv32;
      ghost var before := crc;
      for j := 0 to 8
        invariant RefBits(Mirror(crc), c, 8 - j) == RefBits(Mirror(before), buf[i] as bv32, 8)
      {
        RefBitsNext(Mirror(crc), c, 8 - j);
        BeBitMirrors(crc, c);
        crc, c := BeBit(crc, c), c >> 1;
      }
      RefBitsDone(Mirror(crc), c);
    }
    assert buf[..|buf|] == buf;
  }

  lemma MirrorInitial()
    ensures Mirror(INITIAL) == INITIAL
  {
  }

  // ----- What the code is for -----

  /** Up to four bytes as a number, the first byte lowest. */
  function Pack(bs: seq<bv8>): bv32 {
    if bs == [] then 0 else Xor(bs[0] as bv32, Raised(Pack(bs[1..])))
  }

  function Raised(y: bv32): bv32 {
    y << 8
  }

  lemma PackBound(bs: seq<bv8>)
    requires |bs| <= 3
    ensures Pack(bs) <= 0x00ff_ffff
  {
    if |bs| == 3 { PackTwo(bs[1..]); } else if |bs| == 2 { PackTwo(bs); }
  }

  lemma PackTwo(bs: seq<bv8>)
    requires |bs| == 2
    ensures Pack(bs) <= 0xffff
  {
    assert Pack(bs[1..]) == Xor(bs[1] as bv32, Raised(Pack([])));
  }

  lemma ShiftsRaised(y: bv32)
    requires y <= 0x00ff_ffff
    ensures Shifts(Raised(y), 8) == y
  {
    hide Shifts;
    ShiftsZeroByte(Raised(y));
  }

  lemma XorAssociates(x: bv32, y: bv32, z: bv32)
    ensures Xor(x, Xor(y, z)) == Xor(Xor(x, y), z)
  {
  }

  /** Feeding at most four bytes is adding them as one number and then shifting. */
  lemma {:induction false} FeedIsShifts(crc: bv32, bs: seq<bv8>)
    requires |bs| <= 4
    ensures Feed(crc, bs) == Shifts(Xor(crc, Pack(bs)), 8 * |bs|)
    decreases |bs|
  {
    hide Shift, Shifts, Xor, RefBits, Raised;
    if bs == [] {
      XorZero(crc);
      ShiftsNone(crc);
    } else {
      var next := RefBits(crc, bs[0] as bv32, 8);
      var rest := Pack(bs[1..]);
      PackBound(bs[1..]);
      FeedIsShifts(next, bs[1..]);
      RefByteIsShifts(crc, bs[0]);
      XorAssociates(crc, bs[0] as bv32, Raised(rest));
      ShiftsLinear(Xor(crc, bs[0] as bv32), Raised(rest), 8);
      ShiftsRaised(rest);
      assert Shifts(Xor(crc, Pack(bs)), 8) == Xor(next, rest);
      ShiftsAdd(Xor(crc, Pack(bs)), 8, 8 * |bs[1..]|);
    }
  }

  lemma ShiftsNone(x: bv32)
    ensures Shifts(x, 0) == x
  {
  }

  // ----- Error detection, bit by bit -----

  /** The n lowest bits of c, in the order they are fed. */
  function LowBits(c: bv32, n: nat): (bits: seq<bool>)
    ensures |bits| == n
    decreases n
  {
    if n == 0 then [] else [c & 1 == 1] + LowBits(c >> 1, n - 1)
  }

  /** A message as the bits that are fed. */
  function Bits(buf: seq<bv8>): (bits: seq<bool>)
    ensures |bits| == 8 * |buf|
  {
    if buf == [] then [] else LowBits(buf[0] as bv32, 8) + Bits(buf[1..])
  }

  function One(bit: bool): bv32 {
    if bit then 1 else 0
  }

  function FeedBits(crc: bv32, bits: seq<bool>): bv32
    decreases |bits|
  {
    if bits == [] then crc else FeedBits(Shift(Xor(crc, One(bits[0]))), bits[1..])
  }

  lemma {:induction false} FeedBitsConcat(crc: bv32, a: seq<bool>, b: seq<bool>)
    ensures FeedBits(crc, a + b) == FeedBits(FeedBits(crc, a), b)
    decreases |a|
  {
    hide Shift, Xor, One;
    if a == [] {
      assert a + b == b;
    } else {
      FeedBitsConcat(Shift(Xor(crc, One(a[0]))), a[1..], b);
      assert (a + b)[1..] == a[1..] + b;
    }
  }

  lemma RefBitFeedsOne(crc: bv32, c: bv32)
    ensures RefBit(crc, c) == Shift(Xor(crc, One(c & 1 == 1)))
  {
    hide Shift, Xor, One, RefBit;
    RefBitIsXorShift(crc, One(c & 1 == 1));
    OneIsLast(crc, c);
    XorZero(RefBit(crc, c));
  }

  lemma OneIsLast(crc: bv32, c: bv32)
    ensures RefBit(crc, c) == RefBit(crc, One(c & 1 == 1)) && One(c & 1 == 1) >> 1 == 0
  {
    assert c & 1 == 1 || c & 1 == 0;
  }

  lemma {:induction false} LowBitsFed(crc: bv32, c: bv32, n: nat)
    ensures RefBits(crc, c, n) == FeedBits(crc, LowBits(c, n))
    decreases n
  {
    hide Shift, Xor, One, RefBit;
    if n > 0 {
      LowBitsFed(RefBit(crc, c), c >> 1, n - 1);
      RefBitFeedsOne(crc, c);
      assert LowBits(c, n)[1..] == LowBits(c >> 1, n - 1);
    }
  }

  lemma {:induction false} FeedIsFeedBits(crc: bv32, buf: seq<bv8>)
    ensures Feed(crc, buf) == FeedBits(crc, Bits(buf))
    decreases |buf|
  {
    hide RefBits, FeedBits, LowBits;
    if buf == [] {
      FeedNoBits(crc);
    } else {
      var b := buf[0] as bv32;
      LowBitsFed(crc, b, 8);
      FeedIsFeedBits(RefBits(crc, b, 8), buf[1..]);
      FeedBitsConcat(crc, LowBits(b, 8), Bits(buf[1..]));
    }
  }

  lemma FeedNoBits(crc: bv32)
    ensures FeedBits(crc, []) == crc
  {
  }

  lemma XorTwice(x: bv32, y: bv32, e: bv32)
    requires Xor(x, e) == Xor(y, e)
    ensures x == y
  {
  }

  /** Different registers stay different under the same bits. */
  lemma {:induction false} FeedInjective(x: bv32, y: bv32, bits: seq<bool>)
    requires FeedBits(x, bits) == FeedBits(y, bits)
    ensures x == y
    decreases |bits|
  {
    hide Shift, Xor, One;
    if bits != [] {
      var e := One(bits[0]);
      FeedInjective(Shift(Xor(x, e)), Shift(Xor(y, e)), bits[1..]);
      ShiftInjective(Xor(x, e), Xor(y, e));
      XorTwice(x, y, e);
    }
  }

  /** At most the n lowest bits are set. */
  predicate Small(x: bv32, n: nat) {
    Unfed(x, n) == 0
  }

  lemma {:induction false} UnfedZero(n: nat)
    ensures Unfed(0, n) == 0
  {
    if n > 0 { UnfedZero(n - 1); }
  }

  function Third(x: bv32): bv32 {
    x >> 3
  }

  lemma UnfedThree(x: bv32)
    ensures Unfed(x, 3) == Third(x)
  {
    assert Unfed(x, 3) == Unfed(x >> 1, 2) == Unfed(x >> 2, 1);
  }

  lemma UnfedFour(x: bv32)
    ensures Unfed(x, 4) == Upper(x)
  {
    assert Unfed(x, 4) == Unfed(x >> 2, 2);
  }

  lemma {:induction false} UnfedFours(x: bv32, n: nat)
    ensures Unfed(x, 4 * n) == Uppers(x, n)
    decreases n
  {
    hide Unfed, Upper;
    if n == 0 {
      UnfedNone(x);
    } else {
      UnfedAdd(x, 4, 4 * (n - 1));
      UnfedFour(x);
      UnfedFours(Upper(x), n - 1);
    }
  }

  lemma UnfedNone(x: bv32)
    ensures Unfed(x, 0) == x
  {
  }

  function Uppers(x: bv32, n: nat): bv32
    decreases n
  {
    if n == 0 then x else Uppers(Upper(x), n - 1)
  }

  lemma UppersToTop(x: bv32)
    ensures Third(Uppers(x, 7)) == Top(x)
  {
    hide Uppers;
    SevenUppers(x);
    assert Third(Upper(Upper(Upper(Upper(Upper(Upper(Upper(x)))))))) == Top(x);
  }

  lemma SevenUppers(x: bv32)
    ensures Uppers(x, 7) == Upper(Upper(Upper(Upper(Upper(Upper(Upper(x)))))))
  {
    hide Upper;
    var y := Upper(Upper(Upper(x)));
    assert Uppers(x, 7) == Uppers(Upper(x), 6) == Uppers(Upper(Upper(x)), 5) == Uppers(y, 4);
    assert Uppers(y, 4) == Uppers(Upper(y), 3) == Uppers(Upper(Upper(y)), 2);
  }

  lemma UnfedToTop(x: bv32)
    ensures Unfed(x, 31) == Top(x)
  {
    hide Unfed, Upper, Uppers, Third, Top;
    UnfedAdd(x, 28, 3);
    UnfedFours(x, 7);
    UnfedThree(Uppers(x, 7));
    UppersToTop(x);
  }

  lemma SmallHasNoTop(x: bv32, n: nat)
    requires Small(x, n) && n <= 31
    ensures Top(x) == 0
  {
    hide Unfed, Top;
    UnfedAdd(x, n, 31 - n);
    UnfedZero(31 - n);
    UnfedToTop(x);
  }

  /** The feedback sets the top bit, so a shift without a top bit had none. */
  lemma NoFeedback(d: bv32, e: bv32)
    requires Top(Shift(Xor(d, e))) == 0 && (e == 0 || e == 1)
    ensures Shift(Xor(d, e)) == Right(d)
  {
  }

  lemma SmallBefore(d: bv32, e: bv32, n: nat)
    requires Small(Shift(Xor(d, e)), n) && n <= 31 && (e == 0 || e == 1)
    ensures Small(d, n + 1)
  {
    hide Shift, Xor, Top;
    SmallHasNoTop(Shift(Xor(d, e)), n);
    NoFeedback(d, e);
  }

  lemma FourSums(s: bv32, t: bv32, a: bool, b: bool)
    ensures Xor(Xor(s, One(a)), Xor(t, One(b))) == Xor(Xor(s, t), One(a != b))
    ensures One(a != b) == 0 || One(a != b) == 1
  {
    hide One;
    SumsSwap(s, t, One(a), One(b));
    OneOfSum(a, b);
  }

  lemma SumsSwap(s: bv32, t: bv32, a: bv32, b: bv32)
    ensures Xor(Xor(s, a), Xor(t, b)) == Xor(Xor(s, t), Xor(a, b))
  {
    hide Xor;
    XorAssociates(s, a, Xor(t, b));
    XorAssociates(a, t, b);
    XorCommutes(a, t);
    XorAssociates(t, a, b);
    XorAssociates(s, t, Xor(a, b));
  }

  lemma XorCommutes(x: bv32, y: bv32)
    ensures Xor(x, y) == Xor(y, x)
  {
  }

  lemma OneOfSum(a: bool, b: bool)
    ensures Xor(One(a), One(b)) == One(a != b)
    ensures One(a != b) == 0 || One(a != b) == 1
  {
  }

  /** Registers that at most 32 bits can bring together differ in as many bits at most. */
  lemma {:induction false} BroughtTogether(s: bv32, t: bv32, x: seq<bool>, y: seq<bool>)
    requires |x| == |y| <= 32 && FeedBits(s, x) == FeedBits(t, y)
    ensures Small(Xor(s, t), |x|)
    decreases |x|
  {
    hide Shift, Xor, One, Small;
    if x == [] {
      XorZero(s);
      SmallZero();
    } else {
      var s', t' := Shift(Xor(s, One(x[0]))), Shift(Xor(t, One(y[0])));
      BroughtTogether(s', t', x[1..], y[1..]);
      ShiftLinear(Xor(s, One(x[0])), Xor(t, One(y[0])));
      FourSums(s, t, x[0], y[0]);
      SmallBefore(Xor(s, t), One(x[0] != y[0]), |x| - 1);
    }
  }

  lemma SmallZero()
    ensures Small(0, 0)
  {
  }

  lemma FirstDifference(s: bv32, a: bool, b: bool)
    requires a != b
    ensures Top(Xor(Shift(Xor(s, One(a))), Shift(Xor(s, One(b))))) == 1
  {
    hide Shift;
    ShiftOfSum(Xor(s, One(a)), Xor(s, One(b)));
    assert Xor(s, One(a)) ^ Xor(s, One(b)) == 1;
    assert Shift(1) == POLY_LE by { ShiftOfOne(); }
  }

  lemma ShiftOfOne()
    ensures Shift(1) == POLY_LE
  {
  }

  /** From one register, different strings of at most 32 bits lead to different registers. */
  lemma {:induction false} WindowInjective(s: bv32, x: seq<bool>, y: seq<bool>)
    requires |x| == |y| <= 32 && FeedBits(s, x) == FeedBits(s, y)
    ensures x == y
    decreases |x|
  {
    hide Shift, Xor, One, Small, Top;
    if x != [] {
      var s', t' := Shift(Xor(s, One(x[0]))), Shift(Xor(s, One(y[0])));
      if x[0] == y[0] {
        WindowInjective(s', x[1..], y[1..]);
        assert x == [x[0]] + x[1..] && y == [y[0]] + y[1..];
      } else {
        BroughtTogether(s', t', x[1..], y[1..]);
        SmallHasNoTop(Xor(s', t'), |x| - 1);
        FirstDifference(s, x[0], y[0]);
      }
    }
  }

  /**
   Error detection: two messages that differ only inside a window of at most 32 bits, wherever
   it begins, never have the same checksum.
   */
  lemma BurstDetected(m: seq<bv8>, n: seq<bv8>, before: seq<bool>, x: seq<bool>, y: seq<bool>, after: seq<bool>)
    requires Bits(m) == before + x + after && Bits(n) == before + y + after
    requires |x| == |y| <= 32 && x != y
    ensures Crc(m) != Crc(n)
  {
    hide Feed, FeedBits, Bits;
    FeedIsFeedBits(INITIAL, m);
    FeedIsFeedBits(INITIAL, n);
    FeedBitsConcat(INITIAL, before + x, after);
    FeedBitsConcat(INITIAL, before + y, after);
    FeedBitsConcat(INITIAL, before, x);
    FeedBitsConcat(INITIAL, before, y);
    var crc := FeedBits(INITIAL, before);
    if FeedBits(FeedBits(crc, x), after) == FeedBits(FeedBits(crc, y), after) {
      FeedInjective(FeedBits(crc, x), FeedBits(crc, y), after);
      WindowInjective(crc, x, y);
    }
  }

  /** The generator, as 33 bits in five bytes. */
  const GENERATOR: seq<bv8> := [0x41, 0x06, 0x71, 0xdb, 0x01]

  /** No wider window will do: a burst of 33 bits that is the generator goes unnoticed in every message. */
  lemma WiderBurstMissed(before: seq<bv8>, after: seq<bv8>)
    ensures Crc(before + GENERATOR + after) == Crc(before + [0, 0, 0, 0, 0] + after)
  {
    hide Feed;
    FeedConcat(INITIAL, before + GENERATOR, after);
    FeedConcat(INITIAL, before + [0, 0, 0, 0, 0], after);
    FeedConcat(INITIAL, before, GENERATOR);
    FeedConcat(INITIAL, before, [0, 0, 0, 0, 0]);
    GeneratorFeedsNothing(Feed(INITIAL, before));
  }

  lemma GeneratorFeedsNothing(crc: bv32)
    ensures Feed(crc, GENERATOR) == Feed(crc, [0, 0, 0, 0, 0])
  {
    hide Feed, Shift, Shifts, Xor, Pack;
    var g, z: seq<bv8> := [0x41, 0x06, 0x71, 0xdb], [0, 0, 0, 0];
    assert GENERATOR == g + [0x01] && [0, 0, 0, 0, 0] == z + [0];
    FeedConcat(crc, g, [0x01]);
    FeedConcat(crc, z, [0]);
    FeedIsShifts(crc, g);
    FeedIsShifts(crc, z);
    PackGenerator();
    ShiftsLinear(crc, 0xdb710641, 32);
    GeneratorShifts();
    XorZero(crc);
    var after := Shifts(crc, 32);
    FeedIsShifts(Xor(after, 1), [0x01]);
    FeedIsShifts(after, [0]);
    PackLast(0x01);
    PackLast(0);
    XorBack(after);
  }

  lemma XorBack(x: bv32)
    ensures Xor(Xor(x, 1), 1) == Xor(x, 0)
  {
  }

  lemma PackGenerator()
    ensures Pack([0x41, 0x06, 0x71, 0xdb]) == 0xdb710641 && Pack([0, 0, 0, 0]) == 0
  {
    hide Pack;
    PackFour(0x41, 0x06, 0x71, 0xdb);
    PackFour(0, 0, 0, 0);
    PackLast(0xdb);
    PackLast(0);
  }

  /** The generator leaves a one at the top, which 31 more shifts bring down. */
  lemma GeneratorShifts()
    ensures Shifts(0xdb710641, 32) == 1
  {
    hide Shift, Shifts;
    ShiftsAdd(0xdb710641, 1, 31);
    ShiftsAdd(0x8000_0000, 8, 23);
    ShiftsAdd(0x0080_0000, 8, 15);
    ShiftsAdd(0x0000_8000, 8, 7);
    GeneratorFirst();
    ShiftsZeroByte(0x8000_0000);
    ShiftsZeroByte(0x0080_0000);
    ShiftsZeroByte(0x0000_8000);
    GeneratorLast();
  }

  lemma GeneratorFirst()
    ensures Shifts(0xdb710641, 1) == 0x8000_0000
  {
    assert Shift(0xdb710641) == 0x8000_0000;
  }

  lemma GeneratorLast()
    ensures Shifts(0x80, 7) == 1
  {
    assert Shift(0x80) == 0x40 && Shift(0x40) == 0x20 && Shift(0x20) == 0x10 && Shift(0x10) == 0x08;
    assert Shift(0x08) == 0x04 && Shift(0x04) == 0x02 && Shift(0x02) == 0x01;
  }

  // ----- The check value -----

  /** One byte in two table steps. */
  lemma FeedByte(crc: bv32, b: bv8, half: bv32, next: bv32)
    requires Nibble(Xor(crc, b as bv32)) == half && Nibble(half) == next
    ensures RefBits(crc, b as bv32, 8) == next
  {
    hide RefBits, Nibble, Xor;
    TableByteIsRefByte(crc, b);
  }

  lemma ThreeBytes(crc: bv32, a: bv8, b: bv8, c: bv8)
    ensures Feed(crc, [a, b, c])
            == RefBits(RefBits(RefBits(crc, a as bv32, 8), b as bv32, 8), c as bv32, 8)
  {
    hide RefBits;
    assert [a, b, c][1..] == [b, c] && [b, c][1..] == [c] && [c][1..] == [];
    var x := RefBits(crc, a as bv32, 8);
    var y := RefBits(x, b as bv32, 8);
    var z := RefBits(y, c as bv32, 8);
    assert Feed(crc, [a, b, c]) == Feed(x, [b, c]);
    assert Feed(x, [b, c]) == Feed(y, [c]);
    assert Feed(y, [c]) == Feed(z, []);
    FeedNothing(z);
  }

  lemma CheckStep1()
    ensures Feed(0xffffffff, [0x31, 0x32, 0x33]) == 0x77b79c2d
  {
    hide Feed, RefBits;
    FeedByte(0xffffffff, 0x31, 0xaff51d84, 0x7c231048);
    FeedByte(0x7c231048, 0x32, 0xd11492ef, 0xb0acbb32);
    FeedByte(0xb0acbb32, 0x33, 0x16bddbd4, 0x77b79c2d);
    ThreeBytes(0xffffffff, 0x31, 0x32, 0x33);
  }

  lemma CheckStep2()
    ensures Feed(0x77b79c2d, [0x34, 0x35, 0x36]) == 0xf68d2c9e
  {
    hide Feed, RefBits;
    FeedByte(0x77b79c2d, 0x34, 0xf774ea85, 0x641c1f5c);
    FeedByte(0x641c1f5c, 0x35, 0xf64e52b2, 0x340ac5e3);
    FeedByte(0x340ac5e3, 0x36, 0x682bfda9, 0xf68d2c9e);
    ThreeBytes(0x77b79c2d, 0x34, 0x35, 0x36);
  }

  lemma CheckStep3()
    ensures Feed(0xf68d2c9e, [0x37, 0x38, 0x39]) == 0x340bc6d9
  {
    hide Feed, RefBits;
    FeedByte(0xf68d2c9e, 0x37, 0xff67418e, 0xaffc9660);
    FeedByte(0xaffc9660, 0x38, 0xe7474a45, 0x651f2550);
    FeedByte(0x651f2550, 0x39, 0xf65e6112, 0x340bc6d9);
    ThreeBytes(0xf68d2c9e, 0x37, 0x38, 0x39);
  }

  /** The CRC of the digits 1 to 9, complemented, is the check value CBF43926 of this code. */
  lemma CheckValue()
    ensures !Crc([0x31, 0x32, 0x33, 0x34, 0x35, 0x36, 0x37, 0x38, 0x39]) == 0xcbf43926
  {
    hide Feed;
    var a, b, c: seq<bv8> := [0x31, 0x32, 0x33], [0x34, 0x35, 0x36], [0x37, 0x38, 0x39];
    assert [0x31, 0x32, 0x33, 0x34, 0x35, 0x36, 0x37, 0x38, 0x39] == a + b + c;
    FeedConcat(INITIAL, a + b, c);
    FeedConcat(INITIAL, a, b);
    CheckStep1();
    CheckStep2();
    CheckStep3();
  }

  /** The four bytes of a word as a frame carries them, lowest byte first. */
  function LittleEndian(w: bv32): (bs: seq<bv8>)
    ensures |bs| == 4
  {
    [(w & 0xff) as bv8, ((w >> 8) & 0xff) as bv8, ((w >> 16) & 0xff) as bv8, (w >> 24) as bv8]
  }

  lemma BytesOfWord(w: bv32)
    ensures var bs := LittleEndian(w);
            w == Xor(bs[0] as bv32, Raised(Xor(bs[1] as bv32, Raised(Xor(bs[2] as bv32, Raised(bs[3] as bv32))))))
  {
  }

  lemma PackLast(b: bv8)
    ensures Pack([b]) == b as bv32
  {
    assert Pack([b]) == Xor(b as bv32, Raised(0));
  }

  lemma PackLittleEndian(w: bv32)
    ensures Pack(LittleEndian(w)) == w
  {
    hide Xor, Raised, Pack, LittleEndian;
    var bs := LittleEndian(w);
    BytesOfWord(w);
    PackLast(bs[3]);
    assert bs == [bs[0], bs[1], bs[2], bs[3]];
    PackFour(bs[0], bs[1], bs[2], bs[3]);
  }

  lemma PackFour(a: bv8, b: bv8, c: bv8, d: bv8)
    ensures Pack([a, b, c, d])
            == Xor(a as bv32, Raised(Xor(b as bv32, Raised(Xor(c as bv32, Raised(Pack([d])))))))
  {
    hide Xor, Raised;
    assert [a, b, c, d][1..] == [b, c, d] && [b, c, d][1..] == [c, d] && [c, d][1..] == [d];
    assert Pack([c, d]) == Xor(c as bv32, Raised(Pack([d])));
    assert Pack([b, c, d]) == Xor(b as bv32, Raised(Pack([c, d])));
  }

  lemma XorComplement(x: bv32)
    ensures Xor(x, !x) == 0xffff_ffff
  {
  }

  lemma {:induction false} ShiftsOfZero(n: nat)
    ensures Shifts(0, n) == 0
  {
    if n > 0 {
      assert Shift(0) == 0;
      ShiftsOfZero(n - 1);
    }
  }

  lemma ResidueStep1()
    ensures Shifts(0xffffffff, 8) == 0x2dfd1072
  {
    assert Shift(0xffffffff) == 0x92477cdf && Shift(0x92477cdf) == 0xa49b3d4f &&
           Shift(0xa49b3d4f) == 0xbff51d87 && Shift(0xbff51d87) == 0xb2420de3;
    assert Shift(0xb2420de3) == 0xb49985d1 && Shift(0xb49985d1) == 0xb7f441c8 &&
           Shift(0xb7f441c8) == 0x5bfa20e4 && Shift(0x5bfa20e4) == 0x2dfd1072;
  }

  lemma ResidueStep2()
    ensures Shifts(0x2dfd1072, 8) == 0xbe26ed00
  {
    assert Shift(0x2dfd1072) == 0x16fe8839 && Shift(0x16fe8839) == 0xe6c7c73c &&
           Shift(0xe6c7c73c) == 0x7363e39e && Shift(0x7363e39e) == 0x39b1f1cf;
    assert Shift(0x39b1f1cf) == 0xf1607bc7 && Shift(0xf1607bc7) == 0x9508bec3 &&
           Shift(0x9508bec3) == 0xa73cdc41 && Shift(0xa73cdc41) == 0xbe26ed00;
  }

  lemma ResidueStep3()
    ensures Shifts(0xbe26ed00, 8) == 0x00be26ed
  {
    assert Shift(0xbe26ed00) == 0x5f137680 && Shift(0x5f137680) == 0x2f89bb40 &&
           Shift(0x2f89bb40) == 0x17c4dda0 && Shift(0x17c4dda0) == 0x0be26ed0;
    assert Shift(0x0be26ed0) == 0x05f13768 && Shift(0x05f13768) == 0x02f89bb4 &&
           Shift(0x02f89bb4) == 0x017c4dda && Shift(0x017c4dda) == 0x00be26ed;
  }

  lemma ResidueStep4()
    ensures Shifts(0x00be26ed, 8) == 0xdebb20e3
  {
    assert Shift(0x00be26ed) == 0xede79056 && Shift(0xede79056) == 0x76f3c82b &&
           Shift(0x76f3c82b) == 0xd6c16735 && Shift(0xd6c16735) == 0x86d830ba;
    assert Shift(0x86d830ba) == 0x436c185d && Shift(0x436c185d) == 0xcc0e8f0e &&
           Shift(0xcc0e8f0e) == 0x66074787 && Shift(0x66074787) == 0xdebb20e3;
  }

  lemma ResidueValue()
    ensures Shifts(0xffff_ffff, 32) == RESIDUE
  {
    hide Shift, Shifts;
    ResidueStep1();
    ResidueStep2();
    ResidueStep3();
    ResidueStep4();
    ShiftsAdd(0xffff_ffff, 8, 24);
    ShiftsAdd(0x2dfd1072, 8, 16);
    ShiftsAdd(0xbe26ed00, 8, 8);
  }

  /** A frame followed by its complemented checksum leaves the Ethernet residue, whatever the frame. */
  lemma FrameResidue(m: seq<bv8>)
    ensures Crc(m + LittleEndian(!Crc(m))) == RESIDUE
    ensures Crc(m + LittleEndian(Crc(m))) == 0
  {
    hide Feed, Shifts, Xor, Pack, LittleEndian;
    var crc := Crc(m);
    FeedConcat(INITIAL, m, LittleEndian(!crc));
    FeedConcat(INITIAL, m, LittleEndian(crc));
    FeedIsShifts(crc, LittleEndian(!crc));
    FeedIsShifts(crc, LittleEndian(crc));
    PackLittleEndian(!crc);
    PackLittleEndian(crc);
    XorComplement(crc);
    XorZero(crc);
    ShiftsOfZero(32);
    ResidueValue();
  }
}
