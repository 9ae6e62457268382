/**
 A word of a bitfield: 32 bits, the first one in the highest place. Words are taken by value, that is after
 `network_to_host`; `SwarIgnoresByteOrder` is why the one place that reads them raw may do so.
 */
module BitfieldWord {

  const ALL: bv32 := 0xffffffff
  const TOP: bv32 := 0x80000000

  /** The mask of bit `k` alone. */
  function Place(k: nat): bv32
    requires k < 32
  {
    if k == 0 then TOP else Place(k - 1) >> 1
  }

  predicate Bit(w: bv32, k: nat)
    requires k < 32
  {
    w & Place(k) != 0
  }

  /** The mask of the first `rest` bits. */
  function Mask(rest: nat): bv32
    requires rest <= 32
    decreases 32 - rest
  {
    if rest == 32 then ALL else Mask(rest + 1) << 1
  }

  /** The mask of the bits from `b` on. */
  function Low(b: nat): bv32
    requires b < 32
  {
    if b == 0 then ALL else Low(b - 1) >> 1
  }

  function One(w: bv32, k: nat): nat
    requires k < 32
  {
    if Bit(w, k) then 1 else 0
  }

  /** How many of the first `n` bits are set. */
  function Ones(w: bv32, n: nat): nat
    requires n <= 32
  {
    if n == 0 then 0 else Ones(w, n - 1) + One(w, n - 1)
  }

  /** The portable population count: neighbouring fields are added, in fields twice as wide each time. */
  function Swar(v: bv32): bv32 {
    Quads(Bytewise(Nibbles(Pairs(v))))
  }

  function Pairs(v: bv32): bv32 {
    v - ((v >> 1) & 0x55555555)
  }

  function Nibbles(c: bv32): bv32 {
    ((c >> 2) & 0x33333333) + (c & 0x33333333)
  }

  function Bytewise(d: bv32): bv32 {
    ((d >> 4) + d) & 0x0F0F0F0F
  }

  function Quads(e: bv32): bv32 {
    var f := ((e >> 8) + e) & 0x00FF00FF;
    ((f >> 16) + f) & 0x0000FFFF
  }

  /** `host_to_network` on a little-endian machine. */
  function ByteSwap(w: bv32): bv32 {
    (w << 24) | ((w & 0xff00) << 8) | ((w >> 8) & 0xff00) | (w >> 24)
  }

  // Single bits

  lemma {:induction false} ShiftOnce(k: nat)
    requires 0 < k < 32
    ensures TOP >> k == (TOP >> (k - 1)) >> 1
  {
  }

  /** The mask that `get_bit`, `set_bit` and `clear_bit` shift into place. */
  lemma {:induction false} PlaceIsShift(k: nat)
    requires k < 32
    ensures Place(k) == TOP >> k
  {
    if k > 0 {
      PlaceIsShift(k - 1);
      ShiftOnce(k);
    }
  }

  lemma {:induction false} HalfOfOneBit(m: bv32)
    requires m & (m - 1) == 0
    ensures (m >> 1) & ((m >> 1) - 1) == 0
  {
  }

  /** At most one bit of a place is set. */
  lemma {:induction false} PlaceIsOneBit(k: nat)
    requires k < 32
    ensures Place(k) & (Place(k) - 1) == 0
  {
    if k > 0 {
      PlaceIsOneBit(k - 1);
      HalfOfOneBit(Place(k - 1));
    }
  }

  lemma {:induction false} ShiftNotZero(k: nat)
    requires k < 32
    ensures TOP >> k != 0
  {
  }

  predicate InPlace(w: bv32, m: bv32) {
    w & m != 0
  }

  lemma {:induction false} AtOneBit(v: bv32, w: bv32, m: bv32)
    requires m & (m - 1) == 0
    ensures InPlace(v & w, m) <==> InPlace(v, m) && InPlace(w, m)
    ensures InPlace(v | w, m) <==> InPlace(v, m) || InPlace(w, m)
  {
  }

  lemma {:induction false} BitIs(w: bv32, k: nat)
    requires k < 32
    ensures Bit(w, k) <==> InPlace(w, Place(k))
  {
  }

  /** `&` and `|` work bit by bit. */
  lemma {:induction false} AndOrBit(v: bv32, w: bv32, k: nat)
    requires k < 32
    ensures Bit(v & w, k) <==> Bit(v, k) && Bit(w, k)
    ensures Bit(v | w, k) <==> Bit(v, k) || Bit(w, k)
  {
    hide Bit, Place, InPlace;
    PlaceIsOneBit(k);
    BitIs(v, k);
    BitIs(w, k);
    BitIs(v & w, k);
    BitIs(v | w, k);
    AtOneBit(v, w, Place(k));
  }

  lemma {:induction false} Constants(m: bv32)
    requires m != 0
    ensures ALL & m != 0 && 0 & m == 0
  {
  }

  lemma {:induction false} ConstantBit(k: nat)
    requires k < 32
    ensures Bit(ALL, k) && !Bit(0, k)
  {
    PlaceIsShift(k);
    ShiftNotZero(k);
    Constants(Place(k));
  }

  lemma {:induction false} ShiftLeftBy(n: bv5)
    requires n < 31
    ensures ALL << (n + 1) == (ALL << n) << 1
  {
  }

  lemma {:induction false} ShiftLeftOnce(rest: nat)
    requires 0 < rest < 32
    ensures ALL << (32 - rest) == (ALL << (31 - rest)) << 1
  {
    ShiftLeftBy((31 - rest) as bv5);
    assert ((31 - rest) as bv5) + 1 == ((32 - rest) as bv6) as bv5;
  }

  /** The mask that `clear_trailing_bits` and `all_set` shift into place. */
  lemma {:induction false} MaskIsShift(rest: nat)
    requires 0 < rest <= 32
    ensures Mask(rest) == ALL << (32 - rest)
    decreases 32 - rest
  {
    if rest < 32 {
      MaskIsShift(rest + 1);
      ShiftLeftOnce(rest);
    }
  }

  lemma {:induction false} LeftBit(w: bv32, m: bv32)
    ensures (w << 1) & m != 0 <==> w & (m >> 1) != 0
  {
  }

  lemma {:induction false} LastPlace()
    ensures Place(31) >> 1 == 0
  {
    PlaceIsShift(31);
  }

  lemma {:induction false} MaskBit(rest: nat, k: nat)
    requires rest <= 32 && k < 32
    ensures Bit(Mask(rest), k) <==> k < rest
    decreases 32 - rest
  {
    if rest == 32 {
      ConstantBit(k);
    } else {
      LeftBit(Mask(rest + 1), Place(k));
      if k < 31 {
        MaskBit(rest + 1, k + 1);
      } else {
        LastPlace();
      }
    }
  }

  lemma {:induction false} AllShiftOnce(b: nat)
    requires 0 < b < 32
    ensures ALL >> b == (ALL >> (b - 1)) >> 1
  {
  }

  /** The mask with which `resize` fills the rest of a word. */
  lemma {:induction false} LowIsShift(b: nat)
    requires b < 32
    ensures Low(b) == ALL >> b
  {
    if b > 0 {
      LowIsShift(b - 1);
      AllShiftOnce(b);
    }
  }

  lemma {:induction false} LowAtShift(b: nat, k: nat)
    requires b < 32 && k < 32
    ensures (ALL >> b) & (TOP >> k) != 0 <==> k >= b
  {
  }

  lemma {:induction false} LowBit(b: nat, k: nat)
    requires b < 32 && k < 32
    ensures Bit(Low(b), k) <==> k >= b
  {
    LowIsShift(b);
    PlaceIsShift(k);
    LowAtShift(b, k);
  }

  lemma {:induction false} BitIsShift(w: bv32, k: nat, m: bv32)
    requires k < 32 && m == TOP >> k
    ensures Bit(w, k) <==> w & m != 0
  {
    PlaceIsShift(k);
  }

  /** The most significant bit is the first one. */
  lemma {:induction false} HighestFirst(w: bv32)
    ensures Bit(w, 0) <==> w & 0x8000_0000 != 0
    ensures Bit(w, 1) <==> w & 0x4000_0000 != 0
    ensures Bit(w, 31) <==> w & 1 != 0
  {
    hide Bit;
    BitIsShift(w, 0, 0x8000_0000);
    BitIsShift(w, 1, 0x4000_0000);
    BitIsShift(w, 31, 1);
  }

  lemma {:induction false} OneAtShift(k: nat, j: nat)
    requires k < 32 && j < 32
    ensures (TOP >> k) & (TOP >> j) != 0 <==> j == k
    ensures !(TOP >> k) & (TOP >> j) != 0 <==> j != k
  {
  }

  lemma {:induction false} OneBit(k: nat, j: nat, m: bv32)
    requires k < 32 && j < 32 && m == TOP >> k
    ensures Bit(m, j) <==> j == k
  {
    PlaceIsShift(j);
    OneAtShift(k, j);
  }

  lemma {:induction false} OtherBits(k: nat, j: nat, m: bv32)
    requires k < 32 && j < 32 && m == !(TOP >> k)
    ensures Bit(m, j) <==> j != k
  {
    PlaceIsShift(j);
    OneAtShift(k, j);
  }

  lemma {:induction false} Places()
    ensures Place(0) == 0x80000000 && Place(1) == 0x40000000 && Place(2) == 0x20000000 && Place(3) == 0x10000000
    ensures Place(4) == 0x8000000 && Place(5) == 0x4000000 && Place(6) == 0x2000000 && Place(7) == 0x1000000
    ensures Place(8) == 0x800000 && Place(9) == 0x400000 && Place(10) == 0x200000 && Place(11) == 0x100000
    ensures Place(12) == 0x80000 && Place(13) == 0x40000 && Place(14) == 0x20000 && Place(15) == 0x10000
    ensures Place(16) == 0x8000 && Place(17) == 0x4000 && Place(18) == 0x2000 && Place(19) == 0x1000
    ensures Place(20) == 0x800 && Place(21) == 0x400 && Place(22) == 0x200 && Place(23) == 0x100
    ensures Place(24) == 0x80 && Place(25) == 0x40 && Place(26) == 0x20 && Place(27) == 0x10
    ensures Place(28) == 0x8 && Place(29) == 0x4 && Place(30) == 0x2 && Place(31) == 0x1
  {
    assert Place(0) == 0x80000000;
    assert Place(4) == 0x8000000;
    assert Place(8) == 0x800000;
    assert Place(12) == 0x80000;
    assert Place(16) == 0x8000;
    assert Place(20) == 0x800;
    assert Place(24) == 0x80;
    assert Place(28) == 0x8;
  }

  lemma {:induction false} SameByte0(a: bv32, b: bv32)
    requires Bit(a, 0) == Bit(b, 0) && Bit(a, 1) == Bit(b, 1) && Bit(a, 2) == Bit(b, 2) && Bit(a, 3) == Bit(b, 3)
    requires Bit(a, 4) == Bit(b, 4) && Bit(a, 5) == Bit(b, 5) && Bit(a, 6) == Bit(b, 6) && Bit(a, 7) == Bit(b, 7)
    ensures a & 0xff000000 == b & 0xff000000
  {
    Places();
  }

  lemma {:induction false} SameByte1(a: bv32, b: bv32)
    requires Bit(a, 8) == Bit(b, 8) && Bit(a, 9) == Bit(b, 9) && Bit(a, 10) == Bit(b, 10) && Bit(a, 11) == Bit(b, 11)
    requires Bit(a, 12) == Bit(b, 12) && Bit(a, 13) == Bit(b, 13) && Bit(a, 14) == Bit(b, 14)
      && Bit(a, 15) == Bit(b, 15)
    ensures a & 0xff0000 == b & 0xff0000
  {
    Places();
  }

  lemma {:induction false} SameByte2(a: bv32, b: bv32)
    requires Bit(a, 16) == Bit(b, 16) && Bit(a, 17) == Bit(b, 17) && Bit(a, 18) == Bit(b, 18)
      && Bit(a, 19) == Bit(b, 19)
    requires Bit(a, 20) == Bit(b, 20) && Bit(a, 21) == Bit(b, 21) && Bit(a, 22) == Bit(b, 22)
      && Bit(a, 23) == Bit(b, 23)
    ensures a & 0xff00 == b & 0xff00
  {
    Places();
  }

  lemma {:induction false} SameByte3(a: bv32, b: bv32)
    requires Bit(a, 24) == Bit(b, 24) && Bit(a, 25) == Bit(b, 25) && Bit(a, 26) == Bit(b, 26)
      && Bit(a, 27) == Bit(b, 27)
    requires Bit(a, 28) == Bit(b, 28) && Bit(a, 29) == Bit(b, 29) && Bit(a, 30) == Bit(b, 30)
      && Bit(a, 31) == Bit(b, 31)
    ensures a & 0xff == b & 0xff
  {
    Places();
  }

  lemma {:induction false} SameBytes(a: bv32, b: bv32)
    requires a & 0xff000000 == b & 0xff000000 && a & 0xff0000 == b & 0xff0000
    requires a & 0xff00 == b & 0xff00 && a & 0xff == b & 0xff
    ensures a == b
  {
  }

  /** Words with the same bits are the same word. */
  lemma {:induction false} SameBits(a: bv32, b: bv32)
    requires forall k :: 0 <= k < 32 ==> Bit(a, k) == Bit(b, k)
    ensures a == b
  {
    SameByte0(a, b);
    SameByte1(a, b);
    SameByte2(a, b);
    SameByte3(a, b);
    SameBytes(a, b);
  }

  // The population count

  function Flag(w: bv32): nat {
    if w != 0 then 1 else 0
  }

  /** The number that a small word stands for. */
  function Val(x: bv32): nat {
    if x == 0 then 0 else if x == 1 then 1 else if x == 2 then 2 else if x == 3 then 3 else if x == 4 then 4
    else if x == 5 then 5 else if x == 6 then 6 else if x == 7 then 7 else 8
  }

  lemma {:induction false} ValAdd(x: bv32, y: bv32, z: bv32)
    requires x <= 4 && y <= 4 && z == x + y
    ensures Val(z) == Val(x) + Val(y)
  {
  }

  lemma {:induction false} ValIsNat(x: bv32)
    requires x <= 8
    ensures x as nat == Val(x)
  {
  }

  /** Small words are added as numbers are. */
  lemma {:induction false} AddSmall(x: bv32, y: bv32)
    requires x <= 16 && y <= 16
    ensures (x + y) as nat == x as nat + y as nat
  {
  }

  /** A byte, from its bits by way of pairs and nibbles. */
  lemma {:induction false} ByteValue(b0: bv32, b1: bv32, b2: bv32, b3: bv32, b4: bv32, b5: bv32, b6: bv32, b7: bv32,
                                     p0: bv32, p1: bv32, p2: bv32, p3: bv32, n0: bv32, n1: bv32, e: bv32)
    requires b0 <= 1 && b1 <= 1 && b2 <= 1 && b3 <= 1 && b4 <= 1 && b5 <= 1 && b6 <= 1 && b7 <= 1
    requires p0 == b0 + b1 && p1 == b2 + b3 && p2 == b4 + b5 && p3 == b6 + b7
    requires n0 == p0 + p1 && n1 == p2 + p3 && e == n0 + n1
    ensures n0 <= 4 && n1 <= 4 && e <= 8
    ensures Val(e) == Val(b0) + Val(b1) + Val(b2) + Val(b3) + Val(b4) + Val(b5) + Val(b6) + Val(b7)
  {
    ValAdd(b0, b1, p0);
    ValAdd(b2, b3, p1);
    ValAdd(b4, b5, p2);
    ValAdd(b6, b7, p3);
    ValAdd(p0, p1, n0);
    ValAdd(p2, p3, n1);
    ValAdd(n0, n1, e);
  }

  lemma {:induction false} BytesValue(x: bv32, y: bv32)
    requires x <= 8 && y <= 8
    ensures x + y <= 16 && (x + y) as nat == Val(x) + Val(y)
  {
    ValIsNat(x);
    ValIsNat(y);
    AddSmall(x, y);
  }

  lemma {:induction false} WordValue(b0: bv32, b1: bv32, b2: bv32, b3: bv32, h0: bv32, h1: bv32, r: bv32)
    requires b0 <= 8 && b1 <= 8 && b2 <= 8 && b3 <= 8
    requires h0 == b0 + b1 && h1 == b2 + b3 && r == h0 + h1
    ensures r as nat == Val(b0) + Val(b1) + Val(b2) + Val(b3)
  {
    BytesValue(b0, b1);
    BytesValue(b2, b3);
    AddSmall(h0, h1);
  }

  lemma {:induction false} BitVal(v: bv32, k: nat, m: bv32)
    requires k < 32 && Place(k) == m
    ensures One(v, k) == Flag(v & m)
  {
  }

  lemma {:induction false} Flags0(v: bv32)
    ensures Val((v >> 31) & 1) == Flag(v & 0x80000000)
    ensures Val((v >> 30) & 1) == Flag(v & 0x40000000)
    ensures Val((v >> 29) & 1) == Flag(v & 0x20000000)
    ensures Val((v >> 28) & 1) == Flag(v & 0x10000000)
    ensures Val((v >> 27) & 1) == Flag(v & 0x8000000)
    ensures Val((v >> 26) & 1) == Flag(v & 0x4000000)
    ensures Val((v >> 25) & 1) == Flag(v & 0x2000000)
    ensures Val((v >> 24) & 1) == Flag(v & 0x1000000)
  {
  }

  lemma {:induction false} BitVals0(v: bv32)
    ensures Val((v >> 31) & 1) == One(v, 0)
    ensures Val((v >> 30) & 1) == One(v, 1)
    ensures Val((v >> 29) & 1) == One(v, 2)
    ensures Val((v >> 28) & 1) == One(v, 3)
    ensures Val((v >> 27) & 1) == One(v, 4)
    ensures Val((v >> 26) & 1) == One(v, 5)
    ensures Val((v >> 25) & 1) == One(v, 6)
    ensures Val((v >> 24) & 1) == One(v, 7)
  {
    Places();
    Flags0(v);
    BitVal(v, 0, 0x80000000);
    BitVal(v, 1, 0x40000000);
    BitVal(v, 2, 0x20000000);
    BitVal(v, 3, 0x10000000);
    BitVal(v, 4, 0x8000000);
    BitVal(v, 5, 0x4000000);
    BitVal(v, 6, 0x2000000);
    BitVal(v, 7, 0x1000000);
  }

  lemma {:induction false} Flags1(v: bv32)
    ensures Val((v >> 23) & 1) == Flag(v & 0x800000)
    ensures Val((v >> 22) & 1) == Flag(v & 0x400000)
    ensures Val((v >> 21) & 1) == Flag(v & 0x200000)
    ensures Val((v >> 20) & 1) == Flag(v & 0x100000)
    ensures Val((v >> 19) & 1) == Flag(v & 0x80000)
    ensures Val((v >> 18) & 1) == Flag(v & 0x40000)
    ensures Val((v >> 17) & 1) == Flag(v & 0x20000)
    ensures Val((v >> 16) & 1) == Flag(v & 0x10000)
  {
  }

  lemma {:induction false} BitVals1(v: bv32)
    ensures Val((v >> 23) & 1) == One(v, 8)
    ensures Val((v >> 22) & 1) == One(v, 9)
    ensures Val((v >> 21) & 1) == One(v, 10)
    ensures Val((v >> 20) & 1) == One(v, 11)
    ensures Val((v >> 19) & 1) == One(v, 12)
    ensures Val((v >> 18) & 1) == One(v, 13)
    ensures Val((v >> 17) & 1) == One(v, 14)
    ensures Val((v >> 16) & 1) == One(v, 15)
  {
    Places();
    Flags1(v);
    BitVal(v, 8, 0x800000);
    BitVal(v, 9, 0x400000);
    BitVal(v, 10, 0x200000);
    BitVal(v, 11, 0x100000);
    BitVal(v, 12, 0x80000);
    BitVal(v, 13, 0x40000);
    BitVal(v, 14, 0x20000);
    BitVal(v, 15, 0x10000);
  }

  lemma {:induction false} Flags2(v: bv32)
    ensures Val((v >> 15) & 1) == Flag(v & 0x8000)
    ensures Val((v >> 14) & 1) == Flag(v & 0x4000)
    ensures Val((v >> 13) & 1) == Flag(v & 0x2000)
    ensures Val((v >> 12) & 1) == Flag(v & 0x1000)
    ensures Val((v >> 11) & 1) == Flag(v & 0x800)
    ensures Val((v >> 10) & 1) == Flag(v & 0x400)
    ensures Val((v >> 9) & 1) == Flag(v & 0x200)
    ensures Val((v >> 8) & 1) == Flag(v & 0x100)
  {
  }

  lemma {:induction false} BitVals2(v: bv32)
    ensures Val((v >> 15) & 1) == One(v, 16)
    ensures Val((v >> 14) & 1) == One(v, 17)
    ensures Val((v >> 13) & 1) == One(v, 18)
    ensures Val((v >> 12) & 1) == One(v, 19)
    ensures Val((v >> 11) & 1) == One(v, 20)
    ensures Val((v >> 10) & 1) == One(v, 21)
    ensures Val((v >> 9) & 1) == One(v, 22)
    ensures Val((v >> 8) & 1) == One(v, 23)
  {
    Places();
    Flags2(v);
    BitVal(v, 16, 0x8000);
    BitVal(v, 17, 0x4000);
    BitVal(v, 18, 0x2000);
    BitVal(v, 19, 0x1000);
    BitVal(v, 20, 0x800);
    BitVal(v, 21, 0x400);
    BitVal(v, 22, 0x200);
    BitVal(v, 23, 0x100);
  }

  lemma {:induction false} Flags3(v: bv32)
    ensures Val((v >> 7) & 1) == Flag(v & 0x80)
    ensures Val((v >> 6) & 1) == Flag(v & 0x40)
    ensures Val((v >> 5) & 1) == Flag(v & 0x20)
    ensures Val((v >> 4) & 1) == Flag(v & 0x10)
    ensures Val((v >> 3) & 1) == Flag(v & 0x8)
    ensures Val((v >> 2) & 1) == Flag(v & 0x4)
    ensures Val((v >> 1) & 1) == Flag(v & 0x2)
    ensures Val(v & 1) == Flag(v & 0x1)
  {
  }

  lemma {:induction false} BitVals3(v: bv32)
    ensures Val((v >> 7) & 1) == One(v, 24)
    ensures Val((v >> 6) & 1) == One(v, 25)
    ensures Val((v >> 5) & 1) == One(v, 26)
    ensures Val((v >> 4) & 1) == One(v, 27)
    ensures Val((v >> 3) & 1) == One(v, 28)
    ensures Val((v >> 2) & 1) == One(v, 29)
    ensures Val((v >> 1) & 1) == One(v, 30)
    ensures Val(v & 1) == One(v, 31)
  {
    Places();
    Flags3(v);
    BitVal(v, 24, 0x80);
    BitVal(v, 25, 0x40);
    BitVal(v, 26, 0x20);
    BitVal(v, 27, 0x10);
    BitVal(v, 28, 0x8);
    BitVal(v, 29, 0x4);
    BitVal(v, 30, 0x2);
    BitVal(v, 31, 0x1);
  }

  lemma {:induction false} PairFields(v: bv32, c: bv32)
    requires c == Pairs(v)
    ensures (c >> 30) & 3 == ((v >> 31) & 1) + ((v >> 30) & 1)
    ensures (c >> 28) & 3 == ((v >> 29) & 1) + ((v >> 28) & 1)
    ensures (c >> 26) & 3 == ((v >> 27) & 1) + ((v >> 26) & 1)
    ensures (c >> 24) & 3 == ((v >> 25) & 1) + ((v >> 24) & 1)
    ensures (c >> 22) & 3 == ((v >> 23) & 1) + ((v >> 22) & 1)
    ensures (c >> 20) & 3 == ((v >> 21) & 1) + ((v >> 20) & 1)
    ensures (c >> 18) & 3 == ((v >> 19) & 1) + ((v >> 18) & 1)
    ensures (c >> 16) & 3 == ((v >> 17) & 1) + ((v >> 16) & 1)
    ensures (c >> 14) & 3 == ((v >> 15) & 1) + ((v >> 14) & 1)
    ensures (c >> 12) & 3 == ((v >> 13) & 1) + ((v >> 12) & 1)
    ensures (c >> 10) & 3 == ((v >> 11) & 1) + ((v >> 10) & 1)
    ensures (c >> 8) & 3 == ((v >> 9) & 1) + ((v >> 8) & 1)
    ensures (c >> 6) & 3 == ((v >> 7) & 1) + ((v >> 6) & 1)
    ensures (c >> 4) & 3 == ((v >> 5) & 1) + ((v >> 4) & 1)
    ensures (c >> 2) & 3 == ((v >> 3) & 1) + ((v >> 2) & 1)
    ensures c & 3 == ((v >> 1) & 1) + (v & 1)
  {
  }

  lemma {:induction false} NibbleFields(c: bv32, d: bv32)
    requires d == Nibbles(c)
    ensures (d >> 28) & 15 == ((c >> 30) & 3) + ((c >> 28) & 3)
    ensures (d >> 24) & 15 == ((c >> 26) & 3) + ((c >> 24) & 3)
    ensures (d >> 20) & 15 == ((c >> 22) & 3) + ((c >> 20) & 3)
    ensures (d >> 16) & 15 == ((c >> 18) & 3) + ((c >> 16) & 3)
    ensures (d >> 12) & 15 == ((c >> 14) & 3) + ((c >> 12) & 3)
    ensures (d >> 8) & 15 == ((c >> 10) & 3) + ((c >> 8) & 3)
    ensures (d >> 4) & 15 == ((c >> 6) & 3) + ((c >> 4) & 3)
    ensures d & 15 == ((c >> 2) & 3) + (c & 3)
  {
  }

  lemma {:induction false} ByteFields(d: bv32, e: bv32)
    requires e == Bytewise(d)
    requires ((d >> 28) & 15) <= 4 && ((d >> 24) & 15) <= 4 && ((d >> 20) & 15) <= 4 && ((d >> 16) & 15) <= 4
    requires ((d >> 12) & 15) <= 4 && ((d >> 8) & 15) <= 4 && ((d >> 4) & 15) <= 4 && (d & 15) <= 4
    ensures (e >> 24) & 255 == ((d >> 28) & 15) + ((d >> 24) & 15)
    ensures (e >> 16) & 255 == ((d >> 20) & 15) + ((d >> 16) & 15)
    ensures (e >> 8) & 255 == ((d >> 12) & 15) + ((d >> 8) & 15)
    ensures e & 255 == ((d >> 4) & 15) + (d & 15)
  {
  }

  lemma {:induction false} QuadFields(e: bv32, r: bv32)
    requires ((e >> 24) & 255) <= 8 && ((e >> 16) & 255) <= 8 && ((e >> 8) & 255) <= 8 && (e & 255) <= 8
    requires r == Quads(e)
    ensures r == (((e >> 24) & 255) + ((e >> 16) & 255)) + (((e >> 8) & 255) + (e & 255))
  {
  }

  lemma {:induction false} Ones0(v: bv32)
    ensures Ones(v, 8) == Ones(v, 0) + Val((v >> 31) & 1) + Val((v >> 30) & 1) + Val((v >> 29) & 1)
      + Val((v >> 28) & 1) + Val((v >> 27) & 1) + Val((v >> 26) & 1) + Val((v >> 25) & 1) + Val((v >> 24) & 1)
  {
    BitVals0(v);
    assert Ones(v, 2) == Ones(v, 0) + One(v, 0) + One(v, 1);
    assert Ones(v, 4) == Ones(v, 2) + One(v, 2) + One(v, 3);
    assert Ones(v, 6) == Ones(v, 4) + One(v, 4) + One(v, 5);
    assert Ones(v, 8) == Ones(v, 6) + One(v, 6) + One(v, 7);
  }

  lemma {:induction false} Byte0(v: bv32, c: bv32, d: bv32, e: bv32)
    requires c == Pairs(v) && d == Nibbles(c) && e == ((d >> 28) & 15) + ((d >> 24) & 15)
    ensures ((d >> 28) & 15) <= 4 && ((d >> 24) & 15) <= 4 && e <= 8
    ensures Val(e) == Val((v >> 31) & 1) + Val((v >> 30) & 1) + Val((v >> 29) & 1) + Val((v >> 28) & 1)
      + Val((v >> 27) & 1) + Val((v >> 26) & 1) + Val((v >> 25) & 1) + Val((v >> 24) & 1)
  {
    PairFields(v, c);
    NibbleFields(c, d);
    ByteValue((v >> 31) & 1, (v >> 30) & 1, (v >> 29) & 1, (v >> 28) & 1,
      (v >> 27) & 1, (v >> 26) & 1, (v >> 25) & 1, (v >> 24) & 1,
      (c >> 30) & 3, (c >> 28) & 3, (c >> 26) & 3, (c >> 24) & 3,
      (d >> 28) & 15, (d >> 24) & 15, e);
  }

  lemma {:induction false} Ones1(v: bv32)
    ensures Ones(v, 16) == Ones(v, 8) + Val((v >> 23) & 1) + Val((v >> 22) & 1) + Val((v >> 21) & 1)
      + Val((v >> 20) & 1) + Val((v >> 19) & 1) + Val((v >> 18) & 1) + Val((v >> 17) & 1) + Val((v >> 16) & 1)
  {
    BitVals1(v);
    assert Ones(v, 10) == Ones(v, 8) + One(v, 8) + One(v, 9);
    assert Ones(v, 12) == Ones(v, 10) + One(v, 10) + One(v, 11);
    assert Ones(v, 14) == Ones(v, 12) + One(v, 12) + One(v, 13);
    assert Ones(v, 16) == Ones(v, 14) + One(v, 14) + One(v, 15);
  }

  lemma {:induction false} Byte1(v: bv32, c: bv32, d: bv32, e: bv32)
    requires c == Pairs(v) && d == Nibbles(c) && e == ((d >> 20) & 15) + ((d >> 16) & 15)
    ensures ((d >> 20) & 15) <= 4 && ((d >> 16) & 15) <= 4 && e <= 8
    ensures Val(e) == Val((v >> 23) & 1) + Val((v >> 22) & 1) + Val((v >> 21) & 1) + Val((v >> 20) & 1)
      + Val((v >> 19) & 1) + Val((v >> 18) & 1) + Val((v >> 17) & 1) + Val((v >> 16) & 1)
  {
    PairFields(v, c);
    NibbleFields(c, d);
    ByteValue((v >> 23) & 1, (v >> 22) & 1, (v >> 21) & 1, (v >> 20) & 1,
      (v >> 19) & 1, (v >> 18) & 1, (v >> 17) & 1, (v >> 16) & 1,
      (c >> 22) & 3, (c >> 20) & 3, (c >> 18) & 3, (c >> 16) & 3,
      (d >> 20) & 15, (d >> 16) & 15, e);
  }

  lemma {:induction false} Ones2(v: bv32)
    ensures Ones(v, 24) == Ones(v, 16) + Val((v >> 15) & 1) + Val((v >> 14) & 1) + Val((v >> 13) & 1)
      + Val((v >> 12) & 1) + Val((v >> 11) & 1) + Val((v >> 10) & 1) + Val((v >> 9) & 1) + Val((v >> 8) & 1)
  {
    BitVals2(v);
    assert Ones(v, 18) == Ones(v, 16) + One(v, 16) + One(v, 17);
    assert Ones(v, 20) == Ones(v, 18) + One(v, 18) + One(v, 19);
    assert Ones(v, 22) == Ones(v, 20) + One(v, 20) + One(v, 21);
    assert Ones(v, 24) == Ones(v, 22) + One(v, 22) + One(v, 23);
  }

  lemma {:induction false} Byte2(v: bv32, c: bv32, d: bv32, e: bv32)
    requires c == Pairs(v) && d == Nibbles(c) && e == ((d >> 12) & 15) + ((d >> 8) & 15)
    ensures ((d >> 12) & 15) <= 4 && ((d >> 8) & 15) <= 4 && e <= 8
    ensures Val(e) == Val((v >> 15) & 1) + Val((v >> 14) & 1) + Val((v >> 13) & 1) + Val((v >> 12) & 1)
      + Val((v >> 11) & 1) + Val((v >> 10) & 1) + Val((v >> 9) & 1) + Val((v >> 8) & 1)
  {
    PairFields(v, c);
    NibbleFields(c, d);
    ByteValue((v >> 15) & 1, (v >> 14) & 1, (v >> 13) & 1, (v >> 12) & 1,
      (v >> 11) & 1, (v >> 10) & 1, (v >> 9) & 1, (v >> 8) & 1,
      (c >> 14) & 3, (c >> 12) & 3, (c >> 10) & 3, (c >> 8) & 3,
      (d >> 12) & 15, (d >> 8) & 15, e);
  }

  lemma {:induction false} Ones3(v: bv32)
    ensures Ones(v, 32) == Ones(v, 24) + Val((v >> 7) & 1) + Val((v >> 6) & 1) + Val((v >> 5) & 1)
      + Val((v >> 4) & 1) + Val((v >> 3) & 1) + Val((v >> 2) & 1) + Val((v >> 1) & 1) + Val(v & 1)
  {
    BitVals3(v);
    assert Ones(v, 26) == Ones(v, 24) + One(v, 24) + One(v, 25);
    assert Ones(v, 28) == Ones(v, 26) + One(v, 26) + One(v, 27);
    assert Ones(v, 30) == Ones(v, 28) + One(v, 28) + One(v, 29);
    assert Ones(v, 32) == Ones(v, 30) + One(v, 30) + One(v, 31);
  }

  lemma {:induction false} Byte3(v: bv32, c: bv32, d: bv32, e: bv32)
    requires c == Pairs(v) && d == Nibbles(c) && e == ((d >> 4) & 15) + (d & 15)
    ensures ((d >> 4) & 15) <= 4 && (d & 15) <= 4 && e <= 8
    ensures Val(e) == Val((v >> 7) & 1) + Val((v >> 6) & 1) + Val((v >> 5) & 1) + Val((v >> 4) & 1)
      + Val((v >> 3) & 1) + Val((v >> 2) & 1) + Val((v >> 1) & 1) + Val(v & 1)
  {
    PairFields(v, c);
    NibbleFields(c, d);
    ByteValue((v >> 7) & 1, (v >> 6) & 1, (v >> 5) & 1, (v >> 4) & 1,
      (v >> 3) & 1, (v >> 2) & 1, (v >> 1) & 1, v & 1,
      (c >> 6) & 3, (c >> 4) & 3, (c >> 2) & 3, c & 3,
      (d >> 4) & 15, d & 15, e);
  }

  lemma {:induction false} ByteOnes0(v: bv32, c: bv32, d: bv32, e: bv32)
    requires c == Pairs(v) && d == Nibbles(c) && e == ((d >> 28) & 15) + ((d >> 24) & 15)
    ensures ((d >> 28) & 15) <= 4 && ((d >> 24) & 15) <= 4 && e <= 8
    ensures Val(e) == Ones(v, 8) - Ones(v, 0)
  {
    Byte0(v, c, d, e);
    Ones0(v);
  }

  lemma {:induction false} ByteOnes1(v: bv32, c: bv32, d: bv32, e: bv32)
    requires c == Pairs(v) && d == Nibbles(c) && e == ((d >> 20) & 15) + ((d >> 16) & 15)
    ensures ((d >> 20) & 15) <= 4 && ((d >> 16) & 15) <= 4 && e <= 8
    ensures Val(e) == Ones(v, 16) - Ones(v, 8)
  {
    Byte1(v, c, d, e);
    Ones1(v);
  }

  lemma {:induction false} ByteOnes2(v: bv32, c: bv32, d: bv32, e: bv32)
    requires c == Pairs(v) && d == Nibbles(c) && e == ((d >> 12) & 15) + ((d >> 8) & 15)
    ensures ((d >> 12) & 15) <= 4 && ((d >> 8) & 15) <= 4 && e <= 8
    ensures Val(e) == Ones(v, 24) - Ones(v, 16)
  {
    Byte2(v, c, d, e);
    Ones2(v);
  }

  lemma {:induction false} ByteOnes3(v: bv32, c: bv32, d: bv32, e: bv32)
    requires c == Pairs(v) && d == Nibbles(c) && e == ((d >> 4) & 15) + (d & 15)
    ensures ((d >> 4) & 15) <= 4 && (d & 15) <= 4 && e <= 8
    ensures Val(e) == Ones(v, 32) - Ones(v, 24)
  {
    Byte3(v, c, d, e);
    Ones3(v);
  }

  lemma {:induction false} SwarLimits(v: bv32, d: bv32, e: bv32)
    requires d == Nibbles(Pairs(v)) && e == Bytewise(d)
    ensures ((d >> 28) & 15) <= 4 && ((d >> 24) & 15) <= 4 && ((d >> 20) & 15) <= 4 && ((d >> 16) & 15) <= 4
    ensures ((d >> 12) & 15) <= 4 && ((d >> 8) & 15) <= 4 && ((d >> 4) & 15) <= 4 && (d & 15) <= 4
    ensures ((e >> 24) & 255) <= 8 && ((e >> 16) & 255) <= 8 && ((e >> 8) & 255) <= 8 && (e & 255) <= 8
  {
    var c := Pairs(v);
    ByteOnes0(v, c, d, ((d >> 28) & 15) + ((d >> 24) & 15));
    ByteOnes1(v, c, d, ((d >> 20) & 15) + ((d >> 16) & 15));
    ByteOnes2(v, c, d, ((d >> 12) & 15) + ((d >> 8) & 15));
    ByteOnes3(v, c, d, ((d >> 4) & 15) + (d & 15));
    ByteFields(d, e);
  }

  lemma {:induction false} QuadBytes(e: bv32, r: bv32)
    returns (b0: bv32, b1: bv32, b2: bv32, b3: bv32, h0: bv32, h1: bv32)
    requires ((e >> 24) & 255) <= 8 && ((e >> 16) & 255) <= 8 && ((e >> 8) & 255) <= 8 && (e & 255) <= 8
    requires r == Quads(e)
    ensures b0 == (e >> 24) & 255 && b1 == (e >> 16) & 255 && b2 == (e >> 8) & 255 && b3 == e & 255
    ensures h0 == b0 + b1 && h1 == b2 + b3 && r == h0 + h1
  {
    QuadFields(e, r);
    b0, b1, b2, b3 := (e >> 24) & 255, (e >> 16) & 255, (e >> 8) & 255, e & 255;
    h0, h1 := b0 + b1, b2 + b3;
  }

  /** The four bytes whose sum the population count is. */
  lemma {:induction false} SwarBytes(v: bv32, c: bv32, d: bv32, e: bv32, r: bv32)
    returns (b0: bv32, b1: bv32, b2: bv32, b3: bv32, h0: bv32, h1: bv32)
    requires c == Pairs(v) && d == Nibbles(c) && e == Bytewise(d) && r == Quads(e)
    ensures b0 <= 8 && b1 <= 8 && b2 <= 8 && b3 <= 8
    ensures h0 == b0 + b1 && h1 == b2 + b3 && r == h0 + h1
    ensures Val(b0) == Ones(v, 8) && Val(b1) == Ones(v, 16) - Ones(v, 8)
    ensures Val(b2) == Ones(v, 24) - Ones(v, 16) && Val(b3) == Ones(v, 32) - Ones(v, 24)
  {
    SwarLimits(v, d, e);
    ByteFields(d, e);
    b0, b1, b2, b3, h0, h1 := QuadBytes(e, r);
    ByteOnes0(v, c, d, b0);
    ByteOnes1(v, c, d, b1);
    ByteOnes2(v, c, d, b2);
    ByteOnes3(v, c, d, b3);
  }

  /** The population count, step by step, counts the set bits of a word. */
  lemma {:induction false} SwarIsOnes(v: bv32, c: bv32, d: bv32, e: bv32, r: bv32)
    requires c == Pairs(v) && d == Nibbles(c) && e == Bytewise(d) && r == Quads(e)
    ensures r as nat == Ones(v, 32)
  {
    var b0, b1, b2, b3, h0, h1 := SwarBytes(v, c, d, e, r);
    WordValue(b0, b1, b2, b3, h0, h1, r);
  }

  lemma {:induction false} PairsAdd(v: bv32)
    ensures Pairs(v) == (v & 0x55555555) + ((v >> 1) & 0x55555555)
  {
  }

  lemma {:induction false} SwapSums(v: bv32)
    ensures (ByteSwap(v) & 0x55555555) + ((ByteSwap(v) >> 1) & 0x55555555)
         == ByteSwap((v & 0x55555555) + ((v >> 1) & 0x55555555))
  {
  }

  lemma {:induction false} SwapPairs(v: bv32)
    ensures Pairs(ByteSwap(v)) == ByteSwap(Pairs(v))
  {
    PairsAdd(v);
    PairsAdd(ByteSwap(v));
    SwapSums(v);
  }

  lemma {:induction false} SwapNibbles(c: bv32)
    ensures Nibbles(ByteSwap(c)) == ByteSwap(Nibbles(c))
  {
  }

  lemma {:induction false} SwapBytewise(d: bv32)
    requires ((d >> 28) & 15) <= 4 && ((d >> 24) & 15) <= 4 && ((d >> 20) & 15) <= 4 && ((d >> 16) & 15) <= 4
    requires ((d >> 12) & 15) <= 4 && ((d >> 8) & 15) <= 4 && ((d >> 4) & 15) <= 4 && (d & 15) <= 4
    ensures Bytewise(ByteSwap(d)) == ByteSwap(Bytewise(d))
  {
  }

  lemma {:induction false} SwapQuads(e: bv32)
    requires ((e >> 24) & 255) <= 8 && ((e >> 16) & 255) <= 8 && ((e >> 8) & 255) <= 8 && (e & 255) <= 8
    ensures Quads(ByteSwap(e)) == Quads(e)
  {
  }

  /** Reading the word with its bytes in the other order does not change the count. */
  lemma {:induction false} SwarIgnoresByteOrder(v: bv32)
    ensures Swar(ByteSwap(v)) == Swar(v)
  {
    var c := Pairs(v);
    var d := Nibbles(c);
    var e := Bytewise(d);
    SwarLimits(v, d, e);
    SwapPairs(v);
    SwapNibbles(c);
    SwapBytewise(d);
    SwapQuads(e);
  }
}
