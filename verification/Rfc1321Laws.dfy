/** What the primitives of Rfc1321 compute, bit by bit and as numbers, apart from how they are
    written. */
module Rfc1321Laws {
  import opened Common
  import opened Rfc1321

  // ---- the round functions, at every set m of bit positions ----

  /** F is y where x has ones and z where it has zeros. */
  lemma FByBit(x: Word, y: Word, z: Word, m: Word)
    ensures x & m == m ==> F(x, y, z) & m == y & m
    ensures x & m == 0 ==> F(x, y, z) & m == z & m
  {
  }

  /** G is x where z has ones and y where it has zeros. */
  lemma GByBit(x: Word, y: Word, z: Word, m: Word)
    ensures z & m == m ==> G(x, y, z) & m == x & m
    ensures z & m == 0 ==> G(x, y, z) & m == y & m
  {
  }

  /** H is z where x and y agree and its complement where they differ. */
  lemma HByBit(x: Word, y: Word, z: Word, m: Word)
    ensures (x ^ y) & m == 0 ==> H(x, y, z) & m == z & m
    ensures (x ^ y) & m == m ==> H(x, y, z) & m == !z & m
  {
  }

  /** I is the complement of y where x has ones or z has zeros, and y elsewhere. */
  lemma IByBit(x: Word, y: Word, z: Word, m: Word)
    ensures x & m == m || z & m == 0 ==> I(x, y, z) & m == !y & m
    ensures x & m == 0 && z & m == m ==> I(x, y, z) & m == y & m
  {
  }

  /** Which of them the operations of each round mix with. */
  lemma MixIs(i: nat, x: Word, y: Word, z: Word)
    requires i < 64
    ensures i / 16 == 0 ==> Mix(i, x, y, z) == F(x, y, z)
    ensures i / 16 == 1 ==> Mix(i, x, y, z) == G(x, y, z)
    ensures i / 16 == 2 ==> Mix(i, x, y, z) == H(x, y, z)
    ensures i / 16 == 3 ==> Mix(i, x, y, z) == I(x, y, z)
  {
  }

  // ---- words as numbers ----

  /** The bytes of a word, low-order byte first, as numbers. */
  function Byte0(w: Word): U8 { AsNumber((w & 0xFF) as bv8) }
  function Byte1(w: Word): U8 { AsNumber(((w >> 8) & 0xFF) as bv8) }
  function Byte2(w: Word): U8 { AsNumber(((w >> 16) & 0xFF) as bv8) }
  function Byte3(w: Word): U8 { AsNumber(((w >> 24) & 0xFF) as bv8) }

  /** The number with these digits to the base 256, the lowest first. */
  function Base256(a: nat, b: nat, c: nat, d: nat): nat {
    a + 0x100 * b + 0x1_0000 * c + 0x100_0000 * d
  }

  function Number(w: Word): (n: nat)
    ensures n < TWO_32
  {
    Base256(Byte0(w), Byte1(w), Byte2(w), Byte3(w))
  }

  function Pow256(j: nat): (p: nat)
    requires j < 4
    ensures p > 0
  {
    if j == 0 then 1 else if j == 1 then 0x100 else if j == 2 then 0x1_0000 else 0x100_0000
  }

  lemma ByteOfIs(w: Word)
    ensures ByteOf(w, 0) == Byte0(w) && ByteOf(w, 1) == Byte1(w) && ByteOf(w, 2) == Byte2(w) && ByteOf(w, 3) == Byte3(w)
  {
    hide AsNumber;
  }

  lemma DigitsOf(a: nat, b: nat, c: nat, d: nat)
    requires a < 0x100 && b < 0x100 && c < 0x100 && d < 0x100
    ensures var n := Base256(a, b, c, d);
      n % 0x100 == a && n / 0x100 % 0x100 == b && n / 0x1_0000 % 0x100 == c && n / 0x100_0000 % 0x100 == d
  {
    var n := Base256(a, b, c, d);
    assert n / 0x100 == b + 0x100 * c + 0x1_0000 * d;
    assert n / 0x1_0000 == c + 0x100 * d;
    assert n / 0x100_0000 == d;
  }

  /** ByteOf is division: byte j is the number without its j low-order bytes, modulo 256. */
  lemma ByteOfDivides(w: Word, j: nat)
    requires j < 4
    ensures ByteOf(w, j) == Number(w) / Pow256(j) % 0x100
  {
    hide ByteOf, Byte0, Byte1, Byte2, Byte3, Base256;
    ByteOfIs(w);
    DigitsOf(Byte0(w), Byte1(w), Byte2(w), Byte3(w));
  }

  lemma ByteRoundTrip(n: U8)
    ensures AsNumber(AsByte(n)) == n
  {
    hide AsNumber;
    NumberOfByte(n);
  }

  lemma NumberOfByte(n: U8)
    ensures AsNumber(n as bv8) == n
  {
  }

  lemma WordBytes(a: bv8, b: bv8, c: bv8, d: bv8)
    ensures var w := (a as Word) + ((b as Word) << 8) + ((c as Word) << 16) + ((d as Word) << 24);
      && (w & 0xFF) as bv8 == a && ((w >> 8) & 0xFF) as bv8 == b
      && ((w >> 16) & 0xFF) as bv8 == c && ((w >> 24) & 0xFF) as bv8 == d
  {
  }

  /** Decoding a word: byte j of it is the j-th of the four bytes read, and as a number it is
      those bytes with the weights 1, 256, 256^2 and 256^3. */
  lemma WordAtIs(bytes: seq<U8>, p: nat, j: nat)
    requires p + 4 <= |bytes| && j < 4
    ensures Number(WordAt(bytes, p)) / Pow256(j) % 0x100 == bytes[p + j] == ByteOf(WordAt(bytes, p), j)
    ensures Number(WordAt(bytes, p)) == Base256(bytes[p], bytes[p + 1], bytes[p + 2], bytes[p + 3])
  {
    hide WordAt, ByteOf, Byte0, Byte1, Byte2, Byte3, Base256;
    BytesOfWordAt(bytes, p);
    ByteOfIs(WordAt(bytes, p));
    ByteOfDivides(WordAt(bytes, p), j);
  }

  lemma BytesOfWordAt(bytes: seq<U8>, p: nat)
    requires p + 4 <= |bytes|
    ensures var w := WordAt(bytes, p);
      Byte0(w) == bytes[p] && Byte1(w) == bytes[p + 1] && Byte2(w) == bytes[p + 2] && Byte3(w) == bytes[p + 3]
  {
    hide AsByte, AsNumber;
    ByteRoundTrip(bytes[p]);
    ByteRoundTrip(bytes[p + 1]);
    ByteRoundTrip(bytes[p + 2]);
    ByteRoundTrip(bytes[p + 3]);
    WordBytes(AsByte(bytes[p]), AsByte(bytes[p + 1]), AsByte(bytes[p + 2]), AsByte(bytes[p + 3]));
  }

  // ---- the circular shift ----

  function RotateOne(x: Word): Word { (x << 1) | (x >> 31) }

  function Mask(b: bv8, m: bv8): nat { if b & m != 0 then 1 else 0 }

  function Low(b: bv8): nat {
    Mask(b, 1) + 2 * Mask(b, 2) + 4 * Mask(b, 4) + 8 * Mask(b, 8) + 16 * Mask(b, 16) + 32 * Mask(b, 32)
    + 64 * Mask(b, 64)
  }

  /** A byte as a number is the sum of its bits with their weights. */
  lemma BitsOf(b: bv8)
    ensures AsNumber(b) == Low(b) + 128 * Mask(b, 0x80)
    ensures Low(b) < 128 && Mask(b, 0x80) <= 1
  {
  }

  lemma RotatedMasks(x: bv8, z: bv8)
    ensures var y := (x << 1) | (z >> 7);
      && Mask(y, 1) == Mask(z, 128) && Mask(y, 2) == Mask(x, 1) && Mask(y, 4) == Mask(x, 2)
      && Mask(y, 8) == Mask(x, 4) && Mask(y, 16) == Mask(x, 8) && Mask(y, 32) == Mask(x, 16)
      && Mask(y, 64) == Mask(x, 32) && Mask(y, 128) == Mask(x, 64)
  {
  }

  lemma RotatedLow(x: bv8, z: bv8)
    ensures var y := (x << 1) | (z >> 7);
      Low(y) + 128 * Mask(y, 0x80) == 2 * Low(x) + Mask(z, 0x80)
  {
    hide Mask;
    RotatedMasks(x, z);
  }

  lemma ByteTop(low: nat, t: nat)
    requires low < 0x80 && t <= 1
    ensures 2 * (low + 0x80 * t) % 0x100 == 2 * low && (low + 0x80 * t) / 0x80 == t
  {
  }

  lemma RotateByte(x: bv8, z: bv8)
    ensures AsNumber((x << 1) | (z >> 7)) == 2 * AsNumber(x) % 0x100 + AsNumber(z) / 0x80
  {
    hide AsNumber, Mask, Low;
    BitsOf(x);
    BitsOf(z);
    BitsOf((x << 1) | (z >> 7));
    RotatedLow(x, z);
    ByteTop(Low(x), Mask(x, 0x80));
    ByteTop(Low(z), Mask(z, 0x80));
  }

  lemma RotateBytes(x: Word)
    ensures var a, b, c, d := (x & 0xFF) as bv8, ((x >> 8) & 0xFF) as bv8, ((x >> 16) & 0xFF) as bv8,
                              ((x >> 24) & 0xFF) as bv8;
      var y := RotateOne(x);
      && (y & 0xFF) as bv8 == (a << 1) | (d >> 7) && ((y >> 8) & 0xFF) as bv8 == (b << 1) | (a >> 7)
      && ((y >> 16) & 0xFF) as bv8 == (c << 1) | (b >> 7) && ((y >> 24) & 0xFF) as bv8 == (d << 1) | (c >> 7)
  {
  }

  lemma RotatedBytes(x: Word)
    ensures var y := RotateOne(x);
      && Byte0(y) == 2 * Byte0(x) % 0x100 + Byte3(x) / 0x80 && Byte1(y) == 2 * Byte1(x) % 0x100 + Byte0(x) / 0x80
      && Byte2(y) == 2 * Byte2(x) % 0x100 + Byte1(x) / 0x80 && Byte3(y) == 2 * Byte3(x) % 0x100 + Byte2(x) / 0x80
  {
    hide RotateOne, AsNumber;
    RotateBytes(x);
    var a, b, c, d := (x & 0xFF) as bv8, ((x >> 8) & 0xFF) as bv8, ((x >> 16) & 0xFF) as bv8, ((x >> 24) & 0xFF) as bv8;
    RotateByte(a, d);
    RotateByte(b, a);
    RotateByte(c, b);
    RotateByte(d, c);
  }

  /** The top bit of a byte leaves it when the byte is doubled. */
  lemma TopBit(a: U8)
    ensures 2 * a % 0x100 == 2 * a - 0x100 * (a / 0x80) && a / 0x80 <= 1 && (a / 0x80 == 1 <==> a >= 0x80)
  {
  }

  /** Twice the number, the top bit coming back as the lowest. */
  function Doubled(v: int): int { if v >= 0x8000_0000 then 2 * v - 0xFFFF_FFFF else 2 * v }

  /** By one position. */
  lemma RotateOneNumber(x: Word)
    ensures Number(RotateOne(x)) == Doubled(Number(x))
  {
    hide RotateOne, Byte0, Byte1, Byte2, Byte3, Base256, Doubled;
    RotatedBytes(x);
    DoubledDigits(Byte0(x), Byte1(x), Byte2(x), Byte3(x));
  }

  lemma DoubledDigits(a: nat, b: nat, c: nat, d: nat)
    requires a < 0x100 && b < 0x100 && c < 0x100 && d < 0x100
    ensures Base256(2 * a % 0x100 + d / 0x80, 2 * b % 0x100 + a / 0x80, 2 * c % 0x100 + b / 0x80,
      2 * d % 0x100 + c / 0x80) == Doubled(Base256(a, b, c, d))
  {
    TopBit(a);
    TopBit(b);
    TopBit(c);
    TopBit(d);
    CarriedDigits(a, b, c, d, a / 0x80, b / 0x80, c / 0x80, d / 0x80);
  }

  lemma CarriedDigits(a: nat, b: nat, c: nat, d: nat, s: nat, t: nat, u: nat, v: nat)
    requires a < 0x100 && b < 0x100 && c < 0x100 && d < 0x100 && v <= 1 && (v == 1 <==> d >= 0x80)
    requires 2 * a >= 0x100 * s && 2 * b >= 0x100 * t && 2 * c >= 0x100 * u && 2 * d >= 0x100 * v
    ensures Base256(2 * a - 0x100 * s + v, 2 * b - 0x100 * t + s, 2 * c - 0x100 * u + t, 2 * d - 0x100 * v + u)
      == Doubled(Base256(a, b, c, d))
  {
  }

  /** One position more is one rotation by one more. */
  lemma ShiftOneMore(x: Word, s: nat)
    requires s < 32
    ensures CircularShift(x, s + 1) == RotateOne(CircularShift(x, s))
  {
    hide CircularShift, RotateOne;
    OneMoreEach(x, s);
  }

  ghost predicate OneMore(x: Word, s: nat)
    requires s < 32
  {
    CircularShift(x, s + 1) == RotateOne(CircularShift(x, s))
  }

  lemma OneMoreEach(x: Word, s: nat)
    requires s < 32
    ensures OneMore(x, s)
  {
    hide OneMore;
    EveryShift(x);
  }

  lemma EveryShift(x: Word)
    ensures OneMore(x, 0) && OneMore(x, 1) && OneMore(x, 2) && OneMore(x, 3)
    ensures OneMore(x, 4) && OneMore(x, 5) && OneMore(x, 6) && OneMore(x, 7)
    ensures OneMore(x, 8) && OneMore(x, 9) && OneMore(x, 10) && OneMore(x, 11)
    ensures OneMore(x, 12) && OneMore(x, 13) && OneMore(x, 14) && OneMore(x, 15)
    ensures OneMore(x, 16) && OneMore(x, 17) && OneMore(x, 18) && OneMore(x, 19)
    ensures OneMore(x, 20) && OneMore(x, 21) && OneMore(x, 22) && OneMore(x, 23)
    ensures OneMore(x, 24) && OneMore(x, 25) && OneMore(x, 26) && OneMore(x, 27)
    ensures OneMore(x, 28) && OneMore(x, 29) && OneMore(x, 30) && OneMore(x, 31)
  {
    hide CircularShift, RotateOne;
    ShiftIs(x);
    Rotations(x);
  }

  lemma ShiftIs(x: Word)
    ensures CircularShift(x, 0) == (x << 0) | (x >> 32)
    ensures CircularShift(x, 1) == (x << 1) | (x >> 31)
    ensures CircularShift(x, 2) == (x << 2) | (x >> 30)
    ensures CircularShift(x, 3) == (x << 3) | (x >> 29)
    ensures CircularShift(x, 4) == (x << 4) | (x >> 28)
    ensures CircularShift(x, 5) == (x << 5) | (x >> 27)
    ensures CircularShift(x, 6) == (x << 6) | (x >> 26)
    ensures CircularShift(x, 7) == (x << 7) | (x >> 25)
    ensures CircularShift(x, 8) == (x << 8) | (x >> 24)
    ensures CircularShift(x, 9) == (x << 9) | (x >> 23)
    ensures CircularShift(x, 10) == (x << 10) | (x >> 22)
    ensures CircularShift(x, 11) == (x << 11) | (x >> 21)
    ensures CircularShift(x, 12) == (x << 12) | (x >> 20)
    ensures CircularShift(x, 13) == (x << 13) | (x >> 19)
    ensures CircularShift(x, 14) == (x << 14) | (x >> 18)
    ensures CircularShift(x, 15) == (x << 15) | (x >> 17)
    ensures CircularShift(x, 16) == (x << 16) | (x >> 16)
    ensures CircularShift(x, 17) == (x << 17) | (x >> 15)
    ensures CircularShift(x, 18) == (x << 18) | (x >> 14)
    ensures CircularShift(x, 19) == (x << 19) | (x >> 13)
    ensures CircularShift(x, 20) == (x << 20) | (x >> 12)
    ensures CircularShift(x, 21) == (x << 21) | (x >> 11)
    ensures CircularShift(x, 22) == (x << 22) | (x >> 10)
    ensures CircularShift(x, 23) == (x << 23) | (x >> 9)
    ensures CircularShift(x, 24) == (x << 24) | (x >> 8)
    ensures CircularShift(x, 25) == (x << 25) | (x >> 7)
    ensures CircularShift(x, 26) == (x << 26) | (x >> 6)
    ensures CircularShift(x, 27) == (x << 27) | (x >> 5)
    ensures CircularShift(x, 28) == (x << 28) | (x >> 4)
    ensures CircularShift(x, 29) == (x << 29) | (x >> 3)
    ensures CircularShift(x, 30) == (x << 30) | (x >> 2)
    ensures CircularShift(x, 31) == (x << 31) | (x >> 1)
    ensures CircularShift(x, 32) == (x << 32) | (x >> 0)
  {
  }

  lemma Rotations(x: Word)
    ensures RotateOne((x << 0) | (x >> 32)) == (x << 1) | (x >> 31)
    ensures RotateOne((x << 1) | (x >> 31)) == (x << 2) | (x >> 30)
    ensures RotateOne((x << 2) | (x >> 30)) == (x << 3) | (x >> 29)
    ensures RotateOne((x << 3) | (x >> 29)) == (x << 4) | (x >> 28)
    ensures RotateOne((x << 4) | (x >> 28)) == (x << 5) | (x >> 27)
    ensures RotateOne((x << 5) | (x >> 27)) == (x << 6) | (x >> 26)
    ensures RotateOne((x << 6) | (x >> 26)) == (x << 7) | (x >> 25)
    ensures RotateOne((x << 7) | (x >> 25)) == (x << 8) | (x >> 24)
    ensures RotateOne((x << 8) | (x >> 24)) == (x << 9) | (x >> 23)
    ensures RotateOne((x << 9) | (x >> 23)) == (x << 10) | (x >> 22)
    ensures RotateOne((x << 10) | (x >> 22)) == (x << 11) | (x >> 21)
    ensures RotateOne((x << 11) | (x >> 21)) == (x << 12) | (x >> 20)
    ensures RotateOne((x << 12) | (x >> 20)) == (x << 13) | (x >> 19)
    ensures RotateOne((x << 13) | (x >> 19)) == (x << 14) | (x >> 18)
    ensures RotateOne((x << 14) | (x >> 18)) == (x << 15) | (x >> 17)
    ensures RotateOne((x << 15) | (x >> 17)) == (x << 16) | (x >> 16)
    ensures RotateOne((x << 16) | (x >> 16)) == (x << 17) | (x >> 15)
    ensures RotateOne((x << 17) | (x >> 15)) == (x << 18) | (x >> 14)
    ensures RotateOne((x << 18) | (x >> 14)) == (x << 19) | (x >> 13)
    ensures RotateOne((x << 19) | (x >> 13)) == (x << 20) | (x >> 12)
    ensures RotateOne((x << 20) | (x >> 12)) == (x << 21) | (x >> 11)
    ensures RotateOne((x << 21) | (x >> 11)) == (x << 22) | (x >> 10)
    ensures RotateOne((x << 22) | (x >> 10)) == (x << 23) | (x >> 9)
    ensures RotateOne((x << 23) | (x >> 9)) == (x << 24) | (x >> 8)
    ensures RotateOne((x << 24) | (x >> 8)) == (x << 25) | (x >> 7)
    ensures RotateOne((x << 25) | (x >> 7)) == (x << 26) | (x >> 6)
    ensures RotateOne((x << 26) | (x >> 6)) == (x << 27) | (x >> 5)
    ensures RotateOne((x << 27) | (x >> 5)) == (x << 28) | (x >> 4)
    ensures RotateOne((x << 28) | (x >> 4)) == (x << 29) | (x >> 3)
    ensures RotateOne((x << 29) | (x >> 3)) == (x << 30) | (x >> 2)
    ensures RotateOne((x << 30) | (x >> 2)) == (x << 31) | (x >> 1)
    ensures RotateOne((x << 31) | (x >> 1)) == (x << 32) | (x >> 0)
  {
  }

  function Pow2(s: nat): (p: nat)
    ensures p > 0
  {
    if s == 0 then 1 else 2 * Pow2(s - 1)
  }

  lemma Pow2Split(s: nat)
    requires s <= 32
    ensures Pow2(s) * Pow2(32 - s) == TWO_32
    decreases s
  {
    if s == 0 {
      Pow2Thirty();
    } else {
      Pow2Split(s - 1);
      assert Pow2(32 - (s - 1)) == 2 * Pow2(32 - s);
      var p, q := Pow2(s - 1), Pow2(32 - s);
      assert p * (2 * q) == (2 * p) * q;
    }
  }

  lemma Pow2Thirty()
    ensures Pow2(0) == 1 && Pow2(32) == TWO_32
  {
    assert Pow2(8) == 0x100;
    assert Pow2(16) == 0x1_0000;
    assert Pow2(24) == 0x100_0000;
  }

  lemma {:induction false} CircularShiftRotates(x: Word, s: nat)
    requires s <= 32
    ensures Number(CircularShift(x, s)) == Rotated(Number(x), s)
    decreases s
  {
    hide CircularShift, RotateOne, Number, Rotated;
    if s == 0 {
      NoShift(x);
      NotRotated(Number(x));
    } else {
      CircularShiftRotates(x, s - 1);
      ShiftOneMore(x, s - 1);
      RotateOneNumber(CircularShift(x, s - 1));
      RotatedOnce(Number(x), s);
    }
  }

  /** The low 32 - s bits moved up, the high s bits moved down. */
  function Rotated(n: nat, s: nat): int
    requires s <= 32
  {
    n % Pow2(32 - s) * Pow2(s) + n / Pow2(32 - s)
  }

  /** The low bits moved up are the number times 2^s, modulo 2^32. */
  lemma RotatedIsShifted(n: nat, s: nat)
    requires s <= 32
    ensures Rotated(n, s) == n * Pow2(s) % TWO_32 + n / Pow2(32 - s)
  {
    hide Pow2;
    Pow2Split(s);
    TimesModulo(n, Pow2(32 - s), Pow2(s));
  }

  lemma TimesModulo(n: nat, q: nat, p: nat)
    requires q > 0 && p > 0 && p * q == TWO_32
    ensures n * p % TWO_32 == n % q * p
  {
    var d, r := n / q, n % q;
    SplitBase(n, q);
    Remainder(n, q);
    TimesMonotone(r + 1, q, p);
    assert (r + 1) * p == r * p + p;
    assert (d * q + r) * p == d * (p * q) + r * p;
    DivisionIs(n * p, TWO_32, d);
  }

  /** x <<< s as a number. */
  lemma CircularShiftNumber(x: Word, s: nat)
    requires s <= 32
    ensures Number(CircularShift(x, s)) == Number(x) * Pow2(s) % TWO_32 + Number(x) / Pow2(32 - s)
  {
    hide CircularShift, Number, Rotated;
    CircularShiftRotates(x, s);
    RotatedIsShifted(Number(x), s);
  }

  lemma NotRotated(n: nat)
    requires n < TWO_32
    ensures Rotated(n, 0) == n
  {
    Pow2Thirty();
  }

  lemma RotatedOnce(n: nat, s: nat)
    requires n < TWO_32 && 0 < s <= 32
    ensures Rotated(n, s) == Doubled(Rotated(n, s - 1))
  {
    hide Pow2, Doubled;
    Pow2Split(s);
    Pow2Next(s - 1);
    Pow2Next(32 - s);
    HalfProduct(Pow2(s - 1), Pow2(32 - s));
    HalfRotated(n, Pow2(s - 1), Pow2(32 - s));
  }

  lemma HalfRotated(n: nat, p: nat, q: nat)
    requires p > 0 && q > 0 && p * q == 0x8000_0000 && n < TWO_32
    ensures n % q * (2 * p) + n / q == Doubled(n % (2 * q) * p + n / (2 * q))
  {
    hide Doubled;
    RotateSplit(n, p, q, n / (2 * q), n % (2 * q));
  }

  lemma Pow2Next(s: nat)
    ensures Pow2(s + 1) == 2 * Pow2(s)
  {
  }

  lemma HalfProduct(p: nat, q: nat)
    requires (2 * p) * q == TWO_32
    ensures p * q == 0x8000_0000
  {
    assert (2 * p) * q == 2 * (p * q);
  }

  lemma NoShift(x: Word)
    ensures CircularShift(x, 0) == x
  {
    hide CircularShift;
    ShiftIs(x);
  }

  /** Where n is split at the place 2q, moving the split to q doubles the number rotated. */
  lemma RotateSplit(n: nat, p: nat, q: nat, hi: nat, lo: nat)
    requires p > 0 && q > 0 && p * q == 0x8000_0000 && n < TWO_32
    requires hi == n / (2 * q) && lo == n % (2 * q)
    ensures n % q * (2 * p) + n / q == Doubled(lo * p + hi)
  {
    Remainder(n, 2 * q);
    if lo < q {
      assert lo + 0 * q == lo;
      RotateAt(n, p, q, hi, 0, lo);
    } else {
      assert lo - q + 1 * q == lo;
      RotateAt(n, p, q, hi, 1, lo - q);
    }
  }

  lemma RotateAt(n: nat, p: nat, q: nat, hi: nat, top: nat, low: nat)
    requires p > 0 && q > 0 && p * q == 0x8000_0000 && n < TWO_32
    requires top <= 1 && low < q && hi == n / (2 * q) && n % (2 * q) == low + top * q
    ensures n % q * (2 * p) + n / q == Doubled((low + top * q) * p + hi)
  {
    SplitAt(n, q, hi, top, low);
    HighPart(n, p, q);
    RotateParts(hi, low, top, p, q);
    var r := n % q;
    assert r * (2 * p) == low * (2 * p);
  }

  lemma RotateParts(hi: nat, low: nat, top: nat, p: nat, q: nat)
    requires p > 0 && p * q == 0x8000_0000 && low < q && hi < p && top <= 1
    ensures var v := (low + top * q) * p + hi;
      && (v >= 0x8000_0000 <==> top == 1)
      && low * (2 * p) + 2 * hi + top == if top == 1 then 2 * v - 0xFFFF_FFFF else 2 * v
  {
    TimesMonotone(low + 1, q, p);
    var x := low * p;
    assert (low + 1) * p == x + p;
    assert low * (2 * p) == 2 * x;
    if top == 1 { assert (low + 1 * q) * p == x + p * q; } else { assert low + 0 * q == low; }
  }

  lemma Remainder(n: nat, k: nat)
    requires k > 0
    ensures n % k < k
  {
  }

  lemma SplitAt(n: nat, q: nat, hi: nat, top: nat, low: nat)
    requires q > 0 && top <= 1 && low < q && hi == n / (2 * q) && n % (2 * q) == low + top * q
    ensures n / q == 2 * hi + top && n % q == low
  {
    var k := 2 * q;
    SplitBase(n, k);
    var h := hi * q;
    assert hi * k == 2 * h;
    assert (2 * hi + top) * q == 2 * h + top * q;
    assert (2 * hi + top + 1) * q == 2 * h + top * q + q;
    DivisionIs(n, q, 2 * hi + top);
  }

  lemma SplitBase(n: nat, k: nat)
    requires k > 0
    ensures n == n / k * k + n % k
  {
  }

  lemma HighPart(n: nat, p: nat, q: nat)
    requires p > 0 && q > 0 && p * q == 0x8000_0000 && n < TWO_32
    ensures n / (2 * q) < p
  {
    var hi := n / (2 * q);
    assert n >= hi * (2 * q);
    TimesMonotone(p, hi, 2 * q);
    assert p * (2 * q) == 2 * (p * q);
  }

  // ---- the fixed values ----

  /** Section 3.3: the initial words are the bytes 01 23 45 67 .. 32 10, in order. */
  lemma InitialBytes()
    ensures Output(INITIAL) ==
      [0x01, 0x23, 0x45, 0x67, 0x89, 0xab, 0xcd, 0xef, 0xfe, 0xdc, 0xba, 0x98, 0x76, 0x54, 0x32, 0x10]
  {
    hide ByteOf;
    OutputIs(INITIAL);
    BytesOfA();
    BytesOfB();
    BytesOfC();
    BytesOfD();
  }

  lemma BytesOfA()
    ensures ByteOf(0x67452301, 0) == 0x01 && ByteOf(0x67452301, 1) == 0x23
    ensures ByteOf(0x67452301, 2) == 0x45 && ByteOf(0x67452301, 3) == 0x67
  {
  }

  lemma BytesOfB()
    ensures ByteOf(0xefcdab89, 0) == 0x89 && ByteOf(0xefcdab89, 1) == 0xab
    ensures ByteOf(0xefcdab89, 2) == 0xcd && ByteOf(0xefcdab89, 3) == 0xef
  {
  }

  lemma BytesOfC()
    ensures ByteOf(0x98badcfe, 0) == 0xfe && ByteOf(0x98badcfe, 1) == 0xdc
    ensures ByteOf(0x98badcfe, 2) == 0xba && ByteOf(0x98badcfe, 3) == 0x98
  {
  }

  lemma BytesOfD()
    ensures ByteOf(0x10325476, 0) == 0x76 && ByteOf(0x10325476, 1) == 0x54
    ensures ByteOf(0x10325476, 2) == 0x32 && ByteOf(0x10325476, 3) == 0x10
  {
  }

  lemma OutputIs(r: Registers)
    ensures Output(r) == [ByteOf(r.a, 0), ByteOf(r.a, 1), ByteOf(r.a, 2), ByteOf(r.a, 3),
                          ByteOf(r.b, 0), ByteOf(r.b, 1), ByteOf(r.b, 2), ByteOf(r.b, 3),
                          ByteOf(r.c, 0), ByteOf(r.c, 1), ByteOf(r.c, 2), ByteOf(r.c, 3),
                          ByteOf(r.d, 0), ByteOf(r.d, 1), ByteOf(r.d, 2), ByteOf(r.d, 3)]
  {
    hide ByteOf;
  }

  /** Sections 3.1 and 3.2: behind the message a byte with a 1 bit in front of seven 0 bits, then
      zero bytes, and in the last eight bytes the number of bits modulo 2^64, low-order first. */
  lemma PaddedLayout(m: seq<U8>)
    ensures |Padded(m)| >= |m| + 9
    ensures Padded(m)[..|m|] == m && Padded(m)[|m|] == 0x80
    ensures forall i :: |m| < i < |Padded(m)| - 8 ==> Padded(m)[i] == 0
    ensures var l := Padded(m)[|Padded(m)| - 8..];
      (8 * |m|) % TWO_64 == Base256(l[0], l[1], l[2], l[3]) + TWO_32 * Base256(l[4], l[5], l[6], l[7])
  {
    hide LengthBytes, Base256;
    LengthBytesLength(8 * |m|);
    LengthBytesNumber(8 * |m|);
    assert Padded(m)[|Padded(m)| - 8..] == LengthBytes(8 * |m|);
  }

  lemma LengthBytesNumber(bits: nat)
    ensures |LengthBytes(bits)| == 8
    ensures var l := LengthBytes(bits);
      bits % TWO_64 == Base256(l[0], l[1], l[2], l[3]) + TWO_32 * Base256(l[4], l[5], l[6], l[7])
  {
    var b := bits % TWO_64;
    DigitsBack(b % TWO_32);
    DigitsBack(b / TWO_32);
    LowDigits(b);
    HighDigits(b);
  }

  lemma DigitsBack(n: nat)
    requires n < TWO_32
    ensures n == Base256(n % 0x100, n / 0x100 % 0x100, n / 0x1_0000 % 0x100, n / 0x100_0000 % 0x100)
  {
    var n1 := n / 0x100;
    var n2 := n1 / 0x100;
    var n3 := n2 / 0x100;
    Quotients(n);
    BelowBase(n3);
    LastDigit(n);
    LastDigit(n1);
    LastDigit(n2);
  }

  lemma Quotients(n: nat)
    ensures n / 0x100 / 0x100 == n / 0x1_0000 && n / 0x100 / 0x100 / 0x100 == n / 0x100_0000
  {
  }

  lemma LastDigit(n: nat)
    ensures n == 0x100 * (n / 0x100) + n % 0x100
  {
  }

  lemma BelowBase(n: nat)
    ensures n < 0x100 ==> n % 0x100 == n
  {
  }

  lemma LowDigits(b: nat)
    ensures var n := b % TWO_32;
      n % 0x100 == b % 0x100 && n / 0x100 % 0x100 == b / 0x100 % 0x100 && n / 0x1_0000 % 0x100 == b / 0x1_0000 % 0x100
      && n / 0x100_0000 % 0x100 == b / 0x100_0000 % 0x100
  {
    var q, n := b / TWO_32, b % TWO_32;
    QuotientOfSum1(q, n);
    QuotientOfSum2(q, n);
    QuotientOfSum3(q, n);
    LowDigit(q * 0x100_0000, n);
    LowDigit(q * 0x1_0000, n / 0x100);
    LowDigit(q * 0x100, n / 0x1_0000);
    LowDigit(q, n / 0x100_0000);
  }

  lemma QuotientOfSum1(q: nat, n: nat)
    ensures (q * TWO_32 + n) / 0x100 == q * 0x100_0000 + n / 0x100
  {
  }

  lemma QuotientOfSum2(q: nat, n: nat)
    ensures (q * TWO_32 + n) / 0x1_0000 == q * 0x1_0000 + n / 0x1_0000
  {
  }

  lemma QuotientOfSum3(q: nat, n: nat)
    ensures (q * TWO_32 + n) / 0x100_0000 == q * 0x100 + n / 0x100_0000
  {
  }

  lemma LowDigit(q: nat, n: nat)
    ensures (q * 0x100 + n) % 0x100 == n % 0x100
  {
  }

  lemma HighDigits(b: nat)
    ensures var n := b / TWO_32;
      n % 0x100 == b / 0x1_0000_0000 % 0x100 && n / 0x100 % 0x100 == b / 0x100_0000_0000 % 0x100
      && n / 0x1_0000 % 0x100 == b / 0x1_0000_0000_0000 % 0x100
      && n / 0x100_0000 % 0x100 == b / 0x100_0000_0000_0000 % 0x100
  {
    var n := b / TWO_32;
    assert n / 0x100 == b / 0x100_0000_0000;
    assert n / 0x1_0000 == b / 0x1_0000_0000_0000;
    assert n / 0x100_0000 == b / 0x100_0000_0000_0000;
  }
}
