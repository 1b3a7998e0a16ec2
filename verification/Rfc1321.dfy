/** The MD5 message digest as RFC 1321 defines it, on whole messages and table-driven. */
module Rfc1321 {
  import opened Common

  type Word = bv32

  datatype Registers = Registers(a: Word, b: Word, c: Word, d: Word)

  // ---- section 3.4: processing one 16-word block ----

  function F(x: Word, y: Word, z: Word): Word { (x & y) | (!x & z) }
  function G(x: Word, y: Word, z: Word): Word { (x & z) | (y & !z) }
  function H(x: Word, y: Word, z: Word): Word { x ^ y ^ z }
  function I(x: Word, y: Word, z: Word): Word { y ^ (x | !z) }

  /** x <<< s: the bits shifted out on the left come back in on the right. */
  function CircularShift(x: Word, s: nat): Word
    requires s <= 32
  {
    (x << s) | (x >> (32 - s))
  }

  /** Entries 1 to 16 of the table T. */
  function T1(i: nat): Word {
    if i == 0 then 0xd76aa478
    else if i == 1 then 0xe8c7b756
    else if i == 2 then 0x242070db
    else if i == 3 then 0xc1bdceee
    else if i == 4 then 0xf57c0faf
    else if i == 5 then 0x4787c62a
    else if i == 6 then 0xa8304613
    else if i == 7 then 0xfd469501
    else if i == 8 then 0x698098d8
    else if i == 9 then 0x8b44f7af
    else if i == 10 then 0xffff5bb1
    else if i == 11 then 0x895cd7be
    else if i == 12 then 0x6b901122
    else if i == 13 then 0xfd987193
    else if i == 14 then 0xa679438e
    else 0x49b40821
  }

  /** Entries 17 to 32 of the table T. */
  function T2(i: nat): Word {
    if i == 0 then 0xf61e2562
    else if i == 1 then 0xc040b340
    else if i == 2 then 0x265e5a51
    else if i == 3 then 0xe9b6c7aa
    else if i == 4 then 0xd62f105d
    else if i == 5 then 0x02441453
    else if i == 6 then 0xd8a1e681
    else if i == 7 then 0xe7d3fbc8
    else if i == 8 then 0x21e1cde6
    else if i == 9 then 0xc33707d6
    else if i == 10 then 0xf4d50d87
    else if i == 11 then 0x455a14ed
    else if i == 12 then 0xa9e3e905
    else if i == 13 then 0xfcefa3f8
    else if i == 14 then 0x676f02d9
    else 0x8d2a4c8a
  }

  /** Entries 33 to 48 of the table T. */
  function T3(i: nat): Word {
    if i == 0 then 0xfffa3942
    else if i == 1 then 0x8771f681
    else if i == 2 then 0x6d9d6122
    else if i == 3 then 0xfde5380c
    else if i == 4 then 0xa4beea44
    else if i == 5 then 0x4bdecfa9
    else if i == 6 then 0xf6bb4b60
    else if i == 7 then 0xbebfbc70
    else if i == 8 then 0x289b7ec6
    else if i == 9 then 0xeaa127fa
    else if i == 10 then 0xd4ef3085
    else if i == 11 then 0x04881d05
    else if i == 12 then 0xd9d4d039
    else if i == 13 then 0xe6db99e5
    else if i == 14 then 0x1fa27cf8
    else 0xc4ac5665
  }

  /** Entries 49 to 64 of the table T. */
  function T4(i: nat): Word {
    if i == 0 then 0xf4292244
    else if i == 1 then 0x432aff97
    else if i == 2 then 0xab9423a7
    else if i == 3 then 0xfc93a039
    else if i == 4 then 0x655b59c3
    else if i == 5 then 0x8f0ccc92
    else if i == 6 then 0xffeff47d
    else if i == 7 then 0x85845dd1
    else if i == 8 then 0x6fa87e4f
    else if i == 9 then 0xfe2ce6e0
    else if i == 10 then 0xa3014314
    else if i == 11 then 0x4e0811a1
    else if i == 12 then 0xf7537e82
    else if i == 13 then 0xbd3af235
    else if i == 14 then 0x2ad7d2bb
    else 0xeb86d391
  }

  /** T[i + 1], the integer part of 2^32 times abs(sin(i + 1)). */
  function Constant(i: nat): Word
    requires i < 64
  {
    if i < 16 then T1(i) else if i < 32 then T2(i - 16) else if i < 48 then T3(i - 32) else T4(i - 48)
  }

  function Mix(i: nat, x: Word, y: Word, z: Word): Word
    requires i < 64
  {
    if i < 16 then F(x, y, z) else if i < 32 then G(x, y, z) else if i < 48 then H(x, y, z) else I(x, y, z)
  }

  /** Which word of the block operation i takes. */
  function WordIndex(i: nat): (k: nat)
    requires i < 64
    ensures k < 16
  {
    if i < 16 then i else if i < 32 then (5 * i + 1) % 16 else if i < 48 then (3 * i + 5) % 16 else (7 * i) % 16
  }

  function Shift(i: nat): (s: nat)
    requires i < 64
    ensures s <= 32
  {
    var j := i % 4;
    if i < 16 then (if j == 0 then 7 else if j == 1 then 12 else if j == 2 then 17 else 22)
    else if i < 32 then (if j == 0 then 5 else if j == 1 then 9 else if j == 2 then 14 else 20)
    else if i < 48 then (if j == 0 then 4 else if j == 1 then 11 else if j == 2 then 16 else 23)
    else (if j == 0 then 6 else if j == 1 then 10 else if j == 2 then 15 else 21)
  }

  /** Sums modulo 2^32. */
  function Add(x: Word, y: Word): Word { x + y }
  function Sum(a: Word, f: Word, x: Word, t: Word): Word { a + f + x + t }

  /** Operation i: a becomes b + ((a + f(b,c,d) + X[k] + T[i]) <<< s), and the roles move on. */
  function Operation(x: seq<Word>, i: nat, r: Registers): Registers
    requires |x| == 16 && i < 64
  {
    var t := Sum(r.a, Mix(i, r.b, r.c, r.d), x[WordIndex(i)], Constant(i));
    Registers(r.d, Add(r.b, CircularShift(t, Shift(i))), r.b, r.c)
  }

  /** Operations i up to (not including) n, in order. */
  function Operations(x: seq<Word>, i: nat, n: nat, r: Registers): Registers
    requires |x| == 16 && i <= n <= 64
    decreases n - i
  {
    if i == n then r else Operations(x, i + 1, n, Operation(x, i, r))
  }

  function Plus(r: Registers, s: Registers): Registers {
    Registers(Add(r.a, s.a), Add(r.b, s.b), Add(r.c, s.c), Add(r.d, s.d))
  }

  /** Four bytes make a word, low-order byte first. */
  function WordAt(bytes: seq<U8>, p: nat): Word
    requires p + 4 <= |bytes|
  {
    ByteAsWord(bytes[p]) + (ByteAsWord(bytes[p + 1]) << 8) + (ByteAsWord(bytes[p + 2]) << 16)
    + (ByteAsWord(bytes[p + 3]) << 24)
  }

  function ByteAsWord(b: U8): Word { AsByte(b) as Word }

  function AsByte(n: U8): bv8 { n as bv8 }
  function AsNumber(b: bv8): U8 { b as int }

  function Words(block: seq<U8>): seq<Word>
    requires |block| == 64
  {
    seq(16, k requires 0 <= k < 16 => WordAt(block, 4 * k))
  }

  function Compress(r: Registers, block: seq<U8>): Registers
    requires |block| == 64
  {
    Plus(r, Operations(Words(block), 0, 64, r))
  }

  // ---- sections 3.1 to 3.3 and 3.5: padding, chaining and output ----

  const INITIAL: Registers := Registers(0x67452301, 0xefcdab89, 0x98badcfe, 0x10325476)

  /** The chaining value after all complete blocks of m. */
  function Absorb(r: Registers, m: seq<U8>): Registers
    decreases |m|
  {
    if |m| < 64 then r else Absorb(Compress(r, m[..64]), m[64..])
  }

  /** Section 3.1: a 1 bit, then the fewest 0 bits that make the length 56 mod 64 bytes. */
  function ZeroPadding(length: nat): (n: nat)
    ensures n < 64 && (length + 1 + n) % 64 == 56
  {
    (55 - length) % 64
  }

  /** Section 3.2: the low 64 bits of the length in bits, low-order byte first. */
  function LengthBytes(bits: nat): seq<U8> {
    var b := bits % TWO_64;
    [ b % 0x100,
      b / 0x100 % 0x100,
      b / 0x1_0000 % 0x100,
      b / 0x100_0000 % 0x100,
      b / 0x1_0000_0000 % 0x100,
      b / 0x100_0000_0000 % 0x100,
      b / 0x1_0000_0000_0000 % 0x100,
      b / 0x100_0000_0000_0000 % 0x100 ]
  }

  function Padded(m: seq<U8>): seq<U8> {
    m + [0x80] + Zeros(ZeroPadding(|m|)) + LengthBytes(8 * |m|)
  }

  /** Byte j of a word, counting from the low-order end. */
  function ByteOf(w: Word, j: nat): U8
    requires j < 4
  {
    AsNumber(((w >> (8 * j)) & 0xFF) as bv8)
  }

  function Output(r: Registers): seq<U8> {
    seq(16, i requires 0 <= i < 16 =>
      ByteOf(if i < 4 then r.a else if i < 8 then r.b else if i < 12 then r.c else r.d, i % 4))
  }

  function Digest(m: seq<U8>): seq<U8> {
    Output(Absorb(INITIAL, Padded(m)))
  }

  // ---- chaining is a homomorphism on whole blocks ----

  lemma {:induction false} AbsorbConcat(r: Registers, m: seq<U8>, n: seq<U8>)
    requires |m| % 64 == 0
    ensures Absorb(r, m + n) == Absorb(Absorb(r, m), n)
    decreases |m|
  {
    hide Compress;
    if |m| == 0 {
      assert m + n == n;
    } else {
      assert (m + n)[..64] == m[..64];
      assert (m + n)[64..] == m[64..] + n;
      AbsorbConcat(Compress(r, m[..64]), m[64..], n);
    }
  }

  /** The padded message is a whole number of blocks, and padding adds at least 9 and at
      most 72 bytes. */
  lemma PaddedIsWholeBlocks(m: seq<U8>)
    ensures |Padded(m)| % 64 == 0
    ensures 9 <= |Padded(m)| - |m| <= 72
    ensures m <= Padded(m)
  {
    hide LengthBytes;
    LengthBytesLength(8 * |m|);
    assert |Padded(m)| == |m| + 1 + ZeroPadding(|m|) + 8;
  }

  lemma LengthBytesLength(bits: nat)
    ensures |LengthBytes(bits)| == 8
  {
  }

  /** No shorter run of zeros would do. */
  lemma ZeroPaddingIsLeast(length: nat, n: nat)
    requires (length + 1 + n) % 64 == 56
    ensures ZeroPadding(length) <= n
  {
  }
}
