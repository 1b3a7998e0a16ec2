/** The digest of "abc", from the test suite in section A.5 of RFC 1321, worked out in the 64
    operations. */
module Md5Vector {
  import opened Common
  import opened Md5Process
  import opened Rfc1321
  import opened Rfc1321Laws

  /** The one block of the padded message, as words. */
  const ABC: seq<Word> := [0x80636261, 0, 0, 0, 0, 0, 0, 0, 0, 0, 0, 0, 0, 0, 0x00000018, 0]

  lemma Values1()
    ensures SetF(0x67452301, 0xefcdab89, 0x98badcfe, 0x10325476, 0x80636261, 7, 0xd76aa478) == 0xd6d117b4
    ensures SetF(0x10325476, 0xd6d117b4, 0xefcdab89, 0x98badcfe, 0x00000000, 12, 0xe8c7b756) == 0x344a8432
    ensures SetF(0x98badcfe, 0x344a8432, 0xd6d117b4, 0xefcdab89, 0x00000000, 17, 0x242070db) == 0x2f6fbd72
    ensures SetF(0xefcdab89, 0x2f6fbd72, 0x344a8432, 0xd6d117b4, 0x00000000, 22, 0xc1bdceee) == 0x7ad956f2
    ensures SetF(0xd6d117b4, 0x7ad956f2, 0x2f6fbd72, 0x344a8432, 0x00000000, 7, 0xf57c0faf) == 0xc73741ef
    ensures SetF(0x344a8432, 0xc73741ef, 0x7ad956f2, 0x2f6fbd72, 0x00000000, 12, 0x4787c62a) == 0x8bac3051
    ensures SetF(0x2f6fbd72, 0x8bac3051, 0xc73741ef, 0x7ad956f2, 0x00000000, 17, 0xa8304613) == 0x207dc67b
    ensures SetF(0x7ad956f2, 0x207dc67b, 0x8bac3051, 0xc73741ef, 0x00000000, 22, 0xfd469501) == 0x928d99f6
    ensures SetF(0xc73741ef, 0x928d99f6, 0x207dc67b, 0x8bac3051, 0x00000000, 7, 0x698098d8) == 0x854b3712
    ensures SetF(0x8bac3051, 0x854b3712, 0x928d99f6, 0x207dc67b, 0x00000000, 12, 0x8b44f7af) == 0x74e2f284
    ensures SetF(0x207dc67b, 0x74e2f284, 0x854b3712, 0x928d99f6, 0x00000000, 17, 0xffff5bb1) == 0x3020401c
    ensures SetF(0x928d99f6, 0x3020401c, 0x74e2f284, 0x854b3712, 0x00000000, 22, 0x895cd7be) == 0x5ed49596
    ensures SetF(0x854b3712, 0x5ed49596, 0x3020401c, 0x74e2f284, 0x00000000, 7, 0x6b901122) == 0xdda9b9a6
    ensures SetF(0x74e2f284, 0xdda9b9a6, 0x5ed49596, 0x3020401c, 0x00000000, 12, 0xfd987193) == 0xa1051895
    ensures SetF(0x3020401c, 0xa1051895, 0xdda9b9a6, 0x5ed49596, 0x00000018, 17, 0xa679438e) == 0xe396856b
    ensures SetF(0x5ed49596, 0xe396856b, 0xa1051895, 0xdda9b9a6, 0x00000000, 22, 0x49b40821) == 0x72aff2e0
  {
  }

  lemma AbcRound1()
    ensures Operations(ABC, 0, 16, Registers(0x67452301, 0xefcdab89, 0x98badcfe, 0x10325476)) ==
      Registers(0xdda9b9a6, 0x72aff2e0, 0xe396856b, 0xa1051895)
  {
    hide SetF, SetG, SetH, SetI, FourOperations, Operations, WordIndex, Shift, Constant;
    FirstEight();
    SecondEight();
    SixteenOperations(ABC, 0, Registers(0x67452301, 0xefcdab89, 0x98badcfe, 0x10325476));
  }

  lemma FirstEight()
    ensures FourOperations(ABC, 0, Registers(0x67452301, 0xefcdab89, 0x98badcfe, 0x10325476)) ==
      Registers(0xd6d117b4, 0x7ad956f2, 0x2f6fbd72, 0x344a8432)
    ensures FourOperations(ABC, 4, Registers(0xd6d117b4, 0x7ad956f2, 0x2f6fbd72, 0x344a8432)) ==
      Registers(0xc73741ef, 0x928d99f6, 0x207dc67b, 0x8bac3051)
  {
    hide SetF, SetG, SetH, SetI, FourOperations, Operations, WordIndex, Shift, Constant;
    Table1();
    Values1();
    FourSets(ABC, 0, Registers(0x67452301, 0xefcdab89, 0x98badcfe, 0x10325476));
    FourSets(ABC, 4, Registers(0xd6d117b4, 0x7ad956f2, 0x2f6fbd72, 0x344a8432));
  }

  lemma SecondEight()
    ensures FourOperations(ABC, 8, Registers(0xc73741ef, 0x928d99f6, 0x207dc67b, 0x8bac3051)) ==
      Registers(0x854b3712, 0x5ed49596, 0x3020401c, 0x74e2f284)
    ensures FourOperations(ABC, 12, Registers(0x854b3712, 0x5ed49596, 0x3020401c, 0x74e2f284)) ==
      Registers(0xdda9b9a6, 0x72aff2e0, 0xe396856b, 0xa1051895)
  {
    hide SetF, SetG, SetH, SetI, FourOperations, Operations, WordIndex, Shift, Constant;
    Table1();
    Values1();
    FourSets(ABC, 8, Registers(0xc73741ef, 0x928d99f6, 0x207dc67b, 0x8bac3051));
    FourSets(ABC, 12, Registers(0x854b3712, 0x5ed49596, 0x3020401c, 0x74e2f284));
  }

  lemma Values2()
    ensures SetG(0xdda9b9a6, 0x72aff2e0, 0xe396856b, 0xa1051895, 0x00000000, 5, 0xf61e2562) == 0x3e9e9126
    ensures SetG(0xa1051895, 0x3e9e9126, 0x72aff2e0, 0xe396856b, 0x00000000, 9, 0xc040b340) == 0x4a1d804e
    ensures SetG(0xe396856b, 0x4a1d804e, 0x3e9e9126, 0x72aff2e0, 0x00000000, 14, 0x265e5a51) == 0xe25e1652
    ensures SetG(0x72aff2e0, 0xe25e1652, 0x4a1d804e, 0x3e9e9126, 0x80636261, 20, 0xe9b6c7aa) == 0xb5b204e4
    ensures SetG(0x3e9e9126, 0xb5b204e4, 0xe25e1652, 0x4a1d804e, 0x00000000, 5, 0xd62f105d) == 0x59a8ffda
    ensures SetG(0x4a1d804e, 0x59a8ffda, 0xb5b204e4, 0xe25e1652, 0x00000000, 9, 0x02441453) == 0x6d002f1e
    ensures SetG(0xe25e1652, 0x6d002f1e, 0x59a8ffda, 0xb5b204e4, 0x00000000, 14, 0xd8a1e681) == 0xabfc7920
    ensures SetG(0xb5b204e4, 0xabfc7920, 0x6d002f1e, 0x59a8ffda, 0x00000000, 20, 0xe7d3fbc8) == 0x47092c07
    ensures SetG(0x59a8ffda, 0x47092c07, 0xabfc7920, 0x6d002f1e, 0x00000000, 5, 0x21e1cde6) == 0xb7f268cf
    ensures SetG(0x6d002f1e, 0xb7f268cf, 0x47092c07, 0xabfc7920, 0x00000018, 9, 0xc33707d6) == 0x09388eff
    ensures SetG(0xabfc7920, 0x09388eff, 0xb7f268cf, 0x47092c07, 0x00000000, 14, 0xf4d50d87) == 0xfe1623b1
    ensures SetG(0x47092c07, 0xfe1623b1, 0x09388eff, 0xb7f268cf, 0x00000000, 20, 0x455a14ed) == 0x786acb8f
    ensures SetG(0xb7f268cf, 0x786acb8f, 0xfe1623b1, 0x09388eff, 0x00000000, 5, 0xa9e3e905) == 0x790a77fb
    ensures SetG(0x09388eff, 0x790a77fb, 0x786acb8f, 0xfe1623b1, 0x00000000, 9, 0xfcefa3f8) == 0x9f47e4f8
    ensures SetG(0xfe1623b1, 0x9f47e4f8, 0x790a77fb, 0x786acb8f, 0x00000000, 14, 0x676f02d9) == 0xa62884aa
    ensures SetG(0x786acb8f, 0xa62884aa, 0x9f47e4f8, 0x790a77fb, 0x00000000, 20, 0x8d2a4c8a) == 0x726342d3
  {
  }

  lemma AbcRound2()
    ensures Operations(ABC, 16, 32, Registers(0xdda9b9a6, 0x72aff2e0, 0xe396856b, 0xa1051895)) ==
      Registers(0x790a77fb, 0x726342d3, 0xa62884aa, 0x9f47e4f8)
  {
    hide SetF, SetG, SetH, SetI, FourOperations, Operations, WordIndex, Shift, Constant;
    Table2();
    Values2();
    FourSets(ABC, 16, Registers(0xdda9b9a6, 0x72aff2e0, 0xe396856b, 0xa1051895));
    FourSets(ABC, 20, Registers(0x3e9e9126, 0xb5b204e4, 0xe25e1652, 0x4a1d804e));
    FourSets(ABC, 24, Registers(0x59a8ffda, 0x47092c07, 0xabfc7920, 0x6d002f1e));
    FourSets(ABC, 28, Registers(0xb7f268cf, 0x786acb8f, 0xfe1623b1, 0x09388eff));
    SixteenOperations(ABC, 16, Registers(0xdda9b9a6, 0x72aff2e0, 0xe396856b, 0xa1051895));
  }

  lemma Values3()
    ensures SetH(0x790a77fb, 0x726342d3, 0xa62884aa, 0x9f47e4f8, 0x00000000, 4, 0xfffa3942) == 0xb3707ebf
    ensures SetH(0x9f47e4f8, 0xb3707ebf, 0x726342d3, 0xa62884aa, 0x00000000, 11, 0x8771f681) == 0x60127b2e
    ensures SetH(0xa62884aa, 0x60127b2e, 0xb3707ebf, 0x726342d3, 0x00000000, 16, 0x6d9d6122) == 0x8d212ff5
    ensures SetH(0x726342d3, 0x8d212ff5, 0x60127b2e, 0xb3707ebf, 0x00000018, 23, 0xfde5380c) == 0x3b0875c7
    ensures SetH(0xb3707ebf, 0x3b0875c7, 0x8d212ff5, 0x60127b2e, 0x00000000, 4, 0xa4beea44) == 0x21b117b9
    ensures SetH(0x60127b2e, 0x21b117b9, 0x3b0875c7, 0x8d212ff5, 0x00000000, 11, 0x4bdecfa9) == 0x6e7429d5
    ensures SetH(0x8d212ff5, 0x6e7429d5, 0x21b117b9, 0x3b0875c7, 0x00000000, 16, 0xf6bb4b60) == 0x3575227e
    ensures SetH(0x3b0875c7, 0x3575227e, 0x6e7429d5, 0x21b117b9, 0x00000000, 23, 0xbebfbc70) == 0x5a2f5ea5
    ensures SetH(0x21b117b9, 0x5a2f5ea5, 0x3575227e, 0x6e7429d5, 0x00000000, 4, 0x289b7ec6) == 0x11de1779
    ensures SetH(0x6e7429d5, 0x11de1779, 0x5a2f5ea5, 0x3575227e, 0x80636261, 11, 0xeaa127fa) == 0xfadcaa38
    ensures SetH(0x3575227e, 0xfadcaa38, 0x11de1779, 0x5a2f5ea5, 0x00000000, 16, 0xd4ef3085) == 0x31c465ca
    ensures SetH(0x5a2f5ea5, 0x31c465ca, 0xfadcaa38, 0x11de1779, 0x00000000, 23, 0x04881d05) == 0x4c6124f4
    ensures SetH(0x11de1779, 0x4c6124f4, 0x31c465ca, 0xfadcaa38, 0x00000000, 4, 0xd9d4d039) == 0x7f2e507b
    ensures SetH(0xfadcaa38, 0x7f2e507b, 0x4c6124f4, 0x31c465ca, 0x00000000, 11, 0xe6db99e5) == 0x99d9679d
    ensures SetH(0x31c465ca, 0x99d9679d, 0x7f2e507b, 0x4c6124f4, 0x00000000, 16, 0x1fa27cf8) == 0x8fae6399
    ensures SetH(0x4c6124f4, 0x8fae6399, 0x99d9679d, 0x7f2e507b, 0x00000000, 23, 0xc4ac5665) == 0x7beb9700
  {
  }

  lemma AbcRound3()
    ensures Operations(ABC, 32, 48, Registers(0x790a77fb, 0x726342d3, 0xa62884aa, 0x9f47e4f8)) ==
      Registers(0x7f2e507b, 0x7beb9700, 0x8fae6399, 0x99d9679d)
  {
    hide SetF, SetG, SetH, SetI, FourOperations, Operations, WordIndex, Shift, Constant;
    Table3();
    Values3();
    FourSets(ABC, 32, Registers(0x790a77fb, 0x726342d3, 0xa62884aa, 0x9f47e4f8));
    FourSets(ABC, 36, Registers(0xb3707ebf, 0x3b0875c7, 0x8d212ff5, 0x60127b2e));
    FourSets(ABC, 40, Registers(0x21b117b9, 0x5a2f5ea5, 0x3575227e, 0x6e7429d5));
    FourSets(ABC, 44, Registers(0x11de1779, 0x4c6124f4, 0x31c465ca, 0xfadcaa38));
    SixteenOperations(ABC, 32, Registers(0x790a77fb, 0x726342d3, 0xa62884aa, 0x9f47e4f8));
  }

  lemma Values4()
    ensures SetI(0x7f2e507b, 0x7beb9700, 0x8fae6399, 0x99d9679d, 0x80636261, 6, 0xf4292244) == 0x7b201df8
    ensures SetI(0x99d9679d, 0x7b201df8, 0x7beb9700, 0x8fae6399, 0x00000000, 10, 0x432aff97) == 0xf4e8e96e
    ensures SetI(0x8fae6399, 0xf4e8e96e, 0x7b201df8, 0x7beb9700, 0x00000018, 15, 0xab9423a7) == 0xb298cefd
    ensures SetI(0x7beb9700, 0xb298cefd, 0xf4e8e96e, 0x7b201df8, 0x00000000, 21, 0xfc93a039) == 0x8bf025c4
    ensures SetI(0x7b201df8, 0x8bf025c4, 0xb298cefd, 0xf4e8e96e, 0x00000000, 6, 0x655b59c3) == 0x06cc5e8a
    ensures SetI(0xf4e8e96e, 0x06cc5e8a, 0x8bf025c4, 0xb298cefd, 0x00000000, 10, 0x8f0ccc92) == 0x5b0d97aa
    ensures SetI(0xb298cefd, 0x5b0d97aa, 0x06cc5e8a, 0x8bf025c4, 0x00000000, 15, 0xffeff47d) == 0x7d632dd0
    ensures SetI(0x8bf025c4, 0x7d632dd0, 0x5b0d97aa, 0x06cc5e8a, 0x00000000, 21, 0x85845dd1) == 0x3bfa2c27
    ensures SetI(0x06cc5e8a, 0x3bfa2c27, 0x7d632dd0, 0x5b0d97aa, 0x00000000, 6, 0x6fa87e4f) == 0x7f81cc35
    ensures SetI(0x5b0d97aa, 0x7f81cc35, 0x3bfa2c27, 0x7d632dd0, 0x00000000, 10, 0xfe2ce6e0) == 0x094454ab
    ensures SetI(0x7d632dd0, 0x094454ab, 0x7f81cc35, 0x3bfa2c27, 0x00000000, 15, 0xa3014314) == 0x4f9dbe3f
    ensures SetI(0x3bfa2c27, 0x4f9dbe3f, 0x094454ab, 0x7f81cc35, 0x00000000, 21, 0x4e0811a1) == 0x7327d604
    ensures SetI(0x7f81cc35, 0x7327d604, 0x4f9dbe3f, 0x094454ab, 0x00000000, 6, 0xf7537e82) == 0x310ade8f
    ensures SetI(0x094454ab, 0x310ade8f, 0x7327d604, 0x4f9dbe3f, 0x00000000, 10, 0xbd3af235) == 0x624d8cb2
    ensures SetI(0x4f9dbe3f, 0x624d8cb2, 0x310ade8f, 0x7327d604, 0x00000000, 15, 0x2ad7d2bb) == 0xe484b9d8
    ensures SetI(0x7327d604, 0xe484b9d8, 0x624d8cb2, 0x310ade8f, 0x00000000, 21, 0xeb86d391) == 0xc08226b3
  {
  }

  lemma AbcRound4()
    ensures Operations(ABC, 48, 64, Registers(0x7f2e507b, 0x7beb9700, 0x8fae6399, 0x99d9679d)) ==
      Registers(0x310ade8f, 0xc08226b3, 0xe484b9d8, 0x624d8cb2)
  {
    hide SetF, SetG, SetH, SetI, FourOperations, Operations, WordIndex, Shift, Constant;
    Table4();
    Values4();
    FourSets(ABC, 48, Registers(0x7f2e507b, 0x7beb9700, 0x8fae6399, 0x99d9679d));
    FourSets(ABC, 52, Registers(0x7b201df8, 0x8bf025c4, 0xb298cefd, 0xf4e8e96e));
    FourSets(ABC, 56, Registers(0x06cc5e8a, 0x3bfa2c27, 0x7d632dd0, 0x5b0d97aa));
    FourSets(ABC, 60, Registers(0x7f81cc35, 0x7327d604, 0x4f9dbe3f, 0x094454ab));
    SixteenOperations(ABC, 48, Registers(0x7f2e507b, 0x7beb9700, 0x8fae6399, 0x99d9679d));
  }

  /** The padded message: its three bytes, the 1 bit, zeros, and 24 as the number of bits. */
  lemma AbcPadded()
    ensures Padded([0x61, 0x62, 0x63]) == [0x61, 0x62, 0x63, 0x80] + Zeros(52) + [24] + Zeros(7)
  {
  }

  lemma AbcWords()
    ensures Words([0x61, 0x62, 0x63, 0x80] + Zeros(52) + [24] + Zeros(7)) == ABC
  {
    var m: seq<U8> := [0x61, 0x62, 0x63, 0x80] + Zeros(52) + [24] + Zeros(7);
    assert WordAt(m, 0) == 0x80636261;
    assert WordAt(m, 56) == 24;
    forall k | 0 <= k < 16 && k != 0 && k != 14 ensures WordAt(m, 4 * k) == 0 {
      assert m[4 * k] == m[4 * k + 1] == m[4 * k + 2] == m[4 * k + 3] == 0;
    }
  }

  /** MD5("abc") = 900150983cd24fb0d6963f7d28e17f72. */
  lemma AbcDigest()
    ensures Digest([0x61, 0x62, 0x63]) ==
      [0x90, 0x01, 0x50, 0x98, 0x3c, 0xd2, 0x4f, 0xb0, 0xd6, 0x96, 0x3f, 0x7d, 0x28, 0xe1, 0x7f, 0x72]
  {
    hide Operations, Words, Padded, ByteOf;
    var block: seq<U8> := [0x61, 0x62, 0x63, 0x80] + Zeros(52) + [24] + Zeros(7);
    AbcPadded();
    AbcWords();
    AbcRound1();
    AbcRound2();
    AbcRound3();
    AbcRound4();
    AllOperations(ABC, INITIAL);
    var r := Registers(0x98500190, 0xb04fd23c, 0x7d3f96d6, 0x727fe128);
    assert Compress(INITIAL, block) == r;
    assert block[..64] == block && Absorb(INITIAL, block) == Absorb(r, block[64..]) == r;
    AbcOutput();
  }

  lemma AbcOutput()
    ensures Output(Registers(0x98500190, 0xb04fd23c, 0x7d3f96d6, 0x727fe128)) ==
      [0x90, 0x01, 0x50, 0x98, 0x3c, 0xd2, 0x4f, 0xb0, 0xd6, 0x96, 0x3f, 0x7d, 0x28, 0xe1, 0x7f, 0x72]
  {
    hide ByteOf;
    OutputIs(Registers(0x98500190, 0xb04fd23c, 0x7d3f96d6, 0x727fe128));
    OutputBytes1();
    OutputBytes2();
  }

  lemma OutputBytes1()
    ensures ByteOf(0x98500190, 0) == 0x90 && ByteOf(0x98500190, 1) == 0x01
    ensures ByteOf(0x98500190, 2) == 0x50 && ByteOf(0x98500190, 3) == 0x98
    ensures ByteOf(0xb04fd23c, 0) == 0x3c && ByteOf(0xb04fd23c, 1) == 0xd2
    ensures ByteOf(0xb04fd23c, 2) == 0x4f && ByteOf(0xb04fd23c, 3) == 0xb0
  {
  }

  lemma OutputBytes2()
    ensures ByteOf(0x7d3f96d6, 0) == 0xd6 && ByteOf(0x7d3f96d6, 1) == 0x96
    ensures ByteOf(0x7d3f96d6, 2) == 0x3f && ByteOf(0x7d3f96d6, 3) == 0x7d
    ensures ByteOf(0x727fe128, 0) == 0x28 && ByteOf(0x727fe128, 1) == 0xe1
    ensures ByteOf(0x727fe128, 2) == 0x7f && ByteOf(0x727fe128, 3) == 0x72
  {
  }
}
