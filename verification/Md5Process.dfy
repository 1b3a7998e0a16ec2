/** md5_process of zmd5.c: the 64 operations written out, the registers trading roles
    instead of values, against the table-driven form of RFC 1321. */
module Md5Process {
  import opened Common
  import opened Rfc1321

  const T_MASK: Word := 0xffff_ffff

  function SetF(a: Word, b: Word, c: Word, d: Word, xk: Word, s: nat, t: Word): Word
    requires s <= 32
  {
    Add(CircularShift(Sum(a, F(b, c, d), xk, t), s), b)
  }

  function SetG(a: Word, b: Word, c: Word, d: Word, xk: Word, s: nat, t: Word): Word
    requires s <= 32
  {
    Add(CircularShift(Sum(a, G(b, c, d), xk, t), s), b)
  }

  function SetH(a: Word, b: Word, c: Word, d: Word, xk: Word, s: nat, t: Word): Word
    requires s <= 32
  {
    Add(CircularShift(Sum(a, H(b, c, d), xk, t), s), b)
  }

  function SetI(a: Word, b: Word, c: Word, d: Word, xk: Word, s: nat, t: Word): Word
    requires s <= 32
  {
    Add(CircularShift(Sum(a, I(b, c, d), xk, t), s), b)
  }

  /** The SET macro in force at operation i. */
  function SetFor(i: nat, a: Word, b: Word, c: Word, d: Word, xk: Word): Word
    requires i < 64
  {
    if i < 16 then SetF(a, b, c, d, xk, Shift(i), Constant(i))
    else if i < 32 then SetG(a, b, c, d, xk, Shift(i), Constant(i))
    else if i < 48 then SetH(a, b, c, d, xk, Shift(i), Constant(i))
    else SetI(a, b, c, d, xk, Shift(i), Constant(i))
  }

  lemma AddCommutes(x: Word, y: Word)
    ensures Add(x, y) == Add(y, x)
  {
  }

  lemma OperationIsSet(x: seq<Word>, i: nat, r: Registers)
    requires |x| == 16 && i < 64
    ensures Operation(x, i, r) == Registers(r.d, SetFor(i, r.a, r.b, r.c, r.d, x[WordIndex(i)]), r.b, r.c)
  {
    hide Constant, WordIndex, Shift, F, G, H, I, CircularShift, Sum, Add;
    var t := Sum(r.a, Mix(i, r.b, r.c, r.d), x[WordIndex(i)], Constant(i));
    AddCommutes(CircularShift(t, Shift(i)), r.b);
  }

  /** Four operations, after which the registers are back in their first roles. */
  lemma FourSets(x: seq<Word>, i: nat, r: Registers)
    requires |x| == 16 && i + 4 <= 64
    ensures
      var a := SetFor(i, r.a, r.b, r.c, r.d, x[WordIndex(i)]);
      var d := SetFor(i + 1, r.d, a, r.b, r.c, x[WordIndex(i + 1)]);
      var c := SetFor(i + 2, r.c, d, a, r.b, x[WordIndex(i + 2)]);
      var b := SetFor(i + 3, r.b, c, d, a, x[WordIndex(i + 3)]);
      FourOperations(x, i, r) == Registers(a, b, c, d)
  {
    hide SetFor, Operation, WordIndex;
    var r1 := Operation(x, i, r);
    var r2 := Operation(x, i + 1, r1);
    var r3 := Operation(x, i + 2, r2);
    OperationIsSet(x, i, r);
    OperationIsSet(x, i + 1, r1);
    OperationIsSet(x, i + 2, r2);
    OperationIsSet(x, i + 3, r3);
  }

  /** Word indices, shifts and constants of round 1 as the code writes them. */
  lemma Table1()
    ensures WordIndex(0) == 0 && Shift(0) == 7 && Constant(0) == T_MASK ^ 0x28955b87
    ensures WordIndex(1) == 1 && Shift(1) == 12 && Constant(1) == T_MASK ^ 0x173848a9
    ensures WordIndex(2) == 2 && Shift(2) == 17 && Constant(2) == 0x242070db
    ensures WordIndex(3) == 3 && Shift(3) == 22 && Constant(3) == T_MASK ^ 0x3e423111
    ensures WordIndex(4) == 4 && Shift(4) == 7 && Constant(4) == T_MASK ^ 0x0a83f050
    ensures WordIndex(5) == 5 && Shift(5) == 12 && Constant(5) == 0x4787c62a
    ensures WordIndex(6) == 6 && Shift(6) == 17 && Constant(6) == T_MASK ^ 0x57cfb9ec
    ensures WordIndex(7) == 7 && Shift(7) == 22 && Constant(7) == T_MASK ^ 0x02b96afe
    ensures WordIndex(8) == 8 && Shift(8) == 7 && Constant(8) == 0x698098d8
    ensures WordIndex(9) == 9 && Shift(9) == 12 && Constant(9) == T_MASK ^ 0x74bb0850
    ensures WordIndex(10) == 10 && Shift(10) == 17 && Constant(10) == T_MASK ^ 0x0000a44e
    ensures WordIndex(11) == 11 && Shift(11) == 22 && Constant(11) == T_MASK ^ 0x76a32841
    ensures WordIndex(12) == 12 && Shift(12) == 7 && Constant(12) == 0x6b901122
    ensures WordIndex(13) == 13 && Shift(13) == 12 && Constant(13) == T_MASK ^ 0x02678e6c
    ensures WordIndex(14) == 14 && Shift(14) == 17 && Constant(14) == T_MASK ^ 0x5986bc71
    ensures WordIndex(15) == 15 && Shift(15) == 22 && Constant(15) == 0x49b40821
  {
  }

  /** Word indices, shifts and constants of round 2 as the code writes them. */
  lemma Table2()
    ensures WordIndex(16) == 1 && Shift(16) == 5 && Constant(16) == T_MASK ^ 0x09e1da9d
    ensures WordIndex(17) == 6 && Shift(17) == 9 && Constant(17) == T_MASK ^ 0x3fbf4cbf
    ensures WordIndex(18) == 11 && Shift(18) == 14 && Constant(18) == 0x265e5a51
    ensures WordIndex(19) == 0 && Shift(19) == 20 && Constant(19) == T_MASK ^ 0x16493855
    ensures WordIndex(20) == 5 && Shift(20) == 5 && Constant(20) == T_MASK ^ 0x29d0efa2
    ensures WordIndex(21) == 10 && Shift(21) == 9 && Constant(21) == 0x02441453
    ensures WordIndex(22) == 15 && Shift(22) == 14 && Constant(22) == T_MASK ^ 0x275e197e
    ensures WordIndex(23) == 4 && Shift(23) == 20 && Constant(23) == T_MASK ^ 0x182c0437
    ensures WordIndex(24) == 9 && Shift(24) == 5 && Constant(24) == 0x21e1cde6
    ensures WordIndex(25) == 14 && Shift(25) == 9 && Constant(25) == T_MASK ^ 0x3cc8f829
    ensures WordIndex(26) == 3 && Shift(26) == 14 && Constant(26) == T_MASK ^ 0x0b2af278
    ensures WordIndex(27) == 8 && Shift(27) == 20 && Constant(27) == 0x455a14ed
    ensures WordIndex(28) == 13 && Shift(28) == 5 && Constant(28) == T_MASK ^ 0x561c16fa
    ensures WordIndex(29) == 2 && Shift(29) == 9 && Constant(29) == T_MASK ^ 0x03105c07
    ensures WordIndex(30) == 7 && Shift(30) == 14 && Constant(30) == 0x676f02d9
    ensures WordIndex(31) == 12 && Shift(31) == 20 && Constant(31) == T_MASK ^ 0x72d5b375
  {
  }

  /** Word indices, shifts and constants of round 3 as the code writes them. */
  lemma Table3()
    ensures WordIndex(32) == 5 && Shift(32) == 4 && Constant(32) == T_MASK ^ 0x0005c6bd
    ensures WordIndex(33) == 8 && Shift(33) == 11 && Constant(33) == T_MASK ^ 0x788e097e
    ensures WordIndex(34) == 11 && Shift(34) == 16 && Constant(34) == 0x6d9d6122
    ensures WordIndex(35) == 14 && Shift(35) == 23 && Constant(35) == T_MASK ^ 0x021ac7f3
    ensures WordIndex(36) == 1 && Shift(36) == 4 && Constant(36) == T_MASK ^ 0x5b4115bb
    ensures WordIndex(37) == 4 && Shift(37) == 11 && Constant(37) == 0x4bdecfa9
    ensures WordIndex(38) == 7 && Shift(38) == 16 && Constant(38) == T_MASK ^ 0x0944b49f
    ensures WordIndex(39) == 10 && Shift(39) == 23 && Constant(39) == T_MASK ^ 0x4140438f
    ensures WordIndex(40) == 13 && Shift(40) == 4 && Constant(40) == 0x289b7ec6
    ensures WordIndex(41) == 0 && Shift(41) == 11 && Constant(41) == T_MASK ^ 0x155ed805
    ensures WordIndex(42) == 3 && Shift(42) == 16 && Constant(42) == T_MASK ^ 0x2b10cf7a
    ensures WordIndex(43) == 6 && Shift(43) == 23 && Constant(43) == 0x04881d05
    ensures WordIndex(44) == 9 && Shift(44) == 4 && Constant(44) == T_MASK ^ 0x262b2fc6
    ensures WordIndex(45) == 12 && Shift(45) == 11 && Constant(45) == T_MASK ^ 0x1924661a
    ensures WordIndex(46) == 15 && Shift(46) == 16 && Constant(46) == 0x1fa27cf8
    ensures WordIndex(47) == 2 && Shift(47) == 23 && Constant(47) == T_MASK ^ 0x3b53a99a
  {
  }

  /** Word indices, shifts and constants of round 4 as the code writes them. */
  lemma Table4()
    ensures WordIndex(48) == 0 && Shift(48) == 6 && Constant(48) == T_MASK ^ 0x0bd6ddbb
    ensures WordIndex(49) == 7 && Shift(49) == 10 && Constant(49) == 0x432aff97
    ensures WordIndex(50) == 14 && Shift(50) == 15 && Constant(50) == T_MASK ^ 0x546bdc58
    ensures WordIndex(51) == 5 && Shift(51) == 21 && Constant(51) == T_MASK ^ 0x036c5fc6
    ensures WordIndex(52) == 12 && Shift(52) == 6 && Constant(52) == 0x655b59c3
    ensures WordIndex(53) == 3 && Shift(53) == 10 && Constant(53) == T_MASK ^ 0x70f3336d
    ensures WordIndex(54) == 10 && Shift(54) == 15 && Constant(54) == T_MASK ^ 0x00100b82
    ensures WordIndex(55) == 1 && Shift(55) == 21 && Constant(55) == T_MASK ^ 0x7a7ba22e
    ensures WordIndex(56) == 8 && Shift(56) == 6 && Constant(56) == 0x6fa87e4f
    ensures WordIndex(57) == 15 && Shift(57) == 10 && Constant(57) == T_MASK ^ 0x01d3191f
    ensures WordIndex(58) == 6 && Shift(58) == 15 && Constant(58) == T_MASK ^ 0x5cfebceb
    ensures WordIndex(59) == 13 && Shift(59) == 21 && Constant(59) == 0x4e0811a1
    ensures WordIndex(60) == 4 && Shift(60) == 6 && Constant(60) == T_MASK ^ 0x08ac817d
    ensures WordIndex(61) == 11 && Shift(61) == 10 && Constant(61) == T_MASK ^ 0x42c50dca
    ensures WordIndex(62) == 2 && Shift(62) == 15 && Constant(62) == 0x2ad7d2bb
    ensures WordIndex(63) == 9 && Shift(63) == 21 && Constant(63) == T_MASK ^ 0x14792c6e
  {
  }

  method Round1(x: seq<Word>, r: Registers) returns (r': Registers)
    requires |x| == 16
    ensures r' == Operations(x, 0, 16, r)
  {
    var a, b, c, d := r.a, r.b, r.c, r.d;
    hide SetF, SetG, SetH, SetI, FourOperations, Operations, WordIndex, Shift, Constant;
    Table1();
    ghost var g := r;
    a := SetF(a, b, c, d, x[0], 7, T_MASK ^ 0x28955b87);
    d := SetF(d, a, b, c, x[1], 12, T_MASK ^ 0x173848a9);
    c := SetF(c, d, a, b, x[2], 17, 0x242070db);
    b := SetF(b, c, d, a, x[3], 22, T_MASK ^ 0x3e423111);
    assert FourOperations(x, 0, g) == Registers(a, b, c, d) by { FourSets(x, 0, g); }
    g := FourOperations(x, 0, g);
    a := SetF(a, b, c, d, x[4], 7, T_MASK ^ 0x0a83f050);
    d := SetF(d, a, b, c, x[5], 12, 0x4787c62a);
    c := SetF(c, d, a, b, x[6], 17, T_MASK ^ 0x57cfb9ec);
    b := SetF(b, c, d, a, x[7], 22, T_MASK ^ 0x02b96afe);
    assert FourOperations(x, 4, g) == Registers(a, b, c, d) by { FourSets(x, 4, g); }
    g := FourOperations(x, 4, g);
    a := SetF(a, b, c, d, x[8], 7, 0x698098d8);
    d := SetF(d, a, b, c, x[9], 12, T_MASK ^ 0x74bb0850);
    c := SetF(c, d, a, b, x[10], 17, T_MASK ^ 0x0000a44e);
    b := SetF(b, c, d, a, x[11], 22, T_MASK ^ 0x76a32841);
    assert FourOperations(x, 8, g) == Registers(a, b, c, d) by { FourSets(x, 8, g); }
    g := FourOperations(x, 8, g);
    a := SetF(a, b, c, d, x[12], 7, 0x6b901122);
    d := SetF(d, a, b, c, x[13], 12, T_MASK ^ 0x02678e6c);
    c := SetF(c, d, a, b, x[14], 17, T_MASK ^ 0x5986bc71);
    b := SetF(b, c, d, a, x[15], 22, 0x49b40821);
    assert FourOperations(x, 12, g) == Registers(a, b, c, d) by { FourSets(x, 12, g); }
    g := FourOperations(x, 12, g);
    r' := Registers(a, b, c, d);
    SixteenOperations(x, 0, r);
  }

  method Round2(x: seq<Word>, r: Registers) returns (r': Registers)
    requires |x| == 16
    ensures r' == Operations(x, 16, 32, r)
  {
    var a, b, c, d := r.a, r.b, r.c, r.d;
    hide SetF, SetG, SetH, SetI, FourOperations, Operations, WordIndex, Shift, Constant;
    Table2();
    ghost var g := r;
    a := SetG(a, b, c, d, x[1], 5, T_MASK ^ 0x09e1da9d);
    d := SetG(d, a, b, c, x[6], 9, T_MASK ^ 0x3fbf4cbf);
    c := SetG(c, d, a, b, x[11], 14, 0x265e5a51);
    b := SetG(b, c, d, a, x[0], 20, T_MASK ^ 0x16493855);
    assert FourOperations(x, 16, g) == Registers(a, b, c, d) by { FourSets(x, 16, g); }
    g := FourOperations(x, 16, g);
    a := SetG(a, b, c, d, x[5], 5, T_MASK ^ 0x29d0efa2);
    d := SetG(d, a, b, c, x[10], 9, 0x02441453);
    c := SetG(c, d, a, b, x[15], 14, T_MASK ^ 0x275e197e);
    b := SetG(b, c, d, a, x[4], 20, T_MASK ^ 0x182c0437);
    assert FourOperations(x, 20, g) == Registers(a, b, c, d) by { FourSets(x, 20, g); }
    g := FourOperations(x, 20, g);
    a := SetG(a, b, c, d, x[9], 5, 0x21e1cde6);
    d := SetG(d, a, b, c, x[14], 9, T_MASK ^ 0x3cc8f829);
    c := SetG(c, d, a, b, x[3], 14, T_MASK ^ 0x0b2af278);
    b := SetG(b, c, d, a, x[8], 20, 0x455a14ed);
    assert FourOperations(x, 24, g) == Registers(a, b, c, d) by { FourSets(x, 24, g); }
    g := FourOperations(x, 24, g);
    a := SetG(a, b, c, d, x[13], 5, T_MASK ^ 0x561c16fa);
    d := SetG(d, a, b, c, x[2], 9, T_MASK ^ 0x03105c07);
    c := SetG(c, d, a, b, x[7], 14, 0x676f02d9);
    b := SetG(b, c, d, a, x[12], 20, T_MASK ^ 0x72d5b375);
    assert FourOperations(x, 28, g) == Registers(a, b, c, d) by { FourSets(x, 28, g); }
    g := FourOperations(x, 28, g);
    r' := Registers(a, b, c, d);
    SixteenOperations(x, 16, r);
  }

  method Round3(x: seq<Word>, r: Registers) returns (r': Registers)
    requires |x| == 16
    ensures r' == Operations(x, 32, 48, r)
  {
    var a, b, c, d := r.a, r.b, r.c, r.d;
    hide SetF, SetG, SetH, SetI, FourOperations, Operations, WordIndex, Shift, Constant;
    Table3();
    ghost var g := r;
    a := SetH(a, b, c, d, x[5], 4, T_MASK ^ 0x0005c6bd);
    d := SetH(d, a, b, c, x[8], 11, T_MASK ^ 0x788e097e);
    c := SetH(c, d, a, b, x[11], 16, 0x6d9d6122);
    b := SetH(b, c, d, a, x[14], 23, T_MASK ^ 0x021ac7f3);
    assert FourOperations(x, 32, g) == Registers(a, b, c, d) by { FourSets(x, 32, g); }
    g := FourOperations(x, 32, g);
    a := SetH(a, b, c, d, x[1], 4, T_MASK ^ 0x5b4115bb);
    d := SetH(d, a, b, c, x[4], 11, 0x4bdecfa9);
    c := SetH(c, d, a, b, x[7], 16, T_MASK ^ 0x0944b49f);
    b := SetH(b, c, d, a, x[10], 23, T_MASK ^ 0x4140438f);
    assert FourOperations(x, 36, g) == Registers(a, b, c, d) by { FourSets(x, 36, g); }
    g := FourOperations(x, 36, g);
    a := SetH(a, b, c, d, x[13], 4, 0x289b7ec6);
    d := SetH(d, a, b, c, x[0], 11, T_MASK ^ 0x155ed805);
    c := SetH(c, d, a, b, x[3], 16, T_MASK ^ 0x2b10cf7a);
    b := SetH(b, c, d, a, x[6], 23, 0x04881d05);
    assert FourOperations(x, 40, g) == Registers(a, b, c, d) by { FourSets(x, 40, g); }
    g := FourOperations(x, 40, g);
    a := SetH(a, b, c, d, x[9], 4, T_MASK ^ 0x262b2fc6);
    d := SetH(d, a, b, c, x[12], 11, T_MASK ^ 0x1924661a);
    c := SetH(c, d, a, b, x[15], 16, 0x1fa27cf8);
    b := SetH(b, c, d, a, x[2], 23, T_MASK ^ 0x3b53a99a);
    assert FourOperations(x, 44, g) == Registers(a, b, c, d) by { FourSets(x, 44, g); }
    g := FourOperations(x, 44, g);
    r' := Registers(a, b, c, d);
    SixteenOperations(x, 32, r);
  }

  method Round4(x: seq<Word>, r: Registers) returns (r': Registers)
    requires |x| == 16
    ensures r' == Operations(x, 48, 64, r)
  {
    var a, b, c, d := r.a, r.b, r.c, r.d;
    hide SetF, SetG, SetH, SetI, FourOperations, Operations, WordIndex, Shift, Constant;
    Table4();
    ghost var g := r;
    a := SetI(a, b, c, d, x[0], 6, T_MASK ^ 0x0bd6ddbb);
    d := SetI(d, a, b, c, x[7], 10, 0x432aff97);
    c := SetI(c, d, a, b, x[14], 15, T_MASK ^ 0x546bdc58);
    b := SetI(b, c, d, a, x[5], 21, T_MASK ^ 0x036c5fc6);
    assert FourOperations(x, 48, g) == Registers(a, b, c, d) by { FourSets(x, 48, g); }
    g := FourOperations(x, 48, g);
    a := SetI(a, b, c, d, x[12], 6, 0x655b59c3);
    d := SetI(d, a, b, c, x[3], 10, T_MASK ^ 0x70f3336d);
    c := SetI(c, d, a, b, x[10], 15, T_MASK ^ 0x00100b82);
    b := SetI(b, c, d, a, x[1], 21, T_MASK ^ 0x7a7ba22e);
    assert FourOperations(x, 52, g) == Registers(a, b, c, d) by { FourSets(x, 52, g); }
    g := FourOperations(x, 52, g);
    a := SetI(a, b, c, d, x[8], 6, 0x6fa87e4f);
    d := SetI(d, a, b, c, x[15], 10, T_MASK ^ 0x01d3191f);
    c := SetI(c, d, a, b, x[6], 15, T_MASK ^ 0x5cfebceb);
    b := SetI(b, c, d, a, x[13], 21, 0x4e0811a1);
    assert FourOperations(x, 56, g) == Registers(a, b, c, d) by { FourSets(x, 56, g); }
    g := FourOperations(x, 56, g);
    a := SetI(a, b, c, d, x[4], 6, T_MASK ^ 0x08ac817d);
    d := SetI(d, a, b, c, x[11], 10, T_MASK ^ 0x42c50dca);
    c := SetI(c, d, a, b, x[2], 15, 0x2ad7d2bb);
    b := SetI(b, c, d, a, x[9], 21, T_MASK ^ 0x14792c6e);
    assert FourOperations(x, 60, g) == Registers(a, b, c, d) by { FourSets(x, 60, g); }
    g := FourOperations(x, 60, g);
    r' := Registers(a, b, c, d);
    SixteenOperations(x, 48, r);
  }

  ghost function FourOperations(x: seq<Word>, i: nat, r: Registers): Registers
    requires |x| == 16 && i + 4 <= 64
  {
    Operation(x, i + 3, Operation(x, i + 2, Operation(x, i + 1, Operation(x, i, r))))
  }

  lemma FourOf(x: seq<Word>, i: nat, n: nat, r: Registers)
    requires |x| == 16 && i + 4 <= n <= 64
    ensures Operations(x, i, n, r) == Operations(x, i + 4, n, FourOperations(x, i, r))
  {
    hide Operation;
    var r1 := Operation(x, i, r);
    var r2 := Operation(x, i + 1, r1);
    var r3 := Operation(x, i + 2, r2);
    assert Operations(x, i, n, r) == Operations(x, i + 1, n, r1);
    assert Operations(x, i + 1, n, r1) == Operations(x, i + 2, n, r2);
    assert Operations(x, i + 2, n, r2) == Operations(x, i + 3, n, r3);
  }

  lemma SixteenOperations(x: seq<Word>, i: nat, r: Registers)
    requires |x| == 16 && i + 16 <= 64
    ensures Operations(x, i, i + 16, r) ==
      FourOperations(x, i + 12, FourOperations(x, i + 8, FourOperations(x, i + 4, FourOperations(x, i, r))))
  {
    hide FourOperations, Operation;
    var r1 := FourOperations(x, i, r);
    var r2 := FourOperations(x, i + 4, r1);
    var r3 := FourOperations(x, i + 8, r2);
    FourOf(x, i, i + 16, r);
    FourOf(x, i + 4, i + 16, r1);
    FourOf(x, i + 8, i + 16, r2);
    FourOf(x, i + 12, i + 16, r3);
  }

  lemma AllOperations(x: seq<Word>, r: Registers)
    requires |x| == 16
    ensures var r1 := Operations(x, 0, 16, r);
      var r2 := Operations(x, 16, 32, r1);
      var r3 := Operations(x, 32, 48, r2);
      Operations(x, 0, 64, r) == Operations(x, 48, 64, r3)
  {
    OperationsSplit(x, 0, 16, 64, r);
    OperationsSplit(x, 16, 32, 64, Operations(x, 0, 16, r));
    OperationsSplit(x, 32, 48, 64, Operations(x, 16, 32, Operations(x, 0, 16, r)));
  }

  lemma {:induction false} OperationsSplit(x: seq<Word>, i: nat, m: nat, n: nat, r: Registers)
    requires |x| == 16 && i <= m <= n <= 64
    ensures Operations(x, i, n, r) == Operations(x, m, n, Operations(x, i, m, r))
    decreases m - i
  {
    hide Operation;
    if i < m {
      OperationsSplit(x, i + 1, m, n, Operation(x, i, r));
    }
  }

  /** One block: decode the words, run the four rounds, add the old chaining value. */
  method Process(abcd: Registers, data: seq<U8>) returns (r: Registers)
    requires |data| == 64
    ensures r == Compress(abcd, data)
  {
    hide Operations, Add, WordAt;
    var x: seq<Word> := [];
    for i := 0 to 16
      invariant |x| == i && forall k :: 0 <= k < i ==> x[k] == WordAt(data, 4 * k)
    {
      x := x + [WordAt(data, 4 * i)];
    }
    assert x == Words(data);
    r := Round1(x, abcd);
    r := Round2(x, r);
    r := Round3(x, r);
    r := Round4(x, r);
    AllOperations(x, abcd);
    r := Plus(abcd, r);
  }
}
