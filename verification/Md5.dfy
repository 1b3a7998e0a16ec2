/** Streaming MD5 as zmd5.c computes it: a bit count in two 32-bit words, a chaining value
    and a 64-byte buffer holding the bytes not yet compressed. */
module Md5 {
  import opened Common
  import opened Rfc1321
  import Md5Process

  /** The complete blocks of m, and the bytes after them. */
  function Whole(m: seq<U8>): (w: seq<U8>)
    ensures |w| % 64 == 0
  {
    m[..|m| - |m| % 64]
  }

  function Tail(m: seq<U8>): (t: seq<U8>)
    ensures |t| == |m| % 64
  {
    m[|m| - |m| % 64..]
  }

  lemma WholeAndTail(m: seq<U8>)
    ensures m == Whole(m) + Tail(m)
  {
  }

  lemma WholeAndTailUnique(w: seq<U8>, t: seq<U8>)
    requires |w| % 64 == 0 && |t| < 64
    ensures Whole(w + t) == w && Tail(w + t) == t && |w + t| % 64 == |t|
  {
    assert |w + t| % 64 == |t|;
  }

  // ---- the 64-bit count in two words ----

  /** The count words are the low 64 bits of n, low-order word first. */
  predicate Counts(low: U32, high: U32, n: nat) {
    low + TWO_32 * high == n % TWO_64
  }

  /** md5_append's update: nbytes >> 29 goes to the high word, nbytes << 3 (cut to 32 bits) to
      the low word, and a low word smaller than its addend means a carry. */
  function AddToCount(low: U32, high: U32, nbytes: nat): (r: (U32, U32))
    requires nbytes <= INT_MAX
  {
    var nbits := (8 * nbytes) % TWO_32;
    var high1 := (high + nbytes / 0x2000_0000) % TWO_32;
    var low1 := (low + nbits) % TWO_32;
    (low1, if low1 < nbits then (high1 + 1) % TWO_32 else high1)
  }

  lemma AddToCountIsExact(low: U32, high: U32, n: nat, nbytes: nat)
    requires Counts(low, high, 8 * n) && nbytes <= INT_MAX
    ensures var (low', high') := AddToCount(low, high, nbytes);
      Counts(low', high', 8 * (n + nbytes))
  {
    var (low', high') := AddToCount(low, high, nbytes);
    var nbits, top := (8 * nbytes) % TWO_32, nbytes / 0x2000_0000;
    var carry := if low + nbits >= TWO_32 then 1 else 0;
    var overflow := (high + top + carry) / TWO_32;
    ShiftsSplit(nbytes);
    LowWordCarries(low, nbits);
    HighWordCarries(high, top, carry);
    CountModulo(low + TWO_32 * high, 8 * n, 8 * nbytes, low' + TWO_32 * high', overflow);
  }

  /** nbytes >> 29 and nbytes << 3 are the two words of 8 * nbytes. */
  lemma ShiftsSplit(nbytes: nat)
    ensures 8 * nbytes == (8 * nbytes) % TWO_32 + TWO_32 * (nbytes / 0x2000_0000)
  {
    assert 8 * nbytes / TWO_32 == nbytes / 0x2000_0000;
  }

  /** A sum cut to 32 bits is below its addend exactly when it was cut. */
  lemma LowWordCarries(low: U32, nbits: U32)
    ensures var low' := (low + nbits) % TWO_32;
      (low' < nbits <==> low + nbits >= TWO_32) && low' == low + nbits - if low' < nbits then TWO_32 else 0
  {
  }

  lemma HighWordCarries(high: U32, top: nat, carry: nat)
    requires top < TWO_32 && carry <= 1
    ensures var high' := if carry == 1 then ((high + top) % TWO_32 + 1) % TWO_32 else (high + top) % TWO_32;
      high' == high + top + carry - TWO_32 * ((high + top + carry) / TWO_32)
  {
  }

  lemma CountModulo(count: nat, n: nat, added: nat, count': nat, overflow: nat)
    requires count == n % TWO_64 && count' < TWO_64
    requires count' == count + added - TWO_64 * overflow
    ensures count' == (n + added) % TWO_64
  {
  }

  /** The buffer offset is read off the low word alone. */
  lemma OffsetFromCount(low: U32, high: U32, n: nat)
    requires Counts(low, high, 8 * n)
    ensures low / 8 % 64 == n % 64
  {
    var turns := 0x80_0000 * high + 0x80_0000_0000_0000 * (8 * n / TWO_64);
    assert low == 8 * (n - 64 * turns);
    assert low / 8 == n - 64 * turns;
  }

  /** Byte i of the count, low-order word first: count[i >> 2] >> ((i & 3) << 3). */
  function CountByte(low: U32, high: U32, i: nat): U8
    requires i < 8
  {
    var w: nat := if i < 4 then low else high;
    var j := i % 4;
    (if j == 0 then w else if j == 1 then w / 0x100 else if j == 2 then w / 0x1_0000 else w / 0x100_0000) % 0x100
  }

  /** The eight bytes saved by md5_finish are the length field of RFC 1321, section 3.2. */
  lemma CountBytesAreLength(low: U32, high: U32, n: nat)
    requires Counts(low, high, n)
    ensures LengthBytes(n) == seq(8, i requires 0 <= i < 8 => CountByte(low, high, i))
  {
    hide CountByte;
    assert n % TWO_64 == low + TWO_32 * high;
    CountByteIs(low, high);
    LowBytes(low, high);
    HighBytes(low, high);
    var l := LengthBytes(n);
    assert forall i :: 0 <= i < 8 ==> l[i] == CountByte(low, high, i) by {
      assert l[0] == CountByte(low, high, 0) && l[1] == CountByte(low, high, 1);
      assert l[2] == CountByte(low, high, 2) && l[3] == CountByte(low, high, 3);
      assert l[4] == CountByte(low, high, 4) && l[5] == CountByte(low, high, 5);
      assert l[6] == CountByte(low, high, 6) && l[7] == CountByte(low, high, 7);
    }
  }

  lemma CountByteIs(low: U32, high: U32)
    ensures CountByte(low, high, 0) == low % 0x100 && CountByte(low, high, 4) == high % 0x100
    ensures CountByte(low, high, 1) == low / 0x100 % 0x100 && CountByte(low, high, 5) == high / 0x100 % 0x100
    ensures CountByte(low, high, 2) == low / 0x1_0000 % 0x100 && CountByte(low, high, 6) == high / 0x1_0000 % 0x100
    ensures CountByte(low, high, 3) == low / 0x100_0000 % 0x100 && CountByte(low, high, 7) == high / 0x100_0000 % 0x100
  {
  }

  /** Multiples of 2^32 do not reach the low four bytes. */
  lemma LowBytes(low: U32, high: U32)
    ensures var b := low + TWO_32 * high;
      && b % 0x100 == low % 0x100
      && b / 0x100 % 0x100 == low / 0x100 % 0x100
      && b / 0x1_0000 % 0x100 == low / 0x1_0000 % 0x100
      && b / 0x100_0000 % 0x100 == low / 0x100_0000 % 0x100
  {
    var b := low + TWO_32 * high;
    assert b / 0x100 == low / 0x100 + 0x100_0000 * high;
    LowByte(low / 0x100, 0x1_0000 * high);
    assert b / 0x1_0000 == low / 0x1_0000 + 0x1_0000 * high;
    LowByte(low / 0x1_0000, 0x100 * high);
    assert b / 0x100_0000 == low / 0x100_0000 + 0x100 * high;
    LowByte(low / 0x100_0000, high);
    LowByte(low, 0x100_0000 * high);
  }

  lemma LowByte(x: nat, y: nat)
    ensures (x + 0x100 * y) % 0x100 == x % 0x100
  {
  }

  lemma HighBytes(low: U32, high: U32)
    ensures var b := low + TWO_32 * high;
      && b / 0x1_0000_0000 % 0x100 == high % 0x100
      && b / 0x100_0000_0000 % 0x100 == high / 0x100 % 0x100
      && b / 0x1_0000_0000_0000 % 0x100 == high / 0x1_0000 % 0x100
      && b / 0x100_0000_0000_0000 % 0x100 == high / 0x100_0000 % 0x100
  {
    var b := low + TWO_32 * high;
    assert b / 0x100_0000_0000 == high / 0x100;
    assert b / 0x1_0000_0000_0000 == high / 0x1_0000;
    assert b / 0x100_0000_0000_0000 == high / 0x100_0000;
  }

  /** The number of padding bytes md5_finish asks for, from the low count word alone and in
      32-bit unsigned arithmetic: 55 - n wraps when n > 55. */
  function PadLength(low: U32): nat {
    (55 - low / 8) % TWO_32 % 64 + 1
  }

  /** Despite the wrap it is the 0x80 byte plus the zeros RFC 1321 asks for: between 1 and 64
      bytes, reaching 56 mod 64. */
  lemma PadLengthIsPadding(low: U32, high: U32, n: nat)
    requires Counts(low, high, 8 * n)
    ensures PadLength(low) == 1 + ZeroPadding(n)
    ensures 1 <= PadLength(low) <= 64 && (n + PadLength(low)) % 64 == 56
  {
    OffsetFromCount(low, high, n);
    var k := low / 8;
    assert (55 - k) % TWO_32 % 64 == (55 - k) % 64;
    SubtractModulo(k, n);
  }

  lemma SubtractModulo(k: nat, n: nat)
    requires k % 64 == n % 64
    ensures (55 - k) % 64 == (55 - n) % 64
  {
    assert 55 - k == (55 - k % 64) - 64 * (k / 64);
    assert 55 - n == (55 - n % 64) - 64 * (n / 64);
  }

  // ---- absorbing block by block ----

  /** A whole number of blocks followed by one more block. */
  lemma AbsorbBlock(r: Registers, m: seq<U8>, block: seq<U8>)
    requires |m| % 64 == 0 && |block| == 64
    ensures Absorb(r, m + block) == Compress(Absorb(r, m), block)
  {
    hide Compress;
    AbsorbConcat(r, m, block);
    assert block[..64] == block;
  }

  /** An incomplete block waits. */
  lemma AbsorbWhole(r: Registers, m: seq<U8>)
    ensures Absorb(r, m) == Absorb(r, Whole(m))
  {
    hide Compress, Whole, Tail;
    WholeAndTail(m);
    AbsorbConcat(r, Whole(m), Tail(m));
  }

  /** Completing the waiting block compresses it. */
  lemma AbsorbCompleted(r: Registers, m: seq<U8>, x: seq<U8>)
    requires |Tail(m)| + |x| == 64
    ensures |m + x| % 64 == 0
    ensures Absorb(r, m + x) == Compress(Absorb(r, m), Tail(m) + x)
  {
    hide Compress, Absorb, Whole, Tail;
    AbsorbWhole(r, m);
    WholeAndTail(m);
    assert m + x == Whole(m) + (Tail(m) + x);
    AbsorbBlock(r, Whole(m), Tail(m) + x);
  }

  /** Fewer bytes than complete the waiting block only lengthen it. */
  lemma AbsorbWaiting(r: Registers, m: seq<U8>, x: seq<U8>)
    requires |Tail(m)| + |x| < 64
    ensures Absorb(r, m + x) == Absorb(r, m) && Tail(m + x) == Tail(m) + x
  {
    hide Compress, Absorb, Whole, Tail;
    WholeAndTail(m);
    assert m + x == Whole(m) + (Tail(m) + x);
    WholeAndTailUnique(Whole(m), Tail(m) + x);
    AbsorbWhole(r, m);
    AbsorbWhole(r, m + x);
  }

  lemma Regroup(start: seq<U8>, added: seq<U8>, p: nat, q: nat)
    requires p <= q <= |added|
    ensures start + added[..p] + added[p..q] + added[q..] == start + added
  {
    assert added == added[..p] + added[p..q] + added[q..];
  }

  method CopyInto(buf: array<U8>, at: nat, bytes: seq<U8>)
    requires at + |bytes| <= buf.Length
    modifies buf
    ensures buf[..] == old(buf[..at]) + bytes + old(buf[at + |bytes|..])
  {
    for i := 0 to |bytes|
      invariant forall j :: 0 <= j < buf.Length ==>
        buf[j] == if at <= j < at + i then bytes[j - at] else old(buf[j])
    {
      buf[at + i] := bytes[i];
    }
  }

  class State {
    var low: U32
    var high: U32
    var abcd: Registers
    const buf: array<U8>
    /** Everything appended since md5_init. */
    ghost var msg: seq<U8>

    /** The state says exactly how long msg is (mod 2^64 bits), the chaining value of its
        complete blocks, and its remaining bytes; the rest of buf is unconstrained. */
    ghost predicate Valid()
      reads this, buf
    {
      && buf.Length == 64
      && Counts(low, high, 8 * |msg|)
      && abcd == Absorb(INITIAL, msg)
      && buf[..|msg| % 64] == Tail(msg)
    }

    constructor ()
      ensures buf.Length == 64 && fresh(buf)
    {
      buf := new U8[64];
    }

    method Init()
      requires buf.Length == 64
      modifies this
      ensures Valid() && msg == []
    {
      low, high := 0, 0;
      abcd := Registers(
        0x67452301,
        Md5Process.T_MASK ^ 0x10325476,
        Md5Process.T_MASK ^ 0x67452301,
        0x10325476);
      msg := [];
    }

    /** The length update of md5_append. */
    method Count(nbytes: nat)
      requires Counts(low, high, 8 * |msg|) && nbytes <= INT_MAX
      modifies this`low, this`high
      ensures Counts(low, high, 8 * (|msg| + nbytes))
    {
      AddToCountIsExact(low, high, |msg|, nbytes);
      var nbits := (8 * nbytes) % TWO_32;
      high := (high + nbytes / 0x2000_0000) % TWO_32;
      low := (low + nbits) % TWO_32;
      if low < nbits { high := (high + 1) % TWO_32; }
    }

    /** The block loop of md5_append: compress complete blocks of data from p on. */
    method Blocks(data: seq<U8>, p0: nat, ghost done: seq<U8>) returns (p: nat)
      requires p0 <= |data| && |done| % 64 == 0 && abcd == Absorb(INITIAL, done)
      modifies this`abcd
      ensures p0 <= p <= |data| < p + 64
      ensures |done + data[p0..p]| % 64 == 0 && abcd == Absorb(INITIAL, done + data[p0..p])
    {
      hide Compress, Absorb;
      p := p0;
      assert done + data[p0..p0] == done;
      while |data| - p >= 64
        invariant p0 <= p <= |data|
        invariant |done + data[p0..p]| % 64 == 0 && abcd == Absorb(INITIAL, done + data[p0..p])
      {
        AbsorbBlock(INITIAL, done + data[p0..p], data[p..p + 64]);
        assert done + data[p0..p] + data[p..p + 64] == done + data[p0..p + 64];
        abcd := Md5Process.Process(abcd, data[p..p + 64]);
        p := p + 64;
      }
    }

    /** The initial partial block of md5_append: as many bytes of data as complete the waiting
        block, or all of them, are copied; a completed block is compressed. */
    method Partial(data: seq<U8>, offset: nat, ghost start: seq<U8>) returns (copy: nat)
      requires buf.Length == 64 && 0 < offset == |Tail(start)|
      requires abcd == Absorb(INITIAL, start) && buf[..offset] == Tail(start)
      modifies this`abcd, buf
      ensures copy <= |data| && offset + copy <= 64
      ensures offset + copy == 64 ==>
        |start + data[..copy]| % 64 == 0 && abcd == Absorb(INITIAL, start + data[..copy])
      ensures offset + copy < 64 ==>
        && copy == |data| && abcd == Absorb(INITIAL, start + data)
        && buf[..offset + copy] == Tail(start + data)
    {
      hide Compress, Absorb, Whole, Tail;
      copy := if offset + |data| > 64 then 64 - offset else |data|;
      CopyInto(buf, offset, data[..copy]);
      assert buf[..offset + copy] == Tail(start) + data[..copy];
      if offset + copy < 64 {
        assert data[..copy] == data;
        AbsorbWaiting(INITIAL, start, data);
        return;
      }
      assert buf[..] == buf[..64];
      AbsorbCompleted(INITIAL, start, data[..copy]);
      abcd := Md5Process.Process(abcd, buf[..]);
    }

    /** The final partial block of md5_append: what is left after the whole blocks waits. */
    method Remainder(left: seq<U8>, ghost whole: seq<U8>)
      requires buf.Length == 64 && |left| < 64 && |whole| % 64 == 0
      modifies buf
      ensures buf[..|left|] == left == Tail(whole + left)
      ensures Absorb(INITIAL, whole + left) == Absorb(INITIAL, whole)
    {
      hide Compress, Absorb, Whole, Tail;
      WholeAndTailUnique(whole, left);
      AbsorbWhole(INITIAL, whole + left);
      if |left| != 0 { CopyInto(buf, 0, left); }
    }

    /** md5_append after the length update: first partial block, full blocks, last partial block. */
    method Take(added: seq<U8>, offset: nat, ghost start: seq<U8>)
      requires buf.Length == 64 && offset == |Tail(start)|
      requires abcd == Absorb(INITIAL, start) && buf[..offset] == Tail(start)
      modifies this`abcd, buf
      ensures abcd == Absorb(INITIAL, start + added)
      ensures buf[..|Tail(start + added)|] == Tail(start + added)
    {
      hide Compress, Absorb, Whole, Tail;
      var p := 0;
      assert start + added[..0] == start;
      if offset != 0 {
        p := Partial(added, offset, start);
        if offset + p < 64 { return; }
      }
      var q := Blocks(added, p, start + added[..p]);
      Regroup(start, added, p, q);
      Remainder(added[q..], start + added[..p] + added[p..q]);
    }

    method Append(data: seq<U8>, nbytes: int)
      requires Valid() && nbytes <= |data|
      requires nbytes <= INT_MAX && |msg| % 64 + nbytes <= INT_MAX
      modifies this, buf
      ensures Valid()
      ensures msg == old(msg) + if nbytes <= 0 then [] else data[..nbytes]
    {
      hide Compress, Absorb, Whole, Tail;
      var offset := low / 8 % 64;
      OffsetFromCount(low, high, |msg|);
      if nbytes <= 0 { return; }
      Count(nbytes);
      Take(data[..nbytes], offset, msg);
      msg := msg + data[..nbytes];
    }

    /** Pad to 56 mod 64, append the saved length, and read the digest off the registers. */
    method Finish() returns (digest: seq<U8>)
      requires Valid()
      modifies this, buf
      ensures digest == Digest(old(msg))
      ensures Valid() && msg == Padded(old(msg)) && |msg| % 64 == 0
    {
      hide Compress, Absorb, Whole, Tail, LengthBytes, ByteOf;
      ghost var m := msg;
      var data: seq<U8> := [];
      for i := 0 to 8
        invariant |data| == i && forall k :: 0 <= k < i ==> data[k] == CountByte(low, high, k)
        invariant msg == m && Valid()
        modifies {}
      {
        data := data + [CountByte(low, high, i)];
      }
      CountBytesAreLength(low, high, 8 * |m|);
      assert data == LengthBytes(8 * |m|);
      PadLengthIsPadding(low, high, |m|);

      var pad: seq<U8> := [0x80] + Zeros(63);
      var padLength := PadLength(low);
      assert pad[..padLength] == [0x80] + Zeros(ZeroPadding(|m|));
      Append(pad, padLength);
      assert msg == m + [0x80] + Zeros(ZeroPadding(|m|));
      Append(data, 8);
      assert data[..8] == data;
      PaddedIsWholeBlocks(m);

      digest := [];
      for i := 0 to 16
        invariant |digest| == i && forall k :: 0 <= k < i ==> digest[k] == Output(abcd)[k]
        modifies {}
      {
        var w := if i < 4 then abcd.a else if i < 8 then abcd.b else if i < 12 then abcd.c else abcd.d;
        digest := digest + [ByteOf(w, i % 4)];
      }
    }
  }

  /** The count, the chaining words and the bytes of buf in use depend on what was appended, not
      on how: appending a then b leaves the state that appending a + b leaves. */
  lemma StateIsOfMessage(s: State, t: State)
    requires s.Valid() && t.Valid() && s.msg == t.msg
    ensures s.low == t.low && s.high == t.high && s.abcd == t.abcd
    ensures s.buf[..s.low / 8 % 64] == t.buf[..t.low / 8 % 64]
  {
    hide Absorb, Tail;
    OffsetFromCount(s.low, s.high, |s.msg|);
  }

  /** However a message is cut into pieces, init, the appends and finish give its digest. */
  method DigestOfPieces(pieces: seq<seq<U8>>) returns (digest: seq<U8>)
    requires forall i :: 0 <= i < |pieces| ==> |Flatten(pieces[..i])| % 64 + |pieces[i]| <= INT_MAX
    ensures digest == Digest(Flatten(pieces))
  {
    hide Digest, Flatten, State.Valid;
    assert Flatten(pieces[..0]) == [] by { assert pieces[..0] == []; FlattenEmpty<U8>(); }
    var state := new State();
    state.Init();
    for i := 0 to |pieces|
      invariant state.Valid() && state.msg == Flatten(pieces[..i])
    {
      state.Append(pieces[i], |pieces[i]|);
      assert pieces[..i + 1] == pieces[..i] + [pieces[i]];
      FlattenAppend(pieces[..i], pieces[i]);
    }
    assert pieces[..|pieces|] == pieces;
    digest := state.Finish();
  }
}
