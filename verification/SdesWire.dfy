/** The SDES packet layout of RFC 3550, section 6.5: an encoder, and a reference parser that
    says which byte strings are well formed. */
module SdesWire {
  import opened Common

  datatype Item_ = Item(id: U8, text: seq<U8>)

  /** Items the format can carry: type 0 ends a list, and a length is one byte. */
  type Item = i: Item_ | i.id != 0 && |i.text| <= 255 witness Item(1, [])

  datatype Chunk = Chunk(ssrc: U32, items: seq<Item>)

  const COMMON_HEADER: nat := 4
  const SSRC_SIZE: nat := 4
  const ITEM_HEADER: nat := 2
  const MAX_COUNT: nat := 31
  const TYPE_SDES: U8 := 202
  const ID_PRIVATE: U8 := 8

  // ---- encoding ----

  function BigEndian(n: U32): (b: seq<U8>)
    ensures |b| == 4
  {
    [n / 0x100_0000, n / 0x1_0000 % 0x100, n / 0x100 % 0x100, n % 0x100]
  }

  /** Bytes that bring n up to a multiple of 4. */
  function Padding(n: nat): (p: nat)
    ensures p < 4 && (n + p) % 4 == 0
  {
    (4 - n % 4) % 4
  }

  function EncodeItem(i: Item): (b: seq<U8>)
    ensures |b| == ITEM_HEADER + |i.text|
  {
    [i.id, |i.text|] + i.text
  }

  function EncodeItems(items: seq<Item>): seq<U8> {
    if items == [] then [] else EncodeItem(items[0]) + EncodeItems(items[1..])
  }

  /** SSRC, items, at least one null byte, and null bytes up to the next 32-bit boundary. */
  function EncodeChunk(c: Chunk): (b: seq<U8>)
    ensures |b| % 4 == 0
  {
    var items := EncodeItems(c.items);
    BigEndian(c.ssrc) + items + [0] + Zeros(Padding(|items| + 1))
  }

  function EncodeChunks(cs: seq<Chunk>): (b: seq<U8>)
    ensures |b| % 4 == 0
  {
    hide EncodeChunk;
    if cs == [] then [] else EncodeChunk(cs[0]) + EncodeChunks(cs[1..])
  }

  /** Version 2, no padding bit, source count, packet type, length in words minus one. */
  function EncodePacket(cs: seq<Chunk>): (b: seq<U8>)
    requires |cs| <= MAX_COUNT
    ensures |b| == COMMON_HEADER + |EncodeChunks(cs)|
  {
    var body := EncodeChunks(cs);
    var words := |body| / 4 % 0x1_0000;
    [0x80 + |cs|, TYPE_SDES, words / 0x100, words % 0x100] + body
  }

  // ---- parsing ----

  function ReadBigEndian(d: seq<U8>, off: nat): U32
    requires off + 4 <= |d|
  {
    var b0: int, b1: int, b2: int, b3: int := d[off], d[off + 1], d[off + 2], d[off + 3];
    0x100_0000 * b0 + 0x1_0000 * b1 + 0x100 * b2 + b3
  }

  /** The items from off up to the null byte that ends them; None if they run off the data. */
  function ParseItems(d: seq<U8>, off: nat): Option<seq<Item>>
    decreases |d| - off
  {
    if off >= |d| then None
    else if d[off] == 0 then Some([])
    else if off + 2 > |d| || off + 2 + d[off + 1] > |d| then None
    else
      var next: nat := off + 2 + d[off + 1];
      match ParseItems(d, next)
      case None => None
      case Some(rest) => Some([Item(d[off], d[off + 2..next])] + rest)
  }

  /** Where that null byte is. */
  function ItemsEnd(d: seq<U8>, off: nat): (e: nat)
    requires ParseItems(d, off).Some?
    ensures off <= e < |d| && d[e] == 0
    decreases |d| - off
  {
    if d[off] == 0 then off else ItemsEnd(d, off + 2 + d[off + 1])
  }

  /** One past a chunk starting at off: past the null byte, rounded up to 4 from the start. */
  function ChunkEnd(d: seq<U8>, off: nat): (e: nat)
    requires ParseItems(d, off + SSRC_SIZE).Some?
    ensures off + SSRC_SIZE < e && (e - off) % 4 == 0
  {
    var n := ItemsEnd(d, off + SSRC_SIZE) - off + 1;
    off + n + Padding(n)
  }

  function ParseChunks(d: seq<U8>, off: nat, n: nat): Option<seq<Chunk>>
    decreases n
  {
    if n == 0 then Some([])
    else if off + SSRC_SIZE > |d| then None
    else
      match ParseItems(d, off + SSRC_SIZE)
      case None => None
      case Some(items) =>
        match ParseChunks(d, ChunkEnd(d, off), n - 1)
        case None => None
        case Some(rest) => Some([Chunk(ReadBigEndian(d, off), items)] + rest)
  }

  /** The five-bit source count of the common header. */
  function Count(d: seq<U8>): nat
    requires |d| >= COMMON_HEADER
  {
    d[0] % 0x20
  }

  function ParsePacket(d: seq<U8>): Option<seq<Chunk>> {
    if |d| < COMMON_HEADER then None else ParseChunks(d, COMMON_HEADER, Count(d))
  }

  // ---- the layout ----

  /** The header fields of encoded reports and source descriptions, as section 6.4.1 of RFC 3550
      places them: two bits of version, the padding bit, five bits of count, eight of packet type,
      sixteen of length in words less one. */
  predicate HeaderIs(d: seq<U8>, count: nat, kind: nat) {
    && |d| >= 4 && d[0] / 64 == 2 && d[0] / 32 % 2 == 0 && Count(d) == count && d[1] == kind
    && var high: int, low: int := d[2], d[3];
    4 * (256 * high + low + 1) == |d|
  }

  lemma SdesHeader(cs: seq<Chunk>)
    requires |cs| <= MAX_COUNT && |EncodePacket(cs)| <= 0x4_0000
    ensures HeaderIs(EncodePacket(cs), |cs|, 202)
  {
  }

  /** Section 6.5 of RFC 3550: an item is its type, the length of its text, and the text; a chunk
      is the SSRC, high-order byte first, the items, and one to four null bytes up to the next
      32-bit boundary. */
  lemma ItemLayout(i: Item)
    ensures var b := EncodeItem(i);
      |b| == 2 + |i.text| && b[0] == i.id && b[1] == |i.text| && b[2..] == i.text
  {
  }

  lemma ChunkLayout(c: Chunk)
    ensures var b, n := EncodeChunk(c), 4 + |EncodeItems(c.items)|;
      && n < |b| <= n + 4 && |b| % 4 == 0 && b[4..n] == EncodeItems(c.items)
      && (forall i :: n <= i < |b| ==> b[i] == 0)
      && var b0: int, b1: int, b2: int, b3: int := b[0], b[1], b[2], b[3];
      0x100_0000 * b0 + 0x1_0000 * b1 + 0x100 * b2 + b3 == c.ssrc
  {
    hide EncodeItems;
    WordOfBytes(c.ssrc);
  }

  /** 31 is the largest count that the five bits give back. */
  lemma CountGivenBack(n: nat)
    ensures (0x80 + n) % 0x20 == n <==> n <= MAX_COUNT
  {
  }

  // ---- round trip ----

  /** The bytes b lie in d at off. */
  predicate LiesAt(d: seq<U8>, off: nat, b: seq<U8>) {
    off + |b| <= |d| && d[off..off + |b|] == b
  }

  lemma LiesAtParts(d: seq<U8>, off: nat, a: seq<U8>, b: seq<U8>)
    requires LiesAt(d, off, a + b)
    ensures LiesAt(d, off, a) && LiesAt(d, off + |a|, b)
  {
    var s := d[off..off + |a + b|];
    assert d[off..off + |a|] == s[..|a|];
    assert d[off + |a|..off + |a + b|] == s[|a|..];
  }

  lemma LiesAtByte(d: seq<U8>, off: nat, b: seq<U8>, i: nat)
    requires LiesAt(d, off, b) && i < |b|
    ensures d[off + i] == b[i]
  {
    assert d[off..off + |b|][i] == b[i];
  }

  /** A word is the sum of its bytes. */
  lemma WordOfBytes(n: nat)
    ensures n == 0x100_0000 * (n / 0x100_0000) + 0x1_0000 * (n / 0x1_0000 % 0x100) + 0x100 * (n / 0x100 % 0x100)
      + n % 0x100
  {
    var n1 := n / 0x100;
    var n2 := n1 / 0x100;
    assert n2 == n / 0x1_0000;
    assert n2 / 0x100 == n / 0x100_0000;
  }

  lemma BigEndianRoundTrip(d: seq<U8>, off: nat, n: U32)
    requires LiesAt(d, off, BigEndian(n))
    ensures ReadBigEndian(d, off) == n
  {
    LiesAtByte(d, off, BigEndian(n), 0);
    LiesAtByte(d, off, BigEndian(n), 1);
    LiesAtByte(d, off, BigEndian(n), 2);
    LiesAtByte(d, off, BigEndian(n), 3);
    hide LiesAt;
    WordOfBytes(n);
  }

  /** An encoded item is recognised by its header and cut by its length. */
  lemma ItemLiesAt(d: seq<U8>, off: nat, i: Item)
    requires LiesAt(d, off, EncodeItem(i))
    ensures off + 2 + |i.text| <= |d| && d[off] == i.id && d[off + 1] == |i.text|
    ensures Item(d[off], d[off + 2..off + 2 + |i.text|]) == i
  {
    LiesAtParts(d, off, [i.id, |i.text|], i.text);
    LiesAtByte(d, off, [i.id, |i.text|], 0);
    LiesAtByte(d, off, [i.id, |i.text|], 1);
  }

  /** An item in front of a list that parses. */
  lemma ParseOneMore(d: seq<U8>, off: nat, i: Item, rest: seq<Item>)
    requires off + 2 + |i.text| <= |d| && d[off] == i.id && d[off + 1] == |i.text|
    requires Item(d[off], d[off + 2..off + 2 + |i.text|]) == i
    requires ParseItems(d, off + 2 + |i.text|) == Some(rest)
    ensures ParseItems(d, off) == Some([i] + rest)
    ensures ItemsEnd(d, off) == ItemsEnd(d, off + 2 + |i.text|)
  {
  }

  lemma {:induction false} ItemsRoundTrip(d: seq<U8>, off: nat, items: seq<Item>)
    requires LiesAt(d, off, EncodeItems(items))
    requires off + |EncodeItems(items)| < |d| && d[off + |EncodeItems(items)|] == 0
    ensures ParseItems(d, off) == Some(items)
    ensures ItemsEnd(d, off) == off + |EncodeItems(items)|
    decreases |items|
  {
    if items == [] {
      assert ParseItems(d, off) == Some([]);
    } else {
      hide EncodeItem, LiesAt, ParseItems, ItemsEnd;
      var first := EncodeItem(items[0]);
      LiesAtParts(d, off, first, EncodeItems(items[1..]));
      ItemLiesAt(d, off, items[0]);
      ItemsRoundTrip(d, off + |first|, items[1..]);
      ParseOneMore(d, off, items[0], items[1..]);
      assert items == [items[0]] + items[1..];
    }
  }

  lemma ChunkRoundTrip(d: seq<U8>, off: nat, c: Chunk)
    requires LiesAt(d, off, EncodeChunk(c))
    ensures ParseItems(d, off + SSRC_SIZE) == Some(c.items)
    ensures ChunkEnd(d, off) == off + |EncodeChunk(c)|
    ensures ReadBigEndian(d, off) == c.ssrc
  {
    hide BigEndian, EncodeItems, ParseItems, ItemsEnd, Padding, ReadBigEndian, Zeros;
    var items := EncodeItems(c.items);
    var fill := Zeros(Padding(|items| + 1));
    LiesAtParts(d, off, BigEndian(c.ssrc) + items + [0], fill);
    LiesAtParts(d, off, BigEndian(c.ssrc) + items, [0]);
    LiesAtByte(d, off + 4 + |items|, [0], 0);
    LiesAtParts(d, off, BigEndian(c.ssrc), items);
    ItemsRoundTrip(d, off + 4, c.items);
    BigEndianRoundTrip(d, off, c.ssrc);
    assert ItemsEnd(d, off + SSRC_SIZE) - off + 1 == 4 + (|items| + 1);
    PaddingShift(|items| + 1);
  }

  /** Counting the SSRC in or out does not change the padding. */
  lemma PaddingShift(n: nat)
    ensures Padding(SSRC_SIZE + n) == Padding(n)
  {
  }

  lemma ParseChunksOneMore(d: seq<U8>, off: nat, c: Chunk, rest: seq<Chunk>)
    requires off + SSRC_SIZE <= |d| && ParseItems(d, off + SSRC_SIZE) == Some(c.items)
    requires ReadBigEndian(d, off) == c.ssrc
    requires ParseChunks(d, ChunkEnd(d, off), |rest|) == Some(rest)
    ensures ParseChunks(d, off, |rest| + 1) == Some([c] + rest)
  {
    hide ParseItems, ReadBigEndian, ChunkEnd;
    assert c == Chunk(c.ssrc, c.items);
  }

  lemma ParseNoChunks(d: seq<U8>, off: nat)
    ensures ParseChunks(d, off, 0) == Some([])
  {
  }

  lemma {:induction false} ChunksRoundTrip(d: seq<U8>, off: nat, cs: seq<Chunk>)
    requires LiesAt(d, off, EncodeChunks(cs))
    ensures ParseChunks(d, off, |cs|) == Some(cs)
    decreases |cs|
  {
    hide EncodeChunk, ReadBigEndian, LiesAt, ParseChunks, ParseItems, ChunkEnd;
    if cs == [] {
      ParseNoChunks(d, off);
    } else {
      var first := EncodeChunk(cs[0]);
      LiesAtParts(d, off, first, EncodeChunks(cs[1..]));
      ChunkRoundTrip(d, off, cs[0]);
      ChunksRoundTrip(d, off + |first|, cs[1..]);
      ParseChunksOneMore(d, off, cs[0], cs[1..]);
      assert cs == [cs[0]] + cs[1..];
    }
  }

  /** Parsing an encoded packet gives back its chunks, whatever bytes follow it. */
  lemma PacketRoundTrip(cs: seq<Chunk>, after: seq<U8>)
    requires |cs| <= MAX_COUNT
    ensures ParsePacket(EncodePacket(cs) + after) == Some(cs)
  {
    hide EncodeChunks, ParseChunks;
    var d := EncodePacket(cs) + after;
    assert LiesAt(d, 4, EncodeChunks(cs));
    ChunksRoundTrip(d, 4, cs);
  }
}
