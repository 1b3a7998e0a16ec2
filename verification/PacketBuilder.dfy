/** The size accounting of RTCPCompoundPacketBuilder: its nested classes Report, SDESSource and
    SDES predict how many bytes the packets they will become take on the wire. */
module PacketBuilder {
  import opened Common
  import opened ReportWire
  import opened SdesWire

  type Bytes = seq<U8>

  function TotalLength(bufs: seq<Bytes>): nat {
    if bufs == [] then 0 else |bufs[0]| + TotalLength(bufs[1..])
  }

  lemma {:induction false} TotalLengthAppend(bufs: seq<Bytes>, b: Bytes)
    ensures TotalLength(bufs + [b]) == TotalLength(bufs) + |b|
  {
    if bufs == [] {
      assert [b][1..] == [];
    } else {
      assert (bufs + [b])[1..] == bufs[1..] + [b];
      TotalLengthAppend(bufs[1..], b);
    }
  }

  lemma {:induction false} TotalLengthFlatten(bufs: seq<Bytes>)
    ensures |Flatten(bufs)| == TotalLength(bufs)
  {
    if bufs != [] { TotalLengthFlatten(bufs[1..]); }
  }

  // ---- which packets carry a list: greedily, at most 31 entries each ----

  function Groups<T>(s: seq<T>): (g: seq<seq<T>>)
    ensures |g| > 0
    ensures forall i :: 0 <= i < |g| ==> |g[i]| <= MAX_COUNT && (i < |g| - 1 ==> |g[i]| == MAX_COUNT)
    decreases |s|
  {
    if |s| <= MAX_COUNT then [s] else [s[..MAX_COUNT]] + Groups(s[MAX_COUNT..])
  }

  /** The grouping loses nothing and keeps the order. */
  lemma {:induction false} GroupsFlatten<T>(s: seq<T>)
    ensures Flatten(Groups(s)) == s
    decreases |s|
  {
    if |s| <= MAX_COUNT {
      assert Flatten([s]) == s + Flatten<T>([]);
    } else {
      GroupsFlatten(s[MAX_COUNT..]);
      assert s == s[..MAX_COUNT] + s[MAX_COUNT..];
    }
  }

  /** The count n / 31 of full packets, plus one for a remainder. */
  function Packets(n: nat): nat {
    n / MAX_COUNT + if n % MAX_COUNT != 0 then 1 else 0
  }

  lemma {:induction false} GroupsCount<T>(s: seq<T>)
    ensures |Groups(s)| == if s == [] then 1 else Packets(|s|)
    decreases |s|
  {
    if |s| > MAX_COUNT {
      GroupsCount(s[MAX_COUNT..]);
      assert |s| / MAX_COUNT == (|s| - MAX_COUNT) / MAX_COUNT + 1 && |s| % MAX_COUNT == (|s| - MAX_COUNT) % MAX_COUNT;
    }
  }

  // ---- sender and receiver reports, RFC 3550 sections 6.4.1 and 6.4.2 ----

  /** The packets of a report: the first an SR or RR, the rest RR. */
  function ReportSizes(sr: bool, groups: seq<seq<Bytes>>): nat {
    if groups == [] then 0
    else
      COMMON_HEADER + SSRC_SIZE + (if sr then SENDER_INFO else 0) + TotalLength(groups[0])
      + ReportSizes(false, groups[1..])
  }

  ghost predicate AllBlocks(blocks: seq<Bytes>) {
    forall i :: 0 <= i < |blocks| ==> |blocks[i]| == REPORT_BLOCK
  }

  lemma {:induction false} BlocksLength(blocks: seq<Bytes>)
    requires AllBlocks(blocks)
    ensures TotalLength(blocks) == REPORT_BLOCK * |blocks|
  {
    if blocks != [] { BlocksLength(blocks[1..]); }
  }

  lemma {:induction false} ReportSizesClosedForm(sr: bool, blocks: seq<Bytes>)
    requires AllBlocks(blocks)
    ensures ReportSizes(sr, Groups(blocks)) ==
      REPORT_BLOCK * |blocks| + (COMMON_HEADER + SSRC_SIZE) * |Groups(blocks)| + if sr then SENDER_INFO else 0
    decreases |blocks|
  {
    if |blocks| <= MAX_COUNT {
      BlocksLength(blocks);
      assert Groups(blocks)[1..] == [];
    } else {
      var rest := blocks[MAX_COUNT..];
      BlocksLength(blocks[..MAX_COUNT]);
      assert Groups(blocks)[1..] == Groups(rest);
      ReportSizesClosedForm(false, rest);
    }
  }

  function EncodedBlocks(blocks: seq<Block>): (b: seq<Bytes>)
    ensures |b| == |blocks| && forall i :: 0 <= i < |b| ==> b[i] == EncodeBlock(blocks[i])
  {
    seq(|blocks|, i requires 0 <= i < |blocks| => EncodeBlock(blocks[i]))
  }

  /** The packets that carry these groups of blocks, the first with the sender information. */
  function ReportPackets(ssrc: U32, info: Option<SenderInfo>, groups: seq<seq<Block>>): seq<Bytes>
    requires forall i :: 0 <= i < |groups| ==> |groups[i]| <= MAX_COUNT
    decreases |groups|
  {
    if groups == [] then []
    else [EncodeReport(WireReport(ssrc, info, groups[0]))] + ReportPackets(ssrc, None, groups[1..])
  }

  /** The bytes of a report with these blocks, in as many packets as it takes. */
  function ReportBytes(ssrc: U32, info: Option<SenderInfo>, blocks: seq<Block>): Bytes {
    Flatten(ReportPackets(ssrc, info, Groups(blocks)))
  }

  lemma {:induction false} ReportBytesLength(ssrc: U32, info: Option<SenderInfo>, blocks: seq<Block>)
    ensures |ReportBytes(ssrc, info, blocks)| ==
      24 * |blocks| + 8 * |Groups(blocks)| + if info.Some? then 20 else 0
    decreases |blocks|
  {
    hide EncodeReport;
    if |blocks| <= MAX_COUNT {
      assert Groups(blocks)[1..] == [] && ReportPackets(ssrc, None, []) == [];
      FlattenOne(EncodeReport(WireReport(ssrc, info, blocks)));
    } else {
      var rest := blocks[MAX_COUNT..];
      assert Groups(blocks)[1..] == Groups(rest);
      ReportBytesLength(ssrc, None, rest);
      var first := EncodeReport(WireReport(ssrc, info, blocks[..MAX_COUNT]));
      assert ReportPackets(ssrc, info, Groups(blocks)) == [first] + ReportPackets(ssrc, None, Groups(rest));
      assert ReportBytes(ssrc, info, blocks) == first + ReportBytes(ssrc, None, rest);
    }
  }

  lemma FlattenOne<T>(s: seq<T>)
    ensures Flatten([s]) == s
  {
    assert [s][1..] == [];
  }

  /** The group sizes are those of the encoded packets. */
  lemma ReportSizesAreEncoded(ssrc: U32, info: Option<SenderInfo>, blocks: seq<Block>)
    ensures AllBlocks(EncodedBlocks(blocks))
    ensures ReportSizes(info.Some?, Groups(EncodedBlocks(blocks))) == |ReportBytes(ssrc, info, blocks)|
  {
    hide Groups, ReportSizes, ReportBytes, EncodedBlocks;
    ReportSizesClosedForm(info.Some?, EncodedBlocks(blocks));
    ReportBytesLength(ssrc, info, blocks);
    GroupsCount(blocks);
    GroupsCount(EncodedBlocks(blocks));
  }

  /** Both sizes by the number of packets. */
  lemma ReportSizeIs(sr: bool, blocks: seq<Bytes>)
    requires AllBlocks(blocks) && blocks != []
    ensures ReportSizes(sr, Groups(blocks)) ==
      REPORT_BLOCK * |blocks| + (COMMON_HEADER + SSRC_SIZE) * Packets(|blocks|) + if sr then SENDER_INFO else 0
  {
    hide Groups, ReportSizes, AllBlocks;
    GroupsCount(blocks);
    ReportSizesClosedForm(sr, blocks);
  }

  lemma ReportLengthIs(ssrc: U32, info: Option<SenderInfo>, blocks: seq<Block>)
    requires blocks != []
    ensures |ReportBytes(ssrc, info, blocks)| ==
      24 * |blocks| + 8 * Packets(|blocks|) + if info.Some? then 20 else 0
  {
    hide Groups, ReportBytes;
    GroupsCount(blocks);
    ReportBytesLength(ssrc, info, blocks);
  }

  lemma PacketsIs(n: nat)
    ensures Packets(n) == if n % MAX_COUNT != 0 then n / MAX_COUNT + 1 else n / MAX_COUNT
  {
  }

  lemma BlocksAppend(blocks: seq<Bytes>, b: Bytes)
    requires AllBlocks(blocks) && |b| == REPORT_BLOCK
    ensures AllBlocks(blocks + [b])
  {
  }

  lemma MultipleOfFour(n: nat, groups: nat)
    ensures (REPORT_BLOCK * n + (COMMON_HEADER + SSRC_SIZE) * groups) % 4 == 0
    ensures (REPORT_BLOCK * n + (COMMON_HEADER + SSRC_SIZE) * groups + SENDER_INFO) % 4 == 0
  {
    assert REPORT_BLOCK * n + (COMMON_HEADER + SSRC_SIZE) * groups == 4 * (6 * n + 2 * groups);
  }

  class Report {
    var isSR: bool
    var headerlength: nat
    var reportblocks: seq<Bytes>

    ghost predicate Valid()
      reads this
    {
      AllBlocks(reportblocks)
    }

    /** The builder has been told to start a sender or a receiver report. */
    predicate Started()
      reads this
    {
      headerlength == if isSR then SSRC_SIZE + SENDER_INFO else SSRC_SIZE
    }

    /** Bytes of the packets the report will become. */
    ghost function WireSize(): nat
      reads this
    {
      ReportSizes(isSR, Groups(reportblocks))
    }

    constructor ()
      ensures Valid() && !isSR && headerlength == 0 && reportblocks == []
    {
      isSR, headerlength, reportblocks := false, 0, [];
    }

    method Clear()
      modifies this
      ensures Valid() && !isSR && headerlength == 0 && reportblocks == []
    {
      reportblocks := [];
      isSR := false;
      headerlength := 0;
    }

    method PushBlock(block: Bytes)
      requires Valid() && |block| == REPORT_BLOCK
      modifies this`reportblocks
      ensures Valid() && reportblocks == old(reportblocks) + [block]
    {
      reportblocks := reportblocks + [block];
    }

    /** Exact once started, and a multiple of four. */
    method NeededBytes() returns (x: nat)
      requires Valid()
      ensures Started() ==> x == WireSize() && x % 4 == 0
      ensures !Started() && reportblocks == [] && headerlength == 0 ==> x == 0
      ensures reportblocks != [] ==> x == WireSize()
      ensures forall ssrc: U32, info: Option<SenderInfo>, blocks ::
        reportblocks == EncodedBlocks(blocks) && info.Some? == isSR && (Started() || blocks != []) ==>
          x == |ReportBytes(ssrc, info, blocks)|
    {
      hide Groups, ReportSizes, ReportBytes, EncodedBlocks;
      var n := |reportblocks|;
      if n == 0 {
        if headerlength == 0 { return 0; }
        x := COMMON_HEADER + headerlength;
      } else {
        x := n * REPORT_BLOCK;
        var d := n / MAX_COUNT;
        var r := n % MAX_COUNT;
        if r != 0 { d := d + 1; }
        x := x + d * (COMMON_HEADER + SSRC_SIZE);
        if isSR { x := x + SENDER_INFO; }
      }
      GroupsCount(reportblocks);
      ReportSizesClosedForm(isSR, reportblocks);
      MultipleOfFour(n, |Groups(reportblocks)|);
      forall ssrc: U32, info: Option<SenderInfo>, blocks |
        reportblocks == EncodedBlocks(blocks) && info.Some? == isSR && (Started() || blocks != [])
        ensures x == |ReportBytes(ssrc, info, blocks)|
      {
        ReportSizesAreEncoded(ssrc, info, blocks);
      }
    }

    /** The prediction is the size after one more block, whatever the state. */
    method NeededBytesWithExtraReportBlock() returns (x: nat)
      requires Valid()
      ensures forall block: Bytes :: |block| == REPORT_BLOCK ==>
        x == ReportSizes(isSR, Groups(reportblocks + [block]))
      ensures forall ssrc: U32, info: Option<SenderInfo>, blocks ::
        |EncodedBlocks(blocks)| == |reportblocks| + 1 && info.Some? == isSR ==> x == |ReportBytes(ssrc, info, blocks)|
    {
      hide Groups, ReportSizes, ReportBytes, EncodedBlocks, AllBlocks, Packets;
      var n := |reportblocks| + 1;
      x := n * REPORT_BLOCK;
      var d := n / MAX_COUNT;
      var r := n % MAX_COUNT;
      if r != 0 { d := d + 1; }
      x := x + d * (COMMON_HEADER + SSRC_SIZE);
      if isSR { x := x + SENDER_INFO; }
      PacketsIs(n);
      forall block: Bytes | |block| == REPORT_BLOCK
        ensures x == ReportSizes(isSR, Groups(reportblocks + [block]))
      {
        BlocksAppend(reportblocks, block);
        ReportSizeIs(isSR, reportblocks + [block]);
      }
      forall ssrc: U32, info: Option<SenderInfo>, blocks |
        |EncodedBlocks(blocks)| == |reportblocks| + 1 && info.Some? == isSR
        ensures x == |ReportBytes(ssrc, info, blocks)|
      {
        ReportLengthIs(ssrc, info, blocks);
      }
    }
  }

  // ---- SDES chunks ----

  /** The bytes of one chunk built from already encoded items. */
  function ChunkBytes(ssrc: U32, items: seq<Bytes>): Bytes {
    BigEndian(ssrc) + Flatten(items) + [0] + Zeros(Padding(|Flatten(items)| + 1))
  }

  function EncodedItems(items: seq<Item>): seq<Bytes> {
    if items == [] then [] else [EncodeItem(items[0])] + EncodedItems(items[1..])
  }

  lemma {:induction false} EncodedItemsFlatten(items: seq<Item>)
    ensures Flatten(EncodedItems(items)) == EncodeItems(items)
  {
    if items != [] {
      EncodedItemsFlatten(items[1..]);
      assert EncodedItems(items)[1..] == EncodedItems(items[1..]);
    }
  }

  /** For items encoded as in RFC 3550 these are the bytes of the encoder. */
  lemma ChunkBytesAreEncoding(c: Chunk)
    ensures ChunkBytes(c.ssrc, EncodedItems(c.items)) == EncodeChunk(c)
  {
    EncodedItemsFlatten(c.items);
  }

  /** SDESSource::NeededBytes as arithmetic on the total item size. */
  function SourceSize(total: nat): nat {
    var x := total + 1;
    SSRC_SIZE + x + if x % 4 != 0 then 4 - x % 4 else 0
  }

  lemma ChunkBytesLength(ssrc: U32, items: seq<Bytes>)
    ensures |ChunkBytes(ssrc, items)| == SourceSize(TotalLength(items))
    ensures |ChunkBytes(ssrc, items)| % 4 == 0
  {
    hide Flatten, BigEndian, Zeros, TotalLength;
    TotalLengthFlatten(items);
    PaddingShift(TotalLength(items) + 1);
  }

  /** The parser steps over a chunk by exactly what the builder reckoned for the same items,
      for any well-formed data. */
  lemma StrideIsSourceSize(d: seq<U8>, off: nat)
    requires ParseItems(d, off + SSRC_SIZE).Some?
    ensures ChunkEnd(d, off) - off ==
      SourceSize(TotalLength(EncodedItems(ParseItems(d, off + SSRC_SIZE).value)))
  {
    ItemsSpan(d, off + SSRC_SIZE);
  }

  lemma {:induction false} ItemsSpan(d: seq<U8>, off: nat)
    requires ParseItems(d, off).Some?
    ensures ItemsEnd(d, off) - off == TotalLength(EncodedItems(ParseItems(d, off).value))
    decreases |d| - off
  {
    if d[off] != 0 {
      var next := off + 2 + d[off + 1];
      ItemsSpan(d, next);
      var item, rest := Item(d[off], d[off + 2..next]), ParseItems(d, next).value;
      var items := [item] + rest;
      assert ParseItems(d, off) == Some(items);
      assert items[0] == item && items[1..] == rest;
      assert EncodedItems(items)[1..] == EncodedItems(rest);
    }
  }

  class SDESSource {
    const ssrc: U32
    var items: seq<Bytes>
    var totalitemsize: nat

    ghost predicate Valid()
      reads this
    {
      totalitemsize == TotalLength(items)
    }

    constructor (s: U32)
      ensures Valid() && ssrc == s && items == []
    {
      ssrc, items, totalitemsize := s, [], 0;
    }

    method NeededBytes() returns (x: nat)
      requires Valid()
      ensures x == |ChunkBytes(ssrc, items)|
    {
      x := totalitemsize + 1;
      var r := x % 4;
      if r != 0 { x := x + (4 - r); }
      x := x + SSRC_SIZE;
      ChunkBytesLength(ssrc, items);
    }

    method NeededBytesWithExtraItem(itemdatalength: U8) returns (x: nat)
      requires Valid()
      ensures forall b: Bytes :: |b| == ITEM_HEADER + itemdatalength ==> x == |ChunkBytes(ssrc, items + [b])|
    {
      x := totalitemsize + ITEM_HEADER + itemdatalength + 1;
      var r := x % 4;
      if r != 0 { x := x + (4 - r); }
      x := x + SSRC_SIZE;
      forall b: Bytes | |b| == ITEM_HEADER + itemdatalength ensures x == |ChunkBytes(ssrc, items + [b])| {
        TotalLengthAppend(items, b);
        ChunkBytesLength(ssrc, items + [b]);
      }
    }

    method AddItem(buf: Bytes)
      requires Valid()
      modifies this
      ensures Valid() && items == old(items) + [buf]
    {
      TotalLengthAppend(items, buf);
      totalitemsize := totalitemsize + |buf|;
      items := items + [buf];
    }
  }

  // ---- the SDES part of a compound packet ----

  datatype Source = Source(ssrc: U32, items: seq<Bytes>)

  function SourcesLength(sources: seq<Source>): nat {
    if sources == [] then 0
    else |ChunkBytes(sources[0].ssrc, sources[0].items)| + SourcesLength(sources[1..])
  }

  lemma {:induction false} SourcesLengthConcat(a: seq<Source>, b: seq<Source>)
    ensures SourcesLength(a + b) == SourcesLength(a) + SourcesLength(b)
  {
    if a == [] {
      assert a + b == b;
    } else {
      assert (a + b)[1..] == a[1..] + b;
      SourcesLengthConcat(a[1..], b);
    }
  }

  lemma SourcesLengthLast(a: seq<Source>, s: Source)
    ensures SourcesLength(a + [s]) == SourcesLength(a) + |ChunkBytes(s.ssrc, s.items)|
  {
    SourcesLengthConcat(a, [s]);
    assert [s][1..] == [];
  }

  /** SDES packets of at most 31 chunks, each with its common header. */
  function SdesSizes(groups: seq<seq<Source>>): nat {
    if groups == [] then 0 else COMMON_HEADER + SourcesLength(groups[0]) + SdesSizes(groups[1..])
  }

  lemma {:induction false} SdesSizesClosedForm(sources: seq<Source>)
    ensures SdesSizes(Groups(sources)) == SourcesLength(sources) + COMMON_HEADER * |Groups(sources)|
    decreases |sources|
  {
    if |sources| <= MAX_COUNT {
      assert Groups(sources)[1..] == [];
    } else {
      var rest := sources[MAX_COUNT..];
      assert Groups(sources)[1..] == Groups(rest);
      SdesSizesClosedForm(rest);
      SourcesLengthConcat(sources[..MAX_COUNT], rest);
      assert sources == sources[..MAX_COUNT] + rest;
    }
  }

  /** The size of the packets carrying a list of sources; none are needed for no sources. */
  function SdesWireSize(sources: seq<Source>): nat {
    if sources == [] then 0 else SdesSizes(Groups(sources))
  }

  lemma SdesWireSizeIs(sources: seq<Source>)
    requires sources != []
    ensures SdesWireSize(sources) == SourcesLength(sources) + COMMON_HEADER * Packets(|sources|)
  {
    GroupsCount(sources);
    SdesSizesClosedForm(sources);
  }

  /** Chunks as the builder holds them: SSRC and encoded items. */
  function SourceOf(c: Chunk): Source { Source(c.ssrc, EncodedItems(c.items)) }

  function SourcesOf(cs: seq<Chunk>): seq<Source> {
    if cs == [] then [] else [SourceOf(cs[0])] + SourcesOf(cs[1..])
  }

  lemma {:induction false} SourcesLengthIsEncoding(cs: seq<Chunk>)
    ensures |SourcesOf(cs)| == |cs| && SourcesLength(SourcesOf(cs)) == |EncodeChunks(cs)|
  {
    if cs != [] {
      ChunkBytesAreEncoding(cs[0]);
      SourcesLengthIsEncoding(cs[1..]);
      assert SourcesOf(cs)[1..] == SourcesOf(cs[1..]);
    }
  }

  /** The encoded packets of a list of chunks, one per group of 31. */
  function EncodedSize(groups: seq<seq<Chunk>>): nat
    requires forall i :: 0 <= i < |groups| ==> |groups[i]| <= MAX_COUNT
  {
    if groups == [] then 0 else |EncodePacket(groups[0])| + EncodedSize(groups[1..])
  }

  lemma {:induction false} EncodedSizeClosedForm(cs: seq<Chunk>)
    ensures EncodedSize(Groups(cs)) == |EncodeChunks(cs)| + COMMON_HEADER * |Groups(cs)|
    decreases |cs|
  {
    if |cs| <= MAX_COUNT {
      assert Groups(cs)[1..] == [];
    } else {
      var rest := cs[MAX_COUNT..];
      assert Groups(cs)[1..] == Groups(rest);
      EncodedSizeClosedForm(rest);
      EncodeChunksConcat(cs[..MAX_COUNT], rest);
      assert cs == cs[..MAX_COUNT] + rest;
    }
  }

  lemma {:induction false} EncodeChunksConcat(a: seq<Chunk>, b: seq<Chunk>)
    ensures EncodeChunks(a + b) == EncodeChunks(a) + EncodeChunks(b)
  {
    if a == [] {
      assert a + b == b;
    } else {
      assert (a + b)[1..] == a[1..] + b;
      EncodeChunksConcat(a[1..], b);
    }
  }

  /** What SDES::NeededBytes reckons for n > 0 sources is the exact size of the encoded
      packets, with one common header per 31 sources. */
  lemma WireSizeIsEncodedSize(cs: seq<Chunk>)
    requires cs != []
    ensures SdesWireSize(SourcesOf(cs)) == EncodedSize(Groups(cs))
  {
    hide Groups, SdesWireSize, EncodedSize, EncodeChunks, SourcesLength;
    SourcesLengthIsEncoding(cs);
    SdesWireSizeIs(SourcesOf(cs));
    EncodedSizeClosedForm(cs);
    GroupsCount(cs);
  }

  class SDES {
    var sdessources: seq<SDESSource>
    /** The list iterator: an index, one past the last when it is end(). */
    var sdesit: nat

    /** Sources are distinct, and once there is one the iterator is at the last. */
    ghost predicate Valid()
      reads this, sdessources
    {
      && (forall i, j :: 0 <= i < j < |sdessources| ==> sdessources[i] != sdessources[j])
      && (forall i :: 0 <= i < |sdessources| ==> sdessources[i].Valid())
      && (sdessources != [] ==> sdesit == |sdessources| - 1)
    }

    ghost function Sources(): (r: seq<Source>)
      reads this, sdessources
      ensures |r| == |sdessources|
    {
      seq(|sdessources|, i requires 0 <= i < |sdessources| reads this, sdessources =>
        Source(sdessources[i].ssrc, sdessources[i].items))
    }

    constructor ()
      ensures Valid() && sdessources == []
    {
      sdessources, sdesit := [], 0;
    }

    /** Clear leaves the iterator where it was. */
    method Clear()
      modifies this
      ensures Valid() && sdessources == [] && sdesit == old(sdesit)
    {
      sdessources := [];
    }

    /** ok is false exactly when there is no memory for a source. */
    method AddSSRC(ssrc: U32, memory: bool) returns (ok: bool)
      requires Valid()
      modifies this
      ensures Valid() && ok == memory
      ensures Sources() == if ok then old(Sources()) + [Source(ssrc, [])] else old(Sources())
      ensures ok ==>
        && |sdessources| == old(|sdessources|) + 1 && sdessources[..old(|sdessources|)] == old(sdessources)
        && fresh(sdessources[old(|sdessources|)])
      ensures !ok ==> sdessources == old(sdessources) && sdesit == old(sdesit)
    {
      if !memory { return false; }
      var s := new SDESSource(ssrc);
      sdessources := sdessources + [s];
      sdesit := |sdessources|;
      sdesit := sdesit - 1;
      return true;
    }

    /** An item goes to the last source; without sources it is refused. */
    method AddItem(buf: Bytes) returns (ok: bool)
      requires Valid()
      modifies sdessources
      ensures Valid() && ok == (sdessources != [])
      ensures Sources() ==
        if ok then WithItem(old(Sources()), buf) else old(Sources())
      ensures forall i :: 0 <= i < |sdessources| - 1 ==> sdessources[i].items == old(sdessources[i].items)
      ensures ok ==> sdessources[|sdessources| - 1].items == old(sdessources[|sdessources| - 1].items) + [buf]
    {
      if sdessources == [] { return false; }
      var s := sdessources[sdesit];
      s.AddItem(buf);
      return true;
    }

    method NeededBytes() returns (x: nat)
      requires Valid()
      ensures x == SdesWireSize(Sources())
    {
      hide SdesWireSize;
      if sdessources == [] { NoSources(); return 0; }
      x := Sum(|sdessources|);
      var n := |sdessources|;
      var d := n / MAX_COUNT;
      var r := n % MAX_COUNT;
      if r != 0 { d := d + 1; }
      x := x + d * COMMON_HEADER;
      assert Sources()[..|sdessources|] == Sources();
      SdesWireSizeIs(Sources());
    }

    /** The sum of the first n sources' sizes. */
    method Sum(n: nat) returns (x: nat)
      requires Valid() && n <= |sdessources|
      ensures x == SourcesLength(Sources()[..n])
    {
      hide SourcesLength, ChunkBytes;
      x := 0;
      NoSources();
      assert Sources()[..0] == [];
      for i := 0 to n
        invariant x == SourcesLength(Sources()[..i])
      {
        var y := sdessources[i].NeededBytes();
        assert Sources()[..i + 1] == Sources()[..i] + [Sources()[i]];
        SourcesLengthLast(Sources()[..i], Sources()[i]);
        x := x + y;
      }
    }

    /** With an item of l text bytes more in the last source; equal to what NeededBytes gives
        after AddItem, on an empty list too, where AddItem refuses and both are 0. */
    method NeededBytesWithExtraItem(itemdatalength: U8) returns (x: nat)
      requires Valid()
      ensures forall b: Bytes :: |b| == ITEM_HEADER + itemdatalength ==>
        x == SdesWireSize(if Sources() == [] then [] else WithItem(Sources(), b))
    {
      hide SdesWireSize, SourcesLength, ChunkBytes;
      NoSources();
      if sdessources == [] { return 0; }
      x := Sum(sdesit);
      var y := sdessources[sdesit].NeededBytesWithExtraItem(itemdatalength);
      x := x + y;
      var n := |sdessources|;
      var d := n / MAX_COUNT;
      var r := n % MAX_COUNT;
      if r != 0 { d := d + 1; }
      x := x + d * COMMON_HEADER;
      forall b: Bytes | |b| == ITEM_HEADER + itemdatalength
        ensures x == SdesWireSize(WithItem(Sources(), b))
      {
        var last := Sources()[sdesit];
        SourcesLengthLast(Sources()[..sdesit], Source(last.ssrc, last.items + [b]));
        SdesWireSizeIs(WithItem(Sources(), b));
      }
    }

    /** With one more source.  The prediction equals what NeededBytes gives after AddSSRC
        exactly when there is a source already: on an empty list it says 0, not 12. */
    method NeededBytesWithExtraSource() returns (x: nat)
      requires Valid()
      ensures forall ssrc: U32 ::
        x == SdesWireSize(Sources() + [Source(ssrc, [])]) <==> sdessources != []
      ensures sdessources == [] ==> x == 0
    {
      hide SdesWireSize;
      if sdessources == [] {
        forall ssrc: U32 ensures SdesWireSize(Sources() + [Source(ssrc, [])]) == 12 {
          assert Sources() + [Source(ssrc, [])] == [Source(ssrc, [])];
          ExtraSource([], ssrc);
        }
        return 0;
      }
      x := Sum(|sdessources|);
      x := x + 2 * SSRC_SIZE;
      var n := |sdessources| + 1;
      var d := n / MAX_COUNT;
      var r := n % MAX_COUNT;
      if r != 0 { d := d + 1; }
      x := x + d * COMMON_HEADER;
      assert Sources()[..|sdessources|] == Sources();
      forall ssrc: U32 ensures x == SdesWireSize(Sources() + [Source(ssrc, [])]) {
        ExtraSource(Sources(), ssrc);
      }
    }
  }

  /** An item appended to the last of the sources. */
  function WithItem(sources: seq<Source>, b: Bytes): seq<Source>
    requires sources != []
  {
    var n := |sources| - 1;
    sources[..n] + [Source(sources[n].ssrc, sources[n].items + [b])]
  }

  lemma NoSources()
    ensures SdesWireSize([]) == 0 && SourcesLength([]) == 0
  {
  }

  lemma ExtraSource(sources: seq<Source>, ssrc: U32)
    ensures SdesWireSize(sources + [Source(ssrc, [])]) ==
      SourcesLength(sources) + 2 * SSRC_SIZE + COMMON_HEADER * Packets(|sources| + 1)
  {
    hide SdesWireSize, SourcesLength, ChunkBytes;
    SourcesLengthLast(sources, Source(ssrc, []));
    ChunkBytesLength(ssrc, []);
    assert SourceSize(TotalLength([])) == 2 * SSRC_SIZE;
    SdesWireSizeIs(sources + [Source(ssrc, [])]);
  }
}
