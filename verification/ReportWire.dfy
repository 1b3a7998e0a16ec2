/** Sender and receiver reports as sections 6.4.1 and 6.4.2 of RFC 3550 lay them out, field by
    field, and their readers in rtcpsrpacket.h and rtcprrpacket.h. */
module ReportWire {
  import opened Common
  import opened SdesWire

  /** A signed number of 24 bits. */
  type Lost = n: int | -0x80_0000 <= n < 0x80_0000

  datatype SenderInfo = SenderInfo(ntpSeconds: U32, ntpFraction: U32, rtpTime: U32, packets: U32, octets: U32)

  datatype Block = Block(ssrc: U32, fractionLost: U8, packetsLost: Lost, highestSequence: U32, jitter: U32,
                         lastSR: U32, delaySinceLastSR: U32)

  /** A sender report has sender information, a receiver report has none. */
  datatype WireReport_ = WireReport(ssrc: U32, info: Option<SenderInfo>, blocks: seq<Block>)

  type WireReport = r: WireReport_ | |r.blocks| <= MAX_COUNT witness WireReport(0, None, [])

  /** The sizes of the structures RTCPSenderReport and RTCPReceiverReport. */
  const SENDER_INFO: nat := 20
  const REPORT_BLOCK: nat := 24

  // ---- encoding ----

  function EncodeInfo(i: SenderInfo): (b: seq<U8>)
    ensures |b| == 20
  {
    BigEndian(i.ntpSeconds) + BigEndian(i.ntpFraction) + BigEndian(i.rtpTime) + BigEndian(i.packets)
    + BigEndian(i.octets)
  }

  /** Two's complement in three bytes, high-order byte first. */
  function Encode24(n: Lost): (b: seq<U8>)
    ensures |b| == 3
  {
    var m := n % 0x100_0000;
    [m / 0x1_0000, m / 0x100 % 0x100, m % 0x100]
  }

  function EncodeBlock(k: Block): (b: seq<U8>)
    ensures |b| == 24
  {
    BigEndian(k.ssrc) + [k.fractionLost] + Encode24(k.packetsLost) + BigEndian(k.highestSequence) + BigEndian(k.jitter)
    + BigEndian(k.lastSR) + BigEndian(k.delaySinceLastSR)
  }

  function EncodeBlocks(blocks: seq<Block>): (b: seq<U8>)
    ensures |b| == 24 * |blocks|
  {
    if blocks == [] then [] else EncodeBlock(blocks[0]) + EncodeBlocks(blocks[1..])
  }

  function EncodeBody(r: WireReport): (b: seq<U8>)
    ensures |b| == 4 + (if r.info.Some? then 20 else 0) + 24 * |r.blocks|
  {
    BigEndian(r.ssrc) + (if r.info.Some? then EncodeInfo(r.info.value) else []) + EncodeBlocks(r.blocks)
  }

  /** Version 2, no padding bit, report count, packet type, length in words minus one. */
  function EncodeReport(r: WireReport): (b: seq<U8>)
    ensures |b| == 4 + |EncodeBody(r)|
  {
    var words := |EncodeBody(r)| / 4;
    [0x80 + |r.blocks|, if r.info.Some? then 200 else 201, words / 0x100, words % 0x100] + EncodeBody(r)
  }

  lemma ReportHeader(r: WireReport)
    ensures HeaderIs(EncodeReport(r), |r.blocks|, if r.info.Some? then 200 else 201)
  {
  }

  // ---- reading ----

  /** An RTCPSRPacket, or with sr false an RTCPRRPacket: the two differ only in the place of the
      first block.  Whether the format is known is settled by their constructors. */
  datatype ReportPacket = ReportPacket(data: seq<U8>, knownformat: bool, sr: bool) {

    /** The packet is as long as its header and fixed fields. */
    predicate Readable() {
      knownformat ==> |data| >= COMMON_HEADER + SSRC_SIZE + if sr then SENDER_INFO else 0
    }

    function GotoReport(index: nat): (off: nat) {
      COMMON_HEADER + SSRC_SIZE + (if sr then SENDER_INFO else 0) + index * REPORT_BLOCK
    }

    /** Block `index` lies in the data. */
    predicate HasReport(index: nat) {
      knownformat ==> GotoReport(index) + REPORT_BLOCK <= |data|
    }

    function GetSenderSSRC(): U32
      requires Readable()
    {
      if !knownformat then 0 else ReadBigEndian(data, COMMON_HEADER)
    }

    /** Word i of the sender information. */
    function InfoWord(i: nat): U32
      requires Readable() && sr && i < 5
    {
      if !knownformat then 0 else ReadBigEndian(data, COMMON_HEADER + SSRC_SIZE + 4 * i)
    }

    function GetNTPTimestamp(): (U32, U32)
      requires Readable() && sr
    {
      (InfoWord(0), InfoWord(1))
    }

    function GetRTPTimestamp(): U32
      requires Readable() && sr
    {
      InfoWord(2)
    }

    function GetSenderPacketCount(): U32
      requires Readable() && sr
    {
      InfoWord(3)
    }

    function GetSenderOctetCount(): U32
      requires Readable() && sr
    {
      InfoWord(4)
    }

    function GetReceptionReportCount(): nat
      requires Readable()
    {
      if !knownformat then 0 else Count(data)
    }

    function GetSSRC(index: nat): U32
      requires HasReport(index)
    {
      if !knownformat then 0 else ReadBigEndian(data, GotoReport(index))
    }

    function GetFractionLost(index: nat): U8
      requires HasReport(index)
    {
      if !knownformat then 0 else data[GotoReport(index) + 4]
    }

    /** Three bytes, the sign in the highest of their bits. */
    function GetLostPacketCount(index: nat): int
      requires HasReport(index)
    {
      if !knownformat then 0
      else
        var p := GotoReport(index) + 5;
        var b0: int, b1: int, b2: int := data[p], data[p + 1], data[p + 2];
        var count := b2 + 0x100 * b1 + 0x1_0000 * b0;
        if count / 0x80_0000 % 2 != 0 then count + 0xFF00_0000 - TWO_32 else count
    }

    function GetExtendedHighestSequenceNumber(index: nat): U32
      requires HasReport(index)
    {
      if !knownformat then 0 else ReadBigEndian(data, GotoReport(index) + 8)
    }

    function GetJitter(index: nat): U32
      requires HasReport(index)
    {
      if !knownformat then 0 else ReadBigEndian(data, GotoReport(index) + 12)
    }

    function GetLSR(index: nat): U32
      requires HasReport(index)
    {
      if !knownformat then 0 else ReadBigEndian(data, GotoReport(index) + 16)
    }

    function GetDLSR(index: nat): U32
      requires HasReport(index)
    {
      if !knownformat then 0 else ReadBigEndian(data, GotoReport(index) + 20)
    }
  }

  // ---- round trip ----

  /** Three bytes written are the number read. */
  lemma Lost24(d: seq<U8>, off: nat, n: Lost)
    requires LiesAt(d, off, Encode24(n))
    ensures var b0: int, b1: int, b2: int := d[off], d[off + 1], d[off + 2];
      b2 + 0x100 * b1 + 0x1_0000 * b0 == n % 0x100_0000
  {
    LiesAtByte(d, off, Encode24(n), 0);
    LiesAtByte(d, off, Encode24(n), 1);
    LiesAtByte(d, off, Encode24(n), 2);
    hide LiesAt;
    ThreeDigits(n % 0x100_0000);
  }

  lemma ThreeDigits(m: nat)
    ensures m % 0x100 + 0x100 * (m / 0x100 % 0x100) + 0x1_0000 * (m / 0x1_0000) == m
  {
    assert m / 0x100 / 0x100 == m / 0x1_0000;
  }

  /** The test of bit 23 and the fill from it give back the sign. */
  lemma SignOf(n: Lost)
    ensures var count := n % 0x100_0000;
      n == if count / 0x80_0000 % 2 != 0 then count + 0xFF00_0000 - TWO_32 else count
  {
  }

  /** Where the fields of an encoded block lie. */
  lemma BlockFields(d: seq<U8>, off: nat, k: Block)
    requires LiesAt(d, off, EncodeBlock(k))
    ensures LiesAt(d, off, BigEndian(k.ssrc)) && LiesAt(d, off + 4, [k.fractionLost])
    ensures LiesAt(d, off + 5, Encode24(k.packetsLost)) && LiesAt(d, off + 8, BigEndian(k.highestSequence))
    ensures LiesAt(d, off + 12, BigEndian(k.jitter)) && LiesAt(d, off + 16, BigEndian(k.lastSR))
    ensures LiesAt(d, off + 20, BigEndian(k.delaySinceLastSR))
  {
    hide LiesAt, BigEndian, Encode24;
    var b1 := BigEndian(k.ssrc) + [k.fractionLost];
    var b2 := b1 + Encode24(k.packetsLost);
    var b3 := b2 + BigEndian(k.highestSequence);
    var b4 := b3 + BigEndian(k.jitter);
    LiesAtParts(d, off, b4 + BigEndian(k.lastSR), BigEndian(k.delaySinceLastSR));
    LiesAtParts(d, off, b4, BigEndian(k.lastSR));
    LiesAtParts(d, off, b3, BigEndian(k.jitter));
    LiesAtParts(d, off, b2, BigEndian(k.highestSequence));
    LiesAtParts(d, off, b1, Encode24(k.packetsLost));
    LiesAtParts(d, off, BigEndian(k.ssrc), [k.fractionLost]);
  }

  lemma {:induction false} BlockLies(d: seq<U8>, off: nat, blocks: seq<Block>, index: nat)
    requires LiesAt(d, off, EncodeBlocks(blocks)) && index < |blocks|
    ensures LiesAt(d, off + 24 * index, EncodeBlock(blocks[index]))
    decreases index
  {
    hide LiesAt, EncodeBlock;
    LiesAtParts(d, off, EncodeBlock(blocks[0]), EncodeBlocks(blocks[1..]));
    if index > 0 { BlockLies(d, off + 24, blocks[1..], index - 1); }
  }

  lemma BodyLies(r: WireReport, after: seq<U8>)
    ensures var d := EncodeReport(r) + after;
      && LiesAt(d, 4, BigEndian(r.ssrc))
      && (r.info.Some? ==> LiesAt(d, 8, EncodeInfo(r.info.value)))
      && LiesAt(d, 8 + (if r.info.Some? then 20 else 0), EncodeBlocks(r.blocks))
  {
    hide BigEndian, EncodeInfo, EncodeBlocks;
    var d := EncodeReport(r) + after;
    var info := if r.info.Some? then EncodeInfo(r.info.value) else [];
    assert LiesAt(d, 4, BigEndian(r.ssrc) + info + EncodeBlocks(r.blocks));
    LiesAtParts(d, 4, BigEndian(r.ssrc) + info, EncodeBlocks(r.blocks));
    LiesAtParts(d, 4, BigEndian(r.ssrc), info);
  }

  /** The sender, the count and the sender information read from an encoded report, whatever
      bytes follow it, are those encoded. */
  lemma SenderRoundTrip(r: WireReport, after: seq<U8>)
    ensures var p := ReportPacket(EncodeReport(r) + after, true, r.info.Some?);
      && p.Readable() && p.GetSenderSSRC() == r.ssrc && p.GetReceptionReportCount() == |r.blocks|
      && (r.info.Some? ==>
            r.info.value == SenderInfo(p.GetNTPTimestamp().0, p.GetNTPTimestamp().1, p.GetRTPTimestamp(),
                                       p.GetSenderPacketCount(), p.GetSenderOctetCount()))
  {
    hide LiesAt, BigEndian, ReadBigEndian, EncodeBlocks;
    var d := EncodeReport(r) + after;
    BodyLies(r, after);
    BigEndianRoundTrip(d, 4, r.ssrc);
    if r.info.Some? { InfoFields(d, 8, r.info.value); }
  }

  lemma InfoFields(d: seq<U8>, off: nat, i: SenderInfo)
    requires LiesAt(d, off, EncodeInfo(i))
    ensures off + 20 <= |d|
    ensures ReadBigEndian(d, off) == i.ntpSeconds && ReadBigEndian(d, off + 4) == i.ntpFraction
    ensures ReadBigEndian(d, off + 8) == i.rtpTime && ReadBigEndian(d, off + 12) == i.packets
    ensures ReadBigEndian(d, off + 16) == i.octets
  {
    hide BigEndian, ReadBigEndian;
    var b1 := BigEndian(i.ntpSeconds) + BigEndian(i.ntpFraction);
    var b2 := b1 + BigEndian(i.rtpTime);
    LiesAtParts(d, off, b2 + BigEndian(i.packets), BigEndian(i.octets));
    LiesAtParts(d, off, b2, BigEndian(i.packets));
    LiesAtParts(d, off, b1, BigEndian(i.rtpTime));
    LiesAtParts(d, off, BigEndian(i.ntpSeconds), BigEndian(i.ntpFraction));
    BigEndianRoundTrip(d, off, i.ntpSeconds);
    BigEndianRoundTrip(d, off + 4, i.ntpFraction);
    BigEndianRoundTrip(d, off + 8, i.rtpTime);
    BigEndianRoundTrip(d, off + 12, i.packets);
    BigEndianRoundTrip(d, off + 16, i.octets);
  }

  /** And every block read from it is the block encoded, its count of lost packets with its sign. */
  lemma BlockRoundTrip(r: WireReport, after: seq<U8>, index: nat)
    requires index < |r.blocks|
    ensures var p := ReportPacket(EncodeReport(r) + after, true, r.info.Some?);
      && p.HasReport(index)
      && r.blocks[index] ==
         Block(p.GetSSRC(index), p.GetFractionLost(index), p.GetLostPacketCount(index),
               p.GetExtendedHighestSequenceNumber(index), p.GetJitter(index), p.GetLSR(index), p.GetDLSR(index))
  {
    hide LiesAt, BigEndian, ReadBigEndian, EncodeBlocks, EncodeBlock, Encode24, EncodeReport;
    var d, k := EncodeReport(r) + after, r.blocks[index];
    BodyLies(r, after);
    var off := 8 + if r.info.Some? then 20 else 0;
    BlockLies(d, off, r.blocks, index);
    BlockReads(d, off + 24 * index, k);
  }

  lemma BlockReads(d: seq<U8>, off: nat, k: Block)
    requires LiesAt(d, off, EncodeBlock(k))
    ensures off + 24 <= |d| && ReadBigEndian(d, off) == k.ssrc && d[off + 4] == k.fractionLost
    ensures var b0: int, b1: int, b2: int := d[off + 5], d[off + 6], d[off + 7];
      var count := b2 + 0x100 * b1 + 0x1_0000 * b0;
      k.packetsLost == if count / 0x80_0000 % 2 != 0 then count + 0xFF00_0000 - TWO_32 else count
    ensures ReadBigEndian(d, off + 8) == k.highestSequence && ReadBigEndian(d, off + 12) == k.jitter
    ensures ReadBigEndian(d, off + 16) == k.lastSR && ReadBigEndian(d, off + 20) == k.delaySinceLastSR
  {
    hide BigEndian, ReadBigEndian, EncodeBlock, Encode24;
    BlockFields(d, off, k);
    BigEndianRoundTrip(d, off, k.ssrc);
    LiesAtByte(d, off + 4, [k.fractionLost], 0);
    Lost24(d, off + 5, k.packetsLost);
    SignOf(k.packetsLost);
    BigEndianRoundTrip(d, off + 8, k.highestSequence);
    BigEndianRoundTrip(d, off + 12, k.jitter);
    BigEndianRoundTrip(d, off + 16, k.lastSR);
    BigEndianRoundTrip(d, off + 20, k.delaySinceLastSR);
  }
}
