/** RTCPSDESPacket: two nested cursors, one over chunks and one over the items of a chunk. */
module SdesPacket {
  import opened Common
  import opened SdesWire

  datatype ItemType = NoItem | CNAME | NAME | EMAIL | PHONE | LOC | TOOL | NOTE | PRIV | Unknown

  class RTCPSDESPacket {
    const data: seq<U8>
    const knownformat: bool
    /** Offset of the current chunk in data; None is the null pointer. */
    var currentchunk: Option<nat>
    var curchunknum: nat
    var itemoffset: nat

    /** A packet of known format is well formed, and then the cursors stand inside it: on chunk
        curchunknum of the count, at the header of an item or at the end of its list. */
    ghost predicate Valid()
      reads this
    {
      && (knownformat ==> ParsePacket(data).Some?)
      && (currentchunk.Some? && knownformat ==>
            && 1 <= curchunknum <= Count(data)
            && ParseChunks(data, currentchunk.value, Count(data) - curchunknum + 1).Some?
            && ParseItems(data, currentchunk.value + itemoffset).Some?)
    }

    predicate HasChunk()
      reads this
    {
      knownformat && currentchunk.Some?
    }

    /** The current chunk and those after it. */
    ghost function RestChunks(): (r: seq<Chunk>)
      requires Valid() && HasChunk()
      reads this
      ensures |r| > 0
    {
      ParseChunks(data, currentchunk.value, Count(data) - curchunknum + 1).value
    }

    /** The current item and those after it in the current chunk. */
    ghost function RestItems(): seq<Item>
      requires Valid() && HasChunk()
      reads this
    {
      ParseItems(data, currentchunk.value + itemoffset).value
    }

    constructor (bytes: seq<U8>, known: bool)
      requires known ==> ParsePacket(bytes).Some?
      ensures Valid() && data == bytes && knownformat == known && currentchunk == None
    {
      data, knownformat := bytes, known;
      currentchunk, curchunknum, itemoffset := None, 0, 0;
    }

    function GetChunkCount(): (n: nat)
      requires Valid()
      reads this
      ensures n == if knownformat then |ParsePacket(data).value| else 0
    {
      if !knownformat then 0 else ParseCount(data, COMMON_HEADER, Count(data)); Count(data)
    }

    method GotoFirstChunk() returns (ok: bool)
      requires Valid()
      modifies this
      ensures Valid() && ok == HasChunk()
      ensures ok <==> knownformat && ParsePacket(data).value != []
      ensures ok ==> RestChunks() == ParsePacket(data).value && RestItems() == RestChunks()[0].items
    {
      if GetChunkCount() == 0 {
        currentchunk := None;
        return false;
      }
      currentchunk := Some(COMMON_HEADER);
      curchunknum := 1;
      itemoffset := SSRC_SIZE;
      return true;
    }

    /** The walk of GotoNextChunk over the items of the chunk at start, past the null byte and
        up to the next 32-bit boundary. */
    method ChunkStride(start: nat) returns (offset: nat)
      requires ParseItems(data, start + SSRC_SIZE).Some?
      ensures start + offset == ChunkEnd(data, start)
    {
      hide ParseItems, ItemsEnd;
      offset := SSRC_SIZE;
      ItemFollows(data, start + offset);
      while data[start + offset] != 0
        invariant start + offset < |data| && ParseItems(data, start + offset).Some?
        invariant ItemsEnd(data, start + offset) == ItemsEnd(data, start + SSRC_SIZE)
        decreases |data| - offset
      {
        ItemFollows(data, start + offset);
        var next := offset + ITEM_HEADER + data[start + offset + 1];
        ItemFollows(data, start + next);
        offset := next;
      }
      ItemFollows(data, start + offset);
      offset := offset + 1;
      if offset % 4 != 0 { offset := offset + (4 - offset % 4); }
    }

    /** The step to the next chunk starts from the chunk, not from the item cursor. */
    method GotoNextChunk() returns (ok: bool)
      requires Valid()
      modifies this
      ensures Valid() && HasChunk() == old(HasChunk())
      ensures ok <==> old(HasChunk()) && |old(RestChunks())| > 1
      ensures ok ==> RestChunks() == old(RestChunks())[1..] && RestItems() == RestChunks()[0].items
      ensures !ok && HasChunk() ==> RestChunks() == old(RestChunks()) && RestItems() == old(RestItems())
    {
      hide ParseItems, ParseChunks;
      if !knownformat { return false; }
      if currentchunk == None { return false; }
      ParseCount(data, currentchunk.value, Count(data) - curchunknum + 1);
      if curchunknum == GetChunkCount() { return false; }
      ChunkFollows(data, currentchunk.value, Count(data) - curchunknum + 1);
      var offset := ChunkStride(currentchunk.value);
      currentchunk := Some(currentchunk.value + offset);
      curchunknum := curchunknum + 1;
      itemoffset := SSRC_SIZE;
      return true;
    }

    function GetChunkSSRC(): (ssrc: U32)
      requires Valid()
      reads this
      ensures ssrc == if HasChunk() then RestChunks()[0].ssrc else 0
    {
      if !knownformat then 0 else if currentchunk == None then 0
      else ReadBigEndian(data, currentchunk.value)
    }

    method GotoFirstItem() returns (ok: bool)
      requires Valid()
      modifies this
      ensures Valid() && HasChunk() == old(HasChunk())
      ensures ok <==> HasChunk() && RestChunks()[0].items != []
      ensures HasChunk() ==> RestChunks() == old(RestChunks()) && RestItems() == RestChunks()[0].items
    {
      if !knownformat { return false; }
      if currentchunk == None { return false; }
      itemoffset := SSRC_SIZE;
      if data[currentchunk.value + itemoffset] == 0 { return false; }
      return true;
    }

    method GotoNextItem() returns (ok: bool)
      requires Valid()
      modifies this
      ensures Valid() && HasChunk() == old(HasChunk())
      ensures ok <==> HasChunk() && |old(RestItems())| > 1
      ensures HasChunk() ==> RestChunks() == old(RestChunks())
      ensures HasChunk() ==> RestItems() == if ok then old(RestItems())[1..] else old(RestItems())
    {
      hide ParseItems, ParseChunks, ParsePacket, ItemsEnd;
      if !knownformat { return false; }
      if currentchunk == None { return false; }
      var header := currentchunk.value + itemoffset;
      ItemFollows(data, header);
      if data[header] == 0 { return false; }
      var offset: nat := itemoffset + ITEM_HEADER + data[header + 1];
      ItemFollows(data, currentchunk.value + offset);
      if data[currentchunk.value + offset] == 0 { return false; }
      itemoffset := offset;
      return true;
    }

    // ---- reading the current item ----

    function GetItemType(): (t: ItemType)
      requires Valid()
      reads this
      ensures t.NoItem? <==> !HasChunk() || RestItems() == []
      ensures HasChunk() && RestItems() != [] ==> TypeHasId(t, RestItems()[0].id)
    {
      if !knownformat then NoItem else if currentchunk == None then NoItem
      else
        ItemFollows(data, currentchunk.value + itemoffset);
        var id := data[currentchunk.value + itemoffset];
        if id == 0 then NoItem else TypeOf(id)
    }

    function GetItemLength(): (n: nat)
      requires Valid()
      reads this
      ensures n == if HasChunk() && RestItems() != [] then |RestItems()[0].text| else 0
    {
      if !knownformat then 0 else if currentchunk == None then 0
      else
        var header := currentchunk.value + itemoffset;
        ItemFollows(data, header);
        if data[header] == 0 then 0 else data[header + 1]
    }

    /** The pointer is null exactly when there is no current item; otherwise the item's text
        lies there. */
    function GetItemData(): (p: Option<nat>)
      requires Valid()
      reads this
      ensures p.Some? <==> HasChunk() && RestItems() != []
      ensures p.Some? ==> LiesAt(data, p.value, RestItems()[0].text)
    {
      if !knownformat then None else if currentchunk == None then None
      else
        var header := currentchunk.value + itemoffset;
        ItemFollows(data, header);
        if data[header] == 0 then None else Some(header + ITEM_HEADER)
    }

    /** The current item is a PRIV item whose prefix length fits. */
    predicate PrivPrefixFits()
      requires Valid()
      reads this
    {
      && HasChunk()
      && var header := currentchunk.value + itemoffset;
      ItemFollows(data, header);
      && data[header] == ID_PRIVATE
      && data[header + 1] != 0
      && data[header + 2] <= data[header + 1] - 1
    }

    function GetPRIVPrefixLength(): nat
      requires Valid()
      reads this
    {
      if PrivPrefixFits() then data[currentchunk.value + itemoffset + ITEM_HEADER] else 0
    }

    function GetPRIVPrefixData(): Option<nat>
      requires Valid()
      reads this
    {
      if PrivPrefixFits() && GetPRIVPrefixLength() != 0
      then Some(currentchunk.value + itemoffset + ITEM_HEADER + 1)
      else None
    }

    function GetPRIVValueLength(): nat
      requires Valid()
      reads this
    {
      if PrivPrefixFits() then data[currentchunk.value + itemoffset + 1] - GetPRIVPrefixLength() - 1 else 0
    }

    function GetPRIVValueData(): Option<nat>
      requires Valid()
      reads this
    {
      if PrivPrefixFits() && GetPRIVValueLength() != 0
      then Some(currentchunk.value + itemoffset + ITEM_HEADER + 1 + GetPRIVPrefixLength())
      else None
    }

    /** The bytes a (pointer, length) pair of results designates. */
    function Slice(p: Option<nat>, n: nat): seq<U8>
      requires p.Some? ==> p.value + n <= |data|
    {
      if p.None? then [] else data[p.value..p.value + n]
    }

    /** Header and text of the current item in the data. */
    lemma CurrentItem()
      requires Valid() && HasChunk() && RestItems() != []
      ensures var header, item := currentchunk.value + itemoffset, RestItems()[0];
        && header + 2 + |item.text| <= |data|
        && data[header] == item.id && data[header + 1] == |item.text|
        && item.text == data[header + 2..header + 2 + |item.text|]
        && (item.text != [] ==> item.text[0] == data[header + 2])
    {
      hide ParseItems, ParseChunks, ParsePacket;
      ItemFollows(data, currentchunk.value + itemoffset);
    }

    /** The prefix fits exactly when the item is PRIV and its first byte leaves room for it. */
    lemma PrivFits()
      requires Valid() && HasChunk() && RestItems() != []
      ensures var text := RestItems()[0].text;
        PrivPrefixFits() <==> RestItems()[0].id == ID_PRIVATE && text != [] && text[0] < |text|
    {
      hide Valid, RestItems, ParseItems, ParseChunks, ParsePacket;
      CurrentItem();
    }

    /** What the four accessors return then: prefix and value follow the length byte, a null
        pointer comes with length 0, and both stay inside the data. */
    lemma PrivSlices()
      requires Valid() && HasChunk() && RestItems() != [] && PrivPrefixFits()
      ensures var p, text := currentchunk.value + itemoffset + 3, RestItems()[0].text;
        && 0 < |text| && text[0] < |text| && p + |text| - 1 <= |data|
        && text[1..] == data[p..p + |text| - 1]
        && GetPRIVPrefixLength() == text[0] && GetPRIVValueLength() == |text| - 1 - text[0]
        && GetPRIVPrefixData() == (if text[0] > 0 then Some(p) else None)
        && GetPRIVValueData() == (if |text| - 1 - text[0] > 0 then Some(p + text[0]) else None)
    {
      hide Valid, RestItems, ParseItems, ParseChunks, ParsePacket;
      CurrentItem();
    }

    /** Two slices that meet, the pointer of an empty one being null. */
    lemma SlicesMeet(q: Option<nat>, m: nat, r: Option<nat>, n: nat, at: nat)
      requires at + m + n <= |data|
      requires q == (if m > 0 then Some(at) else None) && r == if n > 0 then Some(at + m) else None
      ensures Slice(q, m) + Slice(r, n) == data[at..at + m + n]
    {
      assert Slice(q, m) == data[at..at + m];
      assert Slice(r, n) == data[at + m..at + m + n];
    }

    /** For a PRIV item with room for its prefix, the length byte, the prefix and the value are
        exactly the item's text, cut in three; for every other item all four accessors are
        null or zero. */
    lemma PrivPartition()
      requires Valid() && HasChunk() && RestItems() != []
      ensures var text := RestItems()[0].text;
        PrivPrefixFits() <==> RestItems()[0].id == ID_PRIVATE && text != [] && text[0] < |text|
      ensures var text := RestItems()[0].text;
        PrivPrefixFits() ==>
          && (GetPRIVPrefixData().Some? <==> text[0] > 0)
          && (GetPRIVValueData().Some? <==> text[0] < |text| - 1)
          && (GetPRIVPrefixData().Some? ==> GetPRIVPrefixData().value + GetPRIVPrefixLength() <= |data|)
          && (GetPRIVValueData().Some? ==> GetPRIVValueData().value + GetPRIVValueLength() <= |data|)
          && text[0] == GetPRIVPrefixLength()
          && text[1..] == Slice(GetPRIVPrefixData(), GetPRIVPrefixLength())
                          + Slice(GetPRIVValueData(), GetPRIVValueLength())
      ensures !PrivPrefixFits() ==>
        && GetPRIVPrefixData() == None && GetPRIVPrefixLength() == 0
        && GetPRIVValueData() == None && GetPRIVValueLength() == 0
    {
      assert currentchunk.Some?;
      hide *;
      PrivFits();
      if PrivPrefixFits() {
        PrivSlices();
        SlicesMeet(GetPRIVPrefixData(), GetPRIVPrefixLength(), GetPRIVValueData(), GetPRIVValueLength(),
                   currentchunk.value + itemoffset + 3);
      } else {
        PrivNone();
      }
    }

    lemma PrivNone()
      requires Valid() && !PrivPrefixFits()
      ensures GetPRIVPrefixData() == None && GetPRIVPrefixLength() == 0
      ensures GetPRIVValueData() == None && GetPRIVValueLength() == 0
    {
      hide Valid, PrivPrefixFits;
    }
  }

  /** The ids of the item types, sections 6.5.1 to 6.5.8 of RFC 3550; any other is unknown. */
  predicate TypeHasId(t: ItemType, id: U8) {
    && (t == CNAME <==> id == 1) && (t == NAME <==> id == 2) && (t == EMAIL <==> id == 3)
    && (t == PHONE <==> id == 4) && (t == LOC <==> id == 5) && (t == TOOL <==> id == 6)
    && (t == NOTE <==> id == 7) && (t == PRIV <==> id == 8) && (t == Unknown <==> id > 8)
  }

  function TypeOf(id: U8): (t: ItemType)
    requires id != 0
    ensures t != NoItem && TypeHasId(t, id)
  {
    if id == 1 then CNAME
    else if id == 2 then NAME
    else if id == 3 then EMAIL
    else if id == 4 then PHONE
    else if id == 5 then LOC
    else if id == 6 then TOOL
    else if id == 7 then NOTE
    else if id == 8 then PRIV
    else Unknown
  }

  /** The nested traversal: first chunk, its items, next chunk, and so on. */
  method ReadAll(packet: RTCPSDESPacket) returns (chunks: seq<Chunk>)
    requires packet.Valid()
    modifies packet
    ensures packet.Valid()
    ensures chunks == if packet.knownformat then ParsePacket(packet.data).value else []
  {
    hide *;
    chunks := [];
    var more := packet.GotoFirstChunk();
    if packet.knownformat { ParsePacketKnown(packet); }
    while more
      invariant packet.Valid() && (more ==> packet.HasChunk())
      invariant packet.knownformat ==>
        ParsePacket(packet.data).value == chunks + if more then packet.RestChunks() else []
      invariant !packet.knownformat ==> chunks == []
      decreases if more then 1 + |packet.RestChunks()| else 0
    {
      ghost var rest := packet.RestChunks();
      var ssrc := packet.GetChunkSSRC();
      var items := ReadItems(packet);
      assert Chunk(ssrc, items) == rest[0];
      more := packet.GotoNextChunk();
      assert rest == [rest[0]] + rest[1..];
      chunks := chunks + [Chunk(ssrc, items)];
    }
  }

  lemma ParsePacketKnown(packet: RTCPSDESPacket)
    requires packet.Valid() && packet.knownformat
    ensures ParsePacket(packet.data).Some?
  {
  }

  /** All items of the current chunk, from wherever the item cursor stands. */
  method ReadItems(packet: RTCPSDESPacket) returns (items: seq<Item>)
    requires packet.Valid() && packet.HasChunk()
    modifies packet
    ensures packet.Valid() && packet.HasChunk()
    ensures packet.RestChunks() == old(packet.RestChunks())
    ensures items == packet.RestChunks()[0].items
  {
    hide *;
    items := [];
    var more := packet.GotoFirstItem();
    while more
      invariant packet.Valid() && packet.HasChunk()
      invariant packet.RestChunks() == old(packet.RestChunks())
      invariant more ==> packet.RestItems() != []
      invariant packet.RestChunks()[0].items == items + if more then packet.RestItems() else []
      decreases if more then 1 + |packet.RestItems()| else 0
    {
      ghost var rest := packet.RestItems();
      var id := ItemId(packet);
      var text := ItemText(packet);
      more := packet.GotoNextItem();
      assert rest == [rest[0]] + rest[1..];
      items := items + [Item(id, text)];
    }
  }

  /** The type byte of the current item. */
  method ItemId(packet: RTCPSDESPacket) returns (id: U8)
    requires packet.Valid() && packet.HasChunk() && packet.RestItems() != []
    ensures id == packet.RestItems()[0].id
  {
    ItemFollows(packet.data, packet.currentchunk.value + packet.itemoffset);
    id := packet.data[packet.currentchunk.value + packet.itemoffset];
  }

  /** Its data: the length GetItemLength gives, from where GetItemData points. */
  method ItemText(packet: RTCPSDESPacket) returns (text: seq<U8>)
    requires packet.Valid() && packet.HasChunk() && packet.RestItems() != []
    ensures text == packet.RestItems()[0].text
  {
    var start, n := packet.GetItemData().value, packet.GetItemLength();
    text := packet.data[start..start + n];
  }

  /** Reading a packet encoded by RFC 3550, section 6.5, returns the chunks encoded. */
  method ReadEncoded(chunks: seq<Chunk>) returns (r: seq<Chunk>)
    requires |chunks| <= MAX_COUNT
    ensures r == chunks
  {
    hide ParsePacket, EncodePacket, RTCPSDESPacket.Valid;
    var bytes := EncodePacket(chunks);
    PacketRoundTrip(chunks, []);
    assert bytes + [] == bytes;
    var packet := new RTCPSDESPacket(bytes, true);
    r := ReadAll(packet);
  }

  /** The item list after the item at off. */
  lemma ItemFollows(d: seq<U8>, off: nat)
    requires ParseItems(d, off).Some?
    ensures off < |d| && (d[off] == 0 <==> ParseItems(d, off).value == [])
    ensures d[off] != 0 ==>
      && off + ITEM_HEADER <= |d|
      && var next := off + ITEM_HEADER + d[off + 1];
      && next < |d|
      && ParseItems(d, next) == Some(ParseItems(d, off).value[1..])
      && ParseItems(d, off).value[0] == Item(d[off], d[off + 2..next])
      && ItemsEnd(d, next) == ItemsEnd(d, off)
    ensures d[off] == 0 ==> ItemsEnd(d, off) == off
  {
    if d[off] != 0 {
      var next := off + ITEM_HEADER + d[off + 1];
      var rest := ParseItems(d, next);
      assert ParseItems(d, off) == Some([Item(d[off], d[off + 2..next])] + rest.value);
    }
  }

  /** A successful parse of n chunks yields n chunks. */
  lemma {:induction false} ParseCount(d: seq<U8>, off: nat, n: nat)
    requires ParseChunks(d, off, n).Some?
    ensures |ParseChunks(d, off, n).value| == n
    decreases n
  {
    if n > 0 {
      ParseCount(d, ChunkEnd(d, off), n - 1);
    }
  }

  /** The chunk after the first of n > 1 chunks starts at ChunkEnd. */
  lemma ChunkFollows(d: seq<U8>, off: nat, n: nat)
    requires n > 1 && ParseChunks(d, off, n).Some?
    ensures |ParseChunks(d, off, n).value| > 1 && ParseItems(d, off + SSRC_SIZE).Some?
    ensures ParseChunks(d, ChunkEnd(d, off), n - 1) == Some(ParseChunks(d, off, n).value[1..])
    ensures ParseItems(d, ChunkEnd(d, off) + SSRC_SIZE) == Some(ParseChunks(d, off, n).value[1].items)
  {
    var rest := ParseChunks(d, ChunkEnd(d, off), n - 1);
    assert ParseChunks(d, off, n).value[1..] == rest.value;
  }
}
