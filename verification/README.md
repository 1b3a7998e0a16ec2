# A verified model of the camera stream gateway

The gateway opens cameras, queues their packets in buffers, and lets a pool of worker threads
send the packets as RTP. It carries its own MD5 and the jrtplib headers it uses. This project
models the parts of it with the most state and arithmetic and proves what they keep.

**Intrusive hash table** (`OrderedTable.dfy`, `TableLaws.dfy`, `HashTable.dfy`). `RTPKeyHashTable`
threads every node through a bucket chain and through one global list, with a cursor on the list.
The class is modelled on the heap, pointer for pointer. Its invariant says that chains and list
thread the same nodes, both ways, every node in the bucket of its key; every method is proved equal
to an operation on an insertion-ordered list of entries with a cursor, and whole runs refine runs of
that list. What each operation does to entries, cursor and status is a law of its own, stated by
keys and neighbours (`TableLaws.Law`), and holds at every position of every run. The constructor and
`Clear` never write the cursor: after `Clear` it is usable exactly when it was null before, and any
run that moves or deletes through a dangling cursor is outside the model.

**Streaming MD5** (`Rfc1321.dfy`, `Rfc1321Laws.dfy`, `Md5Process.dfy`, `Md5Vector.dfy`, `Md5.dfy`).
Sections 3.1 to 3.5 of RFC 1321 are written as functions on byte strings. The unrolled rounds with
rotating registers are proved equal to the table-driven operations, and the incremental state
(64-bit count in two 32-bit words, partial block in a buffer whose tail is stale) is proved to give
the digest of everything appended, however it was cut into pieces, with the length reduced modulo
2^64 bits as the RFC asks. The primitives both sides share are pinned apart from how they are
written: the round functions bit by bit, the rotation and the byte order as arithmetic, and the
whole by the digest of "abc" in section A.5.

**RTCP packets and their sizes** (`SdesWire.dfy`, `SdesPacket.dfy`, `ReportWire.dfy`,
`PacketBuilder.dfy`). Section 6.5 of RFC 3550 is an encoder; a parser on values is its inverse; the
cursors of `RTCPSDESPacket` walk exactly what the parser returns. Sender and receiver reports are
encoded field by field too, and the readers of `RTCPSRPacket` and `RTCPRRPacket` give the fields
back. The builder's size predictions are proved equal to the sizes of the encoded packets, with
greedy groups of at most 31. One prediction is wrong, and exactly when is proved:
`NeededBytesWithExtraSource` says 0 on an empty list, where the first source takes 12 bytes.

**Sending and the pool** (`Delivery.dfy`, `Balance.dfy`, `PoolMap.dfy`, `ThreadPool.dfy`,
`WorkerLoop.dfy`). `RTPSender`, `Buffer` and `ThreadPool` are classes with their methods. Around a
buffer, pushes, sender changes and the turns of a pass are interleaved steps, and conservation and
order hold of every run; `processData` is a method that lets other threads push before each turn.
The pool refines a value, a sequence of maps, for which balance is proved, repeated ids included.

**Stream lifecycle** (`Lifecycle.dfy`, `Runs.dfy`, `Answers.dfy`, `SubStreams.dfy`, `Devices.dfy`,
`Traffic.dfy`, `Sending.dfy`, `Manager.dfy`, `LockOrder.dfy`). The manager, the streams and the
message thread are a system of interleaved steps, one for each point at which another thread can
come between; theorems hold of every run of any length. `Answers.dfy` says which requests are told
of success and which of failure, as a condition on the state and over runs; `Traffic.dfy` adds the
packets, and `Sending.dfy` proves that what waits in a served buffer can be sent. `Manager.dfy` has
`StreamManager` and `MediaStream` as classes over the pool, buffers and senders above, and proves
that each locked region, and each job, does to those objects what the uninterrupted steps do to the
value. Deadlock freedom is proved for any number of threads running any of the program's code paths
under any schedule, with the waits for a job and for work as guards; and once what is waited for
comes, all of them can finish.

What the code does here differs from what its names suggest in several places; the model follows
the code and gives the exact conditions:

- Every `addsubStream` of a new call id makes a new buffer and the stream forgets the old one. So a
  buffer holds one call's sender at most (`Runs.SendersTheorem`), a packet reaches one sub-stream at
  most (`Traffic.TrafficTheorem`), and nothing more comes in for a sub-stream once a newer one of its
  camera exists (`Traffic.OlderStarves`).
- The pool ignores a second buffer under an id the least loaded thread holds
  (`SubStreams.NewBufferServed`). With one camera on k threads the first k calls are served and the
  others, told that they succeeded, never get a packet (`SubStreams.FirstCallsServed`,
  `Sending.FirstCallsAreSent`, `Traffic.LateCallGetsNothing`); the manager builds a pool of four.
- Closing a call removes its sender from the stream's newest buffer only. The closed call is still
  served exactly when `SubStreams.ClosedCallServed` says; `SubStreams.CloseLeavesSender` has runs.
- A close can overtake the open job of its own stream, and the device is then left open with no
  stream to close it. `Devices.DevicesTheorem` and `Devices.OvertakingLeaks` give the exact
  condition, and `Devices.OvertakingHappens` a run.
- A further call of a camera is told that it succeeded without a look at the device: when that is
  true is `Devices.AnswerAndDevice`, and `Devices.AnsweredWithoutDevice` has runs in which it is not.
- A packet whose length is a multiple of 1400 bytes leaves the RTP timestamp where it was
  (`Delivery.TimestampAdvance`).
- A close of an unknown id is acknowledged twice (`Lifecycle.CloseRuns`, `Runs.AcksTheorem`).

`dafny verify dfyconfig.toml` checks the whole project.

## Model

| member | source | states |
|---|---|---|
| HashTable.KeyHashTable.constructor | src/jrtplib/include/jrtplib3/rtpkeyhashtable.h:106-117 | an empty valid table; the cursor is unconstrained |
| HashTable.KeyHashTable.UnlinkFromBucket | src/jrtplib/include/jrtplib3/rtpkeyhashtable.h:127-143 | the node leaves its chain, the chains then thread exactly the other nodes, and no list link changes |
| HashTable.KeyHashTable.UnlinkFromList | src/jrtplib/include/jrtplib3/rtpkeyhashtable.h:145-164 | the node leaves the list, both ends right in all four cases, its own next link still its old successor, and no chain link changes |
| HashTable.KeyHashTable.DeleteCurrentElement | src/jrtplib/include/jrtplib3/rtpkeyhashtable.h:119-173 | both structures stay valid, the current entry is gone and the cursor is where its list link pointed, or null; an error exactly when there is no current entry |
| HashTable.KeyHashTable.GotoElement | src/jrtplib/include/jrtplib3/rtpkeyhashtable.h:175-197 | the bucket walk finds exactly the entry with the key wherever it stands in the list; a missing key leaves the cursor null, an index past the table leaves the cursor field as it was |
| HashTable.KeyHashTable.HasElement | src/jrtplib/include/jrtplib3/rtpkeyhashtable.h:199-220 | true exactly when some entry of the whole table has the key |
| HashTable.KeyHashTable.GotoFirstElement | src/jrtplib/include/jrtplib3/rtpkeyhashtable.h:59 | cursor on the oldest entry, or null when there is none |
| HashTable.KeyHashTable.GotoLastElement | src/jrtplib/include/jrtplib3/rtpkeyhashtable.h:60 | cursor on the newest entry, or null when there is none |
| HashTable.KeyHashTable.HasCurrentElement | src/jrtplib/include/jrtplib3/rtpkeyhashtable.h:61 | true exactly when the cursor is not null |
| HashTable.KeyHashTable.GotoNextElement | src/jrtplib/include/jrtplib3/rtpkeyhashtable.h:222-227 | cursor where the list link of its node points: one entry later in insertion order, null past the end |
| HashTable.KeyHashTable.GotoPreviousElement | src/jrtplib/include/jrtplib3/rtpkeyhashtable.h:229-234 | cursor where the back link of its node points: one entry earlier in insertion order, null before the start |
| HashTable.KeyHashTable.GetCurrent | src/jrtplib/include/jrtplib3/rtpkeyhashtable.h:63-64 | key and element of the entry the cursor is on |
| HashTable.KeyHashTable.Link | src/jrtplib/include/jrtplib3/rtpkeyhashtable.h:284-302 | a new node is first in its bucket and last in the list, and both structures stay valid |
| HashTable.KeyHashTable.AddElement | src/jrtplib/include/jrtplib3/rtpkeyhashtable.h:255-304 | appends the entry when its key is new, its index in range and there is memory for it, else changes nothing; the status says which of these failed, each exactly then; the cursor field is never written |
| HashTable.KeyHashTable.DeleteElement | src/jrtplib/include/jrtplib3/rtpkeyhashtable.h:306-315 | the search followed by the deletion, with the cursor where those leave it |
| HashTable.KeyHashTable.Clear | src/jrtplib/include/jrtplib3/rtpkeyhashtable.h:236-253 | every node is released once, in list order; the table is empty; the cursor field keeps its value and so dangles unless null |
| HashTable.KeyHashTable.Replay | src/jrtplib/include/jrtplib3/rtpkeyhashtable.h:119-315 | any defined run of operations on the heap ends in the state, and returns the statuses, of the run on the insertion-ordered list |
| HashTable.KeyHashTable.Sweep | src/jrtplib/include/jrtplib3/rtpkeyhashtable.h:119-173 | the delete-or-step traversal visits each entry once in insertion order and leaves exactly the kept ones in that order |
| HashTable.KeyHashTable.FoundIs | src/jrtplib/include/jrtplib3/rtphashtable.h:173-194 | the node a bucket walk stops at is the one entry of the list with that key |
| HashTable.KeyHashTable.MissingIs | src/jrtplib/include/jrtplib3/rtpkeyhashtable.h:187-195 | a bucket without the key means the whole table is without it |
| OrderedTable.AddExtendsDictionary | src/jrtplib/include/jrtplib3/rtpkeyhashtable.h:255-304 | adding succeeds exactly on a new key in range with memory for it and then extends the dictionary by that binding, otherwise leaves it |
| OrderedTable.DeleteShrinksDictionary | src/jrtplib/include/jrtplib3/rtpkeyhashtable.h:306-315 | deleting succeeds exactly on a key present, removes that binding alone, and puts the cursor on the entry that followed |
| OrderedTable.ApplyKeeps | src/jrtplib/include/jrtplib3/rtpkeyhashtable.h:59-72 | every operation keeps keys distinct and in range and never reorders; all but Clear keep a usable cursor usable, Clear exactly when it is null |
| OrderedTable.RunKeepsKeys | src/jrtplib/include/jrtplib3/rtpkeyhashtable.h:119-315 | no run of operations ever stores a key twice or out of range |
| OrderedTable.SweepStep | src/jrtplib/include/jrtplib3/rtpkeyhashtable.h:119-173 | one round of the traversal moves it on by exactly the current entry, kept or dropped |
| TableLaws.AddObeys | src/jrtplib/include/jrtplib3/rtpkeyhashtable.h:255-304 | whatever its outcome, adding leaves the cursor where it is and on the same entry; each status is returned exactly on its condition, stated by the keys in the table |
| TableLaws.GotoObeys | src/jrtplib/include/jrtplib3/rtpkeyhashtable.h:175-197 | a refused index changes nothing, a missing key gives a null cursor, a key in the table puts the cursor on its entry, and nothing else changes |
| TableLaws.DeleteObeys | src/jrtplib/include/jrtplib3/rtpkeyhashtable.h:306-315 | the entry with the key goes, the others stay in order, and the cursor is on the one that followed or null when none did; a refused index changes nothing and a missing key only nulls the cursor |
| TableLaws.MoveObeys | src/jrtplib/include/jrtplib3/rtpkeyhashtable.h:222-234 | a move goes to the entry directly behind, or directly in front, and to null past the last and before the first |
| TableLaws.ApplyLaw | src/jrtplib/include/jrtplib3/rtpkeyhashtable.h:119-315 | every operation obeys its law on entries, cursor and status, the laws stated by keys and neighbours alone |
| TableLaws.RunLaw | src/jrtplib/include/jrtplib3/rtpkeyhashtable.h:119-315 | in every run, at every position, the status returned and the move of the cursor obey the law of that operation |
| TableLaws.AddingKeepsCursor | src/jrtplib/include/jrtplib3/rtpkeyhashtable.h:255-304 | any number of adds, whatever their outcomes, leave an iteration on the entry it was on |
| TableLaws.DictionaryIs | src/jrtplib/include/jrtplib3/rtpkeyhashtable.h:199-220 | the dictionary binds the key of every entry to its element and no other key |
| TableLaws.KeptAppends | src/jrtplib/include/jrtplib3/rtpkeyhashtable.h:119-173 | what a sweep keeps of two lists is what it keeps of each, and of a list exactly the entries to be kept |
| Rfc1321.AbsorbConcat | src/zmd5.c:341-343 | processing whole blocks and then the rest is processing the concatenation |
| Rfc1321.PaddedIsWholeBlocks | src/zmd5.c:367-373 | a padded message is a whole number of blocks |
| Rfc1321.ZeroPaddingIsLeast | src/zmd5.c:371 | the zeros reach 56 modulo 64 and no smaller number does |
| Rfc1321Laws.FByBit | src/zmd5.c:182 | at every set of bit positions F is y where x has ones and z where it has zeros |
| Rfc1321Laws.GByBit | src/zmd5.c:208 | G is x where z has ones and y where it has zeros |
| Rfc1321Laws.HByBit | src/zmd5.c:234 | H is z where x and y agree and its complement where they differ |
| Rfc1321Laws.IByBit | src/zmd5.c:260 | I is the complement of y where x has ones or z has zeros, and y elsewhere |
| Rfc1321Laws.CircularShiftNumber | src/zmd5.c:177 | as a number, a rotation by any s up to 32 is x * 2^s modulo 2^32 plus x divided by 2^(32-s) |
| Rfc1321Laws.WordAtIs | src/zmd5.c:171-172 | a decoded word has its four bytes as digits to the base 256, the first lowest |
| Rfc1321Laws.ByteOfDivides | src/zmd5.c:374-375 | the byte written out at place j is the word divided by 256^j, modulo 256 |
| Rfc1321Laws.InitialBytes | src/zmd5.c:300-303 | the initial words are the bytes 01 23 45 .. 54 32 10 in order |
| Rfc1321Laws.PaddedLayout | src/zmd5.c:358-373 | behind the message a 1 bit and seven 0 bits, zero bytes, and in the last eight bytes the number of bits modulo 2^64, low-order byte first |
| Md5Vector.AbcDigest | src/zmd5.c:112-376 | the digest of "abc" is the one of the test suite in section A.5 of RFC 1321 |
| Md5Process.OperationIsSet | src/zmd5.c:180-185 | one SET with registers in step i is operation i of section 3.4 of RFC 1321, all four rounds |
| Md5Process.FourSets | src/zmd5.c:187-190 | four SETs with the roles written out rotated are four operations with the registers rotated in between |
| Md5Process.Table1 | src/zmd5.c:187-202 | the shifts, word indexes and constants of the first unrolled round are those of the tables |
| Md5Process.Table2 | src/zmd5.c:213-228 | the same for the second round |
| Md5Process.Table3 | src/zmd5.c:239-254 | the same for the third round |
| Md5Process.Table4 | src/zmd5.c:265-280 | the same for the fourth round |
| Md5Process.Round1 | src/zmd5.c:179-202 | sixteen unrolled SETs are operations 0 to 15 |
| Md5Process.Round2 | src/zmd5.c:205-228 | sixteen unrolled SETs are operations 16 to 31 |
| Md5Process.Round3 | src/zmd5.c:231-254 | sixteen unrolled SETs are operations 32 to 47 |
| Md5Process.Round4 | src/zmd5.c:257-280 | sixteen unrolled SETs are operations 48 to 63 |
| Md5Process.Process | src/zmd5.c:112-290 | the unrolled body is the compression of section 3.4 for every chaining state and every block; what its primitives compute is stated apart in Rfc1321Laws |
| Md5.AddToCountIsExact | src/zmd5.c:323-327 | the two-word count with its carry test is 8 times the bytes appended modulo 2^64 |
| Md5.LowWordCarries | src/zmd5.c:325-326 | a sum cut to 32 bits is below its addend exactly when it was cut |
| Md5.OffsetFromCount | src/zmd5.c:317 | the offset read off the low word is the number of bytes so far modulo 64 |
| Md5.CountBytesAreLength | src/zmd5.c:367-369 | the eight bytes saved by finish are the length field of section 3.2 of RFC 1321 |
| Md5.PadLengthIsPadding | src/zmd5.c:370-371 | despite the unsigned wrap in 55 - n the pad is 1 to 64 bytes and reaches 56 modulo 64, from any length |
| Md5.AbsorbCompleted | src/zmd5.c:329-339 | completing the waiting block compresses it and nothing waits |
| Md5.AbsorbWaiting | src/zmd5.c:333-335 | too few bytes to complete the block only lengthen it |
| Md5.State.Init | src/zmd5.c:297-304 | the state of the empty message |
| Md5.State.Count | src/zmd5.c:323-327 | the count becomes that of the longer message |
| Md5.State.Blocks | src/zmd5.c:341-343 | all complete blocks are compressed and fewer than 64 bytes are left |
| Md5.State.Partial | src/zmd5.c:329-339 | bytes complete the waiting block, which is then compressed, or all of them only lengthen it |
| Md5.State.Remainder | src/zmd5.c:345-347 | the bytes after the last whole block wait at the start of buf |
| Md5.State.Take | src/zmd5.c:329-347 | whatever waits, the bytes added leave the chaining value and the waiting bytes of the longer message |
| Md5.State.Append | src/zmd5.c:313-348 | the state becomes that of the message with the bytes appended; nothing changes for nbytes <= 0 |
| Md5.State.Finish | src/zmd5.c:356-376 | returns the RFC 1321 digest of everything appended, and no unprocessed byte remains |
| Md5.StateIsOfMessage | src/zmd5.c:313-348 | count, chaining words and the used part of buf depend on the message only, so appending a then b equals appending both at once |
| Md5.DigestOfPieces | src/zmd5.c:297-376 | for every message and every way of cutting it, init, appends and finish give the digest of the whole, whose primitives Rfc1321Laws pins by bit and by number |
| SdesWire.BigEndianRoundTrip | src/jrtplib/include/jrtplib3/rtcpsdespacket.h:202-210 | the SSRC read in network order is the one written |
| SdesWire.ItemsRoundTrip | src/jrtplib/include/jrtplib3/rtcpsdespacket.h:225-244 | an encoded item list parses back to its items, and ends at its null byte |
| SdesWire.ChunkRoundTrip | src/jrtplib/include/jrtplib3/rtcpsdespacket.h:184-199 | an encoded chunk parses back and the next chunk begins where its padding ends, at any aligned offset |
| SdesWire.PacketRoundTrip | src/jrtplib/include/jrtplib3/rtcpsdespacket.h:154-244 | an encoded packet parses back to its chunks, in order, whatever follows it in the buffer |
| SdesWire.SdesHeader | src/jrtplib/include/jrtplib3/rtpstructs.h:83-97 | an encoded packet has version 2, no padding, its chunk count in five bits, type 202 and its own length in words less one |
| SdesWire.ChunkLayout | src/jrtplib/include/jrtplib3/rtcpsdespacket.h:184-210 | an encoded chunk is the SSRC as a number high-order byte first, the items, and one to four null bytes up to a 32-bit boundary |
| SdesWire.CountGivenBack | src/jrtplib/include/jrtplib3/rtpstructs.h:83-97 | the five bits of the count give a number back if and only if it is at most 31 |
| ReportWire.ReportHeader | src/jrtplib/include/jrtplib3/rtpstructs.h:83-97 | an encoded report has version 2, no padding, its block count in five bits, type 200 with sender information and 201 without, and its own length in words less one |
| ReportWire.SenderRoundTrip | src/jrtplib/include/jrtplib3/rtcpsrpacket.h:133-181 | the readers give back the sender, the block count and every field of the sender information encoded as in section 6.4.1 of RFC 3550, whatever follows the packet |
| ReportWire.BlockRoundTrip | src/jrtplib/include/jrtplib3/rtcpsrpacket.h:183-247 | and every field of every block, of sender and of receiver reports, the 24-bit count of lost packets with its sign |
| SdesPacket.RTCPSDESPacket.GetChunkCount | src/jrtplib/include/jrtplib3/rtcpsdespacket.h:154-160 | the number of chunks in the packet, 0 for an unknown format |
| SdesPacket.RTCPSDESPacket.GotoFirstChunk | src/jrtplib/include/jrtplib3/rtcpsdespacket.h:162-173 | true exactly when there is a chunk; then all chunks and all items of the first are ahead |
| SdesPacket.RTCPSDESPacket.ChunkStride | src/jrtplib/include/jrtplib3/rtcpsdespacket.h:184-195 | the byte walk ends exactly where the next chunk begins |
| SdesPacket.RTCPSDESPacket.GotoNextChunk | src/jrtplib/include/jrtplib3/rtcpsdespacket.h:175-200 | true exactly when a further chunk is ahead, which becomes current; the step does not depend on the item cursor; false changes nothing |
| SdesPacket.RTCPSDESPacket.GetChunkSSRC | src/jrtplib/include/jrtplib3/rtcpsdespacket.h:202-210 | the SSRC of the current chunk, 0 without one |
| SdesPacket.RTCPSDESPacket.GotoFirstItem | src/jrtplib/include/jrtplib3/rtcpsdespacket.h:212-223 | true exactly when the current chunk has items; all of them are then ahead |
| SdesPacket.RTCPSDESPacket.GotoNextItem | src/jrtplib/include/jrtplib3/rtcpsdespacket.h:225-244 | true exactly when a further item is ahead, which becomes current; on false the cursor stays |
| SdesPacket.RTCPSDESPacket.GetItemType | src/jrtplib/include/jrtplib3/rtcpsdespacket.h:246-277 | no type exactly when there is no current item; otherwise CNAME to PRIV exactly for the ids 1 to 8 and unknown exactly above |
| SdesPacket.RTCPSDESPacket.GetItemLength | src/jrtplib/include/jrtplib3/rtcpsdespacket.h:279-289 | the length of the current item, 0 without one |
| SdesPacket.RTCPSDESPacket.GetItemData | src/jrtplib/include/jrtplib3/rtcpsdespacket.h:291-301 | null exactly without a current item, otherwise the item's text lies there |
| SdesPacket.RTCPSDESPacket.PrivPartition | src/jrtplib/include/jrtplib3/rtcpsdespacket.h:304-379 | for a PRIV item with room for its prefix the length byte, prefix slice and value slice make up the item exactly; for any other item all four accessors are null or 0 |
| SdesPacket.ReadAll | src/jrtplib/include/jrtplib3/rtcpsdespacket.h:162-301 | the nested traversal ends and returns the chunks the packet parses to |
| SdesPacket.ReadItems | src/jrtplib/include/jrtplib3/rtcpsdespacket.h:212-301 | the item loop returns all items of the current chunk and leaves the chunk cursor |
| SdesPacket.ReadEncoded | src/jrtplib/include/jrtplib3/rtcpsdespacket.h:162-301 | reading what section 6.5 of RFC 3550 encodes returns the original SSRCs and items |
| PacketBuilder.Report.NeededBytes | src/jrtplib/include/jrtplib3/rtcpcompoundpacketbuilder.h:174-196 | once started, the length of the encoded SR and RR packets with the blocks in greedy groups of 31, the first with the sender information if any; a multiple of 4; 0 before |
| PacketBuilder.Report.NeededBytesWithExtraReportBlock | src/jrtplib/include/jrtplib3/rtcpcompoundpacketbuilder.h:198-211 | the length of the encoded packets after one more block, whatever the state |
| PacketBuilder.Report.Clear | src/jrtplib/include/jrtplib3/rtcpcompoundpacketbuilder.h:161-172 | back to the state before any report was started |
| PacketBuilder.ReportSizesClosedForm | src/jrtplib/include/jrtplib3/rtcpcompoundpacketbuilder.h:186-194 | the sizes of the greedy groups add up to the builder's closed form |
| PacketBuilder.ReportBytesLength | src/jrtplib/include/jrtplib3/rtcpcompoundpacketbuilder.h:186-194 | the packets encoded field by field take 24 bytes a block, 8 a packet and 20 for the sender information |
| PacketBuilder.ReportSizesAreEncoded | src/jrtplib/include/jrtplib3/rtcpcompoundpacketbuilder.h:186-194 | the sizes of the greedy groups are the length of the packets encoded as in sections 6.4.1 and 6.4.2 of RFC 3550 |
| PacketBuilder.GroupsFlatten | src/jrtplib/include/jrtplib3/rtcpcompoundpacketbuilder.h:186-190 | the greedy groups put together are the list, in order, nothing lost or repeated |
| PacketBuilder.GroupsCount | src/jrtplib/include/jrtplib3/rtcpcompoundpacketbuilder.h:187-190 | greedy groups of 31 number n/31 rounded up, and one when there is nothing |
| PacketBuilder.ChunkBytesAreEncoding | src/jrtplib/include/jrtplib3/rtcpcompoundpacketbuilder.h:236-245 | the bytes a source stands for are those of the RFC 3550 encoder |
| PacketBuilder.ChunkBytesLength | src/jrtplib/include/jrtplib3/rtcpcompoundpacketbuilder.h:236-245 | their number is the builder's arithmetic on the total item size, and a multiple of 4 |
| PacketBuilder.StrideIsSourceSize | src/jrtplib/include/jrtplib3/rtcpsdespacket.h:184-199 | on any well-formed data the parser's stride over a chunk is the size the builder reckons for the same items |
| PacketBuilder.SDESSource.NeededBytes | src/jrtplib/include/jrtplib3/rtcpcompoundpacketbuilder.h:236-245 | the exact number of bytes of the chunk |
| PacketBuilder.SDESSource.NeededBytesWithExtraItem | src/jrtplib/include/jrtplib3/rtcpcompoundpacketbuilder.h:247-256 | the exact number of bytes of the chunk with an item of that length more |
| PacketBuilder.SDESSource.AddItem | src/jrtplib/include/jrtplib3/rtcpcompoundpacketbuilder.h:258-263 | the item is last and the running total stays the sum of the item sizes |
| PacketBuilder.SDES.constructor | src/jrtplib/include/jrtplib3/rtcpcompoundpacketbuilder.h:274 | no sources |
| PacketBuilder.SDES.Clear | src/jrtplib/include/jrtplib3/rtcpcompoundpacketbuilder.h:277-284 | no sources, and the iterator left where it was |
| PacketBuilder.SDES.AddSSRC | src/jrtplib/include/jrtplib3/rtcpcompoundpacketbuilder.h:286-295 | a new source without items is last and sdesit names it; without memory nothing changes |
| PacketBuilder.SDES.AddItem | src/jrtplib/include/jrtplib3/rtcpcompoundpacketbuilder.h:297-303 | the item goes behind those of the last source and no other source changes; without sources it is refused |
| PacketBuilder.SDES.NeededBytes | src/jrtplib/include/jrtplib3/rtcpcompoundpacketbuilder.h:305-323 | the exact size of the packets that carry the sources |
| PacketBuilder.SDES.NeededBytesWithExtraItem | src/jrtplib/include/jrtplib3/rtcpcompoundpacketbuilder.h:325-344 | what NeededBytes gives after AddItem of that length, on an empty list too |
| PacketBuilder.SDES.NeededBytesWithExtraSource | src/jrtplib/include/jrtplib3/rtcpcompoundpacketbuilder.h:346-368 | what NeededBytes gives after AddSSRC if and only if there is a source already |
| PacketBuilder.SdesSizesClosedForm | src/jrtplib/include/jrtplib3/rtcpcompoundpacketbuilder.h:316-322 | the sizes of greedy groups of 31 sources add up to the builder's closed form |
| PacketBuilder.WireSizeIsEncodedSize | src/jrtplib/include/jrtplib3/rtcpcompoundpacketbuilder.h:305-323 | for n > 0 chunks the predicted size is the size of the RFC 3550 packets, one header per 31 chunks |
| Delivery.FragmentsReassemble | src/rtpsender.cpp:138-154 | the fragments concatenated are the packet |
| Delivery.FragmentSizes | src/rtpsender.cpp:138-154 | every fragment is non-empty and at most 1400 bytes, only the last can be short, and the increment is 3600 exactly on a short one |
| Delivery.TimestampAdvance | src/rtpsender.cpp:138-154 | a packet advances the timestamp by 3600 exactly when its length is not a multiple of 1400 |
| Delivery.RtpSender.Send | src/rtpsender.cpp:138-154 | the calls made on the session are those fragments in order, after the earlier ones |
| Delivery.StepConserves | src/buffer.cpp:47-77 | every step of any thread adds to the packets sent, in hand and queued exactly the packet it pushes, at the end |
| Delivery.DeliveryTheorem | src/buffer.cpp:19-77 | for every interleaving of pushes, sender changes and passes, pushes between the turns of a pass included: packets sent, then one in hand, then the queue, are those pushed, in order; each goes out in one send call only; and each sender makes the fragments of its own packets |
| Delivery.RemovedGetsNothing | src/buffer.cpp:25-39 | once a call has no sender, no packet is sent under it in any continuation until a sender is added under it again |
| Delivery.StepSenders | src/buffer.cpp:19-39 | senders change between passes only: adding gives a sender to a call that has none, removing and clearing take them away, no other call is touched, and a pass ends only when every sender had its turn |
| Delivery.TurnsShareOut | src/buffer.cpp:47-61 | when nothing is pushed meanwhile, the i-th sender of a pass is sent the i-th packet of the queue as long as there are both, and the rest stays |
| Delivery.PassIsRun | src/buffer.cpp:47-61 | a pass, whatever is pushed during it, is the run of steps that enters, gives each sender one turn and leaves |
| Delivery.Buffer.PopPacket | src/buffer.cpp:63-71 | the oldest packet, or none exactly when the queue is empty |
| Delivery.Buffer.ServeOne | src/buffer.cpp:54-58 | one turn: the oldest packet there by then is fragmented and sent, or nothing when there is none |
| Delivery.Buffer.ProcessData | src/buffer.cpp:47-61 | every sender has one turn; the calls made and the queue left are those of the pass, with anything pushed before each turn; each sender object has made the fragments of its packets, one object under two call ids included |
| Balance.AttachKeepsSpread | src/threadpool.h:136-144 | loading a least thread never raises the spread above the larger of 1 and what it was |
| Balance.LoadedIsEven | src/threadpool.h:136-144 | n loads of k threads leave each with n/k, rounded down or up, and exactly n/k when k divides n |
| PoolMap.AttachHolds | src/threadpool.h:136-144 | afterwards the ids held are those before and this one, whether or not the buffer was taken |
| PoolMap.AttachServes | src/threadpool.h:75-81 | the new buffer is served if and only if the least loaded thread does not hold the id, and what was served stays served |
| PoolMap.DetachHolds | src/threadpool.h:158-166 | afterwards the ids held are those before but this one |
| PoolMap.AttachedSpread | src/threadpool.h:136-144 | any list of attaches, ids repeated or not, keeps the spread within the larger of 1 and what it was, and within 1 from an empty pool |
| PoolMap.AttachedEvenly | src/threadpool.h:136-144 | n attaches with distinct ids to an empty pool of k threads give each n/k buffers, rounded down or up, and exactly n/k when k divides n |
| Pool.ThreadWrapper.RemoveBuffer | src/threadpool.h:98-112 | the id goes and its buffer has no senders left |
| Pool.ThreadPool.constructor | src/threadpool.h:122-124 | distinct threads, none holding a buffer, for any number of threads |
| Pool.ThreadPool.MinElement | src/threadpool.h:138-140 | the first of the threads with the fewest buffers |
| Pool.ThreadPool.AttachBuffer | src/threadpool.h:136-144 | on the threads' maps what Attach is on the value; only the least loaded thread may change, and the spread is kept |
| Pool.ThreadPool.AttachAll | src/threadpool.h:136-144 | any number of attaches, ids repeated or not, from an empty pool stays balanced within 1 |
| Pool.ThreadPool.GetBuffer | src/threadpool.h:146-156 | a buffer some thread serves under the id, null exactly when none does |
| Pool.ThreadPool.RemoveBuffer | src/threadpool.h:158-166 | on the threads' maps what Detach is on the value: no thread holds the id, every other id is untouched, and the dropped buffers have no senders |
| Lifecycle.AddSubSound | src/mediastream.cpp:36-74 | adding a sub-stream leaves every reference good, and on success buffer_ is not null |
| Lifecycle.ErasureKeepsReferences | src/mediastream.cpp:76-84 | removing a sub-stream or a sender changes no reference and no other field |
| Lifecycle.StepSound | src/streammanager.cpp:67-169 | every step of every thread leaves references good, so buffer_ is never null where it is used |
| Lifecycle.OpenRuns | src/streammanager.cpp:67-137 | an open request not interrupted is the request step followed by one step of the lock holder, and leaves references good |
| Lifecycle.CloseRuns | src/streammanager.cpp:139-169 | a close not interrupted is the close step followed by five steps of the lock holder; it is acknowledged once, and twice when the id is unknown |
| Lifecycle.SenderErasedOnce | src/streammanager.cpp:151-159 | the second removeSender changes nothing |
| Lifecycle.JobRuns | src/streammanager.cpp:102-119 | the steps of a job not interrupted: a device that opens is recorded and answered, one that fails costs the sub-stream but not the registration |
| Runs.StepPoolMatches | src/streammanager.cpp:67-169 | every step keeps pool and registry in agreement, up to the ids a locked region is in the middle of |
| Runs.StepCounts | src/streammanager.cpp:100-102 | every step keeps jobs submitted equal to devices closed plus streams registered, less one being closed |
| Runs.StepOrphansEmpty | src/mediastream.cpp:117-122 | a stream object that is not registered has no sub-streams |
| Runs.StepOwned | src/mediastream.cpp:44-58 | a buffer never holds a sender but that of the call it was made for |
| Runs.StepNewest | src/mediastream.cpp:44-58 | buffer_ of a stream is always the newest buffer made for it |
| Runs.StepServedOwned | src/streammanager.cpp:90-165 | threads serve under an id only buffers of its registered stream, or of the one being registered |
| Runs.StepAccounted | src/msgthread.h:64-96 | every step keeps each open request in exactly one place: answered, queued, in work or in the hands of the lock holder |
| Runs.RegistryTheorem | src/streammanager.cpp:67-169 | in every run, whenever locker_ is free, the ids held by pool threads are the registered ids, and jobs submitted less devices closed is the number of streams |
| Runs.AnswersTheorem | src/streammanager.cpp:67-137 | in every run no open request is answered twice, requests received are those answered, queued, running or in hand, and once nothing is left each has been answered exactly once |
| Answers.OpenAnswers | src/streammanager.cpp:67-137 | in every state an uninterrupted open request is told of success at once if and only if the id is registered, the call new to it and the sender initialises; of failure at once if and only if the id is registered and one of these fails, or it is not and the controller or the sender is missing; otherwise of nothing yet, with one job of its own |
| Answers.OpenEffects | src/mediastream.cpp:36-74 | a granted call is recorded and buffer_ is a new buffer with its sender alone, offered to the pool; a call already there changes nothing; a sender that fails leaves an empty buffer_ |
| Answers.FirstOpenEffects | src/streammanager.cpp:76-100 | nothing is made without a controller, an unregistered object with an empty buffer where the sender fails, otherwise a registered stream of this call alone whose device is not asked yet |
| Answers.CloseEffects | src/streammanager.cpp:148-166 | after a close the call has no sub-stream, and the stream, and with it the device, stays exactly while another call has one; nothing of another stream changes |
| Answers.CloseBuffers | src/streammanager.cpp:148-166 | the closed call loses its sender in buffer_ only; with the last call every buffer served under the id loses its senders and its place |
| Answers.JobEffects | src/streammanager.cpp:102-119 | a job answers what the device answered, and a failed device costs its call the sub-stream and its sender in buffer_ |
| Answers.StepPromises | src/streammanager.cpp:67-137 | a step adds an answer to be given exactly when it decides it: a request granted or refused there, or the device's answer to its own job |
| Answers.AnswersAreTrue | src/streammanager.cpp:67-137 | in every run a request is told of success only if it was granted as a further call or its own job's device opened, and of failure only if it was refused or that device failed; with no thread at work, exactly then |
| Runs.AcksTheorem | src/streammanager.cpp:139-169 | in every run acknowledgements made and in hand are the close requests plus those among them for unknown ids, exactly so when locker_ is free |
| Runs.SendersTheorem | src/mediastream.cpp:36-84 | in every run a buffer has at most one sender, that of the call it was made for; buffer_ is the newest; only buffers of the registered stream are served; an unregistered stream object has no sub-streams |
| SubStreams.NewBufferServed | src/threadpool.h:75-81 | in any state the buffer of a new sub-stream is served if and only if the least loaded thread does not hold the stream's id |
| SubStreams.AloneRun | src/streammanager.cpp:67-137 | the exact state after opening any list of calls for one camera on a pool of any size |
| SubStreams.FirstCallsServed | src/mediastream.cpp:45-58 | of any number of calls opened for one camera alone on k threads all are accepted and exactly the first k are served |
| SubStreams.ClosedCallServed | src/streammanager.cpp:150-166 | in any reachable state, before the close: the closed call is served afterwards if and only if other sub-streams keep the stream open and the call had a sender in a served buffer older than the newest; that buffer was made for this very call |
| SubStreams.CloseLeavesSender | src/streammanager.cpp:150-159 | runs in which a closed call keeps a served sender: on k threads, any of the first k calls but the last opened |
| Devices.StepDevices | src/streammanager.cpp:161-166 | a step that is no overtaking close keeps the open devices those of the registered streams whose open job succeeded |
| Devices.DevicesTheorem | src/streammanager.cpp:67-169 | in every run in which no close overtakes its stream's open job, the devices open are exactly those of the registered streams whose open job has succeeded |
| Devices.PendingLeaks | src/streammanager.cpp:102-119 | an open job pending for a stream no longer registered leads to a device open that no stream owns, if devices open |
| Devices.OvertakingLeaks | src/streammanager.cpp:102-166 | any run in which a close does overtake can go on from there to leave a device open that no stream owns |
| Devices.OvertakingHappens | src/streammanager.cpp:102-166 | such a run: with any number of threads, open a camera and close it before the job has run |
| Devices.AnswerAndDevice | src/streammanager.cpp:121-136 | a further call of a registered stream is answered with success whether or not the device is open; it is open if and only if the stream's own open job has succeeded |
| Devices.AnsweredWithoutDevice | src/streammanager.cpp:102-136 | runs with a positive answer and no device: the open job pending, and the open job failed |
| Traffic.StepConserved | src/buffer.cpp:47-77 | with streams coming and going, every step keeps what came into a buffer equal to what was sent from it and what waits |
| Traffic.TrafficTheorem | src/mediastream.cpp:98-110 | in every run, for every buffer: what came in was sent in order or waits, and every packet sent went to the one call its buffer was made for |
| Traffic.CameraFeedsNewest | src/mediastream.cpp:98-110 | a camera's packet goes into the newest buffer made for its stream and no other |
| Traffic.OlderStarves | src/mediastream.cpp:45-103 | once a newer sub-stream's buffer exists, nothing comes into an older one any more, in any continuation |
| Traffic.UnservedSendsNothing | src/threadpool.h:75-81 | a buffer the pool did not take is never served, and no packet is ever sent from it |
| Traffic.LateCallGetsNothing | src/mediastream.cpp:45-62 | of the calls opened for one camera alone on k threads, those after the first k are told of success and are never sent a packet |
| Sending.TurnSends | src/threadpool.h:68-71 | in every reachable state, where a buffer is served, has a sender of the call and holds packets, the turn of some thread sends exactly the oldest of them to the call and changes nothing else |
| Sending.TurnsDrain | src/buffer.cpp:47-61 | as many turns as there are packets send them all, in order |
| Sending.WaitingIsSent | src/buffer.cpp:47-61 | whatever waits in a served buffer is sent to its call, in order, by some continuation in which nothing else happens |
| Sending.AllThatCameIsSent | src/buffer.cpp:47-77 | after every run some continuation leaves everything that ever came into such a buffer sent from it, in the order it came |
| Sending.FirstCallsAreSent | src/mediastream.cpp:45-62 | of the calls opened for one camera alone on k threads, each of the first k can be sent, in order, whatever waits for it |
| Sending.CameraReachesCall | src/mediastream.cpp:98-110 | where the newest buffer of a stream is served and has a sender of the call, some continuation takes any packets from the camera to the call, behind those waiting |
| Manager.MediaStream.AddSubStream | src/mediastream.cpp:36-74 | a known call id is refused and nothing changes; otherwise buffer_ is a new buffer, and unless the sender fails it has the sender and is in the pool |
| Manager.MediaStream.RemoveSubStream | src/mediastream.cpp:76-84 | the sub-stream, and its sender in the current buffer and no other, go |
| Manager.StreamManager.constructor | src/streammanager.cpp:23-31 | the start of every run: nothing registered, nothing queued, an empty pool |
| Manager.StreamManager.AddSubTo | src/mediastream.cpp:36-74 | on the objects what the step is on the value: buffer_ replaced, the old buffer and all others untouched, the pool loaded |
| Manager.StreamManager.RemoveSubFrom | src/mediastream.cpp:76-84 | on the objects what the two erasing steps are on the value |
| Manager.StreamManager.DropBuffers | src/threadpool.h:158-166 | the pool forgets the id, and of all buffers exactly those it held under the id lose their senders |
| Manager.StreamManager.AddNewStream | src/streammanager.cpp:76-119 | without a controller or a sender the request is refused; otherwise the stream is registered and one job submitted |
| Manager.StreamManager.AddStream | src/streammanager.cpp:67-137 | on the heap of streams, buffers, senders and threads, what the uninterrupted open request is on the value; a further call is answered with success exactly when it is new and its sender initialises, a first call is answered at once only to refuse it |
| Manager.StreamManager.CloseKnown | src/streammanager.cpp:148-167 | the branch of a registered id, with both outcomes of needClose |
| Manager.StreamManager.CloseStream | src/streammanager.cpp:139-169 | on the heap what the uninterrupted close is on the value; the stream stays registered exactly while another call has a sub-stream; acknowledged once, and twice for an unknown id |
| Manager.StreamManager.RunJob | src/msgthread.h:64-72 | on the heap what one job run to its end is on the value; the answer is that of the device |
| WorkerLoop.RunInv | src/threadpool.h:55-73 | in every run a pass under way began before quit_ was set and covers attached buffers only |
| WorkerLoop.QuitIsFinal | src/threadpool.h:30-73 | once quit_ is set no further processData begins, and the next entry ends the loop, whatever is attached |
| WorkerLoop.NoCallAfterQuit | src/threadpool.h:46-73 | the same from the start of every run |
| WorkerLoop.StopIsFinal | src/threadpool.h:46-73 | a stop that gets the mutex, at any point of any run: no call begins after it and the next entry ends the loop |
| WorkerLoop.RemovedIsNotCalled | src/threadpool.h:55-112 | a buffer removed between passes is not called any more until it is added again |
| WorkerLoop.PassProcessesEach | src/threadpool.h:68-71 | within a pass each buffer no longer left has been processed exactly once and the others not at all, and the map does not change |
| WorkerLoop.WholePass | src/threadpool.h:55-73 | from entry to leave, each attached buffer is processed exactly once |
| LockOrder.TaskRanked | src/streammanager.cpp:67-169 | every code path nests its critical sections by increasing rank: locker_, stream, pool thread, senders, packets, job queue; buffers destroyed inside or outside bufferMutex_ |
| LockOrder.TaskTakes | src/streammanager.cpp:67-169 | every code path takes exactly the mutexes its code names, those of the buffers it destroys included |
| LockOrder.RequestUnderLocker | src/streammanager.cpp:67-169 | addStream and closeStream take locker_ first and give it back last, and take it nowhere in between |
| LockOrder.RankedIsDisciplined | src/threadpool.h:55-112 | such nesting never acquires a mutex at or below one held, waits for a condition only while it holds none, and ends holding none |
| LockOrder.WaitingClimbs | src/buffer.cpp:19-77 | a thread waited for wants, if it waits, a mutex of higher rank |
| LockOrder.ParkedStays | src/threadsafequeue.h:17-33 | while its condition never holds a thread waiting for it stays where it is, whatever the others do |
| LockOrder.BlockedStays | src/buffer.cpp:19-77 | and so does a thread that wants a mutex, while its holder takes no turn |
| LockOrder.MutualExclusion | src/streammanager.cpp:67-169 | for any threads running any tasks under any schedule, no mutex is held by two threads |
| LockOrder.NoDeadlock | src/streammanager.cpp:67-169 | for any threads running any tasks under any schedule, no threads wait for one another in a circle, and no chain of waiting is longer than the ranks |
| LockOrder.AlwaysProgress | src/threadsafequeue.h:17-58 | a thread that waits for its condition, a job queued or a buffer to serve, holds no mutex; and some thread can take its next step exactly when some thread with work left does not wait for its condition |
| LockOrder.EverythingCanFinish | src/streammanager.cpp:67-169 | from wherever any schedule has brought them, once the conditions still waited for hold, turns alone can take all threads to the end of all their tasks with no mutex held |

## Left out

- HashTable.ElementHashTable: `RTPHashTable` has the code of `RTPKeyHashTable` with the element as key and error codes -4 to -7 for -8 to -11; it is the instance with the element as key and no separate proof.
- Memory managers: a released node is one that is in neither structure any more; whether an allocation succeeds is a parameter of `AddElement` and `AddSSRC`.
- A negative result of `GetIndex` is excluded by a precondition: the source tests the upper bound only and would index before the table.
- HashTable.KeyHashTable.GotoNextElement: like GotoPreviousElement and DeleteCurrentElement it is not defined on a cursor left dangling by the constructor or by Clear, where the source reads a released node.
- Md5Process.Process: the three ways of decoding a block by endianness and alignment are one little-endian decoding.
- Rfc1321.Constant: the table T is the one printed in the RFC, not derived from the sine function.
- Md5.State.Append: requires that `offset + nbytes` does not overflow `int`, as the source does, and reads `nbytes << 3` as cut to 32 bits.
- Rfc1321.Digest: no statement that different messages have different digests.
- `buildCallId` (hexadecimal text of a digest) is never called.
- SdesPacket.RTCPSDESPacket.constructor: packet validation is a precondition, that `knownformat` is set only on data that parses; the constructor in the .cpp file is not part of this model.
- SdesPacket.RTCPSDESPacket.GetItemType: every id above 8 is reported as unknown, so ReadAll takes the id byte from the data.
- PacketBuilder.Report.NeededBytes: sizes are unbounded integers; overflow of `size_t` is not modelled, nor are the bodies that write the packets, which are in .cpp files.
- The structures of rtpstructs.h are taken to be packed: 4, 4, 20, 24 and 2 bytes, the lengths of the fields in sections 6.4.1, 6.4.2 and 6.5 of RFC 3550.
- ReportWire.SenderRoundTrip: whether the format of a report is known is a parameter; the constructors that validate it are in .cpp files.
- Delivery.RtpSender.Send: `SendPacket` appends to a log; the RTP session, sockets, timestamps on the wire, payload type 96 and the mark bit are not modelled, and its error result is ignored as the source ignores it.
- Delivery.Buffer.ProcessData: the order in which `std::map` yields the senders is any order, not the order of call ids; a whole send call is one step.
- The camera's bytes: `MediaStream::processData` makes a packet of the right size and does not copy them, so packets are opaque from `pushPacket` on.
- Pool.ThreadPool.AttachBuffer: requires a pool of at least one thread; with none `attachBuffer` would load the end of the vector. Moving thread wrappers inside the vector is not modelled.
- Lifecycle.AddSubSound: `addsubStream` is one step, since it runs under locker_ and mutex_ and what other threads read of it they read under one of these; the unguarded reads of `buffer_` in `removesubStream`, `getBuffer` and `processData` are taken as atomic.
- Traffic.TrafficTheorem: a turn, taking a packet and sending it, is one step here, since destsmutex_ keeps the senders as they are in between; Delivery has it in two.
- Manager.StreamManager.AddStream: the fields of a sub-stream other than its call id (addresses, ports, SSRC) are not kept; shared ownership and destruction of streams and buffers are not modelled, so an object dropped is one no longer referred to.
- Whether the controller is found, the sender initialises and the device opens are parameters. A device close is taken to close the device; the source logs a failed close and carries on.
- Runs.AnswersTheorem: says nothing of whether a job is ever run; fairness of threads and condition variables is not modelled.
- Sending.WaitingIsSent: says that packets can be sent, not that a thread is scheduled to send them.
- LockOrder.TaskRanked: callbacks, the vendor library and the RTP library are assumed to take none of the program's mutexes.
- LockOrder.AlwaysProgress: what makes a condition true is not followed, so conditions may change at any time; that a notification is not lost is not proved.
- WorkerLoop.RunInv: the worker's loop is a step system rather than a method, because other threads act between its iterations; the order of buffers in a pass is any order.
- Plain accessors (`HasCurrentElement` aside) such as `senderNumber`, `bufferSize` and `findBuffer`, and one-line updates such as `stop`, `addSender`, `removeSender` and `pushPacket`, are there as methods and have no row; the properties that rest on them have.
- Destruction at process exit, the Ice interface, plug-ins, the vendor SDK, PTZ control and the parts of jrtplib other than the headers above: plumbing, or code outside the repository.
