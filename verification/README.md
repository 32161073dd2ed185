# Verified core of the streaming library

A Dafny model of the stateful codecs, the re-entrant lock and the prefix router of a Go streaming
library, with proofs about them. `dafny verify dfyconfig.toml` checks the whole project.

## What is modelled

**RTMP chunk stream.** `ChunkSender` and `ChunkParser` give both ends of the chunk protocol of section
5.3 of Adobe's RTMP 1.0 as functions: the sender's four levels of header compression, and the receiver
as a byte-at-a-time machine with 19 states. The receiver's cache holds pointers, and the message in
progress is in the cache itself; the model keeps that aliasing (`mine` are the entries that point to the
message in progress). `ChunkRoundTrip` and `ChunkSync` prove that the caches stay in step and that every
run of sends and chunk size changes, cut into reads of any sizes, is delivered exactly. `NetConnections` has
the connection object with the loops of `parseMessage`, `sendBytes` and `read`, each proved to do what
the functions say. `Acknowledgement` compares the 32-bit counters of `read` with unbounded traffic.

**AMF0.** `AmfValue` and `AmfDecode` say what the encoder writes and what the mutually recursive decoder
makes of any octets. `AmfCanon` and `AmfKeys` say which values and which keys can come back, `AmfRoundTrip`
proves for which values and which following octets decoding gives the value back, in both directions, and
`AmfMasked` deals with the one property that comes back although its key was never written: the number 0
under an empty key. `AmfCodec` holds the loops over buffers and data, `AmfObject` the ordered
list and key table of an object.

**FLV.** Three pieces of code handle one tag layout: the demuxer (`FlvDemuxer`), the tag writer and the
object that holds both (`FlvMuxer`), and the one-shot parser of RTMP aggregate messages (`Aggregate`).
Muxing and demuxing are inverse, the two parsers accept the same inputs (`FlvAgreement`), and back
pointers lead from the end of a file to its first tag (`FlvTag`).

**Bits and H.264.** `BitStreams` defines the bits of a zero-padded buffer and compares the shifts of the
bit reader with them; `Golombs` does the same for Exp-Golomb codes (sections 9.1 and 9.1.1 of H.264),
`Emulation` for emulation prevention (sections 7.3.1 and 7.4.1) and `SpsGeometry` for the picture size of a
sequence parameter set (section 7.4.2.1.1), from the bits in the buffer to the cropped size.

**Events.** `Dispatcher` is the event dispatcher as a machine whose steps are the atomic actions of any
number of goroutines: loading and storing the owner id, locking, unlocking, counting the recursion level,
taking the snapshot, and each turn of the dispatch loop. Handlers may start any call, panic, or stop the
propagation. `DispatcherSafety`, `DispatcherHistory` and `DispatcherCounts` state what holds
in every interleaving, `DispatcherCalls` what each call does and leaves behind; `DispatcherNesting` builds the
runs in which a listener runs too often.

**Router.** `Muxes` keeps the registered patterns in a table and, for those ending in a slash, in an array in
length order; matching is longest-prefix lookup in the table.

`Bytes` holds octets, fixed-width fields and a little arithmetic.

## Where the code falls short of what it is for

Each of these is a theorem below, with the exact condition under which the code is right.

- A chunk stream id of 320 or more whose distance from 64 is a multiple of 256 comes back as another id
  (`ChunkRoundTrip.CsidRoundTrip`), 320 as 65 (`ChunkRoundTrip.CsidMisread`).
- A message with an empty payload is never sent, yet changes the sender's cache (`ChunkSync.EmptyPayload`).
- Control messages sent as plain messages part the two ends when they change the receiver alone
  (`ChunkSync.SyncKept`); announced chunk sizes of 0 or less always do (`ChunkSync.ChunkSizeKeepsSync`).
- `Abort` sends a command with the chunk stream id instead of an abort message (`ChunkSync.AbortDropsNothing`).
- Windows above 2^32 - 4110 break the acknowledgement count (`Acknowledgement.WindowBound`).
- A strict array swallows an end marker that follows it and then counts as ended; a key on an element of one is
  written but not read (`AmfRoundTrip.RoundTrip`). So no object whose last property is a strict array comes back
  as it was (`AmfRoundTrip.ArrayLast`), `{a: []}` for one (`AmfRoundTrip.EmptyArrayLost`). A property whose key
  is empty or longer than 65535 octets does not come back (`AmfRoundTrip.PropertyExact`), but for the number 0
  under an empty key in front of two zero octets, which costs those two octets (`AmfMasked.ObjectReturns`). The
  encoder's count leaves out nulls (`AmfValue.ReportedLength`); a null property comes out with its key as its
  value (`AmfKeys.NullKeepsKey`); deleting a repeated key leaves the list and the table apart
  (`AmfObject.RemoveFirstTable`).
- `ShowBitsLong` is documented for up to 32 bits but reads both halves from one position
  (`BitStreams.ShownLongExact`), so 00 01 00 00 reads as 00 01 00 01 (`BitStreams.LongWrong`). That limits
  `ReadUE` (`Golombs.UeExact`), which reads the code of 2^26 as 2^26 - 1 (`Golombs.UeWrong`). `ReadSE` turns
  values from 2^30 on negative (`Golombs.SeExact`, `Golombs.SeRight`). At the end of the buffer `ReadUE` answers
  2^32 - 1 and moves back (`Golombs.PastEnd`).
- `ebsp2rbsp` keeps the final 03 of an RBSP that ends in an odd number of zero octets (`Emulation.OddZeros`),
  and panics on fewer than two octets, which its caller at av/codec/avc/pps.go:44 does not rule out
  (`Emulation.RoundTrip`).
- A listener made for k invocations runs more often when its handler dispatches its own event type, since its
  count goes down only after the handler (`DispatcherCounts.CountedInvocations`): one made for a single
  invocation can run eight times (`DispatcherNesting.InvokedAgain`).
- The area check of a sequence parameter set multiplies modulo 2^32 (`SpsGeometry.NoAreaBound`);
  65408 by 65408 samples pass it (`SpsGeometry.HugeAccepted`).

## Model

| member | source | states |
|---|---|---|
| ChunkParser.RunAppend | rtmp/netconnection.go:212-445 | parsing a then b equals parsing a+b, from every state, failures included |
| ChunkParser.Segmentation | rtmp/netconnection.go:212-445 | how the input is cut into calls never matters to deliveries, state or error |
| ChunkParser.BulkCopy | rtmp/netconnection.go:402-417 | copying a run of payload octets at once equals feeding them one at a time |
| ChunkParser.RunKeepsBits | rtmp/netconnection.go:319-400 | in every phase of every run the bits still to be or-ed into a field are zero and no field outgrows its width |
| ChunkRoundTrip.RunBasic | rtmp/netconnection.go:247-317 | reading a basic header binds the chunk stream it names, or for a zero low octet the one the two-octet form would name |
| ChunkRoundTrip.CsidRoundTrip | rtmp/netconnection.go:1008-1022 | a basic header brings its chunk stream id back exactly for allowed ids, from 2 up and not 64 plus a multiple of 256 beyond 319 |
| ChunkRoundTrip.CsidMisread | rtmp/netconnection.go:286-297 | the other ids, 64 plus 256 times k, all come back as 64 plus k |
| ChunkRoundTrip.BasicLayout | rtmp/netconnection.go:1008-1022 | the octets of a basic header spell format and id as section 5.3.1.1 of RTMP 1.0 says |
| ChunkRoundTrip.HeaderLayout | rtmp/netconnection.go:1024-1047 | 11, 7, 3 or no octets, and four more for timestamps from 2^24 - 1 on, spell the fields the format has, the stream id backwards |
| ChunkRoundTrip.RunMessageHeader | rtmp/netconnection.go:1024-1047 | each of the four header formats, with or without extended timestamp, restores the full header from what the cache supplies |
| ChunkRoundTrip.RunChunk | rtmp/netconnection.go:1007-1070 | one chunk appends exactly its payload and leaves the parser at a chunk boundary or delivers |
| ChunkRoundTrip.RunChunks | rtmp/netconnection.go:1007-1073 | all chunks of a message, cut at any chunk size, gather and deliver the payload |
| ChunkSync.CompressionBest | rtmp/netconnection.go:984-1003 | on a chunk stream in use the sender picks the shortest header format that still conveys the message |
| ChunkSync.DeliversExactly | rtmp/netconnection.go:419-437 | a complete message is delivered if and only if its stream is registered and it can be processed, a control message having its four octets |
| ChunkSync.FailsExactly | rtmp/netconnection.go:402-437 | header octets never fail; a payload octet fails exactly for a chunk size of 0, for a message already longer than its header says, and when the message it completes cannot be processed |
| ChunkSync.WindowAfter | rtmp/netconnection.go:464-482 | only a message of type 5 on stream 0 changes the acknowledgement window, and it becomes what that message spells; an acknowledgement leaves it alone |
| ChunkSync.SyncKept | rtmp/netconnection.go:455-462 | after one message both caches and chunk sizes agree again if and only if the message does not change the receiver alone |
| ChunkSync.OpKeepsSync | rtmp/netconnection.go:688-703 | sends and chunk size changes keep both ends in step, also when the announcement is itself cut into chunks |
| ChunkSync.ChunkSizeKeepsSync | rtmp/netconnection.go:688-703 | of all int32 sizes exactly the positive ones keep both ends in step |
| ChunkSync.WindowConveyed | rtmp/netconnection.go:766-782 | an announced acknowledgement window is the one the receiver uses, and the ends stay in step |
| ChunkSync.AckConveyed | rtmp/netconnection.go:722-737 | an acknowledgement is delivered as type 3 on stream 0 and chunk stream 2, spells its count, and keeps window and step |
| ChunkSync.AbortDropsNothing | rtmp/netconnection.go:707-720 | what Abort sends is delivered as a command, and no cached header is dropped |
| ChunkSync.RunRoundTrip | rtmp/netconnection.go:966-1074 | every allowed run delivers, in order, one message for each send: with the id, timestamp, stream id, payload and length handed in, and its type, or under AMF3 the type AMF3 has for it; the window is then the last one announced, and the ends are in step |
| ChunkSync.ConnectionRoundTrip | rtmp/netconnection.go:212-445 | the same from a fresh connection with the octets cut into reads of any sizes, the window being 2500000 unless one was announced |
| ChunkSync.EmptyPayload | rtmp/netconnection.go:1002-1007 | an empty payload writes and delivers nothing, and the ends stay in step exactly if the cache already held that header |
| NetConnections.NetConnection.constructor | rtmp/netconnection.go:111-152 | a fresh connection is in the initial state of parser, sender and counters |
| NetConnections.NetConnection.BindStream | rtmp/netconnection.go:262-283 | inheriting the cached header and flag and entering the cache, with the aliasing of the message in progress |
| NetConnections.NetConnection.HeaderOctet | rtmp/netconnection.go:247-400 | the switch over the header states does one step of the parser |
| NetConnections.NetConnection.ProcessMessage | rtmp/netconnection.go:447-482 | control messages change chunk size, window or cache as the parser model says; errors come back, from handlers that may look at everything delivered before |
| NetConnections.NetConnection.DeliverMessage | rtmp/netconnection.go:421-437 | stream lookup, processing and the switch to a new message object, which freezes the cached one |
| NetConnections.NetConnection.DataOctets | rtmp/netconnection.go:402-437 | the payload case consumes what one-at-a-time feeding would; no progress only when it leaves the payload state |
| NetConnections.NetConnection.ParseMessage | rtmp/netconnection.go:212-445 | the whole loop terminates and equals feeding the octets one at a time, with the same error and state |
| NetConnections.NetConnection.WriteChunk | rtmp/netconnection.go:1007-1070 | one turn of the loop writes the first chunk of what is left |
| NetConnections.NetConnection.SendBytes | rtmp/netconnection.go:966-1074 | writes exactly the chunks of the message, caches a header with the type AMF3 asks for, and reports the size or the id out of range |
| NetConnections.NetConnection.SetChunkSize | rtmp/netconnection.go:688-703 | announces the size in chunks of the old size and then uses it |
| NetConnections.NetConnection.OnRead | rtmp/netconnection.go:184-209 | one round counts the octets, acknowledges exactly when due, then parses |
| NetConnections.AckSpells | rtmp/netconnection.go:191-202 | while the counters are exact an acknowledgement tells the peer the octets received modulo 2^32 |
| Acknowledgement.CountExact | rtmp/netconnection.go:191-200 | one read keeps the 32-bit difference equal to the true unacknowledged count, and an acknowledgement goes out exactly when that reaches the window |
| Acknowledgement.AlwaysExact | rtmp/netconnection.go:184-209 | over unbounded traffic with changing windows up to 2^32 - 4110, 0 included, the count stays exact, and below the current window if that is positive |
| Acknowledgement.WindowBound | rtmp/netconnection.go:156-193 | of all 32-bit windows, 0 included, those up to 2^32 - 4110 and no others keep the count exact on every traffic |
| AmfValue.ReportedLength | av/utils/amf/encode.go:106-141 | the returned count is short by exactly the nulls and undefineds written |
| AmfValue.EveryTypeWritten | av/utils/amf/encode.go:106-141 | which values of each type the encoder takes |
| AmfValue.OctetsLaid | av/utils/amf/encode.go:106-420 | the octets of every type of value by AMF0's own numbers: marker, counts of both kinds of arrays, end marker, lengths of texts, the halves of a number |
| AmfDecode.Decode | av/utils/amf/decode.go:11-56 | a successful call consumes at least one octet and no more than there are |
| AmfDecode.DecodeForms | av/utils/amf/decode.go:11-109 | only ten types and the end marker are decoded, and what numbers, booleans, nulls, end markers and dates decode to, from any octets |
| AmfDecode.EmptyText | av/utils/amf/decode.go:89-129 | an empty long string leaves the old value of the Value in place, an empty short one does not |
| AmfRoundTrip.DecodeOctets | av/utils/amf/decode.go:11-223 | for every well-formed nested value with any keys, masked ones excepted, and every following octets: decoded back with exactly its octets if safe there, otherwise never |
| AmfRoundTrip.RoundTrip | av/utils/amf/decode.go:131-223 | decoding gives the value back if and only if every property's key has 1 to 65535 octets, no array element has a key, and no strict array in it is followed by an end marker; no property in it may be masked |
| AmfKeys.EmptyKey | av/utils/amf/encode.go:300-331 | a property with an empty key comes back if and only if it is the number 0 and two zero octets follow, which it then takes as well |
| AmfKeys.NullKeepsKey | av/utils/amf/decode.go:142-165 | a null property comes out with its key as its value |
| AmfRoundTrip.PropertyExact | av/utils/amf/decode.go:144-165 | a property with any key comes back with exactly its octets if and only if its key has 1 to 65535 octets and its value is safe, and when it comes back as a value only |
| AmfMasked.ObjectReturns | av/utils/amf/decode.go:131-189 | when an object with any keys, the number 0 under an empty key included, comes back, as a value and with exactly its octets, before any octets |
| AmfRoundTrip.SequenceRoundTrip | rtmp/message/commandmessage.go:37-272 | values written one after another and decoded one after another into Values that are used again, stale contents included, all come back if and only if each is safe before the next |
| AmfRoundTrip.ReEncode | av/utils/amf/encode.go:106-397 | what decoding yields encodes to the same octets |
| AmfRoundTrip.EmptyKeyLost | av/utils/amf/encode.go:300-331 | an object with one boolean under an empty key never comes back, whatever follows it |
| AmfRoundTrip.Unclosed | av/utils/amf/decode.go:131-169 | an object or ECMA array cut off in front of its end marker at the end of the data comes back if and only if every property is usable and safe there |
| AmfRoundTrip.CountTooLarge | av/utils/amf/decode.go:191-223 | at the end of the data a strict array with a count that is too large comes back with the elements there are, if and only if they are safe |
| AmfRoundTrip.ArrayLast | av/utils/amf/decode.go:191-223 | an object whose last property is a strict array never comes back as it was, whatever follows it: the array takes the end marker, and its Ended flag with it |
| AmfRoundTrip.EmptyArrayLost | av/utils/amf/decode.go:215-220 | the twelve octets of the object {a: []} never give it back, whatever follows them |
| AmfCodec.EncodeString | av/utils/amf/encode.go:186-243 | appends the short or, from 65535 octets on, the long form |
| AmfCodec.EncodeProperties | av/utils/amf/encode.go:300-331 | the loop appends keys and values in list order |
| AmfCodec.EncodeObject | av/utils/amf/encode.go:270-298 | marker, properties and end marker |
| AmfCodec.EncodeECMAArray | av/utils/amf/encode.go:339-371 | marker, a count that spells the number of properties, properties and end marker |
| AmfCodec.EncodeStrictArray | av/utils/amf/encode.go:373-397 | marker, a count that spells the number of elements, and the elements, no end marker |
| AmfCodec.Encode | av/utils/amf/encode.go:106-141 | appends the octets of the value and nothing else, and returns the count that leaves out nulls |
| AmfCodec.DecodeObjectLoop | av/utils/amf/decode.go:131-169 | the loop yields the property list and the table of last values by key |
| AmfCodec.DecodeStrictArrayLoop | av/utils/amf/decode.go:191-223 | at most the announced number of elements, and the end marker that may be swallowed |
| AmfCodec.DecodeValue | av/utils/amf/decode.go:11-56 | the mutually recursive loops terminate, compute the decoding function and build the key table |
| AmfObject.LastByKeyIsLast | av/utils/amf/decode.go:164-165 | the table answers a key with its last list element |
| AmfObject.RemoveFirstTable | av/utils/amf/value.go:141-168 | list and table agree after a removal if and only if the key occurred at most once |
| AmfObject.ObjectValue.Add | av/utils/amf/value.go:114-138 | appends to the list, overrides in the table, keeps both in agreement |
| AmfObject.ObjectValue.SetList | av/utils/amf/value.go:49-62 | replaces the list but keeps old table entries, and when that leaves both in agreement |
| AmfObject.ObjectValue.Get | av/utils/amf/value.go:101-111 | while list and table agree, the last list element with the key, or nothing if there is none |
| AmfObject.ObjectValue.Del | av/utils/amf/value.go:141-168 | drops the table entry and the first list element with the key, which it returns, and when that leaves both in agreement |
| FlvTag.BackWalk | av/format/flv/flv.go:494-539 | following back pointers from the end of a file visits every tag start once, in reverse, and stops at offset 13 |
| FlvTag.FlvHeaderLayout | av/format/flv/flv.go:102-120 | signature, version 1, the two flags from the mode, header length 9 and a zero back pointer |
| FlvTag.TagLayout | av/format/flv/flv.go:494-539 | type 8, 9 or 18, length, timestamp relative to the time base with its high octet last, stream id 0, fitted payload, and a back pointer of length plus 11 |
| FlvDemuxer.Segmentation | av/format/flv/flv.go:168-328 | without an error, the cutting of the input into calls does not matter |
| FlvDemuxer.BulkCopy | av/format/flv/flv.go:292-297 | copying a run of payload octets equals feeding them one at a time |
| FlvDemuxer.SignatureExact | av/format/flv/flv.go:168-234 | of the first three octets exactly the signature is accepted |
| FlvDemuxer.PropsAreOctets | av/format/flv/flv.go:299-316 | the properties of a packet and the first two payload octets determine each other |
| FlvDemuxer.RunTag | av/format/flv/flv.go:235-321 | one whole tag dispatches one packet with the tag's fields |
| FlvDemuxer.RunStream | av/format/flv/flv.go:235-321 | a stream of readable tags dispatches exactly its packets and ends between tags |
| FlvDemuxer.FileRoundTrip | av/format/flv/flv.go:102-120 | header and muxed packets, cut anyhow, come out one for one: kind, length and payload as handed in, stream id 0, timestamp relative to the time base modulo 2^32, properties set, position 0 for scripts and 1 otherwise |
| FlvDemuxer.MuxedBackWalk | av/format/flv/flv.go:494-539 | the back pointers of a muxed file lead from its end through every packet to its header |
| FlvMuxer.Copy | av/format/flv/flv.go:294-294 | overwrites a stretch of the buffer and nothing else |
| FlvMuxer.Flv.TagOctet | av/format/flv/flv.go:235-290 | the tag states fill a new packet object and its payload buffer as one demuxer step |
| FlvMuxer.Flv.Dispatch | av/format/flv/flv.go:299-320 | dispatches one packet with exactly the fields and payload of the packet object, sets its properties and rewinds its position; audio or video below two octets fails |
| FlvMuxer.Flv.PayloadOctets | av/format/flv/flv.go:292-321 | consumes what one-at-a-time feeding would; no progress only for a packet of length 0 |
| FlvMuxer.Flv.Append | av/format/flv/flv.go:168-328 | the whole loop terminates and equals feeding the octets one at a time |
| FlvMuxer.Flv.Format | av/format/flv/flv.go:494-539 | fills a buffer with exactly the tag of the packet, cut or zero-padded to its declared length |
| Aggregate.MessageObject.Parse | rtmp/message/message.go:103-131 | the fields, index and error of the one-shot parser |
| Aggregate.Parse | rtmp/message/aggregatemessage.go:17-41 | the loop yields the messages and index of the parsing function |
| Aggregate.ParseTag | rtmp/message/message.go:103-131 | the tag written in front of any data is found with all its fields |
| Aggregate.TagAtOctets | rtmp/message/message.go:103-131 | writing what was parsed gives back the octets it was parsed from |
| Aggregate.ParseStream | rtmp/message/aggregatemessage.go:25-40 | every tag of a stream is found and the stream length is returned |
| Aggregate.ParsedIsStream | rtmp/message/aggregatemessage.go:25-40 | the data up to the index returned is a tag stream with the messages found, and the loop succeeds exactly when that is all of the data, else it stopped at what is too short for a message |
| FlvAgreement.AcceptedRuns | av/format/flv/flv.go:235-321 | what the one-shot parser accepts, the demuxer reads with the same packets |
| FlvAgreement.RunsAccepted | rtmp/message/aggregatemessage.go:17-41 | what the demuxer reads to the end, the one-shot parser accepts |
| FlvAgreement.Agreement | rtmp/message/aggregatemessage.go:17-41 | on every input both accept or neither does, and then one packet is dispatched for each message found, with its kind, length, timestamp, stream id and payload |
| BitStreams.WordBits | av/utils/bitstream.go:40-57 | the four guarded octets are the 32 bits from the octet of the position in the zero-padded buffer |
| BitStreams.ShownBits | av/utils/bitstream.go:39-62 | up to 25 bits the shifts give exactly the bits at every position |
| BitStreams.ShownLongExact | av/utils/bitstream.go:65-71 | from 26 to 32 bits the result is right if and only if the n-16 bits here repeat 16 positions further |
| BitStreams.BitStream.Init | av/utils/bitstream.go:20-36 | accepts exactly the buffers whose bit count stays clear of the int32 range |
| BitStreams.LongWrong | av/utils/bitstream.go:65-71 | the octets 00 01 00 00 come out of a 32-bit read as 00 01 00 01 |
| BitStreams.BitStream.ShowBits | av/utils/bitstream.go:39-62 | every octet read is inside the buffer by the guard in front of it, and up to n = 25 the result is the bits at the position |
| BitStreams.BitStream.ShowBitsLong | av/utils/bitstream.go:65-71 | the bits up to n = 25, and from 26 to 32 exactly where they repeat |
| BitStreams.BitStream.ReadBits | av/utils/bitstream.go:74-78 | the bits at the position, which then moves by n |
| BitStreams.BitStream.ReadBitsLong | av/utils/bitstream.go:81-85 | the bits at the position up to n = 25, and from 26 to 32 exactly where they repeat; the position then moves by n |
| Golombs.UeInverse | av/utils/golomb.go:18-26 | inverts the code of every number up to 2^26-2 at every bit offset and moves by the code's length |
| Golombs.UeExact | av/utils/golomb.go:18-26 | above that, right if and only if the low bits repeat 16 positions further |
| Golombs.UeWrong | av/utils/golomb.go:18-26 | the code of 2^26 is read as 2^26 - 1 at every bit offset |
| Golombs.PastEnd | av/utils/golomb.go:18-36 | at the end of the buffer ReadUE answers 2^32 - 1, ReadSE 0, and the position moves back by one |
| Golombs.ZerosLeft | av/utils/golomb.go:18-26 | where only zero bits are left, the position moves past the end by one less than their number |
| Golombs.SeExact | av/utils/golomb.go:29-36 | the signed mapping is inverted exactly below 2^30 |
| Golombs.SeInverse | av/utils/golomb.go:29-36 | inverts the signed code on the range of ReadUE |
| Golombs.SeRight | av/utils/golomb.go:29-36 | above that range, right if and only if the value is below 2^30 and the low bits repeat, or it is -2^30 |
| Golombs.Golomb.ReadUE | av/utils/golomb.go:18-26 | the loop counts the zeros, stops at the end of the buffer, and yields the value and position of the model |
| Golombs.Golomb.ReadSE | av/utils/golomb.go:29-36 | the signed mapping on int32 of what ReadUE yields |
| Emulation.Ebsp2Rbsp | av/codec/avc/avc.go:263-281 | the two-index loop drops exactly the 03 octets after two zeros; fewer than two octets make it panic |
| Emulation.StripProtect | av/codec/avc/avc.go:263-281 | decoding an encoded RBSP gives it back, plus a 03 if it ends in an odd number of zeros |
| Emulation.RoundTrip | av/codec/avc/avc.go:263-281 | what the decoder returns for an encoded RBSP is that RBSP if and only if it has at least two octets and ends in an even number of zeros |
| Emulation.OddZeros | av/codec/avc/avc.go:263-281 | an RBSP of one octet and one zero comes back with a 03 at its end |
| Emulation.ProtectLegal | av/codec/avc/avc.go:263-281 | the encoder the decoder is compared with produces no start code and no final zero |
| Emulation.ProtectStrip | av/codec/avc/avc.go:263-281 | encoding what was decoded gives back every legal NAL unit |
| SpsGeometry.ReadsElements | av/codec/avc/sps.go:229-263 | syntax elements coded one after another at any bit offset are read back |
| SpsGeometry.Sps.ApplyCrop | av/codec/avc/sps.go:265-281 | the checks accept exactly crops that leave something, and nothing wraps on uint32 |
| SpsGeometry.Sps.ReadSize | av/codec/avc/sps.go:229-234 | accepts exactly the sizes the size check describes |
| SpsGeometry.Sps.ParseGeometry | av/codec/avc/sps.go:229-305 | which error, and on success a positive size equal to the unbounded cropping formula of the elements in the bit stream |
| SpsGeometry.WrittenGeometry | av/codec/avc/sps.go:229-305 | for coded elements the formula is the standard's and the size is positive and no larger than the full one |
| SpsGeometry.FullHD | av/codec/avc/sps.go:229-305 | the elements of 1920 by 1080 pictures, as frames and as fields, give that size |
| SpsGeometry.SizeExact | av/codec/avc/sps.go:229-234 | while the padded area fits 32 bits, a size is accepted if and only if the area is below 2^28 - 1 |
| SpsGeometry.CropExact | av/codec/avc/sps.go:265-281 | up to 2^29 - 1 samples the crop check only asks that something is left |
| SpsGeometry.NoAreaBound | av/codec/avc/sps.go:316-318 | an accepted picture exceeds the area limit if and only if its padded area does not fit 32 bits |
| SpsGeometry.HugeAccepted | av/codec/avc/sps.go:229-234 | a sequence parameter set for 65408 by 65408 samples is accepted |
| Muxes.LookupIsLongest | utils/mux.go:104-119 | the lookup yields the unique longest registered tree pattern that is a prefix |
| Muxes.ScanIsLongest | utils/mux.go:111-116 | the first match in a length-ordered list is the longest prefix in the table |
| Muxes.Mux.AppendOnSort | utils/mux.go:121-138 | the binary search finds the one place that keeps the length order |
| Muxes.Mux.Handle | utils/mux.go:36-56 | registers or panics with everything unchanged; the array holds exactly the tree patterns of the table, sorted, each once |
| Muxes.Mux.Match | utils/mux.go:104-119 | the exact entry if there is one, else the tree pattern of the table that is a prefix and longer than all others, else nothing |
| Muxes.OrderIndependent | utils/mux.go:36-56 | no lookup depends on the order of registration |
| Dispatcher.StepKeepsInv | events/eventdispatcher.go:40-173 | every atomic step of every goroutine keeps the lock, recursion and snapshot invariant |
| Dispatcher.RunKeepsInv | events/eventdispatcher.go:40-173 | the invariant holds after every interleaving |
| DispatcherSafety.LockSafety | events/eventdispatcher.go:46-54 | at most one goroutine is inside, a non-zero owner id names the mutex holder, and a free mutex means owner 0 and recursion 0, after panics too |
| DispatcherSafety.DepthBound | events/eventdispatcher.go:145-151 | at most 8 nested levels run handlers and the counter never exceeds 9 |
| DispatcherSafety.TooDeepExactly | events/eventdispatcher.go:145-151 | a dispatch ends at the depth check if and only if it is nested more than 8 deep in its goroutine |
| DispatcherSafety.HolderMoves | events/eventdispatcher.go:130-138 | the mutex holder never waits for itself |
| DispatcherSafety.SomeoneMoves | events/eventdispatcher.go:40-173 | no deadlock: while a call is under way some call can move |
| DispatcherSafety.StepPersists | events/eventdispatcher.go:153-158 | whatever a step adds, removes or dispatches, every dispatch under way keeps its snapshot of the listeners registered when it was taken |
| DispatcherSafety.SnapshotDispatch | events/eventdispatcher.go:153-172 | a dispatch that returns called only listeners of its snapshot, none twice, all of them if it completed, which it does unless a handler panics, stops the propagation or the nesting is too deep |
| DispatcherCalls.StoppedForGood | events/eventdispatcher.go:160-172 | once a handler panics or stops the propagation, its dispatch calls no listener any more, whatever else happens |
| DispatcherCalls.UnlimitedStays | events/eventdispatcher.go:163-167 | a listener without a positive count stays registered until it is removed, and every dispatch in between finds it |
| DispatcherHistory.HolderActs | events/eventdispatcher.go:46-56 | listeners, counts, recursion level and history change only by the goroutine that holds the mutex and is the owner |
| DispatcherCalls.BodyEffect | events/eventdispatcher.go:59-113 | an addition registers its listener for its event type and no other, a removal takes it out, a query is answered by what is registered, and each leaves its note |
| DispatcherCalls.OneNoteEach | events/eventdispatcher.go:40-113 | in every interleaving the history has exactly one note for each addition and each query that returned or is past its body |
| DispatcherHistory.OneOrder | events/eventdispatcher.go:59-113 | additions, removals, answers of HasEventListener and snapshots all behave as if one goroutine made them in one order, in every interleaving |
| DispatcherCounts.CountedInvocations | events/eventdispatcher.go:160-171 | after d dispatches, however handlers nest, a listener with count k has been invoked at least min(k, d) times, at most once a dispatch and at most k + 7 times; exactly min(k, d) times if and only if no dispatch found it with its count already used up by those around it; it is still registered exactly while it was invoked less than k times |
| DispatcherCounts.UnnestedInvocations | events/eventdispatcher.go:160-171 | when its type's handlers do not dispatch that type again, exactly min(k, d) invocations |
| DispatcherNesting.InvokedAgain | events/eventdispatcher.go:145-171 | a listener with count 1 whose handler dispatches its own type runs n times, for each n up to 8 |

## Left out

- Sockets, handshake, HTTP notifications, logging, configuration and files: writes are appends to a sequence,
  deliveries appends to a list, and write errors do not occur.
- NetConnections.NetConnection.ProcessMessage: which message streams exist and what handlers say of a message
  are parameters that depend on the messages delivered before; the handlers' replies and their use of the
  sender are not modelled.
- NetConnections.NetConnection.DeliverMessage: streams that are registered by anything but the receipt of
  messages, such as a local call, are not modelled.
- NetConnections.NetConnection.SendBytes: needs a positive chunk size; with 0 the original loops for ever and
  with a negative one it panics.
- ChunkSync.ConnectionRoundTrip: one message at a time, as the parser supports; interleaved chunk streams are
  not part of this model. Timestamps are the raw field, not accumulated deltas.
- ChunkSync.RunRoundTrip: the timestamp flag of a delivered message (absolute or delta) is stated for one message,
  by `ChunkSync.Delivers`, and not over runs.
- Concurrent calls of sendBytes on one connection: the original has no lock there.
- Slices past the length of a slice but within its capacity: where the AMF decoder would read on or panic on
  a length field that is too large, the model fails.
- AmfCodec.DecodeValue: works on values that are returned, not on a `*Value` that is filled; a failed decode
  has no partial result, and aliasing of values is not captured. Tables of nested objects are not stored with
  them, they are what `LastByKey` makes of their lists. Doubles and dates are 64-bit patterns.
- AmfRoundTrip.DecodeOctets: no property in the value is masked, the number 0 under an empty key; objects that
  have such a property themselves are covered by `AmfMasked.ObjectReturns`, values that have one deeper inside
  are not.
- AmfRoundTrip.RoundTrip: the same exclusion as for `AmfRoundTrip.DecodeOctets`.
- AmfRoundTrip.SequenceRoundTrip: which Value each command decodes into is a parameter; the fields a command
  message takes from the results are not modelled.
- Aggregate.Parse: the constant chunk fields set on each part (format, chunk stream id, flag) are not modelled.
- FlvMuxer.Flv.Format: lengths whose sum with 15 wraps 32 bits panic in the original and are excluded; the
  codec name and the other tag fields that are copied along are not modelled. Choosing which packets to mux
  (tracks, keyframes, ready state) is not part of this model.
- FlvDemuxer.Segmentation: after an error event the rest of that call's input is dropped, so the cutting
  matters there.
- BitStreams.BitStream.Init: a nil buffer, which is refused, is not distinguished from an empty one.
- BitStreams.BitStream.ShowBits: a negative position, which panics, is excluded; only reading from an empty
  buffer can lead to one.
- SpsGeometry.Sps.ParseGeometry: starts at pic_width_in_mbs_minus1; the fields before it, VUI and HRD, the
  pixel aspect ratio and the chroma format's own range check are not modelled.
- Golombs.Golomb: holds its bit stream instead of embedding it.
- Muxes.Mux: path cleaning, host stripping and redirects are library behaviour; the read-write lock is not
  modelled.
- Dispatcher: the dispatcher is a state machine on values, since its subject is interleaving; calls with an
  empty event type or no listener return at once and are no steps; reflection, goroutine ids and listener
  identity are taken as given. One dispatcher at a time: a listener shared between dispatchers would share its
  count.
- DispatcherCounts.CountedInvocations: runs in which handlers of the type neither panic nor stop the propagation,
  nobody adds or removes that listener meanwhile, and it is registered for no other type.
- Box writers, playlists, RTP and RTCP packets, PPS fields and event subclasses are outside the stateful codecs,
  the lock and the router this project is about.
