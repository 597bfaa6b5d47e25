# Protocol code under MeMe/Pods: a Dafny model

The app ships two C and C++ libraries whose correctness can be stated precisely: nanopb, a descriptor-driven Protocol
Buffers codec, and the TLS and DTLS code of BoringSSL. This project models their hardest parts and proves what they
are for. Arithmetic is on unbounded naturals with every width, shift and wrap-around written out (`Bits.dfy`); code
that changes state in place is modelled by classes and loops, proved against functions on values about which the
main results are then proved.

## The four parts

**The nanopb codec.** `Fields` has descriptors and structures, `FieldIter` the cyclic field iterator. `Encoding` and
`Decoding` say as functions what is written for a structure and what is made of any byte sequence. `OutStream`,
`Encoder`, `InStream`, `FieldsSeen` and `Decoder` are the streams, the two-pass submessage writer, the bounded
substreams, the bitset of required fields and the decoding loop, each proved to compute those functions exactly:
success if and only if, the bytes, and what is not touched. `WireFormat` and `Landing` say in the standard's own
numbers, apart from both, what the bytes are, which of them are skipped, what a record does to a structure and when a
required field is missing. `Folding`, `Leaves`, `Chunks` and `RoundTrip` prove the
laws: decoding is a fold over records, packed and unpacked arrays are interchangeable, and what was encoded with one
field list decodes with any part of it, at any depth, to the same values (of which the round trip is the case of the
whole list), with the exact condition under which it does. `Bounds` proves that whatever is accepted fits its
structure. `Codec` runs encoder and decoder one after the other.

**The DTLS handshake transport.** `DtlsWire` has the bytes of records and fragments (sections 4.1 and 4.2.2 of
RFC 6347), `Replay` the sliding window (section 4.1.2.6), `DtlsRecord` the record layer and its numbering,
`Reassembly` the bit mask of a message, `Ring` and `Receiver` the ring of incoming messages, `Cutting`, `Flight` and
`Sender` the cutting of a flight into packets and its retransmission (sections 4.2.3 and 4.2.4): the records are tied
to the bytes they carry. `Transport` puts a sender and a receiver at the ends of a network that loses, repeats and
reorders packets, and proves that they implement a FIFO. `Relay` proves the other half: over a network that loses
nothing, every message of every flight is handed out, across the change of keys. `Recovery` proves what retransmission
is for: whatever the network did to a flight, and with application data among its packets, sending it again delivers
it.

**The TLS 1.0 to 1.2 handshake.** `HandshakeScript` has the message flow of section 7.3 of RFC 5246 as a function of
what both sides bring, and the same flow point by point. `HandshakeClient` and `HandshakeServer` are the two state
machines, one method per state function; a step is given what its checks and callbacks come to. `Handshake` composes
them over a FIFO in each direction, where a flight may arrive in parts. `CipherChoice` is the choice of a cipher suite
with equal-preference groups.

**Resumable writes.** `AppWrite` is the writing of application data over a transport that takes some bytes at a time.

## Reading the model

- A structure is a value: a slot per field with its has flag and contents, and the selector of every oneof. The
  iterator's pointers are numbers, proved to be the member addresses.
- An encoding is `None` where the encoder fails. A value of the wrong shape for its field, which C's types exclude, is
  such a failure, and so is a size that does not fit a `size_t`.
- `Protection` stands for the keys of one direction: sealing and opening per epoch, with the one assumption that what
  was sealed opens again and grows by no more than the announced overhead.
- A `Verdict` stands for everything a handshake step checks or calls: it passes, fails, or asks to be called again
  where the source allows it.
- Where the code and its comments differ the code is followed. A fragment exactly FLIGHT ahead of the next message is
  an error although the comment there speaks of ignoring it (`Ring.GenuineRejected`). A proto3 field is left out
  where it is zero, and read as its default, which the descriptor may have as something else
  (`RoundTrip.MessageRoundTrip`). A list of cipher suites whose last group has no end loses that group
  (`CipherChoice.Choose`). A write that is retried with less data than was finished loses its position
  (`AppWrite.Connection.WriteAppData`). An empty field list takes the terminator for a field with tag 0, so that a
  record with tag 0 and a non-zero wire type is an error there and is skipped elsewhere (`Decoding.DecTurn`).

## Model

| member | source | states |
|---|---|---|
| `Varints.VarintRoundTrip` | MeMe/Pods/nanopb/pb_encode.c:574-594 | every uint64 is written in one to ten bytes and read back, consuming exactly those bytes, whatever follows |
| `Varints.Varint32IsLowWord` | MeMe/Pods/nanopb/pb_decode.c:182-242 | any varint of at most ten bytes that the 32-bit reader accepts is read as its low 32 bits |
| `Varints.Varint32RoundTrip` | MeMe/Pods/nanopb/pb_decode.c:182-247 | on the encoding of any u < 2^32 or u >= 2^64 - 2^31 the 32-bit reader succeeds, returns u mod 2^32 and leaves what follows |
| `Varints.ZigZagInverse` | MeMe/Pods/nanopb/pb_decode.c:1240-1252 | zigzag decoding inverts zigzag encoding on every int64; small magnitudes give one-byte varints |
| `OutStream.OStream.Write` | MeMe/Pods/nanopb/pb_encode.c:101-119 | the bytes are appended, and nothing else changes, if and only if the count stays within max_size; a sizing stream only counts |
| `OutStream.OStream.EncodeVarint` | MeMe/Pods/nanopb/pb_encode.c:574-594 | the loop over the ten-byte buffer stays inside it for every 64-bit value and writes the varint of the value |
| `OutStream.OStream.EncodeSvarint` | MeMe/Pods/nanopb/pb_encode.c:596-605 | the shift and complement of the source write the zigzag varint |
| `OutStream.OStream.EncodeFixed32` | MeMe/Pods/nanopb/pb_encode.c:607-616 | four bytes, least significant first |
| `OutStream.OStream.EncodeFixed64` | MeMe/Pods/nanopb/pb_encode.c:618-632 | eight bytes, least significant first |
| `OutStream.OStream.EncodeTag` | MeMe/Pods/nanopb/pb_encode.c:635-639 | field number and wire type as one varint |
| `OutStream.OStream.EncodeString` | MeMe/Pods/nanopb/pb_encode.c:674-680 | the length and then the bytes, all or an error within the stream's room |
| `Encoder.EncodeItem` | MeMe/Pods/nanopb/pb_encode.c:734-868 | each field encoder writes exactly the item's specified bytes, or fails exactly when the item is not encodable or the stream too small |
| `Encoder.StringLength` | MeMe/Pods/nanopb/pb_encode.c:831-855 | the loop stops at the first NUL or at the end of the array |
| `Encoder.EncodeSubmessage` | MeMe/Pods/nanopb/pb_encode.c:682-730 | sizing pass and writing pass agree at every depth: the result is exactly length prefix and content, and the substream never ends with another size than was announced |
| `Encoder.EncodeArray` | MeMe/Pods/nanopb/pb_encode.c:126-211 | packed arrays as one record with the right size, others as a record per item; too many items are an error |
| `Encoder.PackedSize` | MeMe/Pods/nanopb/pb_encode.c:142-168 | the shortcut 4*count and 8*count and the sizing stream both give the length of the packed payload |
| `Encoder.EncodeField` | MeMe/Pods/nanopb/pb_encode.c:305-392 | a field is written exactly when its repetition rule says that it is present |
| `Encoder.EncodeMessage` | MeMe/Pods/nanopb/pb_encode.c:494-516 | the loop over the field iterator appends the encoding of the whole structure, or fails exactly when it has none or it does not fit; a failed call stays within the stream's room |
| `Encoder.GetEncodedSize` | MeMe/Pods/nanopb/pb_encode.c:533-542 | succeeds exactly when the structure can be encoded below 2^64 bytes, with the number of bytes |
| `Encoder.EncodeToBuffer` | MeMe/Pods/nanopb/pb_encode.c:84-99 | encoding to a buffer succeeds exactly when the encoding fits, fills the front of the buffer with it and leaves the rest as it was |
| `Encoder.SizeThenEncode` | MeMe/Pods/nanopb/pb_encode.c:494-542 | sizing equals writing: encoding succeeds if and only if sizing does with a size no larger than the buffer, and writes that many bytes |
| `WireFormat.MessageWritten` | MeMe/Pods/nanopb/pb_encode.c:494-516 | what is written, by the standard's own numbers and apart from encoder and decoder: any structure that is encoded gives records of keys 8 * number + 0, 1, 2 or 5, which list exactly the fields that are there, in order, each with its value; a numeric array is one run, and a submessage lists its own fields |
| `WireFormat.ItemWritten` | MeMe/Pods/nanopb/pb_encode.c:642-668 | a varint for integers, with two's complement in 64 bits or zigzag for signed ones, eight or four bytes for fixed ones, lowest first, and a length and that many bytes for all others |
| `WireFormat.EncodesExactly` | MeMe/Pods/nanopb/pb_encode.c:494-516 | a structure can be encoded if and only if every field that is there can be written: numbers within the range of their size, bytes and strings within their arrays, no more items than there is room for, at every depth |
| `WireFormat.StandsIsPresent` | MeMe/Pods/nanopb/pb_encode.c:215-301 | an optional field is there by its flag, a member of a oneof by the selector, and a proto3 field if it is not zero, a submessage by its fields |
| `WireFormat.DocumentedExamples` | MeMe/Pods/nanopb/pb_encode.c:574-668 | the bytes of the examples in the documentation of the format: 08 96 01 for field 1 with 150, and 22 06 03 8E 02 9E A7 05 for a packed run |
| `FieldIter.Iter.Begin` | MeMe/Pods/nanopb/pb_common.c:8-18 | the iterator is on the first field with the pointers of that field |
| `FieldIter.Iter.Next` | MeMe/Pods/nanopb/pb_common.c:20-76 | after any moves the data pointer is the start plus the prefix sum of offsets and sizes (unions not advanced), and the required-field index counts the required fields before the position; the end wraps to the first field |
| `FieldIter.Iter.Find` | MeMe/Pods/nanopb/pb_common.c:78-95 | the search terminates from any position and lands on the first match in cyclic order, or fails with the position unchanged |
| `FieldIter.FindFromComplete` | MeMe/Pods/nanopb/pb_common.c:78-95 | a search once around misses no matching field, wherever it starts |
| `FieldIter.FindFromAnywhere` | MeMe/Pods/nanopb/pb_common.c:78-95 | with distinct tags the field with the tag is found from every position |
| `FieldIter.OffsetIsLayout` | MeMe/Pods/nanopb/pb_common.c:33-72 | the stored increments add up to the real member offsets of any layout that the offset macros describe |
| `FieldIter.AnchorIrrelevant` | MeMe/Pods/nanopb/pb_common.c:42-49 | inside a union the walk keeps the pointers of its first member: that is each member's own selector wherever all have the same offset to it |
| `InStream.IStream.Read` | MeMe/Pods/nanopb/pb_decode.c:100-132 | reads exactly count bytes or fails; never moves past the end of the stream |
| `InStream.IStream.DecodeVarint32` | MeMe/Pods/nanopb/pb_decode.c:182-247 | the loop computes the specified 32-bit varint reading, with the eight-bit bit position that wraps around |
| `InStream.IStream.DecodeVarint` | MeMe/Pods/nanopb/pb_decode.c:250-270 | the loop of shifts computes the low 64 bits of the number its bytes denote, and fails exactly on more than ten bytes or a missing end |
| `Decoder.MakeSubstream` | MeMe/Pods/nanopb/pb_decode.c:367-380 | the substream is exactly the prefixed bytes, and the parent keeps what is behind them |
| `Decoder.CloseSubstream` | MeMe/Pods/nanopb/pb_decode.c:382-395 | the parent continues behind the substream, however much of it was used |
| `Decoder.SkipField` | MeMe/Pods/nanopb/pb_decode.c:273-326 | a field is skipped by its wire type alone, exactly as specified |
| `Decoder.DecodeNumber` | MeMe/Pods/nanopb/pb_decode.c:1254-1384 | numbers are read, narrowed and range-checked for their field; a number that does not survive the cast is an error |
| `Decoder.DecodeBlob` | MeMe/Pods/nanopb/pb_decode.c:1391-1508 | bytes, strings and fixed-length bytes with their size limits |
| `Decoder.DecodeSubmessage` | MeMe/Pods/nanopb/pb_decode.c:1463-1485 | a submessage is decoded from its substream, from defaults if it is an array element |
| `Decoder.DecodePacked` | MeMe/Pods/nanopb/pb_decode.c:419-449 | a packed run is appended to the array as a whole, or is an error |
| `Decoder.DecodeField` | MeMe/Pods/nanopb/pb_decode.c:401-475 | each repetition rule updates the has flag, count, selector and contents as specified |
| `Decoder.SetToDefaults` | MeMe/Pods/nanopb/pb_decode.c:812-897 | the structure is reset to its defaults, recursively |
| `FieldsSeen.Seen.Mark` | MeMe/Pods/nanopb/pb_decode.c:988-993 | one bit of the two-word set is added, the index being in range |
| `FieldsSeen.Seen.AllSet` | MeMe/Pods/nanopb/pb_decode.c:1026-1046 | the test of whole words and remaining bits passes exactly when each of the first count required fields was seen, and looks at no word beyond the set |
| `Decoder.CheckRequired` | MeMe/Pods/nanopb/pb_decode.c:1006-1046 | from wherever the iterator stands, the check passes exactly when each of the first min(n, 64) required fields was seen |
| `Decoder.DecodeNoinit` | MeMe/Pods/nanopb/pb_decode.c:901-1049 | the decoding loop terminates on every input, computes the specified result, and stays within its stream |
| `Decoder.Decode` | MeMe/Pods/nanopb/pb_decode.c:1051-1063 | defaults, then the loop |
| `Landing.RequiredTaken` | MeMe/Pods/nanopb/pb_decode.c:1006-1046 | by the records of the input: bytes are accepted if and only if the loop meets no error and, for each required field with fewer than 64 before it, some record that was taken has its number |
| `Landing.RecordLands` | MeMe/Pods/nanopb/pb_decode.c:923-997 | a record is appended to an array with room, becomes the only contents of any other field whatever was there, sets its flag or selects it; it is an error exactly if it cannot be read or the array is full |
| `Landing.RunLands` | MeMe/Pods/nanopb/pb_decode.c:419-449 | a packed run is appended whole, and is an error exactly if some number of it cannot be read or there is no room for all |
| `Landing.MessageLands` | MeMe/Pods/nanopb/pb_decode.c:1463-1485 | a submessage is merged into the one that is there, but in an array and in a oneof begins with the defaults; it is an error exactly if its bytes are or the array is full |
| `Landing.NumberRead` | MeMe/Pods/nanopb/pb_decode.c:1254-1343 | what every 64-bit number comes to in a field of any kind and size: signed fields of up to 32 bits take the low 32 bits, and what does not fit the size is an error |
| `Landing.BlobRead` | MeMe/Pods/nanopb/pb_decode.c:1391-1508 | bytes fit with their length, a string with its terminator, and bytes of fixed length exactly, or none for zeros; all others are errors |
| `WireFormat.Unlisted` | MeMe/Pods/nanopb/pb_decode.c:316-326 | behind the key of an unlisted field any bytes at all are skipped by the low three bits: one varint for 0, eight bytes for 1, a length and that many for 2, four for 5; else it is an error |
| `WireFormat.RecordSkipped` | MeMe/Pods/nanopb/pb_decode.c:945-962 | an unlisted record of the standard leaves the structure alone, and what is behind it is next |
| `Fields.DefaultOf` | MeMe/Pods/nanopb/pb_decode.c:812-866 | no flag set, arrays empty, no oneof selected, submessages with their own defaults, and else the default of the descriptor, or zero or empty without one |
| `Folding.SubmessageExtent` | MeMe/Pods/nanopb/pb_decode.c:1463-1485 | a submessage that decodes consumes exactly its length prefix plus the stated length, and does not depend on what follows |
| `Folding.DecTurnExtend` | MeMe/Pods/nanopb/pb_decode.c:923-997 | a turn of the loop that succeeds does not look at the bytes behind its record |
| `Folding.LoopForgets` | MeMe/Pods/nanopb/pb_decode.c:923-997 | with distinct tags the position of the iterator and the fields seen before have no influence on what a run does to the structure |
| `Folding.DecodeConcat` | MeMe/Pods/nanopb/pb_decode.c:901-1049 | if decoding all of a takes m to m1 and decoding b takes m1 to m2, decoding a ++ b takes m to m2, though the iterator is mid-list where b starts |
| `Folding.LoopConcat` | MeMe/Pods/nanopb/pb_decode.c:901-1049 | the loop over a ++ b is the loop over b after the loop over a if a does not end in a zero tag, and otherwise stops before b |
| `Folding.ZeroTagHidesRest` | MeMe/Pods/nanopb/pb_decode.c:305-309 | a zero tag ends a message: it is consumed, and whatever is appended is left unread |
| `Chunks.SplitIrrelevant` | MeMe/Pods/nanopb/pb_decode.c:419-459 | any split of a repeated number field into packed runs and single elements decodes to the same array, and one element too many is an error wherever the splits are |
| `RoundTrip.Project` | MeMe/Pods/nanopb/pb_decode.c:933-962 | bytes written with a full field list and decoded with any part of it, at any depth, succeed and are consumed to the last byte: unknown fields are skipped exactly; the listed fields show the same values if and only if none of them is a proto3 zero with another default |
| `RoundTrip.MessageRoundTrip` | MeMe/Pods/nanopb/pb_encode.c:494-516 | every structure that fits a well-formed descriptor is encodable, and its encoding below 2^32 bytes decodes, consuming every byte; the values are the same if and only if no proto3 field that is there, at any depth, is a zero with another default |
| `RoundTrip.ZeroDefaultsKeep` | MeMe/Pods/nanopb/pb_decode.c:812-866 | with descriptors whose proto3 numbers, bytes and strings have no default but zero or empty, every structure is one that comes back |
| `RoundTrip.SingularDefault` | MeMe/Pods/nanopb/pb_encode.c:215-301 | and with no others: any field of the list with another default has a structure that fits and does not come back |
| `Leaves.SkipItem` | MeMe/Pods/nanopb/pb_decode.c:316-326 | every item that was written is skipped as a whole by the wire type in its tag |
| `Bounds.MsgWithin` | MeMe/Pods/nanopb/pb_decode.c:901-1049 | decoding into a structure whose members hold no more than they can leaves it so, whatever the bytes: counts within their arrays, bytes and strings within their storage, numbers in range, at every depth |
| `Bounds.DecodedFits` | MeMe/Pods/nanopb/pb_decode.c:1051-1063 | if the defaults in the descriptor fit, whatever is accepted fits, for every byte sequence: no array, bytes or string member is overrun, and the structure can be encoded again |
| `Bounds.DefaultsMatter` | MeMe/Pods/nanopb/pb_decode.c:812-866 | without that condition it need not: no bytes at all leave the defaults as they are, where no field is required |
| `Codec.EncodeDecode` | MeMe/Pods/nanopb/pb_decode.c:1051-1063 | sizing, encoding into a buffer of that size and decoding the buffer with any part of the field list, by the imperative code, succeed and give back the same values under the same condition |
| `DtlsWire.FragmentRoundTrip` | MeMe/Pods/BoringSSL-GRPC/ssl/d1_both.cc:459-473 | a fragment header and body that were written are parsed back, leaving what follows |
| `DtlsWire.RecordRoundTrip` | MeMe/Pods/BoringSSL-GRPC/ssl/dtls_record.cc:192-205 | a record header and body that were written are parsed back, leaving what follows |
| `DtlsWire.RecordLayout` | MeMe/Pods/BoringSSL-GRPC/ssl/dtls_record.cc:192-205 | the header by its 13 bytes: type, version, epoch, sequence number and length, and when a record is whole |
| `DtlsWire.FragmentLayout` | MeMe/Pods/BoringSSL-GRPC/ssl/d1_both.cc:459-473 | the header by its 12 bytes: type, length of the message, its number, offset and length of the fragment, and when it is whole |
| `Replay.ToU64` | MeMe/Pods/BoringSSL-GRPC/ssl/dtls_record.cc:128-136 | the loop gives the big-endian value |
| `Replay.Bitmap.ShouldDiscard` | MeMe/Pods/BoringSSL-GRPC/ssl/dtls_record.cc:140-150 | true exactly for numbers already recorded or 64 or more below the highest recorded |
| `Replay.Bitmap.Record` | MeMe/Pods/BoringSSL-GRPC/ssl/dtls_record.cc:155-175 | in every run the window and its highest number stand for exactly the set of recorded numbers plus this one |
| `DtlsRecord.Reader.OpenRecord` | MeMe/Pods/BoringSSL-GRPC/ssl/dtls_record.cc:177-272 | what is made of a packet, exactly; a number is never accepted twice across changes of the read state; a record that does not open leaves the window as it was |
| `DtlsRecord.OpenedBytes` | MeMe/Pods/BoringSSL-GRPC/ssl/dtls_record.cc:186-260 | by the bytes of the packet: dropped whole if no record is whole, its length is too large or its version wrong; the record dropped if of another epoch, repeated, 64 or more behind, or if it does not open; an error exactly for more than 16384 bytes of plaintext |
| `DtlsRecord.Reader.NextEpoch` | MeMe/Pods/BoringSSL-GRPC/ssl/dtls_method.cc:89-94 | the epoch advances and the window is cleared |
| `DtlsRecord.ReadRun` | MeMe/Pods/BoringSSL-GRPC/ssl/dtls_record.cc:225-259 | for every sequence of packets and read-state changes (epoch not wrapping) all accepted epoch and sequence numbers are distinct |
| `DtlsRecord.SequenceUpdate` | MeMe/Pods/BoringSSL-GRPC/ssl/tls_record.cc:154-164 | the byte-wise increment adds one to the big-endian counter and reports failure exactly on overflow, leaving zero |
| `DtlsRecord.Writer.SealRecord` | MeMe/Pods/BoringSSL-GRPC/ssl/dtls_record.cc:294-351 | succeeds exactly when the sealed record fits, is below 2^16 and the counter does not overflow; it then has the next number of its epoch, which is new, in the current and in the previous epoch |
| `DtlsRecord.Writer.NextEpoch` | MeMe/Pods/BoringSSL-GRPC/ssl/dtls_method.cc:97-107 | the counter of the epoch that ends is kept for retransmissions and the new one starts at zero |
| `DtlsRecord.WriteRun` | MeMe/Pods/BoringSSL-GRPC/ssl/dtls_record.cc:294-351 | for every run of seals in the current or previous epoch, with room or without, and of write-state changes: unless a counter overflows, which takes 2^48 records, all emitted numbers are distinct |
| `Reassembly.BitRangeBits` | MeMe/Pods/BoringSSL-GRPC/ssl/d1_both.cc:203-205 | bit_range sets exactly the bits from start up to end |
| `Reassembly.HmFragment.constructor` | MeMe/Pods/BoringSSL-GRPC/ssl/d1_both.cc:152-199 | an empty message of the announced length with its header; the mask is absent exactly when the length is zero |
| `Reassembly.HmFragment.Mark` | MeMe/Pods/BoringSSL-GRPC/ssl/d1_both.cc:211-251 | exactly the given bits are added, none at or past the message length is ever set, and the mask is freed exactly when every byte is covered |
| `Reassembly.HmFragment.Add` | MeMe/Pods/BoringSSL-GRPC/ssl/d1_both.cc:393-402 | a complete message no longer changes; otherwise the body is copied in and marked |
| `Reassembly.Assemble` | MeMe/Pods/BoringSSL-GRPC/ssl/d1_both.cc:203-251 | over any in-bounds fragments, overlapping, repeated or reordered: complete exactly when every byte was covered, and fragments of one message give that message |
| `Ring.PlaceInWindow` | MeMe/Pods/BoringSSL-GRPC/ssl/d1_both.cc:265-295 | every occupied slot holds a message of its own number in the window, all of whose bytes came in records of one epoch, for an incomplete one the current epoch; so the assertion on the number holds |
| `Ring.Frozen` | MeMe/Pods/BoringSSL-GRPC/ssl/d1_both.cc:393-396 | a complete message is not changed by any further record |
| `Ring.PlaceAllFaithful` | MeMe/Pods/BoringSSL-GRPC/ssl/d1_both.cc:349-403 | records of genuine fragments, however they are grouped, leave only bytes that the peer sent |
| `Ring.GenuineRejected` | MeMe/Pods/BoringSSL-GRPC/ssl/d1_both.cc:362-388 | of genuine fragments exactly these are errors: too long a message, in epoch 1 another than the next message, and a number FLIGHT ahead, which is not ignored |
| `Ring.Kept` | MeMe/Pods/BoringSSL-GRPC/ssl/d1_both.cc:349-403 | in whatever order genuine fragments arrive, every byte that has arrived is kept |
| `Ring.AllArrived` | MeMe/Pods/BoringSSL-GRPC/ssl/d1_both.cc:349-403 | once every byte of a message in the window has arrived, in any order, it is complete and equal to what was sent |
| `Ring.Refused` | MeMe/Pods/BoringSSL-GRPC/ssl/d1_both.cc:362-388 | the errors among all fragments, genuine or not: outside their message, too long, in epoch 1 not of the next message, 7 ahead, or not of the type or length that their message has |
| `Ring.Placed` | MeMe/Pods/BoringSSL-GRPC/ssl/d1_both.cc:381-402 | an accepted fragment within 7 of the next message puts its bytes at its offset, unless all have come, and changes nothing else; all others are ignored |
| `Ring.PlaceAllInTurn` | MeMe/Pods/BoringSSL-GRPC/ssl/d1_both.cc:349-403 | a record does what its fragments do one after the other, up to the first error, and bytes behind them that are no fragment are an error |
| `Receiver.Connection.GetIncomingMessage` | MeMe/Pods/BoringSSL-GRPC/ssl/d1_both.cc:265-295 | finds or makes the slot of a fragment, or fails on a mismatch or outside the window |
| `Receiver.Connection.PlaceFragment` | MeMe/Pods/BoringSSL-GRPC/ssl/d1_both.cc:350-403 | the loop body does to the ring exactly what the specification says, touching no other message |
| `Receiver.Connection.OpenHandshake` | MeMe/Pods/BoringSSL-GRPC/ssl/d1_both.cc:297-406 | the record layer, the switch and the loop over fragments give the specified ring; by the number of the record type: 20 is flagged in the clear if it is one byte 1 and else an error, 21 handed up, 22 good exactly if its fragments are placed, 23 an error in the clear and else dropped with nothing changed, and all others are errors |
| `Receiver.Connection.GetMessage` | MeMe/Pods/BoringSSL-GRPC/ssl/d1_both.cc:408-424 | hands out the next message exactly when it is complete, with the bytes it would have in one piece, which all came in records of one epoch |
| `Receiver.Connection.NextMessage` | MeMe/Pods/BoringSSL-GRPC/ssl/d1_both.cc:426-438 | the slot of the message is emptied and no other, and the 16-bit number moves on, also where it wraps around |
| `Receiver.Connection.HasUnprocessedHandshakeData` | MeMe/Pods/BoringSSL-GRPC/ssl/d1_both.cc:440-457 | true exactly when a ChangeCipherSpec or a message other than the one being processed is left over |
| `Receiver.Connection.SetReadState` | MeMe/Pods/BoringSSL-GRPC/ssl/dtls_method.cc:81-95 | refused exactly when there is leftover data; otherwise the epoch advances, and the invariant that every message in the ring comes from one epoch is kept |
| `Receiver.Connection.OpenChangeCipherSpec` | MeMe/Pods/BoringSSL-GRPC/ssl/d1_both.cc:475-490 | a flag set earlier is used up before any record is opened; without one, exactly one record is opened and answered by its type as above, except that only a ChangeCipherSpec is reported as such and other good records are used and dropped; the flag is clear afterwards in every case |
| `Cutting.CutsPartition` | MeMe/Pods/BoringSSL-GRPC/ssl/d1_both.cc:644-735 | cuts that lead from the start of a flight to a position partition each body up to it, in order, without gap or overlap |
| `Flight.NumbersDiffer` | MeMe/Pods/BoringSSL-GRPC/ssl/d1_both.cc:575-591 | no two messages of a flight have the same 16-bit number, also where numbers wrap around |
| `Flight.FlightCarried` | MeMe/Pods/BoringSSL-GRPC/ssl/d1_both.cc:644-780 | records that carry such cuts hold of every message exactly the bytes before the position, as the receiver opens them, and as many ChangeCipherSpecs as are before it |
| `Sender.Connection.MakeMessage` | MeMe/Pods/BoringSSL-GRPC/ssl/d1_both.cc:511-537 | the header written with length zero and fixed up afterwards is that of the message in one piece |
| `Sender.Connection.AddOutgoing` | MeMe/Pods/BoringSSL-GRPC/ssl/d1_both.cc:555-594 | the flight becomes the old one, or none if that was flushed, and exactly this message, in the current epoch and with the next number; a flight of FLIGHT messages takes no more |
| `Sender.Connection.SealNextMessage` | MeMe/Pods/BoringSSL-GRPC/ssl/d1_both.cc:644-735 | the record that is sealed carries, in the epoch of the message, the bytes from the position on, and takes the next number of that epoch; a part is cut exactly at the room less 12 and 13 bytes of headers and the overhead, a rest that fits goes whole, and no progress means that not one byte fits; else it fails only for a message of an older epoch, an overflowed counter or an oversized packet |
| `Sender.Connection.SealNextPacket` | MeMe/Pods/BoringSSL-GRPC/ssl/d1_both.cc:739-780 | a packet is at most the MTU, its records carry, one by one, the cuts that lead from the old position to the new, and it is full: it ends at the end of the flight, with a message that was cut at the last byte of room, or where the next message has no room for a byte |
| `Sender.Connection.SendFlight` | MeMe/Pods/BoringSSL-GRPC/ssl/d1_both.cc:782-827 | terminates; the records of the accepted packets carry, one by one, the cuts that lead from the old position to the new; every packet but the last is full; a packet not accepted is rolled back to exactly the unsent position |
| `Sender.Connection.FlushFlight` | MeMe/Pods/BoringSSL-GRPC/ssl/d1_both.cc:829-834 | the same, and the next message starts a new flight |
| `Sender.Connection.FlushWithRetries` | MeMe/Pods/BoringSSL-GRPC/ssl/d1_both.cc:782-834 | however often the transport blocks, the bodies of the fragments that open out of the accepted records are, in order, exactly what is before the position: at the end every message of the flight with all its bytes, each once, and every ChangeCipherSpec |
| `Sender.Connection.Retransmit` | MeMe/Pods/BoringSSL-GRPC/ssl/d1_both.cc:836-845 | the same from the first byte of the flight |
| `Sender.Connection.SetWriteState` | MeMe/Pods/BoringSSL-GRPC/ssl/dtls_method.cc:97-107 | the flight stays as it is and can still be sent in the previous epoch |
| `Sender.Connection.WriteAppData` | MeMe/Pods/BoringSSL-GRPC/ssl/d1_pkt.cc:190-220 | application data goes out as one record of type 23 in the current epoch under the next number, or not at all: beyond 16384 bytes or where the counter ends |
| `Transport.ExamineFront` | MeMe/Pods/BoringSSL-GRPC/ssl/dtls_record.cc:177-272 | of a genuine packet each record is consumed as a whole or the packet dropped, and an accepted handshake payload is a genuine fragment |
| `Transport.World.Flush` | MeMe/Pods/BoringSSL-GRPC/ssl/d1_both.cc:782-834 | what goes onto the network is the flight from where it was left, and all of it if the transport takes it |
| `Transport.World.Retransmit` | MeMe/Pods/BoringSSL-GRPC/ssl/d1_both.cc:836-845 | the same for the flight from its first byte |
| `Transport.World.WriteAppData` | MeMe/Pods/BoringSSL-GRPC/ssl/d1_pkt.cc:190-220 | a record of application data enters the network and nothing else changes |
| `Transport.DeliverRecord` | MeMe/Pods/BoringSSL-GRPC/ssl/d1_both.cc:297-406 | of a genuine packet exactly its first record is absorbed, as specified, and the rest is left |
| `Transport.DeliverChangeCipherSpec` | MeMe/Pods/BoringSSL-GRPC/ssl/d1_both.cc:475-490 | the flag or one record is used up, and a ChangeCipherSpec is reported exactly if it was one |
| `Transport.World.GetMessage` | MeMe/Pods/BoringSSL-GRPC/ssl/d1_both.cc:408-424 | the next message is handed out exactly when it is complete, and the same one again until it is done with |
| `Transport.World.NextMessage` | MeMe/Pods/BoringSSL-GRPC/ssl/d1_both.cc:426-438 | the message that was handed out is done with, and the window moves on |
| `Transport.Step` | MeMe/Pods/BoringSSL-GRPC/ssl/d1_both.cc:297-845 | every event has the effect of the function it stands for, for a flight that is sent or sent again the packets that carry it from its position on, and keeps the joint invariant |
| `Transport.Run` | MeMe/Pods/BoringSSL-GRPC/ssl/d1_both.cc:265-438 | FIFO refinement: for every schedule of messages added, flights flushed and retransmitted, ChangeCipherSpecs, epoch changes and records opened, in which packets are lost, repeated and reordered (fewer than 2^16 messages in flights of any number), what is handed out is a prefix, byte for byte, of what was added, and all bytes of each message came in records of one epoch |
| `Relay.PieceArrives` | MeMe/Pods/BoringSSL-GRPC/ssl/d1_both.cc:350-403 | the next bytes of the next message are never refused, and the message is complete exactly with the last of them |
| `Relay.PassRecord` | MeMe/Pods/BoringSSL-GRPC/ssl/d1_both.cc:297-490 | a receiver that goes on as far as it can stays in step: behind each record it has taken exactly what is before the position of the sender, and has changed its keys with the ChangeCipherSpec |
| `Relay.Converse` | MeMe/Pods/BoringSSL-GRPC/ssl/d1_both.cc:555-834 | over a network that loses nothing everything arrives: whatever is said in flights of up to FLIGHT items, fewer than 2^16 messages in all and with a change of keys anywhere, is handed out, all of it and nothing else, whatever the MTU |
| `Relay.PlainSuits` | MeMe/Pods/BoringSSL-GRPC/ssl/d1_both.cc:140-142 | the hypotheses of that theorem can be met, with the default MTU |
| `Recovery.PassAny` | MeMe/Pods/BoringSSL-GRPC/ssl/d1_both.cc:297-490 | at a receiver that goes on as far as it can and waits for something, no record that is on the network is an error, application data included, whether it is old, repeated, out of order or from the other side of the change of keys |
| `Recovery.PassAgain` | MeMe/Pods/BoringSSL-GRPC/ssl/d1_both.cc:297-490 | behind each record of a flight that is sent again the receiver has everything up to there: the bytes before are held or their message is handed out, and the keys are changed |
| `Recovery.Recover` | MeMe/Pods/BoringSSL-GRPC/ssl/d1_both.cc:836-845 | one retransmission that arrives in order delivers everything, whatever the receiver had of the flight before |
| `Recovery.RepeatRefused` | MeMe/Pods/BoringSSL-GRPC/ssl/d1_both.cc:374-379 | the condition of one message behind the change of keys is needed: in epoch 1 a repeated fragment of a message that was handed out is an error |
| `Recovery.Persist` | MeMe/Pods/BoringSSL-GRPC/ssl/d1_both.cc:297-845 | recovery after loss: over any number of flights, with packets lost, repeated and reordered, sendings cut short, and application data of the new epoch sent at any time behind them, if each flight is at last sent again and that arrives in order, all that was said is handed out and nothing else (one change of keys, at most one message behind it, fewer than 2^16 messages and 2^24 sendings of an item) |
| `HandshakeScript.ScriptIsFlow` | MeMe/Pods/BoringSSL-GRPC/ssl/handshake_server.cc:641-650 | the script that both machines follow is the message flow of section 7.3 of RFC 5246, written out in full and in resumption, with the condition of every optional message in what both sides bring |
| `HandshakeScript.FlowAsks` | MeMe/Pods/BoringSSL-GRPC/ssl/handshake_server.cc:641-650 | a CertificateRequest, a client Certificate or a CertificateVerify is in it only in a full handshake where the suite has certificates, the peer is verified, and no Channel ID makes up for it; and the request exactly then |
| `HandshakeClient.Client.Step` | MeMe/Pods/BoringSSL-GRPC/ssl/handshake_client.cc:1707-1789 | every state function follows the script: no unexpected message, an error exactly through a failed check, and progress whenever it is not waiting |
| `HandshakeClient.Client.Do` | MeMe/Pods/BoringSSL-GRPC/ssl/handshake_client.cc:1707-1789 | whatever message arrives: a type outside the state's own list, and no other, is unexpected and an error; an optional message that was left out is passed over and what arrived stays at hand |
| `HandshakeClient.Client.OpenHandshake` | MeMe/Pods/BoringSSL-GRPC/ssl/d1_both.cc:330-346 | while a message is waited for: a ChangeCipherSpec is unexpected, but with DTLS it is flagged for later |
| `HandshakeClient.Client.OpenChangeCipherSpec` | MeMe/Pods/BoringSSL-GRPC/ssl/d1_both.cc:475-490 | while a ChangeCipherSpec is waited for: a message is unexpected, but with DTLS it is kept, and a ChangeCipherSpec behind it or flagged before is used |
| `HandshakeClient.Client.Resolve` | MeMe/Pods/BoringSSL-GRPC/ssl/handshake.cc:500-555 | the wait for a flush, a message or a ChangeCipherSpec is resolved exactly by what it waits for, and without DTLS the other kind of record is unexpected; what arrives by the script is taken by the script |
| `HandshakeClient.Client.DoReadHelloVerifyRequest` | MeMe/Pods/BoringSSL-GRPC/ssl/handshake_client.cc:491-532 | read only with DTLS, and then the ClientHello is sent a second time |
| `HandshakeClient.Client.DoReadServerHello` | MeMe/Pods/BoringSSL-GRPC/ssl/handshake_client.cc:535-759 | the negotiated parameters are adopted and decide between full handshake and resumption |
| `HandshakeClient.Client.DoReadCertificateStatus` | MeMe/Pods/BoringSSL-GRPC/ssl/handshake_client.cc:821-869 | the message is optional even if it was announced |
| `HandshakeClient.Client.DoReadServerKeyExchange` | MeMe/Pods/BoringSSL-GRPC/ssl/handshake_client.cc:891-1071 | required with ECDHE, optional with PSK, an error with RSA |
| `HandshakeClient.Client.DoReadCertificateRequest` | MeMe/Pods/BoringSSL-GRPC/ssl/handshake_client.cc:1073-1143 | read, or passed over at ServerHelloDone or without certificates |
| `HandshakeClient.Client.DoSendClientCertificate` | MeMe/Pods/BoringSSL-GRPC/ssl/handshake_client.cc:1169-1213 | sent exactly if requested, empty without a certificate |
| `HandshakeClient.Client.DoSendClientFinished` | MeMe/Pods/BoringSSL-GRPC/ssl/handshake_client.cc:1457-1515 | ChangeCipherSpec, NextProto and Channel ID as negotiated, Finished |
| `HandshakeClient.Client.DoReadSessionTicket` | MeMe/Pods/BoringSSL-GRPC/ssl/handshake_client.cc:1566-1647 | read exactly if announced, before ChangeCipherSpec |
| `HandshakeClient.Client.DoReadServerFinished` | MeMe/Pods/BoringSSL-GRPC/ssl/handshake_client.cc:1658-1672 | checked once; then the end, or in a resumption the client's own flight |
| `HandshakeServer.Server.Step` | MeMe/Pods/BoringSSL-GRPC/ssl/handshake_server.cc:1539-1621 | as for the client; the one further error is a certificate that is required and not sent |
| `HandshakeServer.Server.Do` | MeMe/Pods/BoringSSL-GRPC/ssl/handshake_server.cc:1539-1621 | whatever message arrives: a type outside the state's own list, and no other, is unexpected and an error |
| `HandshakeServer.Server.DoSelectParameters` | MeMe/Pods/BoringSSL-GRPC/ssl/handshake_server.cc:572-684 | settles resumption and whether a client certificate is requested |
| `HandshakeServer.Server.DoSendServerHello` | MeMe/Pods/BoringSSL-GRPC/ssl/handshake_server.cc:686-752 | drops Channel ID without ECDHE or, in a resumption, without recorded hashes, and announces what is left |
| `HandshakeServer.Server.DoSendServerCertificate` | MeMe/Pods/BoringSSL-GRPC/ssl/handshake_server.cc:754-840 | certificate and status as negotiated, and whether there is a key exchange message |
| `HandshakeServer.Server.DoReadClientCertificate` | MeMe/Pods/BoringSSL-GRPC/ssl/handshake_server.cc:949-1040 | read exactly if requested; without a failed check it is an error exactly if it is empty and one is required |
| `HandshakeServer.Server.DoReadClientCertificateVerify` | MeMe/Pods/BoringSSL-GRPC/ssl/handshake_server.cc:1269-1363 | read exactly if there is a client certificate |
| `HandshakeServer.Server.DoSendServerFinished` | MeMe/Pods/BoringSSL-GRPC/ssl/handshake_server.cc:1463-1509 | ticket if announced, ChangeCipherSpec, Finished; before the client's flight in a resumption, behind it otherwise |
| `Handshake.Session.NoDeadlock` | MeMe/Pods/BoringSSL-GRPC/ssl/handshake_client.cc:1707-1789 | in every reachable joint state without an error, unless both are done, a flight can arrive or a side can go on |
| `Handshake.Session.ClientStep` | MeMe/Pods/BoringSSL-GRPC/ssl/handshake_client.cc:1707-1789 | preserves the joint invariant: what is under way is exactly what one side has still to read to be where the other is |
| `Handshake.Session.ServerStep` | MeMe/Pods/BoringSSL-GRPC/ssl/handshake_server.cc:1539-1621 | the same for the server |
| `Handshake.Run` | MeMe/Pods/BoringSSL-GRPC/ssl/handshake_server.cc:1539-1621 | for every interleaving of steps and arrivals: no unexpected message on either side; errors only by failed checks; what is sent is at all times a beginning, and when both are done all, of the flow of the standard, so that a certificate is asked for exactly on its conditions; both done means each checked one Finished, the client's first in a full handshake and the server's in a resumption, and no side left out the checks by which it knows the other; where a certificate is required and there is none they are never both done |
| `Handshake.SomethingUseful` | MeMe/Pods/BoringSSL-GRPC/ssl/handshake_client.cc:1707-1789 | until both are done there is an event that gets the handshake on |
| `Handshake.Eventually` | MeMe/Pods/BoringSSL-GRPC/ssl/handshake_client.cc:1707-1789 | every schedule without a failed check ends with both sides done if enough of its events, however they are mixed with others, get the handshake on |
| `Handshake.Complete` | MeMe/Pods/BoringSSL-GRPC/ssl/handshake_client.cc:1707-1789 | from every error-free reachable state a schedule whose checks pass takes both sides to the end, with the Finished messages checked in the right order |
| `CipherChoice.Choose` | MeMe/Pods/BoringSSL-GRPC/ssl/handshake_server.cc:388-421 | the single pass returns the candidate of the first group that has one which the other list has first, and none exactly when there is no candidate but in a last group without end |
| `CipherChoice.UsableMeans` | MeMe/Pods/BoringSSL-GRPC/ssl/handshake_server.cc:394-401 | usable is: the version within the suite's, and a bit in common with the key exchange mask and with the authentication mask |
| `CipherChoice.ChooseCipher` | MeMe/Pods/BoringSSL-GRPC/ssl/handshake_server.cc:357-424 | with server preference the client's earliest within the server's first group that has a usable shared suite; without it the client's first; what is chosen is for the version and shares a bit with both masks; for a well-formed list none exactly when no shared suite does |
| `AppWrite.Connection.FlushBuffer` | MeMe/Pods/BoringSSL-GRPC/ssl/ssl_buffer.cc:239-252 | everything goes to the transport, or the rest is kept in order |
| `AppWrite.Connection.WritePending` | MeMe/Pods/BoringSSL-GRPC/ssl/s3_pkt.cc:202-218 | a retry with other arguments is refused; a pending record is reported as written only when all of it is out |
| `AppWrite.Connection.DoWrite` | MeMe/Pods/BoringSSL-GRPC/ssl/s3_pkt.cc:221-289 | a pending record is never sealed again; a new one is sealed once |
| `AppWrite.Connection.WriteAppData` | MeMe/Pods/BoringSSL-GRPC/ssl/s3_pkt.cc:129-200 | each call seals the data from where earlier calls stopped, nothing twice and nothing left out, in records of the full fragment size but for the last of the data; with partial writes it answers after one record, with the bytes up to its end, and without them only after all; the position is lost exactly when the call has less data than earlier calls finished with |
| `AppWrite.WriteRetrying` | MeMe/Pods/BoringSSL-GRPC/ssl/s3_pkt.cc:129-289 | a write retried until it succeeds has sealed every byte it reports exactly once, all records are on the wire once and in order, and it fails only while the transport blocks |

## Left out

- nanopb callbacks, extension fields, repeated fields of fixed count, pointer fields (`PB_ENABLE_MALLOC`), custom stream callbacks, delimited and null-terminated messages, and builds without 64-bit integers: only static fields over buffers are encoded and decoded; the allocation type matters to the iterator alone.
- Memory layout of structures: the iterator computes addresses, but the codec reads and writes slots of a value, so overlap of union members and padding are not captured. The contents of a oneof member that is not selected are unconstrained.
- A null submessage descriptor, which both codecs report as an error, cannot be written in this model.
- Encoder.GetEncodedSize: a size of 2^64 or more is a failure here, where the source's counter would wrap around; no structure in memory has such an encoding.
- RoundTrip.MessageRoundTrip: excludes encodings of 2^32 bytes or more, which the 32-bit length prefix of the decoder cannot express.
- Varints.Varint32IsLowWord: is about varints of at most ten bytes; the source has no length limit and its eight-bit position wraps around, which the reading function itself does model.
- Cryptography: sealing, opening, signatures, key derivation, certificate checks and transcript hashes are a sound pair of functions or a verdict.
- DTLS timers, MTU discovery (the MTU is a parameter), alerts (handed up), shutdown states and the bookkeeping of replies to a flight.
- Reassembly.HmFragment.constructor: the bytes of a new message are zero here and uninitialised in the source; none is handed out before it has arrived.
- In-place sealing: records are built as sequences instead of in the packet buffer, so that aliasing of input and output is not captured. The packet is assembled from them.
- Transport.Run: states that nothing wrong is handed out, in order; what is handed out at least is `Ring.AllArrived` where nothing is lost `Relay.Converse`, and where a retransmission gets through `Recovery.Persist`.
- Relay.Converse: has one change of keys, since the source refuses a ChangeCipherSpec that is encrypted, and packets of at most a record's plaintext and header, since larger fragments are refused by the receiver.
- Recovery.Persist: has at most one message behind the change of keys, as the source says of the encrypted epoch (d1_both.cc:373-379), because of `Recovery.RepeatRefused`; and a bound on how often items are sent, since sequence numbers run out.
- With DTLS a change of the read keys is refused while messages are left over: that is `Receiver.Connection.SetReadState`, and a failed check to the handshake machines.
- Parsing the client's list of cipher suites, a failure of which also gives no cipher.
- DtlsRecord.ReadRun: epochs do not wrap around; 2^16 changes of keys on one connection do.
- TLS 1.3, SSL 3.0, early data, renegotiation, handoff, ClientHello in version 2 format, and the contents of messages other than what decides the next state.
- The server's ServerHello is the source of what was negotiated; that both sides would agree on it from their extensions is part of the verdict of the step that parses them.
- TLS record splitting, the pending flight in front of a record (TLS 1.3 only), and datagram write buffers in the resumable writes.
- The app's own Swift and JavaScript, and the platform code of BoringSSL.
