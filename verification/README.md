# A verified model of the protocol cores in the vendored pods

The application itself holds little that is hard to get right. The code under it does: the DTLS and TLS
handshake transport of BoringSSL (as vendored for gRPC) and the nanopb codec of Protocol Buffers. This
project models both in Dafny, with the algorithms as methods over the same state as in the original and
their meaning as functions, and proves what they are for.

- **DTLS handshake transport** (RFC 6347). `DtlsWire`, `Reassembly`, `IncomingMessages`, `ReplayWindow`, `Aead` and
  `DtlsReceiver` are the receiving half; `SequenceNumbers`, `RecordWriter`, `Flight` and `DtlsSender` the sending
  half; `DtlsTimer` is the retransmission timer, joined to the flights; `Alerts` is shared with TLS. `DtlsSystem` puts sender, network and receiver together as a
  transition relation and holds the end-to-end theorem; `DtlsSession` shows that the objects move by that
  relation; `DtlsProgress` shows that what gets through in time completes its messages.
- **nanopb** (Protocol Buffers encoding). `ProtoMessage` describes descriptors and values, `ProtoWire` and
  `Varints` say what an encoding is and what any octets decode to, `ProtoRoundTrip` proves that the two fit
  together, `ProtoUnknown` that readers with older and newer descriptors get what they can, `ProtoMerge`
  that messages one after another merge, and `ProtoExact` what an encoding looks like and which octets are refused. `ProtoEncoder`, `ProtoIterator` and `ProtoDecoder` are the stream
  code, shown to compute exactly that.
- **TLS handshake** (RFC 5246, below TLS 1.3). `TlsFlow` is the grammar of allowed message orders and the
  contents of a transcript, `TlsHandshake` the state both machines share, `TlsClient` and `TlsServer` the two
  machines, `TlsDriver` the loop around each. `TlsAgreement` draws the conclusion for the two sides together.
- **TLS message stream**. `SslBuffer`, `TlsStream`, `TlsWriter` and `TlsReader` are buffers, records, flights and
  message reassembly; `TlsChannel` joins a writer and a reader.
- **Three small algorithms**: `CipherChoice`, `Premaster` and the reference count (`ReferenceCount`, `AtomicCount`).
- `Bytes` and `Options` are shared vocabulary.

Record protection, MACs and signatures are uninterpreted functions; the only law used of the first is that Open
undoes Seal within a known overhead; where two transcripts might share a MAC the conclusion says so. The
transport, the clock, random octets and the decisions of code outside the model (extensions, session cache,
callbacks, certificate verification) are arbitrary choices.

Where the code has quirks they are modelled as written:

- A DTLS fragment exactly seven messages ahead passes the test on its number and is a fatal error one call
  later; safety is not affected.
- A DTLS seal that fails in the middle of a packet, unlike a failed write, leaves the position past the pieces
  sealed before it. They are missing until the flight is sent again. The contracts list them as lost.
- After a sequence counter has run over, the next seal reuses number zero; `SequenceNumbers.OverflowReuses` is the
  counterexample and `SequenceNumbers.DistinctExactly` the exact condition.
- nanopb's test whether a submessage without a flag is at its default takes the first word of an array of fixed
  count for its counter; `ProtoRoundTrip.ArrayLost` is an array lost that way and `ProtoRoundTrip.MessageRoundTrip`
  says exactly which messages are affected.
- nanopb's 32-bit varint decoder lets through some values above 2^63; `Varints.Exact32` says which.
- nanopb's field search finds tag zero in a message without fields, which the decoder then refuses.
- An `SSLBuffer` whose capacity leaves no room for the alignment slack can wrap its 16-bit offset;
  `SslBuffer.AdvanceIsExact` gives the exact condition, and `EnsureCap` promises it for capacities up to 65528.

To check everything: `dafny verify dfyconfig.toml`.

## Model

| member | source | states |
|---|---|---|
| DtlsSystem.EndToEnd | IOS/Pods/BoringSSL-GRPC/ssl/d1_both.cc:265-295 | In every state of every run of sender, network and receiver, the messages taken out are exactly the first messages added, octet for octet and in order, whatever the flights, MTUs, failed writes, retransmissions and epoch changes, and whatever the network drops, repeats or reorders. Rests only on Open undoing Seal. |
| DtlsSystem.StepKeeps | IOS/Pods/BoringSSL-GRPC/ssl/d1_both.cc:297-406 | Every kind of step (sending, arrival, opening a record, taking a message, a new read epoch) keeps the invariant behind the theorem above. |
| DtlsSystem.PacketsAreMadeOfTheirRecords | IOS/Pods/BoringSSL-GRPC/ssl/d1_both.cc:739-780 | A written packet parses back into the records sealed in it, and a record a receiver would find too long makes only the rest of its packet unreadable. |
| DtlsSystem.OpensToSealed | IOS/Pods/BoringSSL-GRPC/ssl/dtls_record.cc:177-272 | A record the receiver accepts was sealed by the sender, and its fragments are pieces of messages added. |
| DtlsSystem.ChangeCipherSpecOpens | IOS/Pods/BoringSSL-GRPC/ssl/d1_both.cc:319-338 | A ChangeCipherSpec of the sender that arrives in time opens to the type and the one octet that the receiver takes for one. |
| DtlsSystem.CompleteIsWhole | IOS/Pods/BoringSSL-GRPC/ssl/d1_both.cc:408-424 | A message that is complete in the window is, header included, the one added under its number. |
| DtlsSession.Session.AddMessage | IOS/Pods/BoringSSL-GRPC/ssl/d1_both.cc:596-598 | Against the real sender and receiver objects: adding a message is a step of the system and keeps the session valid. |
| DtlsSession.Session.Flush | IOS/Pods/BoringSSL-GRPC/ssl/d1_both.cc:829-834 | Sending a flight, even one whose writes or seals fail, is a step that emits only genuine records. |
| DtlsSession.Session.Retransmit | IOS/Pods/BoringSSL-GRPC/ssl/d1_both.cc:836-845 | So is sending it again, also across a change of cipher. |
| DtlsSession.Session.WriteRecord | IOS/Pods/BoringSSL-GRPC/ssl/d1_pkt.cc:222-251 | So is writing application data or an alert in between. |
| DtlsSession.Session.CanDeliver | IOS/Pods/BoringSSL-GRPC/ssl/d1_both.cc:782-827 | Every packet the transport ever took can be delivered at any later time. |
| DtlsSession.Session.Open | IOS/Pods/BoringSSL-GRPC/ssl/d1_both.cc:297-406 | Reading one record of a packet is a step of the system. |
| DtlsSession.Session.OpenChangeCipherSpec | IOS/Pods/BoringSSL-GRPC/ssl/d1_both.cc:475-490 | Waiting for a ChangeCipherSpec is a step of the system or changes nothing. One that the sender emitted under the null cipher, offered in time, is always accepted, and so is one seen before. |
| DtlsSession.Session.Take | IOS/Pods/BoringSSL-GRPC/ssl/d1_both.cc:408-438 | Getting and releasing a message hands out the next one added, and no other. |
| DtlsSession.Session.SetReadState | IOS/Pods/BoringSSL-GRPC/ssl/dtls_method.cc:81-95 | Changing the read epoch is a step of the system, or is refused and changes nothing. |
| DtlsProgress.FlightArrives | IOS/Pods/BoringSSL-GRPC/ssl/d1_both.cc:387-399 | Once every record of one complete transmission has been read, in any order, repeated or mixed with others, every message of the flight not yet taken out is complete, also an empty one. |
| DtlsProgress.MessageArrives | IOS/Pods/BoringSSL-GRPC/ssl/dtls_record.cc:177-272 | The same of the receiver itself, replay window included: in any stretch of a run within one epoch and phase, with sending, loss, repetition, reordering and taking out going on, a message is complete or taken once each record of one transmission that carries a piece of it was opened at some moment, not older than the window. |
| DtlsProgress.SessionMessageArrives | IOS/Pods/BoringSSL-GRPC/ssl/d1_both.cc:836-845 | The same for the sender and the receiver objects of a session, without assuming anything of record numbers but that the sender stopped using a counter when it had run over. |
| DtlsSession.Session.OneRecordPerNumber | IOS/Pods/BoringSSL-GRPC/ssl/dtls_record.cc:294-351 | While no counter is used after it has run over, all records a session has emitted, retransmissions included, have numbers of their own. |
| DtlsProgress.StepCatches | IOS/Pods/BoringSSL-GRPC/ssl/dtls_record.cc:225-264 | No step of such a stretch loses what the accepted records of a transmission carried. |
| DtlsProgress.WalkCovers | IOS/Pods/BoringSSL-GRPC/ssl/d1_both.cc:644-734 | Each octet of each message is in some record of a complete transmission. |
| DtlsProgress.ReadAllFills | IOS/Pods/BoringSSL-GRPC/ssl/d1_both.cc:350-406 | Reading records loses nothing that had arrived and adds all they carry, without an error. |
| DtlsWire.ParseSerialized | IOS/Pods/BoringSSL-GRPC/ssl/d1_both.cc:459-473 | A fragment header and body come back as written, whatever follows them. |
| DtlsWire.SerializeParsed | IOS/Pods/BoringSSL-GRPC/ssl/d1_both.cc:459-473 | Conversely a successful parse determines the octets parsed. |
| DtlsWire.ParseSerializedRecord | IOS/Pods/BoringSSL-GRPC/ssl/dtls_record.cc:192-205 | A DTLS record comes back as written, whatever follows it in its packet. |
| DtlsWire.RecordNumberInjective | IOS/Pods/BoringSSL-GRPC/ssl/dtls_record.cc:294-351 | Different epochs or sequence numbers never share an eight-octet record number. |
| DtlsWire.HeaderLayout | IOS/Pods/BoringSSL-GRPC/ssl/d1_both.cc:459-473 | A fragment header octet by octet: type, 24-bit length, 16-bit number, 24-bit offset and 24-bit fragment length, most significant octets first. |
| DtlsWire.RecordLayout | IOS/Pods/BoringSSL-GRPC/ssl/dtls_record.cc:294-351 | A record header octet by octet: type, version, number, length. |
| DtlsWire.NumberLayout | IOS/Pods/BoringSSL-GRPC/ssl/dtls_record.cc:294-351 | The epoch is the upper 16 bits of a record number, the sequence number the lower 48. |
| DtlsWire.ParsesExactly | IOS/Pods/BoringSSL-GRPC/ssl/dtls_record.cc:192-205 | A record is found exactly if its header is there and announces neither more than there is nor more than 16704 octets; a fragment exactly if it is all there. |
| Reassembly.BitRangeBits | IOS/Pods/BoringSSL-GRPC/ssl/d1_both.cc:203-205 | The octet computed on 32-bit words and truncated has exactly the bits from start to end. |
| Reassembly.SetRange | IOS/Pods/BoringSSL-GRPC/ssl/d1_both.cc:226-236 | Marking a range sets exactly its bits: first octet, whole octets, last octet. |
| Reassembly.AllSet | IOS/Pods/BoringSSL-GRPC/ssl/d1_both.cc:239-250 | The octet-wise test holds exactly when every bit below the message length is set. |
| Reassembly.HmFragment.constructor | IOS/Pods/BoringSSL-GRPC/ssl/d1_both.cc:152-199 | A new fragment buffer holds nothing; it has no mask exactly when the message is empty. |
| Reassembly.HmFragment.Mark | IOS/Pods/BoringSSL-GRPC/ssl/d1_both.cc:211-251 | The set of received positions grows by exactly the range; no bit at or beyond the length is ever set. |
| Reassembly.HmFragment.Store | IOS/Pods/BoringSSL-GRPC/ssl/d1_both.cc:399-402 | Copying and marking a fragment adds its octets to what has arrived, and the buffer stays valid. |
| Reassembly.HmFragment.MaskGoneIffComplete | IOS/Pods/BoringSSL-GRPC/ssl/d1_both.cc:239-250 | The mask is gone exactly when every octet has arrived. |
| Reassembly.HmFragment.CompleteData | IOS/Pods/BoringSSL-GRPC/ssl/d1_both.cc:152-199 | A complete buffer is the whole message behind the header of a single fragment. |
| IncomingMessages.SameSlot | IOS/Pods/BoringSSL-GRPC/ssl/d1_both.cc:265-295 | Two messages of the window that share a ring slot are the same message. |
| IncomingMessages.Queue.Lookup | IOS/Pods/BoringSSL-GRPC/ssl/d1_both.cc:255-259 | A slot holds a message exactly when the abstract window has it, under its own number. |
| IncomingMessages.Queue.GetIncomingMessage | IOS/Pods/BoringSSL-GRPC/ssl/d1_both.cc:265-295 | Fails exactly for numbers outside the seven-slot window or headers that disagree with earlier fragments; otherwise gives the buffer of that message. |
| IncomingMessages.Queue.AcceptFragment | IOS/Pods/BoringSSL-GRPC/ssl/d1_both.cc:350-406 | One fragment does to the ring what it does to a map from message numbers to arrived octets. It is refused exactly if it goes beyond its message, the message is too long, in epoch one it is not the next one, it is exactly seven ahead, or it disagrees with earlier fragments; it changes nothing if its message is past, too far ahead or complete; else its octets join. |
| IncomingMessages.Queue.Merge | IOS/Pods/BoringSSL-GRPC/ssl/d1_both.cc:387-403 | An accepted fragment adds its octets unless its message is complete already; complete messages are frozen. |
| IncomingMessages.Queue.GetMessage | IOS/Pods/BoringSSL-GRPC/ssl/d1_both.cc:408-424 | Hands out the current message exactly when all its octets have arrived, with the header it would have unfragmented. |
| IncomingMessages.Queue.NextMessage | IOS/Pods/BoringSSL-GRPC/ssl/d1_both.cc:426-433 | Frees the slot and moves the window by one message. |
| IncomingMessages.Queue.HasOther | IOS/Pods/BoringSSL-GRPC/ssl/d1_both.cc:440-457 | Holds exactly when something other than the message handed out is buffered. |
| ReplayWindow.Bitmap.ShouldDiscard | IOS/Pods/BoringSSL-GRPC/ssl/dtls_record.cc:140-150 | A number is discarded exactly when it was accepted before or lies 64 or more below the largest accepted (RFC 6347, section 4.1.2.6). |
| ReplayWindow.Bitmap.Record | IOS/Pods/BoringSSL-GRPC/ssl/dtls_record.cc:155-175 | The accepted set grows by exactly the number, and the 64-bit map and maximum go on representing it. |
| ReplayWindow.ShiftBits | IOS/Pods/BoringSSL-GRPC/ssl/dtls_record.cc:155-175 | Shifting the map moves every bit up and brings in zeros, for every distance below 64. |
| ReplayWindow.SetBits | IOS/Pods/BoringSSL-GRPC/ssl/dtls_record.cc:155-175 | Setting one bit changes no other. |
| DtlsReceiver.RecordReader.OpenRecord | IOS/Pods/BoringSSL-GRPC/ssl/dtls_record.cc:177-272 | Over a whole connection with epoch changes, no record number is accepted twice. What is accepted has the version that goes with the cipher and the epoch in use, and opens to what is passed on; how much of the packet is used up is stated for every input, and so is what an alert does: a close_notify closes the reader for good, a fifth warning in a row is an error. |
| Alerts.ProcessAlert | IOS/Pods/BoringSSL-GRPC/ssl/tls_record.cc:551-601 | Only a warning close_notify closes; another warning is passed over only if fewer than four came before it in a row. |
| DtlsReceiver.RecordReader.ChangeEpoch | IOS/Pods/BoringSSL-GRPC/ssl/dtls_method.cc:81-95 | A new epoch starts with an empty window and still remembers, as history, what was accepted. |
| DtlsReceiver.Receiver.OpenHandshake | IOS/Pods/BoringSSL-GRPC/ssl/d1_both.cc:297-406 | The answer for every record, with the type as a number: a ChangeCipherSpec is good exactly if it comes under the null cipher and is the octet 1; application data is fatal under the null cipher and dropped else; any other type but a handshake record is fatal. Only a handshake record touches the message buffers, and it does to them what its fragments do one after the other. |
| DtlsReceiver.ReadExactly | IOS/Pods/BoringSSL-GRPC/ssl/d1_both.cc:344-406 | A handshake record is read to its end exactly if it is made of whole fragments each of which is accepted after the ones before. |
| DtlsReceiver.Receiver.OpenChangeCipherSpec | IOS/Pods/BoringSSL-GRPC/ssl/d1_both.cc:475-490 | A ChangeCipherSpec already seen is used up without reading; otherwise one record is read as for handshake data, and the answer is good exactly if that record is a ChangeCipherSpec under the null cipher. |
| DtlsReceiver.Receiver.SetReadState | IOS/Pods/BoringSSL-GRPC/ssl/dtls_method.cc:81-95 | Refused exactly while anything but the message handed out is buffered, so no other message outlives an epoch. |
| SequenceNumbers.NoReuse | IOS/Pods/BoringSSL-GRPC/ssl/dtls_record.cc:294-351 | In any run of seals, failed seals, previous-epoch seals and epoch changes in which no counter is used after it has run over, no two sealed records have the same epoch and sequence number. The seal that reports the overflow itself is allowed. |
| SequenceNumbers.DistinctExactly | IOS/Pods/BoringSSL-GRPC/ssl/dtls_record.cc:294-351 | The exact condition, for every run of a connection whose epochs do not wrap: all numbers are different if and only if no counter is used after it has run over in its epoch. |
| SequenceNumbers.OverflowReuses | IOS/Pods/BoringSSL-GRPC/ssl/dtls_record.cc:331-336 | An input for which numbers repeat: after the seal that reports the overflow, the next one succeeds and carries number zero again. |
| RecordWriter.Writer.SealRecord | IOS/Pods/BoringSSL-GRPC/ssl/dtls_record.cc:294-351 | A sealed record carries the number due in the epoch asked for and the version of the current one, fits the room given, and opens under the keys of its epoch; the history of numbers grows by it or stays. Given room, sealing fails only if the counter runs over, the ciphertext may be too long or the cipher fails. |
| RecordWriter.Writer.UseNumber | IOS/Pods/BoringSSL-GRPC/ssl/dtls_record.cc:331-336 | The counter of the epoch in use moves on by one and reports running over. |
| RecordWriter.Writer.ChangeEpoch | IOS/Pods/BoringSSL-GRPC/ssl/dtls_method.cc:97-107 | The counter moves to the previous epoch and a new one starts at zero. |
| RecordWriter.Writer.NumbersDistinct | IOS/Pods/BoringSSL-GRPC/ssl/dtls_record.cc:294-351 | All records a writer object has sealed have different numbers, also as the octets on the wire, as long as no counter was used after it had run over. |
| Flight.WalkCarries | IOS/Pods/BoringSSL-GRPC/ssl/d1_both.cc:644-734 | The records written between two positions carry, of each message, exactly the octets between them: once, in order, without a gap. |
| Flight.FlightTiles | IOS/Pods/BoringSSL-GRPC/ssl/d1_both.cc:782-827 | A flight written from start to end carries every message whole. |
| Flight.WalkEpochs | IOS/Pods/BoringSSL-GRPC/ssl/d1_both.cc:650-656 | Each record of a flight, written for the first time or again, whole or in part, is the next piece of some message of it, in a record of the type that goes with the message and of the epoch that message was queued in: a Finished never goes out under the keys before the ChangeCipherSpec, nor what came before it under the new ones. |
| DtlsSender.Sender.SealNextMessage | IOS/Pods/BoringSSL-GRPC/ssl/d1_both.cc:644-734 | Seals the next piece of the flight in a record of the epoch the message was queued in. That epoch being neither the current one nor the one before is an error, and apart from that only the cipher, the counter and the length of the ciphertext can be; a piece that is not the last fills the room exactly, and lack of progress means there is no room for one octet. |
| DtlsSender.Sender.SealNextPacket | IOS/Pods/BoringSSL-GRPC/ssl/d1_both.cc:739-780 | A packet is at most as long as allowed and holds the next pieces of the flight, at least one, each under its own epoch; the position has moved just past them. It ends with the flight, in the middle of a message, or where nothing of the next one has room. None is made only if the next message has no room or no keys, or sealing failed. |
| DtlsSender.Sender.SendPacket | IOS/Pods/BoringSSL-GRPC/ssl/d1_both.cc:797-815 | A failed write puts the position back; a successful one moves it strictly forward, even past an empty message. |
| DtlsSender.Sender.SendFlight | IOS/Pods/BoringSSL-GRPC/ssl/d1_both.cc:782-827 | Terminates. The packets written carry the flight from where it stood, each within the MTU and each record under the epoch of its message; after a failed write the position is behind the last packet written. It falls short of the end only if the transport or the cipher failed, the connection is shut, or the next message has no room or no keys. |
| DtlsSender.Sender.UpdateMtu | IOS/Pods/BoringSSL-GRPC/ssl/d1_both.cc:615-632 | An MTU below the minimum is replaced by a usable one unless queries are forbidden. |
| DtlsSender.Sender.AddMessage | IOS/Pods/BoringSSL-GRPC/ssl/d1_both.cc:511-598 | The queue gets the message as a single fragment under the next number. |
| DtlsSender.Sender.AddChangeCipherSpec | IOS/Pods/BoringSSL-GRPC/ssl/d1_both.cc:600-602 | The queue gets a ChangeCipherSpec of the current epoch and no message number is used. |
| DtlsSender.Sender.Retransmit | IOS/Pods/BoringSSL-GRPC/ssl/d1_both.cc:836-845 | Counts one more retransmission and writes the flight from its start, each record under the epoch of its message; on success the fragments of each message of the flight, put together in the order written, are its body. |
| DtlsSender.Sender.SetWriteState | IOS/Pods/BoringSSL-GRPC/ssl/dtls_method.cc:97-107 | The sender stays valid across a change of keys with a flight half way out. |
| DtlsSender.Sender.WriteRecord | IOS/Pods/BoringSSL-GRPC/ssl/d1_pkt.cc:222-251 | One record of the current epoch with this content in one packet; none only if it is too long or the transport or the cipher failed. |
| DtlsTimer.BackoffNext | IOS/Pods/BoringSSL-GRPC/ssl/d1_lib.cc:155-160 | The duration after k expirations is the smaller of the initial one doubled k times and a minute; one more expiration doubles and caps. |
| DtlsTimer.Timer.AtMostTwelve | IOS/Pods/BoringSSL-GRPC/ssl/d1_lib.cc:168-187 | The sender retransmits at most twelve times between two stops of the timer: its own count, which only Retransmit moves, stays within twelve of what it was at the last stop, counting what a late Finished asks for. |
| DtlsTimer.Timer.Start | IOS/Pods/BoringSSL-GRPC/ssl/d1_lib.cc:120-136 | The deadline is exactly the current duration away and its microseconds stay below a million. |
| DtlsTimer.Timer.Stop | IOS/Pods/BoringSSL-GRPC/ssl/d1_lib.cc:162-166 | Everything is back at its start. |
| DtlsTimer.Timer.GetTimeout | IOS/Pods/BoringSSL-GRPC/ssl/d1_lib.cc:197-245 | The time left is the exact difference, except that less than 15 milliseconds counts as none and a difference beyond the integer limit is cut. |
| DtlsTimer.Timer.CheckTimeoutNum | IOS/Pods/BoringSSL-GRPC/ssl/d1_lib.cc:168-187 | The thirteenth timeout is refused; from the third on the MTU may be lowered to what the transport suggests. |
| DtlsTimer.Timer.HandleTimeout | IOS/Pods/BoringSSL-GRPC/ssl/d1_lib.cc:247-267 | Does nothing before the deadline and fails at the limit; otherwise the packets written carry the flight from its start, each record under the epoch of its message, to its end unless the transport or the cipher fails, exactly one retransmission is counted, the duration doubles and the next deadline is set. |
| DtlsTimer.Timer.DoubleTimeout | IOS/Pods/BoringSSL-GRPC/ssl/d1_lib.cc:155-160 | One more expiration. |
| DtlsTimer.Timer.OpenAppData | IOS/Pods/BoringSSL-GRPC/ssl/d1_pkt.cc:131-188 | After the handshake, a record that begins with the first fragment of the peer's last Finished (type 20, one before the number expected, offset zero) makes the whole flight go out again, once, unless twelve timeouts were counted; a later fragment of it is dropped; every other handshake record, whether it parses or not, and every type but application data is an error. In all of these cases nothing is sent. |
| DtlsTimer.JudgedLate | IOS/Pods/BoringSSL-GRPC/ssl/d1_pkt.cc:144-177 | The judgement on a handshake record, in terms of the octets: it is a first or a later fragment of the last Finished exactly if the octets are those of such a header, its body and whatever follows. |
| DtlsTimer.RepeatedFinished | IOS/Pods/BoringSSL-GRPC/ssl/d1_pkt.cc:156-170 | Any piece of a Finished that a sender writes again, however it is cut this time, is such a fragment for the peer. |
| DtlsTimer.Timer.FlushFlight | IOS/Pods/BoringSSL-GRPC/ssl/d1_both.cc:829-834 | Sending a complete flight for the first time starts the timer and counts no retransmission; the packets written carry the flight from where it stood. |
| DtlsTimer.Timer.AddMessage | IOS/Pods/BoringSSL-GRPC/ssl/d1_both.cc:555-594 | The first message after a complete flight stops the timer and begins another flight with just that message, so that between two stops there is one flight; another message joins the flight and leaves the timer alone; an eighth message is refused. |
| DtlsTimer.Timer.AddChangeCipherSpec | IOS/Pods/BoringSSL-GRPC/ssl/d1_both.cc:555-602 | The same for a ChangeCipherSpec. |
| DtlsTimer.Timer.MessageTaken | IOS/Pods/BoringSSL-GRPC/ssl/d1_both.cc:434-437 | A message taken while a complete flight is out counts as its reply. |
| DtlsTimer.Endpoint.NextMessage | IOS/Pods/BoringSSL-GRPC/ssl/d1_both.cc:426-438 | The whole of it for one end of a connection: the window of its receiver moves on by one message, and a flight of its sender that is complete counts as answered. |
| DtlsTimer.Timer.OnHandshakeComplete | IOS/Pods/BoringSSL-GRPC/ssl/dtls_method.cc:71-79 | The timer stops; the last flight is dropped exactly if it has been answered, else kept for retransmission. |
| ProtoRoundTrip.MessageRoundTrip | IOS/Pods/nanopb/pb_decode.c:1051-1063 | Decoding what was encoded gives, for every well-formed descriptor tree and message (numbers, strings, octets, packed and unpacked arrays, arrays of fixed count, oneofs, nested messages), the message as sent; that is the message itself if and only if the presence test takes no submessage for default that has an array of fixed count in it. |
| ProtoRoundTrip.PlainRoundTrip | IOS/Pods/nanopb/pb_decode.c:1051-1063 | With a descriptor in which no presence test looks at an array of fixed count, every message comes back as it was. |
| ProtoRoundTrip.ArrayLost | IOS/Pods/nanopb/pb_encode.c:215-228 | An input for which it does not: in a submessage without a flag the array 0, 7 of 32-bit numbers passes for a counter of zero, nothing is written and the 7 is lost. |
| ProtoRoundTrip.PlacesRoundTrip | IOS/Pods/nanopb/pb_decode.c:964-986 | The items of an unpacked array of fixed count overwrite its places one after the other, whatever they held, and fill it. |
| ProtoRoundTrip.FillPackedRoundTrip | IOS/Pods/nanopb/pb_decode.c:420-448 | So do those of a packed one. |
| ProtoRoundTrip.UnknownFieldsIgnored | IOS/Pods/nanopb/pb_decode.c:958-961 | The same with any unknown fields before, between and after the fields of the message. |
| ProtoUnknown.SkipsExactly | IOS/Pods/nanopb/pb_decode.c:316-326 | Skipping passes over exactly a varint (wire type 0), eight octets (1), a length and as many octets (2) or four octets (5), as an encoder writes them and whatever follows; any other wire type is an error. |
| ProtoUnknown.FieldIgnored | IOS/Pods/nanopb/pb_decode.c:958-961 | Whatever the encoder writes for a field of any type and any presence, a reader whose descriptor lacks its tag passes over: it is an unknown field in the sense of the theorem on unknown fields. |
| ProtoUnknown.OlderReader | IOS/Pods/nanopb/pb_decode.c:901-1049 | A reader whose descriptor has only some of the writer's fields gets just these, as they were sent, wherever the others lie between them. |
| ProtoUnknown.NewerReader | IOS/Pods/nanopb/pb_decode.c:1007-1063 | A reader whose descriptor has fields that the writer does not send accepts the message exactly if none of the first 64 required fields is missing, and then has what was sent and, for each other field, the initial value the descriptor gives, or zero, or nothing, all the way down. |
| ProtoUnknown.SparseIsOlder | IOS/Pods/nanopb/pb_encode.c:494-516 | What such a writer sends is the encoding for the older descriptor. |
| ProtoUnknown.DefaultIsUntouched | IOS/Pods/nanopb/pb_decode.c:812-899 | What a field is set to before decoding: the initial value of its descriptor, or zero, with no flag, count or selector set, and so in each submessage. |
| ProtoMerge.OneAfterAnother | IOS/Pods/nanopb/pb_decode.c:901-1049 | Messages one after another merge: whatever follows the encoding of a message is decoded on top of that message, with its required fields seen. |
| ProtoMerge.OnTop | IOS/Pods/nanopb/pb_decode.c:901-1049 | So it is with any octets in two parts, if the first part is whole fields: the loop goes on with storage, required fields and the count of the array being filled as the first part left them. |
| ProtoMerge.LastWins | IOS/Pods/nanopb/pb_decode.c:411-470 | A singular value, or a member of a union with whatever it holds, takes the place of what the field held and of any other member chosen before. |
| ProtoMerge.GoesOn | IOS/Pods/nanopb/pb_decode.c:1463-1485 | A singular submessage that comes again is decoded on top of what it holds, or fails as that does. |
| ProtoMerge.OneMoreItem | IOS/Pods/nanopb/pb_decode.c:449-459 | An item that comes alone joins the items there are, a submessage decoded from its defaults; a full array refuses it. |
| ProtoMerge.PackedJoins | IOS/Pods/nanopb/pb_decode.c:420-448 | The items of another packed array join those there are. |
| ProtoExact.VarintLayout | IOS/Pods/nanopb/pb_encode.c:574-594 | A varint octet by octet: groups of seven bits, the least significant first, all but the last marked, and no leading zero group. |
| ProtoExact.FixedLayout | IOS/Pods/nanopb/pb_encode.c:607-617 | A 32-bit number octet by octet, the least significant first. |
| ProtoExact.DoubleLayout | IOS/Pods/nanopb/pb_encode.c:619-632 | A 64-bit number is its low half and then its high half. |
| ProtoExact.KeyLayout | IOS/Pods/nanopb/pb_encode.c:635-672 | The key of a field: its tag times eight plus 0 for varints, 1 for eight octets, 2 for octets with a length, 5 for four octets. |
| ProtoExact.ArrayLayout | IOS/Pods/nanopb/pb_encode.c:126-211 | An array of numbers is one field of octets with a length, any other array one field for each item; an empty array is nothing, one with more items than its storage an error. |
| ProtoExact.ItemsInOrder | IOS/Pods/nanopb/pb_encode.c:175-210 | Items are written in their order, each behind its key, if it has one. |
| ProtoExact.ZigZagIs | IOS/Pods/nanopb/pb_encode.c:596-605 | Zigzag takes n to 2n, and negative n to -2n - 1. |
| ProtoExact.ZeroIsLeftOut | IOS/Pods/nanopb/pb_encode.c:215-303 | Of a number, string or octets without a flag, nothing is written exactly if it is zero or empty. |
| ProtoExact.UnsignedThatFits | IOS/Pods/nanopb/pb_decode.c:1326-1348 | An unsigned number on the wire is taken exactly if it fits the field's width, and is an error otherwise. |
| ProtoExact.ZigZagThatFits | IOS/Pods/nanopb/pb_decode.c:1350-1372 | A zigzag number exactly if what it stands for fits. |
| ProtoExact.SignedThatFits | IOS/Pods/nanopb/pb_decode.c:1289-1324 | A signed number is read as 64 bits for storage of that width and else as its low 32 bits, and is taken exactly if that fits. |
| ProtoExact.OctetsThatFit | IOS/Pods/nanopb/pb_decode.c:1391-1508 | Octets, strings and fixed-length octets are taken exactly if they fit their storage beside the count or the terminator; no octets at all stand for zeros of fixed length. |
| ProtoExact.CutShort | IOS/Pods/nanopb/pb_decode.c:367-380 | A length that announces more octets than there are is an error. |
| ProtoExact.PackedThatFits | IOS/Pods/nanopb/pb_decode.c:420-448 | A packed array is taken exactly if there is room for all its items. |
| ProtoExact.FullArray | IOS/Pods/nanopb/pb_decode.c:449-459 | One more item for an array that is full is an error, of counted and of fixed size. |
| ProtoExact.EndsFull | IOS/Pods/nanopb/pb_decode.c:999-1045 | A message whose last array of fixed count is being filled ends well exactly if that array is full and the required fields were seen. |
| ProtoRoundTrip.EncodingIsInjective | IOS/Pods/nanopb/pb_encode.c:494-516 | No well-formed message is refused, and different messages that are sent whole have different encodings. |
| ProtoRoundTrip.FieldRoundTrip | IOS/Pods/nanopb/pb_decode.c:401-475 | What is written for a field takes it from its default to its value as sent and leaves all others alone; a required field is never written as nothing. |
| ProtoRoundTrip.ValueRoundTrip | IOS/Pods/nanopb/pb_decode.c:1289-1508 | Each kind of value comes back, with exactly its octets used up. |
| ProtoRoundTrip.NumberRoundTrip | IOS/Pods/nanopb/pb_decode.c:1289-1387 | A number of any of the five numeric types and four widths comes back, negative ones included. |
| ProtoRoundTrip.DataRoundTrip | IOS/Pods/nanopb/pb_decode.c:1391-1461 | Octets, strings and fixed-length octets come back. |
| ProtoRoundTrip.PackedRoundTrip | IOS/Pods/nanopb/pb_decode.c:420-448 | The items of a packed array come back in order. |
| ProtoRoundTrip.ItemsRoundTrip | IOS/Pods/nanopb/pb_decode.c:449-459 | So do those of an unpacked one. |
| ProtoRoundTrip.GoodEncodesFrom | IOS/Pods/nanopb/pb_encode.c:494-516 | The encoder accepts every well-formed message. |
| ProtoRoundTrip.IgnorableIsIgnored | IOS/Pods/nanopb/pb_decode.c:958-961 | A run of unknown fields leaves message and required-field record as they were. |
| ProtoMessage.SkippedIsDefault | IOS/Pods/nanopb/pb_encode.c:215-303 | A field without a flag that the encoder leaves out is at its default all the way down, so that leaving it out loses nothing, exactly if the test did not have to look at an array of fixed count. |
| ProtoMessage.SentAllWhole | IOS/Pods/nanopb/pb_encode.c:215-303 | What is sent of a message is the message exactly when no submessage that is left out holds such an array. |
| ProtoEncoder.OStream.Write | IOS/Pods/nanopb/pb_encode.c:101-119 | On a buffer stream the data is appended or, exactly when it does not fit, refused; a counting stream counts what a buffer stream would hold. |
| ProtoEncoder.OStream.EncodeMessage | IOS/Pods/nanopb/pb_encode.c:494-516 | At every nesting depth the stream receives exactly the octets of the specification, and success means exactly that there is an encoding and that it fits. |
| ProtoEncoder.OStream.EncodeField | IOS/Pods/nanopb/pb_encode.c:307-392 | The same for one field of any kind, an array of fixed count with as many items as it has room for. |
| ProtoEncoder.OStream.EncodeArray | IOS/Pods/nanopb/pb_encode.c:126-211 | The same for arrays, packed or not, and for more items than the array holds. |
| ProtoEncoder.OStream.EncodePacked | IOS/Pods/nanopb/pb_encode.c:139-181 | The size announced is the size written. |
| ProtoEncoder.OStream.PackedSize | IOS/Pods/nanopb/pb_encode.c:145-165 | The size computed without encoding, or by a counting pass, is that of the items. |
| ProtoEncoder.OStream.GetEncodedSize | IOS/Pods/nanopb/pb_encode.c:533-542 | The size reported is the length of the encoding, and there is one exactly when there is the other. |
| ProtoEncoder.OStream.EncodeSubmessage | IOS/Pods/nanopb/pb_encode.c:682-730 | Sizing pass, size and writing pass together write the prefixed encoding. |
| ProtoEncoder.OStream.WriteSubmessage | IOS/Pods/nanopb/pb_encode.c:702-729 | Given a size from the first pass and room for it, the second pass cannot fail: the error for a changed size is unreachable. |
| ProtoEncoder.OStream.EncodeNumber | IOS/Pods/nanopb/pb_encode.c:734-808 | The wire form of each numeric type; an unsupported width is an error. |
| ProtoEncoder.OStream.EncodeData | IOS/Pods/nanopb/pb_encode.c:810-868 | The wire form of octets, strings and fixed-length octets; octets longer than their storage are an error. |
| ProtoEncoder.OStream.EncodeVarint | IOS/Pods/nanopb/pb_encode.c:574-594 | The varint written is the specification's. |
| ProtoDecoder.IStream.Read | IOS/Pods/nanopb/pb_decode.c:100-132 | Gives exactly the next octets, or changes nothing when there are not enough. |
| ProtoDecoder.IStream.DecodeVarint | IOS/Pods/nanopb/pb_decode.c:250-270 | The stream's varint decoder is the specification's, in value, octets used and failure. |
| ProtoDecoder.IStream.DecodeVarint32 | IOS/Pods/nanopb/pb_decode.c:182-242 | So is the 32-bit one; the end of the stream is told from a number cut short. |
| ProtoDecoder.IStream.DecodeTag | IOS/Pods/nanopb/pb_decode.c:293-314 | A zero key ends a message like the end of the stream. |
| ProtoDecoder.IStream.SkipField | IOS/Pods/nanopb/pb_decode.c:316-326 | The stream skips what the specification does, of each wire type; ProtoUnknown.SkipsExactly says what that is. |
| ProtoDecoder.IStream.MakeSubstream | IOS/Pods/nanopb/pb_decode.c:367-380 | A substream covers exactly the announced octets, and both streams together still end where the stream did. |
| ProtoDecoder.IStream.CloseSubstream | IOS/Pods/nanopb/pb_decode.c:382-395 | Whatever was read of it, the stream goes on behind the substream. |
| ProtoDecoder.IStream.DecodeNumber | IOS/Pods/nanopb/pb_decode.c:1289-1387 | The value of each numeric type, with an error for one that does not fit its storage. |
| ProtoDecoder.IStream.DecodeData | IOS/Pods/nanopb/pb_decode.c:1391-1508 | Octets and strings, with an error when they do not fit. |
| ProtoDecoder.IStream.DecodePacked | IOS/Pods/nanopb/pb_decode.c:420-448 | All items of a packed array join the array, or too many are an error. |
| ProtoDecoder.IStream.DecodeSubmessage | IOS/Pods/nanopb/pb_decode.c:1463-1485 | A repeated submessage starts from defaults, another goes on from what it holds; the stream ends up behind it. |
| ProtoDecoder.IStream.DecodeField | IOS/Pods/nanopb/pb_decode.c:401-475 | Storage after one field, by its kind: value, flag, item appended, union member selected and the others deselected. |
| ProtoDecoder.IStream.DecodeNoInit | IOS/Pods/nanopb/pb_decode.c:901-1049 | The loop with wrapping iterator, bitmap and the count of the array being filled accepts exactly the inputs of the specification, with its result. |
| ProtoDecoder.IStream.DecodeAny | IOS/Pods/nanopb/pb_decode.c:964-996 | An array of fixed count goes on where it stood if it was the last one filled, else starts again at its front, and only when the last one is full. |
| ProtoDecoder.IStream.Fill | IOS/Pods/nanopb/pb_decode.c:418-459 | Items are put into the places from the given one on, packed or not; more than there are places is an error. |
| ProtoDecoder.IStream.DecodeMessage | IOS/Pods/nanopb/pb_decode.c:1051-1063 | The same from the defaults. |
| ProtoDecoder.FindsSame | IOS/Pods/nanopb/pb_common.c:78-95 | With distinct tags, the search around the ring finds what a search from the start finds. |
| ProtoIterator.FieldIter.Begin | IOS/Pods/nanopb/pb_common.c:8-18 | The iterator stands at the first field. |
| ProtoIterator.FieldIter.Next | IOS/Pods/nanopb/pb_common.c:20-76 | Position, data offset, size offset and required index are those of a fresh pass from the start, also after wrapping. |
| ProtoIterator.FieldIter.Find | IOS/Pods/nanopb/pb_common.c:78-95 | Terminates, succeeds exactly when a non-extension field has the tag (or the message is empty and the tag zero), and stands where it stood when it fails. |
| ProtoIterator.MarkSeen | IOS/Pods/nanopb/pb_decode.c:988-993 | Setting a bit in the bitmap records the field as seen, for the first 64 required fields. |
| ProtoIterator.AllSeen | IOS/Pods/nanopb/pb_decode.c:1007-1045 | All of the first 64 required fields were seen exactly when each of their numbers was. |
| ProtoIterator.WordFull | IOS/Pods/nanopb/pb_decode.c:1036-1044 | A partial word equals the shifted all-ones word exactly when its low bits are set. |
| ProtoIterator.WordsFull | IOS/Pods/nanopb/pb_decode.c:1027-1045 | Comparing whole words and then the rest decides whether each required field was seen. |
| ProtoIterator.CheckRequired | IOS/Pods/nanopb/pb_decode.c:1007-1045 | The check at the end of decoding passes exactly when each of the first 64 required fields was seen. |
| ProtoWire.ZigZagRoundTrip | IOS/Pods/nanopb/pb_decode.c:1240-1252 | Zigzag is a bijection between signed and unsigned 64-bit numbers. |
| ProtoWire.LittleRoundTrip | IOS/Pods/nanopb/pb_encode.c:607-632 | Fixed-width numbers come back from their octets. |
| Varints.EncodeLoop | IOS/Pods/nanopb/pb_encode.c:574-594 | The loop, with the last octet patched afterwards, writes the specification's octets, one to ten of them. |
| Varints.AtMostTen | IOS/Pods/nanopb/pb_encode.c:574-594 | Every 64-bit value takes at most ten octets. |
| Varints.RoundTrip64 | IOS/Pods/nanopb/pb_decode.c:250-270 | Every 64-bit value comes back, with exactly its octets used up, whatever follows. |
| Varints.Exact32 | IOS/Pods/nanopb/pb_decode.c:182-242 | For each 64-bit value, what the 32-bit decoder makes of its encoding: exact below 2^32, the low 32 bits for the lenient ones, an error for all others; below 2^63 it accepts exactly the values below 2^32. |
| Varints.SignExtended | IOS/Pods/nanopb/pb_decode.c:211-237 | A negative 32-bit number sign-extended to ten octets comes back as its low 32 bits. |
| Varints.OrAbove | IOS/Pods/nanopb/pb_decode.c:250-270 | Or-ing above the bits in use is adding, which is what the decoders' shifts rely on. |
| TlsClient.Machine.AtTheEnd | IOS/Pods/BoringSSL-GRPC/ssl/handshake_client.cc:1674-1705 | A client done below TLS 1.3 has gone through a flow RFC 5246 section 7.3 allows, with one Finished from each side, each over the transcript of everything before it. In a full handshake the messages exchanged show: if the ServerHello calls for a certificate, the last server Certificate was accepted; a ServerKeyExchange came if the ServerHello needs one; the client signed exactly if it was asked and showed a non-empty Certificate. What it sent and took of the optional messages is what the ServerHello says. |
| TlsServer.Machine.AtTheEnd | IOS/Pods/BoringSSL-GRPC/ssl/handshake_server.cc:1511-1537 | The same for a server: if the client showed a non-empty Certificate, that Certificate was accepted and a CertificateVerify over the transcript before it came; optional messages are those of the terms as the ServerHello left them, which no later step changes; Channel ID was taken only with ECDHE and, when resuming, with the original handshake hash. |
| TlsClient.Machine.ClientHandshake | IOS/Pods/BoringSSL-GRPC/ssl/handshake_client.cc:1707-1789 | Terminates: each change of state lowers a rank that depends on whether a session is resumed, although resumption goes backwards through the states. |
| TlsServer.Machine.ServerHandshake | IOS/Pods/BoringSSL-GRPC/ssl/handshake_server.cc:1539-1621 | The same for the server; every run of the machine ends with something to wait for, an error, or completion. |
| TlsClient.Machine.Step | IOS/Pods/BoringSSL-GRPC/ssl/handshake_client.cc:1707-1789 | A step that has to be tried again leaves log, inbox, transcript and choices untouched: no retry hashes, consumes or sends anything twice. A message is asked for only when none is there and the state takes one, a flush only after something was added. An error has a reason: code outside the model refused something, or the message in front is out of its turn, or does not fit, as Misplaced lists for each state. |
| TlsServer.Machine.Step | IOS/Pods/BoringSSL-GRPC/ssl/handshake_server.cc:1539-1621 | The same for the server. |
| TlsAgreement.Agreement | IOS/Pods/BoringSSL-GRPC/ssl/handshake.cc:380-429 | A Finished sent by one side and accepted by the other shows that both have exchanged the same messages up to it, or the two transcripts are different octets with the same MAC: an explicit collision. Nothing is assumed of the MAC. |
| TlsAgreement.TlsAgreement | IOS/Pods/BoringSSL-GRPC/ssl/handshake.cc:380-429 | So it is with the four-octet framing of TLS. |
| TlsAgreement.DtlsAgreement | IOS/Pods/BoringSSL-GRPC/ssl/handshake.cc:380-429 | And with the twelve-octet framing of DTLS, with a cookie exchange or without. |
| TlsAgreement.BothComplete | IOS/Pods/BoringSSL-GRPC/ssl/handshake.cc:380-476 | A client machine and a server machine that are both done below TLS 1.3, each Finished being the same at both ends, have exchanged the same messages from beginning to end, or the transcripts the two have before the Finished of one side are an explicit collision. |
| TlsAgreement.WholeAgreement | IOS/Pods/BoringSSL-GRPC/ssl/handshake.cc:380-429 | So it is with any two logs that went through a whole flow, full or resumed on either side: the Finished that ends one shows that its messages begin those of the other. |
| TlsAgreement.SameTranscript | IOS/Pods/BoringSSL-GRPC/ssl/handshake.cc:215-222 | Under a framing that tells messages apart, equal transcripts are transcripts of the same messages. |
| TlsAgreement.TlsIsFaithful | IOS/Pods/BoringSSL-GRPC/ssl/s3_both.cc:170-182 | The framing of TLS tells apart all messages whose length fits three octets. |
| TlsAgreement.DtlsIsFaithful | IOS/Pods/BoringSSL-GRPC/ssl/d1_both.cc:511-553 | That of DTLS does, too, for message numbers that fit two octets. |
| TlsFlow.LongestFull | IOS/Pods/BoringSSL-GRPC/ssl/handshake_client.cc:1707-1789 | The longest full handshake, with every optional message, is this list of nineteen steps. |
| TlsFlow.LongestResumed | IOS/Pods/BoringSSL-GRPC/ssl/handshake_client.cc:1707-1789 | And this is the longest abbreviated one. |
| TlsFlow.Shortest | IOS/Pods/BoringSSL-GRPC/ssl/handshake_client.cc:1707-1789 | And these are the shortest of either kind. |
| TlsFlow.OneFinishedEach | IOS/Pods/BoringSSL-GRPC/ssl/handshake.cc:431-476 | Every flow of RFC 5246 section 7.3, full or resumed and with any optional messages, has exactly one Finished from each side. |
| TlsFlow.AuthenticNext | IOS/Pods/BoringSSL-GRPC/ssl/handshake.cc:431-476 | One more message that vouches for the transcript so far keeps every earlier one valid. |
| TlsHandshake.Transcript.Update | IOS/Pods/BoringSSL-GRPC/ssl/ssl_transcript.cc:236-252 | Buffer and running hash, whichever are there, both cover everything added. |
| TlsHandshake.Transcript.InitHash | IOS/Pods/BoringSSL-GRPC/ssl/ssl_transcript.cc:181-195 | The hash starts with all that was buffered. |
| TlsHandshake.Handshake.HashMessage | IOS/Pods/BoringSSL-GRPC/ssl/handshake.cc:215-222 | The current message joins the transcript once. |
| TlsHandshake.Handshake.NextMessage | IOS/Pods/BoringSSL-GRPC/ssl/s3_both.cc:562-583 | The message released is the one hashed, and the log grows by it. |
| TlsHandshake.Handshake.AddMessage | IOS/Pods/BoringSSL-GRPC/ssl/s3_both.cc:184-205 | A message sent joins flight and transcript together. |
| TlsHandshake.Handshake.GetFinished | IOS/Pods/BoringSSL-GRPC/ssl/handshake.cc:380-429 | A Finished is accepted if and only if it is the MAC of the transcript before it; it is waited for exactly when no message is there, and that leaves no trace. |
| TlsHandshake.Handshake.SendFinished | IOS/Pods/BoringSSL-GRPC/ssl/handshake.cc:431-476 | The Finished sent is the MAC of the transcript before it. |
| TlsHandshake.Handshake.RestartTranscript | IOS/Pods/BoringSSL-GRPC/ssl/handshake_client.cc:520-532 | After a HelloVerifyRequest the transcript is empty, and neither it nor the first ClientHello is ever part of it. |
| TlsHandshake.Handshake.TakeCertificateVerify | IOS/Pods/BoringSSL-GRPC/ssl/handshake_server.cc:1269-1363 | The message is accepted if and only if it signs the transcript before it, and only then is it hashed. |
| TlsHandshake.Handshake.AddCertificateVerify | IOS/Pods/BoringSSL-GRPC/ssl/handshake_client.cc:1373-1455 | The signature sent is over the buffered transcript, which is then dropped. |
| TlsClient.Machine.DoStartConnect | IOS/Pods/BoringSSL-GRPC/ssl/handshake_client.cc:385-452 | The ClientHello goes out first. Order, transcript, rank and errors are as for every step; which state comes next, and what is waited for when no message is there, is stated for each case. |
| TlsClient.Machine.DoEnterEarlyData | IOS/Pods/BoringSSL-GRPC/ssl/handshake_client.cc:454-489 | A datagram client goes on to wait for a HelloVerifyRequest, every other one for the ServerHello; it returns early exactly if it has offered early data. Order, transcript, rank and errors are as for every step; which state comes next, and what is waited for when no message is there, is stated for each case. |
| TlsClient.Machine.DoReadHelloVerifyRequest | IOS/Pods/BoringSSL-GRPC/ssl/handshake_client.cc:491-533 | A HelloVerifyRequest restarts the exchange with a second ClientHello; anything else is left for the next state, and nothing is decided while no message is there. Order, transcript, rank and errors are as for every step; which state comes next, and what is waited for when no message is there, is stated for each case. |
| TlsClient.Machine.DoReadServerHello | IOS/Pods/BoringSSL-GRPC/ssl/handshake_client.cc:535-759 | The hash starts with the ServerHello; a resumed handshake goes to the ticket, a full one to the certificate, TLS 1.3 to its own machine. Order, transcript, rank and errors are as for every step; which state comes next, and what is waited for when no message is there, is stated for each case. |
| TlsClient.Machine.DoReadServerCertificate | IOS/Pods/BoringSSL-GRPC/ssl/handshake_client.cc:771-819 | A certificate cipher does not go on without a server Certificate. Order, transcript, rank and errors are as for every step; which state comes next, and what is waited for when no message is there, is stated for each case. |
| TlsClient.Machine.DoReadCertificateStatus | IOS/Pods/BoringSSL-GRPC/ssl/handshake_client.cc:821-869 | A CertificateStatus is taken only if announced and is optional. Order, transcript, rank and errors are as for every step; which state comes next, and what is waited for when no message is there, is stated for each case. |
| TlsClient.Machine.DoVerifyServerCertificate | IOS/Pods/BoringSSL-GRPC/ssl/handshake_client.cc:871-889 | A certificate cipher goes on only with an accepted chain; a retry leaves no trace. Order, transcript, rank and errors are as for every step; which state comes next, and what is waited for when no message is there, is stated for each case. |
| TlsClient.Machine.DoReadServerKeyExchange | IOS/Pods/BoringSSL-GRPC/ssl/handshake_client.cc:891-1071 | A ServerKeyExchange may be missing only if the key exchange can do without. Order, transcript, rank and errors are as for every step; which state comes next, and what is waited for when no message is there, is stated for each case. |
| TlsClient.Machine.DoReadCertificateRequest | IOS/Pods/BoringSSL-GRPC/ssl/handshake_client.cc:1073-1143 | Only a certificate cipher takes a CertificateRequest, which stays optional. Order, transcript, rank and errors are as for every step; which state comes next, and what is waited for when no message is there, is stated for each case. |
| TlsClient.Machine.DoReadServerHelloDone | IOS/Pods/BoringSSL-GRPC/ssl/handshake_client.cc:1145-1167 | The server's flight must end here. Order, transcript, rank and errors are as for every step; which state comes next, and what is waited for when no message is there, is stated for each case. |
| TlsClient.Machine.DoSendClientCertificate | IOS/Pods/BoringSSL-GRPC/ssl/handshake_client.cc:1169-1215 | A request is answered, if need be with an empty Certificate; a retry sends nothing. Order, transcript, rank and errors are as for every step; which state comes next, and what is waited for when no message is there, is stated for each case. |
| TlsClient.Machine.DoSendClientKeyExchange | IOS/Pods/BoringSSL-GRPC/ssl/handshake_client.cc:1220-1371 | A ClientKeyExchange always goes out. Order, transcript, rank and errors are as for every step; which state comes next, and what is waited for when no message is there, is stated for each case. |
| TlsClient.Machine.DoSendClientCertificateVerify | IOS/Pods/BoringSSL-GRPC/ssl/handshake_client.cc:1373-1455 | A signature goes out exactly when a non-empty certificate did; a pending signature sends nothing. Order, transcript, rank and errors are as for every step; which state comes next, and what is waited for when no message is there, is stated for each case. |
| TlsClient.Machine.DoSendClientFinished | IOS/Pods/BoringSSL-GRPC/ssl/handshake_client.cc:1457-1512 | ChangeCipherSpec, what was negotiated, and Finished go out together. Order, transcript, rank and errors are as for every step; which state comes next, and what is waited for when no message is there, is stated for each case. |
| TlsClient.Machine.DoFinishFlight | IOS/Pods/BoringSSL-GRPC/ssl/handshake_client.cc:1538-1564 | A resumed handshake ends here; a full one waits for the server, possibly after returning early. Order, transcript, rank and errors are as for every step; which state comes next, and what is waited for when no message is there, is stated for each case. |
| TlsClient.Machine.DoReadSessionTicket | IOS/Pods/BoringSSL-GRPC/ssl/handshake_client.cc:1566-1647 | A ticket is taken exactly when promised. Order, transcript, rank and errors are as for every step; which state comes next, and what is waited for when no message is there, is stated for each case. |
| TlsClient.Machine.DoProcessChangeCipherSpec | IOS/Pods/BoringSSL-GRPC/ssl/handshake_client.cc:1649-1656 | New read keys follow the ChangeCipherSpec. Order, transcript, rank and errors are as for every step; which state comes next, and what is waited for when no message is there, is stated for each case. |
| TlsClient.Machine.DoReadServerFinished | IOS/Pods/BoringSSL-GRPC/ssl/handshake_client.cc:1658-1672 | A resumed handshake then sends its own Finished, a full one is over. Order, transcript, rank and errors are as for every step; which state comes next, and what is waited for when no message is there, is stated for each case. |
| TlsServer.Machine.DoReadClientHello | IOS/Pods/BoringSSL-GRPC/ssl/handshake_server.cc:432-510 | The ClientHello is looked at but not released; a retry leaves no trace. Order, transcript, rank and errors are as for every step; which state comes next, and what is waited for when no message is there, is stated for each case. |
| TlsServer.Machine.DoSelectCertificate | IOS/Pods/BoringSSL-GRPC/ssl/handshake_server.cc:512-560 | A pending certificate selection leaves no trace. Order, transcript, rank and errors are as for every step; which state comes next, and what is waited for when no message is there, is stated for each case. |
| TlsServer.Machine.DoSelectParameters | IOS/Pods/BoringSSL-GRPC/ssl/handshake_server.cc:572-684 | The ClientHello is hashed and released once, after every asynchronous wait. Order, transcript, rank and errors are as for every step; which state comes next, and what is waited for when no message is there, is stated for each case. |
| TlsServer.Machine.DoSendServerHello | IOS/Pods/BoringSSL-GRPC/ssl/handshake_server.cc:686-752 | A resumed handshake goes on to the server's Finished, a full one to its certificate. Extensions may be withdrawn here and none granted: Channel ID does not outlive this step without ECDHE or, when resuming, without the original handshake hash. Order, transcript, rank and errors are as for every step; which state comes next, and what is waited for when no message is there, is stated for each case. |
| TlsServer.Machine.DoSendServerCertificate | IOS/Pods/BoringSSL-GRPC/ssl/handshake_server.cc:754-840 | Certificate and stapled status go out exactly when the cipher and the negotiation call for them. Order, transcript, rank and errors are as for every step; which state comes next, and what is waited for when no message is there, is stated for each case. |
| TlsServer.Machine.DoSendServerKeyExchange | IOS/Pods/BoringSSL-GRPC/ssl/handshake_server.cc:842-912 | A ServerKeyExchange goes out exactly when there are parameters; a pending signature sends nothing. Order, transcript, rank and errors are as for every step; which state comes next, and what is waited for when no message is there, is stated for each case. |
| TlsServer.Machine.DoSendServerHelloDone | IOS/Pods/BoringSSL-GRPC/ssl/handshake_server.cc:914-947 | A CertificateRequest goes out exactly when a certificate is wanted. Order, transcript, rank and errors are as for every step; which state comes next, and what is waited for when no message is there, is stated for each case. |
| TlsServer.Machine.DoReadClientCertificate | IOS/Pods/BoringSSL-GRPC/ssl/handshake_server.cc:949-1040 | Asked for, a Certificate must come, empty or not. Order, transcript, rank and errors are as for every step; which state comes next, and what is waited for when no message is there, is stated for each case. |
| TlsServer.Machine.DoVerifyClientCertificate | IOS/Pods/BoringSSL-GRPC/ssl/handshake_server.cc:1042-1056 | A chain that was shown must be accepted; a retry leaves no trace. Order, transcript, rank and errors are as for every step; which state comes next, and what is waited for when no message is there, is stated for each case. |
| TlsServer.Machine.DoReadClientKeyExchange | IOS/Pods/BoringSSL-GRPC/ssl/handshake_server.cc:1058-1267 | The ClientKeyExchange is released only after an asynchronous decryption has ended. Order, transcript, rank and errors are as for every step; which state comes next, and what is waited for when no message is there, is stated for each case. |
| TlsServer.Machine.DoReadClientCertificateVerify | IOS/Pods/BoringSSL-GRPC/ssl/handshake_server.cc:1269-1363 | A client that showed a chain must prove it holds the key; another is not asked to. Order, transcript, rank and errors are as for every step; which state comes next, and what is waited for when no message is there, is stated for each case. |
| TlsServer.Machine.DoReadNextProto | IOS/Pods/BoringSSL-GRPC/ssl/handshake_server.cc:1379-1413 | Taken exactly when negotiated. Order, transcript, rank and errors are as for every step; which state comes next, and what is waited for when no message is there, is stated for each case. |
| TlsServer.Machine.DoReadChannelId | IOS/Pods/BoringSSL-GRPC/ssl/handshake_server.cc:1415-1437 | Taken exactly when negotiated. Order, transcript, rank and errors are as for every step; which state comes next, and what is waited for when no message is there, is stated for each case. |
| TlsServer.Machine.DoReadClientFinished | IOS/Pods/BoringSSL-GRPC/ssl/handshake_server.cc:1439-1461 | A resumed handshake is then over, a full one sends its own Finished. Order, transcript, rank and errors are as for every step; which state comes next, and what is waited for when no message is there, is stated for each case. |
| TlsServer.Machine.DoSendServerFinished | IOS/Pods/BoringSSL-GRPC/ssl/handshake_server.cc:1463-1509 | Ticket if promised, ChangeCipherSpec and Finished go out together. Order, transcript, rank and errors are as for every step; which state comes next, and what is waited for when no message is there, is stated for each case. |
| TlsServer.Machine.DoFinishServerHandshake | IOS/Pods/BoringSSL-GRPC/ssl/handshake_server.cc:1511-1537 | Nothing is sent or hashed any more. Order, transcript, rank and errors are as for every step; which state comes next, and what is waited for when no message is there, is stated for each case. |
| TlsClient.Machine.CookieIsNoError | IOS/Pods/BoringSSL-GRPC/ssl/handshake_client.cc:454-533 | A HelloVerifyRequest that answers the first ClientHello is never out of its turn: a datagram client does not wait for a ServerHello, without having been asked for a cookie, unless it has a message before it that is not one. |
| TlsDriver.ClientConnection.RunHandshake | IOS/Pods/BoringSSL-GRPC/ssl/handshake.cc:491-628 | After an error every later call returns it and touches nothing; success without an early return means the machine is complete. Unless it failed, the machine has received exactly the messages of the records read, in order and each once, whether released or still waiting; the log only grows. What is waited for afterwards is the transport or nothing: a wait handed to the caller is over. |
| TlsDriver.ServerConnection.RunHandshake | IOS/Pods/BoringSSL-GRPC/ssl/handshake.cc:491-628 | The same around the server. |
| TlsDriver.ResolveUses | IOS/Pods/BoringSSL-GRPC/ssl/handshake.cc:495-611 | Resolving a wait takes at most one answer of the transport and hands on exactly the messages in it; only a finished wait is resolved without one. |
| TlsDriver.StopsHow | IOS/Pods/BoringSSL-GRPC/ssl/handshake.cc:495-611 | A wait that goes back to the caller reports success only by returning early. |
| TlsDriver.ResolvesHow | IOS/Pods/BoringSSL-GRPC/ssl/handshake.cc:495-611 | For each wait what it takes to go on, to try again or to stop, and with what result. |
| TlsChannel.Channel.InOrder | IOS/Pods/BoringSSL-GRPC/ssl/s3_both.cc:184-205 | However messages are cut into records and octets come through the transport, the messages taken out are the first of those put in, octet for octet. |
| TlsChannel.Channel.AllTaken | IOS/Pods/BoringSSL-GRPC/ssl/s3_both.cc:427-439 | Nothing is lost: once everything is out, arrived and used up and no message can be had, all were taken. |
| TlsChannel.OpensNext | IOS/Pods/BoringSSL-GRPC/ssl/tls_record.cc:206-374 | Opening what is buffered yields only the next record as it was sealed, and does so as soon as its last octet is there. |
| TlsChannel.Channel.Receive | IOS/Pods/BoringSSL-GRPC/ssl/handshake.cc:508-546 | Reading a record, or part of one, keeps the channel in step, also across alerts. |
| TlsChannel.Channel.ReceiveChangeCipherSpec | IOS/Pods/BoringSSL-GRPC/ssl/handshake.cc:508-546 | So does reading a ChangeCipherSpec and taking up the new keys. |
| TlsStream.SameMessages | IOS/Pods/BoringSSL-GRPC/ssl/s3_both.cc:399-425 | The stream determines its messages: if one list of messages begins another's octets, it begins the other list. |
| TlsStream.NothingIsLeft | IOS/Pods/BoringSSL-GRPC/ssl/s3_both.cc:399-425 | If messages and a remainder without a complete message spell a list of messages, they are that list and nothing remains. |
| TlsStream.FirstMessage | IOS/Pods/BoringSSL-GRPC/ssl/s3_both.cc:399-425 | A message is found exactly when all of it is there, and never more is asked for than it has. |
| TlsStream.FrameSerialized | IOS/Pods/BoringSSL-GRPC/ssl/tls_record.cc:220-264 | A record is cut off exactly when all of it is there, and never more is asked for than it has. |
| TlsStream.MessageLayout | IOS/Pods/BoringSSL-GRPC/ssl/s3_both.cc:399-425 | An octet string is one message exactly if the three octets behind the first announce the rest of it, most significant first. |
| TlsStream.RecordLayout | IOS/Pods/BoringSSL-GRPC/ssl/tls_record.cc:220-228 | A record header octet by octet: type, version, length. |
| TlsStream.RefusedExactly | IOS/Pods/BoringSSL-GRPC/ssl/tls_record.cc:230-252 | A record is refused before decryption exactly for a version other than that of the cipher (the first octet other than 3 under the null cipher) or more than 16704 octets. |
| TlsStream.ChunksTile | IOS/Pods/BoringSSL-GRPC/ssl/s3_both.cc:184-195 | The chunks of a message make it up in order, none too long, only the last short, and an empty message has one. |
| TlsWriter.FlightWriter.AddRecord | IOS/Pods/BoringSSL-GRPC/ssl/s3_both.cc:135-165 | The flight grows by one sealed record under the keys and number in use, exactly when the AEAD seals it and the number does not run over; room always suffices. |
| TlsWriter.FlightWriter.AddMessage | IOS/Pods/BoringSSL-GRPC/ssl/s3_both.cc:184-205 | The records added hold the message cut into chunks; it fails only at a chunk that cannot be sealed, and then they hold the chunks before it and the message is never sent. |
| TlsWriter.FlightWriter.ChangeCipherSpec | IOS/Pods/BoringSSL-GRPC/ssl/s3_both.cc:207-218 | The ChangeCipherSpec is sealed with the old keys, exactly when it can be, and the new ones start at zero. |
| TlsWriter.FlightWriter.SetWriteState | IOS/Pods/BoringSSL-GRPC/ssl/tls_method.cc:97-101 | New keys and number zero; the flight is untouched. |
| TlsWriter.FlightWriter.FlushFlight | IOS/Pods/BoringSSL-GRPC/ssl/s3_both.cc:231-279 | Over any number of interrupted calls each octet goes out once and in order, the write buffer's before the flight's; success means all that was sealed is out, and without a flight there is nothing to do. It fails only when the transport does, the connection is shut or the flight is longer than an int. |
| TlsWriter.FlightWriter.WriteFlight | IOS/Pods/BoringSSL-GRPC/ssl/s3_both.cc:257-269 | Resumes where the last attempt stopped. |
| TlsWriter.FlightWriter.WriteRecord | IOS/Pods/BoringSSL-GRPC/ssl/s3_pkt.cc:221-289 | What is left of a flight goes out in front of the record; a record that did not get out is finished before another is sealed. A first attempt fails only for its length, for octets still in the buffer, for lack of room, or if the AEAD, the number or the transport fails. |
| TlsWriter.FlightWriter.WritePending | IOS/Pods/BoringSSL-GRPC/ssl/s3_pkt.cc:202-218 | Only the same record can be retried, and success reports its length. |
| TlsReader.HandshakeReader.OpenRecord | IOS/Pods/BoringSSL-GRPC/ssl/tls_record.cc:206-374 | A record passed on is the one opened; only alerts are dropped; no handshake record is opened while a message waits, no other type while octets do. What was opened is refused exactly if the number runs over, it is too long, it is the 33rd empty record in a row, it is an alert that is not tolerable, or it is of another type while octets wait. |
| TlsReader.HandshakeReader.ProcessAlert | IOS/Pods/BoringSSL-GRPC/ssl/tls_record.cc:551-601 | Only a warning close_notify closes; a fifth warning and everything else fails. |
| TlsReader.HandshakeReader.WelcomeExactly | IOS/Pods/BoringSSL-GRPC/ssl/s3_both.cc:441-459 | More handshake octets are welcome exactly if no whole message waits and the one that begins does not announce more than is allowed. |
| TlsReader.HandshakeReader.WaitingExactly | IOS/Pods/BoringSSL-GRPC/ssl/s3_both.cc:461-473 | Octets wait exactly if there are any besides those of the message in hand. |
| TlsReader.HandshakeReader.OpenHandshake | IOS/Pods/BoringSSL-GRPC/ssl/s3_both.cc:529-559 | Exactly the octets of accepted handshake records join the buffer; an error is final. |
| TlsReader.HandshakeReader.OpenChangeCipherSpec | IOS/Pods/BoringSSL-GRPC/ssl/s3_pkt.cc:351-375 | Accepted only as the single octet 1 and with no handshake octets waiting. |
| TlsReader.HandshakeReader.GetMessage | IOS/Pods/BoringSSL-GRPC/ssl/s3_both.cc:427-439 | The first complete message, all of whose octets were opened with the keys of one epoch, whatever the peer sends. |
| TlsReader.HandshakeReader.NextMessage | IOS/Pods/BoringSSL-GRPC/ssl/s3_both.cc:562-583 | Drops exactly that message. |
| TlsReader.HandshakeReader.SetReadState | IOS/Pods/BoringSSL-GRPC/ssl/tls_method.cc:84-95 | Refused exactly while octets wait that are not part of the message in hand. |
| TlsReader.HandshakeReader.OnHandshakeComplete | IOS/Pods/BoringSSL-GRPC/ssl/tls_method.cc:70-82 | An empty buffer is released, a non-empty one kept. |
| TlsReader.HandshakeReader.HandleOpenRecord | IOS/Pods/BoringSSL-GRPC/ssl/ssl_buffer.cc:187-225 | Uses up exactly the opened octets, or reads on when some are missing, losing none. |
| SslBuffer.SSLBuffer.EnsureCap | IOS/Pods/BoringSSL-GRPC/ssl/ssl_buffer.cc:47-81 | More than 65535 octets are refused, exactly; the contents survive growth for every capacity, what follows the header is aligned in new memory, and for capacities up to 65528 the end of the window has a 16-bit offset. |
| SslBuffer.SSLBuffer.Append | IOS/Pods/BoringSSL-GRPC/ssl/ssl_buffer.cc:83-88 | Octets written behind the contents and announced are the new end of the contents. |
| SslBuffer.SSLBuffer.Consume | IOS/Pods/BoringSSL-GRPC/ssl/ssl_buffer.cc:90-97 | Drops octets from the front; no 16-bit counter wraps in a valid buffer. |
| SslBuffer.SSLBuffer.DiscardConsumed | IOS/Pods/BoringSSL-GRPC/ssl/ssl_buffer.cc:99-103 | Memory is released exactly when nothing is left. |
| SslBuffer.AdvanceIsExact | IOS/Pods/BoringSSL-GRPC/ssl/ssl_buffer.cc:90-97 | The 16-bit offset is exact for every consumption exactly when the window ends before 65536. |
| SslBuffer.SlackIsNeeded | IOS/Pods/BoringSSL-GRPC/ssl/ssl_buffer.cc:47-97 | Without room for the slack an allowed capacity can wrap the offset with octets unread. |
| SslBuffer.ReadBufferExtendTo | IOS/Pods/BoringSSL-GRPC/ssl/ssl_buffer.cc:149-185 | However reads are cut, for every length, no octet is lost, repeated or moved, and none beyond the length asked for is read. |
| SslBuffer.WriteBufferFlush | IOS/Pods/BoringSSL-GRPC/ssl/ssl_buffer.cc:239-252 | Over all attempts each octet is written once and in order. |
| CipherChoice.ChooseCipher | IOS/Pods/BoringSSL-GRPC/ssl/handshake_server.cc:357-424 | None exactly when no shared cipher is usable; else the best one by server groups or by the client's list, as the option says. |
| CipherChoice.Choose | IOS/Pods/BoringSSL-GRPC/ssl/handshake_server.cc:390-423 | The loop with its running group minimum finds a candidate of the earliest group that has one, earliest in the other list within it. |
| CipherChoice.BestIsUnique | IOS/Pods/BoringSSL-GRPC/ssl/handshake_server.cc:357-424 | That condition determines the cipher. |
| CipherChoice.BestByFlags | IOS/Pods/BoringSSL-GRPC/ssl/handshake_server.cc:390-423 | That condition in terms of the flags: against every other candidate the best one stands earlier in the other list if every flag between the two says that the group goes on, and otherwise stands first. |
| CipherChoice.ClientPreference | IOS/Pods/BoringSSL-GRPC/ssl/handshake_server.cc:381-385 | Without groups it is the first usable cipher of the leading list. |
| Premaster.SelectPremaster | IOS/Pods/BoringSSL-GRPC/ssl/handshake_server.cc:1149-1178 | The branch-free selection is the branching one: the last 48 octets exactly when padding and version are right, else the random ones; short blocks are refused. |
| Premaster.CheckBlock | IOS/Pods/BoringSSL-GRPC/ssl/handshake_server.cc:1157-1171 | The mask collected over the whole block is all ones exactly when it is properly padded and begins with the offered version. |
| Premaster.IsZeroMask | IOS/Pods/BoringSSL-GRPC/crypto/internal.h:303-322 | The word trick yields all ones exactly for zero. |
| Premaster.EqMask | IOS/Pods/BoringSSL-GRPC/crypto/internal.h:325-346 | And exactly for equal words. |
| Premaster.SelectMask | IOS/Pods/BoringSSL-GRPC/crypto/internal.h:351-362 | A mask selects one of two octets. |
| ReferenceCount.StepRefines | IOS/Pods/BoringSSL-GRPC/crypto/refcount_c11.c:37-65 | Every step of any thread, with spurious failures, changes nothing or is one operation of the locked version with its result; it aborts only when that would. |
| ReferenceCount.Linearizes | IOS/Pods/BoringSSL-GRPC/crypto/refcount_c11.c:37-65 | Any interleaving is a run of locked operations one after the other. |
| ReferenceCount.Saturated | IOS/Pods/BoringSSL-GRPC/crypto/refcount_c11.c:41 | A count that reaches the maximum never changes again. |
| ReferenceCount.ZeroOnce | IOS/Pods/BoringSSL-GRPC/crypto/refcount_c11.c:49-65 | In an unsaturated run of owned references the count is references taken less returned, and zero is reported exactly when it is reached, once. |
| AtomicCount.SharedCount.Inc | IOS/Pods/BoringSSL-GRPC/crypto/refcount_c11.c:37-47 | The loop ends, and at one moment during the call the locked increment took effect on the count as it was: it is the only operation this call added to the history. |
| AtomicCount.SharedCount.DecAndTestZero | IOS/Pods/BoringSSL-GRPC/crypto/refcount_c11.c:49-65 | The same for the decrement, with the answer of the locked version at that moment; an abort adds no operation and happens only where the locked version aborts. |
| AtomicCount.LockedCount.Inc | IOS/Pods/BoringSSL-GRPC/crypto/refcount_lock.c:29-35 | The locked increment, which stops at the maximum. |
| AtomicCount.LockedCount.DecAndTestZero | IOS/Pods/BoringSSL-GRPC/crypto/refcount_lock.c:37-51 | The locked decrement, which aborts at zero and reports reaching it. |

## Left out

- DtlsSystem.EndToEnd: message numbers and epochs are not wrapped at 16 bits, because the code's own window does not survive the wrap; runs are assumed to add at most 65536 messages and to stay below epoch 65535.
- ProtoRoundTrip.MessageRoundTrip: holds for encodings shorter than 2^32 octets, because the decoder reads lengths as 32-bit numbers while the encoder writes 64-bit ones.
- DtlsTimer.Timer.GetTimeout: below the 15 millisecond limit and beyond the integer limit the time left is not the exact difference, as in the code.
- AtomicCount.SharedCount.Inc: interference is finite, because a compare-and-swap loop ends only then; the abort is an outcome, not the end of the process.
- SslBuffer.SSLBuffer.EnsureCap: allocation succeeds and returns an arbitrary address.
- TlsWriter.FlightWriter.WriteRecord: the 1/n-1 record splitting of TLS 1.0 CBC ciphers is not modelled, and neither is a room from 65529 to 65535, for which the offset can wrap as described above.
- TlsWriter.FlightWriter.WritePending: the check that a retry offers the same memory is not modelled; memory addresses are not part of the model.
- TlsChannel.Channel.Receive: the two ends take up new keys right behind a ChangeCipherSpec, as the handshake states do; other calling orders are not considered.
- CipherChoice.ChooseCipher: which ciphers are usable (masks and versions) is a parameter.
- Cryptography: AEADs, MACs, signatures, key exchange and certificate verification are uninterpreted; ciphertext integrity is not needed for the DTLS theorem because the network only rearranges records that were sealed.
- TLS 1.3, SSL 3.0, renegotiation, V2ClientHello and the detection of HTTP requests: other machines and entry points. The TLS 1.3 branch of each state machine is a step with an arbitrary outcome.
- Parsing and writing of hello extensions, key exchange contents, tickets and the session cache: arbitrary choices inside the steps; the contents of messages other than Finished and CertificateVerify are arbitrary octets, of which uninterpreted functions say what a ServerHello offers and whether a Certificate is non-empty and acceptable. What a server writes into its ServerHello is not tied to the terms it settled on, and which key exchange a cipher has is a choice.
- The numbers of DTLS messages are arbitrary in the handshake machines; DtlsSender and IncomingMessages give them.
- A step of a handshake machine that code outside the model refuses is refused before it changes anything; in the code it may have hashed or queued messages by then, which nothing uses after the error.
- A client certificate is assumed not to change between being shown and being used to sign.
- That a state machine asks for a flush before it waits for the peer is not stated.
- Cookies are only modelled on the client side; this server never asks for one.
- Sending of alerts, message callbacks, error texts and error queues.
- Malloc failure, casts and struct layout; HmFragment data and masks are sequences held in fields rather than separate heap blocks, and decrypting in place returns a value.
- nanopb structs are typed values; a string's value ends at its terminator. Pointer fields, callback fields and extensions with registered handlers call user code or are other builds.
- ProtoMessage.SkippedIsDefault: arrays of fixed count directly inside a submessage without a flag are limited to items whose first word a value determines (numbers of four or eight octets, octet arrays); the test reads bytes that values of other types do not fix.
- ProtoMessage.SentAllWhole: which submessages are left out is stated for the same item types.
- nanopb arrays of fixed count: the memory of places nothing was decoded into is not modelled, neither what it was nor that it is zero in a oneof member just selected; encoding an array with such a place is an error in the model and garbage in the code.
- Bitwise operations on machine words in nanopb are arithmetic on numbers with the width written out; those of the replay window, the masks and the premaster check are bit-vectors.
- Application code, user interface, persistence and the remaining pods.
