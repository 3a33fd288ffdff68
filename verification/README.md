# A Dafny model of the DroneCAN node

This project models the DroneCAN (UAVCAN v0) node of this repository: the vendored transport stack in `canard.c`, the two
message codecs on top of it, and the small publishing service that an Arduino sketch uses. It follows section 4, "CAN bus
transport layer", of the UAVCAN v0 specification as far as the code does, in the configuration in force: classic CAN, a
32-bit memory layout (six-byte head, 28-byte buffer blocks in 32-byte pool blocks), a ten-bit payload length.

The model has two levels.

* The *specification level* describes each call as a function on values: `Receiver` is the receive state machine of one
  transfer descriptor, `RxBuffer` the scattered storage of a half-received transfer, `TxQueue` the transmission queue, `Library`
  the calls on a whole node. The theorems about runs are proved here.
* The *code level* has the source's own form. `Instance.CanardInstance` holds the list heads, the statistics and the arena
  (an array of link words and an array of block contents); its methods relink lists, walk chains and write blocks in place as
  the C functions do, and every one of them is proved to do what the specification level says, on every path including failed
  allocations. `BitCopy`, `Descatter`, `Scalar`, `NodeStatus` and `BatteryInfo` work in place on byte arrays; `Service` and
  `ServiceApi` are the C++ classes.

Reading order: `Types`, `CanId`, `CrcRegister`, `Crc`, `SignatureBits`, `TxQueue`, `Words`, `BusArbitration`, `Fragment`,
`RxBuffer`, `Receiver`, `Wire`, `Splicing`;
`Reassembly` (runs of frames, and transfers cut in any way), `RoundTrip` (transfers cut by this library), `FinalFrame`,
`StrayStart`, `Halfway`, `Streams`, `LongTransfers`, `Library`, `SharedCounter`, `Preemption`, `Interleaving`, `Deliveries`,
`Gate`, `Leftovers`, `PoolTrace`, `EndToEnd`, `Transmission`; then `Arena`, `ArenaRx`, `Ownership`, `Steps`, `Instance`; then
`BitCopy`, `Descatter`, `Scalar`, `Dsdl`, `NodeStatus`, `BatteryInfo`, `Layout`; then `Service`, `Sends`, `Schedule`,
`ServiceApi`, `Messages`, `Listening`, `Published`.

Seven modules say in bare bits and numbers, without the functions of the model, what goes over the bus and what is answered:
`BusArbitration` (which of two frames the bus lets through), `SignatureBits` (the 64 bits before the payload in a CRC), `Wire`
and `Sends` (identifiers, tail bytes, first frames and return codes), `Gate` (which frames are refused, and with which code),
`Layout` and `Published` (every byte of a published message).

`dafny verify dfyconfig.toml` checks everything.

## Conventions

* What freshly allocated memory happens to hold is a parameter (`junk`), so nothing depends on it.
* `should_accept` is a function of data type, transfer type and source. The application callback returns the transfer it was given;
  whether it releases the payload itself is a parameter (`releases`).
* Host byte order is a parameter (`bigEndian`), and so are the outcomes of the driver's sends.
* Integer widths are explicit where the source wraps: the ten-bit payload length, 64-bit timestamps, five-bit transfer IDs, the
  32-bit index arithmetic of the buffer, the 32-bit millisecond clock.
* Bits are numbered as on the wire: most significant bit of byte 0 first.
* Assertions of the source are not branches of the model. Where one could fail, a lemma says exactly when.

## Findings

* `Leftovers`: the assertion that no block is held when the receiver prepares for the next transfer (canard.c:1187) fails
  exactly when a single-frame transfer arrives while blocks are held and the restart rule does not fire. What follows is worse
  than the assertion: the next multi-frame transfer under the expected transfer ID passes its CRC check and is delivered with
  the first leftover byte in place of its own seventh byte. `LeftoversReached` is the whole run, from a receiver that knows
  nothing: two frames of a transfer, a single-frame transfer with the same transfer ID, and the next transfer.
* `SharedCounter`: canard.h:406-407 forbids one transfer ID counter for messages with different descriptors; Canard_wrapper.h:39
  uses one for all. The cost is exact: a multi-frame report is lost, whole and silently, if and only if a multiple of 32
  messages was sent from the last report the receiver took on, and no more than two seconds have passed since that one began.
  With memory for it every other report arrives, in order. `Listening` says so of whole runs of the service.
* `StrayStart`: a start frame that is refused in the middle of a transfer still overwrites the running CRC (canard.c:343). The
  transfer is then delivered if and only if the CRC of the bytes received before happens to be that of no bytes at all. A
  repetition of the transfer's own first frame is such a frame when a set toggle is due. When a clear toggle is due, after
  every second frame, the repetition passes all checks and is stored as the next frame (canard.c:412-450): its bytes are
  received twice, and the next genuine frame is refused for its toggle. If that was the final frame, nothing is delivered;
  otherwise the rest is delivered, with those bytes doubled and the refused ones missing, if and only if the CRC of the first
  frame's bytes is that of all bytes up to and with the refused frame.
* `Preemption`: under one descriptor the library keeps one half-received transfer. When a second transfer comes in the middle of
  the first, as happens when it is queued with a higher priority, the first one is lost, except that it survives, by a
  coincidence of the CRC, a second one of several frames that has the transfer ID before its own. A second one of several
  frames under the same transfer ID is worse: when a clear toggle is due it is delivered behind the bytes received before, and
  the CRC checks. That is what becomes of a transfer that its sender begins again after an even number of its frames.
* `FinalFrame`: the position where the final frame continues in the last block is asserted to lie inside the block
  (canard.c:487). With at most 1023 bytes before the final frame it does if and only if these do not fill the head and one or
  more blocks exactly. Frames of this library never fill them, but their transfers may be longer, and then the ten-bit length
  has wrapped: of a transfer sent by this library the position is inside if and only if the bytes before its final frame are
  at most 1023, or less than six modulo 1024. Frames of 5, 7, 7, 7, 7 and 1 bytes make the assertion fail, and so does this
  library's transfer of 1035 bytes. The first is delivered correctly all the same.
* `LongTransfers`: the documentation limits a transfer to 1023 bytes; the length announced at delivery is right up to 1027 bytes,
  because the final frame is added outside the ten-bit field. Longer transfers are delivered too, with a right CRC and a wrong
  length: 1028 bytes are announced as four.
* The documentation has a delivery stamped with the time of its first frame (canard.h:310-312); the code stamps it with that of
  the call that brings the last one (canard.c:499). The two are the same if and only if the last frame comes at the very time of
  the first (`RoundTrip.FirstTimeExactly`): two frames at 1000000 and 1000500 are delivered with 1000500.
* `computeTransferIDForwardDistance(a, b)` computes the distance from `b` to `a` (canard.c:909-917); the model follows the code.
* A send that the driver refuses is reported to the error callback but not remembered in the health flag, because the
  outcome is kept in a local variable of the same name (DroneCAN_service_base.cpp:30).
* `BatteryInfo`: the inferred name length of a battery report stays within the 31-byte name exactly for payloads of 23 to 54
  bytes, and for the same lengths 256 bytes further on (uavcan.equipment.power.BatteryInfo.h:191-201). That does not make the
  decoder write beyond the array: of a payload of less than 23 bytes there is no byte left to read, and nothing is written. It
  writes beyond the array if and only if the payload has more than 54 bytes and its length, less 23, is more than 31 modulo
  256; 55 bytes under the type of battery reports are delivered and do it.
* `Schedule`: a report that is asked for is published at once but leaves the schedule alone (DroneCAN_service_API.cpp:16-24). The
  next one then follows after at least a period if and only if no poll before the end of that period is due by the old
  schedule; a report asked for every half second, when the first second is over, is followed by another at the next poll.
* Publishing in time needs `period + polling interval <= 2^32` milliseconds, and that is the exact limit.

## Model

| member | source | states |
|---|---|---|
| SignatureBits.SignatureByteBit | canard.c:1639-1646 | bit j of the k-th byte that goes into the CRC of a signature is bit 8k + 7 - j of the number, for all k, j below 8 |
| SignatureBits.TransferCrcIsBitwise | canard.c:200-227 | the CRC of a transfer is the bit register, started from 0xFFFF, over the 64 bits of the signature in that order and then over the payload as the bits of the wire |
| SignatureBits.CheckValue | canard.c:1622-1655 | the CRC of the nine characters "123456789" is 0x29B1, the check value of CRC-16/CCITT-FALSE |
| CanId.TailByteFields | canard.c:54-59 | start, end, toggle and transfer ID are read back from the tail byte they were packed into |
| CanId.DescriptorUnpacks | canard.c:50-52 | the four fields of a transfer descriptor can be recovered from it |
| CanId.DescriptorInjective | canard.c:50-52 | two transfers share a descriptor only if data type, transfer type, source and destination agree |
| CanId.MessageIdReads | canard.c:179-187 | a message identifier fits 29 bits and the receiver reads kind, data type, source and priority back |
| CanId.AnonymousIdReads | canard.c:160-178 | an anonymous identifier reads as source 0 with the two-bit data type, whatever discriminator the CRC gives |
| CanId.ServiceIdReads | canard.c:256-258 | a service identifier reads back as its priority, type, direction, destination and source |
| Crc.AddByte | canard.c:1622-1637 | the eight-step loop computes the CRC step function |
| Crc.Add | canard.c:1648-1655 | the byte loop computes the CRC of the whole string |
| Crc.AddSignature | canard.c:1639-1646 | the shift loop runs over the eight signature bytes; `SignatureBits.SignatureByteBit` says which bits of the number these are |
| Crc.CrcAddIsBitwise | canard.c:1622-1655 | the byte-wise CRC equals the bit-by-bit CRC of the bits in wire order |
| Crc.BurstDetected | canard.c:1622-1655 | two payloads of any equal length that differ only within 16 consecutive bits have different transfer CRCs |
| Crc.OddErrorsDetected | canard.c:1622-1655 | two payloads of any equal length that differ in an odd number of bits have different transfer CRCs |
| TxQueue.OutranksIsArbitration | canard.c:1142-1180 | on the fields of the identifiers, the priority comparison is CAN 2.0B bus arbitration for standard, extended and mixed pairs; `BusArbitration.HigherWins` says so of the bits |
| BusArbitration.HigherWins | canard.c:1142-1180 | one frame goes before another in the queue if and only if, at the first bit where their arbitration fields differ, it has the dominant zero: 29 identifier bits with SRR, IDE and RTR in their places for an extended frame, eleven with RTR and IDE for a standard one, and any mixture |
| BusArbitration.SortedIsBusOrder | canard.c:1079-1123 | a queue is sorted if and only if no frame in it is behind one that it would win the bus against, bit by bit |
| BusArbitration.QueueArbitrates | canard.c:281-295 | so is the queue after any pushes and pops |
| TxQueue.OutranksOrder | canard.c:1142-1180 | the comparison is a strict weak order |
| TxQueue.InsertContents | canard.c:1079-1123 | pushing keeps the old contents and adds exactly the new frame |
| TxQueue.InsertSorted | canard.c:1079-1123 | pushing keeps the queue sorted by priority |
| TxQueue.InsertStable | canard.c:1079-1123 | a frame goes behind those with the same identifier |
| TxQueue.InsertAllSameId | canard.c:1022-1073 | the frames of one transfer queue up in the order they were made |
| TxQueue.RunIsStable | canard.c:281-295 | after any pushes and pops the queue is sorted, and for each identifier what left and what is left is what came, in order |
| TxQueue.RunPopsBest | canard.c:281-295 | every pop takes a frame that no queued frame beats |
| Wire.TailNumber | canard.c:54-59 | a tail byte as a number: 128 for start, 64 for end, 32 for toggle, and the transfer ID modulo 32 |
| Wire.MessageNumber | canard.c:179-187 | a message identifier as a number: flag, priority times 2^24, data type times 2^8, source |
| Wire.ServiceNumber | canard.c:256-258 | a service identifier as a number: flag, priority times 2^24, type times 2^16, request times 2^15, destination times 2^8, 128, source |
| Wire.AnonymousNumber | canard.c:174-178 | an anonymous identifier as a number: flag, priority times 2^24, bits 1 to 14 of the CRC times 2^10, two bits of data type times 2^8, source zero |
| Wire.IdReads | canard.c:42-48 | what a receiver takes for source, destination, priority and kind, in terms of the number that the identifier is |
| Wire.DataTypeReads | canard.c:1196-1214 | and for the data type: sixteen bits of a message, two of an anonymous one, eight of a service |
| Wire.DescriptorsExactly | canard.c:50-52 | two frames share a receive state exactly if their identifiers agree in source, service bit and data type, and for a service in request bit and destination |
| Wire.CarriedCrcNumber | canard.c:439 | the CRC a receiver takes from a first frame: its first byte plus 256 times its second |
| Fragment.FragmentationShape | canard.c:1022-1073 | n >= 8 bytes make 1 + ceil((n - 5) / 7) frames: start only first, end only last, toggles alternating, all but the last full |
| Fragment.FragmentationCarries | canard.c:1003-1073 | the frames carry exactly the payload, in order, with nothing lost or repeated |
| RxBuffer.PushAccounts | canard.c:1339-1445 | any push, from any state, pays for exactly the new blocks and keeps them reachable, also when an allocation fails |
| RxBuffer.PushNeeds | canard.c:1360-1434 | a push succeeds exactly when the pool has the blocks it needs, and then the chain has exactly that many |
| RxBuffer.PushAppends | canard.c:1339-1434 | a push that succeeds appends exactly its data to the payload and keeps the layout bounds |
| Splicing.SpliceInBounds | canard.c:472-495 | for a laid-out state the splice position is the distance to the end of the payload, inside the block exactly unless the last block is full |
| Splicing.FinishedTransfer | canard.c:456-516 | head, middle and tail of the finished transfer hold the buffered payload followed by the final frame |
| Reassembly.ReplayRejected | canard.c:363-420 | after transfer k no sequence of its frames other than single ones, within the timeout, delivers anything or changes toggle, transfer ID, payload or pool |
| Reassembly.CutDelivered | canard.c:297-543 | a transfer whose sender cut it into frames of any lengths, with up to 1023 bytes before the final frame, fed to any receptive state, is delivered once, by the last frame and with its time, exactly if the CRC is right and the blocks can be had; the rest of the memory is returned |
| RoundTrip.OwnFramesCut | canard.c:1022-1073 | the frames of this library are such a cut, and how many blocks they need |
| RoundTrip.TransferDelivered | canard.c:297-543 | so every multi-frame transfer of up to 1027 bytes is delivered, with the time of its last frame, exactly if its CRC is right and the blocks can be had |
| RoundTrip.FirstTimeExactly | canard.h:310-312 | however it was cut, the delivery has the time of the first frame, as documented, if and only if the last frame comes at that very time |
| RoundTrip.LaterTimeDelivered | canard.c:497-509 | two frames at 1000000 and 1000500 are delivered with 1000500 |
| RoundTrip.DamageNotDelivered | canard.c:520-538 | frames whose payload was damaged in a 16-bit burst or an odd number of bits deliver nothing |
| RoundTrip.SingleDelivered | canard.c:386-410 | a wanted single-frame transfer is delivered by its frame from any state; only a new state needs memory |
| FinalFrame.PositionExactly | canard.c:472-495 | when the frames of any cut have arrived but the last, with at most 1023 bytes, the asserted position holds if and only if those bytes do not fill the head and one or more blocks exactly; with more bytes, if and only if the wrapped length does not lie short of the last block |
| FinalFrame.OwnFramesExactly | canard.c:472-495 | for a transfer of any length cut by this library it holds if and only if at most 1023 bytes come before the final frame, or less than six modulo 1024; always up to 1027 bytes in all, and not at 1035 |
| FinalFrame.WitnessOutside | canard.c:486-487 | frames of 5, 7, 7, 7, 7 and 1 bytes to a receiver with two free blocks make it fail, and the transfer is delivered |
| StrayStart.RepeatedStartIsStray | canard.c:363-420 | the first frame once more, when a set toggle is due, is refused without a restart |
| StrayStart.RepeatedStartTaken | canard.c:412-450 | when a clear toggle is due it is stored as the next frame: its bytes come again, the CRC begins anew, a set toggle is due |
| StrayStart.RepeatedStartExactly | canard.c:412-450 | after that, with more than the final frame still to come, something is delivered if and only if the CRC of the first bytes is that of all bytes up to and with the refused frame, and then it has the first bytes doubled and the refused ones missing |
| StrayStart.RepeatedStartHangs | canard.c:412-450 | with only the final frame to come, nothing is delivered and the transfer stays half-received |
| StrayStart.StrayExactly | canard.c:331-348 | after a refused start frame in mid-transfer a sound transfer is delivered if and only if the CRC of its bytes so far is that of no bytes |
| Streams.StreamDelivered | canard.c:297-543 | of successive transfers of 0 to 1027 bytes under one descriptor, any of which may break off after any frame, each distinguished from its predecessor, exactly those that do not break off are delivered, each once, in order, with their own payloads |
| Streams.SinglesDelivered | canard.c:386-410 | single-frame transfers are all delivered, in order, whatever their transfer IDs |
| Halfway.HalfReceived | canard.c:297-460 | after any of its frames but the last, a transfer with memory for it is half-received, has delivered nothing, and its rest still fits |
| Preemption.SurvivesExactly | canard.c:343-460 | the rest of a transfer is delivered after all frames of another one of its descriptor, cut in any way, if and only if that one has the transfer ID before it and the CRC of the bytes received before is that of no bytes |
| Preemption.ByAnother | canard.c:343-460 | a second transfer whose transfer ID is neither that of the first nor the one before is delivered in its middle, and the first one is lost |
| Preemption.SingleDisplaces | canard.c:386-410 | a single-frame transfer in the middle of another is delivered, and the other is lost |
| Preemption.JoinedDelivered | canard.c:412-538 | under the same transfer ID, with a clear toggle due, the second transfer, or the first one begun again, is delivered behind the bytes received before, exactly if its own CRC is right and the blocks can be had |
| Preemption.TackedDelivered | canard.c:412-538 | with a set toggle due, all but its first frame are delivered behind those bytes, exactly if their CRC alone is that of the first transfer |
| SharedCounter.LostWhole | canard.c:363-420 | a transfer under the transfer ID of its predecessor, begun in time, delivers nothing, however it is cut and however late its later frames come, and leaves the receiver as it was |
| SharedCounter.SuccessorDelivered | canard.c:363-420 | a sound transfer after another one, with memory for it, is delivered if and only if its transfer ID differs or the timeout has passed |
| SharedCounter.ReportLost | Canard_wrapper.h:35-43 | with one counter a long report is lost if and only if a multiple of 32 sends separate it from the last one taken, and at most two seconds |
| SharedCounter.CounterStreamFrom | canard.c:363-420 | of any row of long transfers under one descriptor, whatever their transfer IDs, exactly those are delivered, in order, that the receiver can tell from the last one it took |
| LongTransfers.LengthAnnounced | canard.c:1358-1431 | a transfer of any length and cut is delivered by its last frame exactly if the CRC is right and the blocks its wrapped lengths take can be had; whatever is delivered announces the number of bytes sent if and only if at most 1023 came before the final frame |
| LongTransfers.OwnLengthAnnounced | canard.c:1358-1431 | for this library's frames that is at most 1027 bytes in all; a transfer of 1028 bytes is delivered as one of four |
| Gate.GateExactly | canard.c:297-317 | a frame that is not extended, is a remote or an error frame or has no data gets -10, and a service frame whose destination bits are another node's gets -11; these leave state, pool and application alone, and no other frame gets these codes |
| Gate.NodeUntouched | canard.c:297-317 | such frames leave the whole node as it was |
| Gate.FeedThrough | canard.c:297-317 | after any frames a descriptor's state, the pool and the deliveries are those of the other frames alone |
| Gate.RunThrough | canard.c:136-575 | after any calls so are the node, its deliveries and their order, and whether memory ever ran out |
| Gate.VerdictExactly | canard.c:297-428 | every frame that is refused out of hand is answered with the code that the numbers of the frame and the state ask for, -3 and -10 to -16, and delivers nothing; any other with 0, 3 or 17 |
| Gate.JudgedExactly | canard.c:362-543 | of those a single frame is delivered, and a final frame exactly if its CRC is right, 17 being the answer otherwise; only a frame that is not the last is answered with 3 |
| Gate.AwaitsNext | canard.c:374-538 | after a missed start, a frame without memory, a wrong CRC and a delivery by a final frame the state is empty, its blocks are returned, and the transfer ID after that of the frame is due |
| Gate.DeliveryLabelled | canard.c:386-410 | whatever any frame makes the receiver deliver, from any state, has the time of the call and the fields of that frame's identifier and tail byte |
| Gate.AnewExactly | canard.c:362-384 | the restart rule in numbers: no frame before, more than 2000000 microseconds on a 64-bit clock, or a first frame whose transfer ID is neither the one due nor the one before |
| Leftovers.SingleLeavesBlocks | canard.c:386-410 | after a single-frame transfer no block is held if and only if none was held before or the restart rule fired |
| Leftovers.LeftoversMisread | canard.c:1185-1191 | the next multi-frame transfer on leftover blocks is delivered, exactly if the blocks it still needs can be had, with the right length and the first leftover byte as its seventh; up to 12 bytes without any allocation |
| Leftovers.SecondFrameLands | canard.c:1339-1434 | of the second frame of a transfer begun on leftover blocks, the first byte goes to the end of the head and the others to place 3 of the last leftover block and on, where the wrapped subtraction points; nothing else changes |
| Leftovers.LeftoversReached | canard.c:1185-1191 | the run that leads there from a receiver that knows nothing, with two free blocks, and everything it delivers |
| Deliveries.FrameStocked | canard.c:1339-1434 | any frame in any state leaves a chain that reaches as far as the length says, and delivers only transfers with storage behind every announced byte |
| Deliveries.RunStocked | canard.c:297-575 | so does every sequence of calls |
| Interleaving.OnFramePays | canard.c:297-543 | every frame, on every path, charges the pool exactly for the change in what its descriptor holds |
| Interleaving.HandleRxSound | canard.c:297-543 | a frame leaves the states of other descriptors and the queue alone and keeps descriptors distinct |
| Interleaving.LiveSubset | canard.c:545-575 | cleanup keeps only former states, and what it returns plus what stays held is what was held |
| Interleaving.LiveLookup | canard.c:545-575 | cleanup removes the state of a descriptor exactly if it has timed out |
| Interleaving.PerformKeeps | canard.c:136-575 | every call, with any arguments and whether or not it fails, keeps usage equal to what is held and never lowers the peak |
| Interleaving.RunKeeps | canard.c:136-575 | so does every sequence of calls |
| Interleaving.NonInterference | canard.c:297-543 | in any interleaving without allocation failures the deliveries and the state of a descriptor are those of its own stream alone |
| Interleaving.InterleavedTransferDelivered | canard.c:297-575 | a transfer arriving among frames of other descriptors, sends, pops and cleanups is delivered once, by its last frame; only a cleanup between its frames must come within the timeout |
| Sends.MessageAnswer | canard.c:136-198 | the code of a broadcast, -2, -4, -3 or the number of frames, from the numbers of its arguments, and the transfer ID after it; what is refused leaves the node as it was |
| Sends.MessageQueues | canard.c:972-1074 | a broadcast that is not refused queues exactly as many of its frames as find a block, and each takes one, also when it answers -3 |
| Sends.ServiceAnswer | canard.c:229-279 | the code of a service transfer, and the transfer ID after it |
| Sends.MessageOnBus | canard.c:136-227 | every frame of a broadcast has the identifier of its priority, type and source; a short payload is one frame with its tail byte; of a longer one the first frame has the bit-by-bit CRC of signature and payload, low byte first, and five bytes |
| Sends.ServiceOnBus | canard.c:229-279 | so have the frames of a service transfer |
| Sends.AnonymousOnBus | canard.c:160-198 | and the one frame of an anonymous broadcast, whose discriminator is bits 1 to 14 of the bit-by-bit CRC of the payload |
| EndToEnd.EnqueueWhole | canard.c:972-1074 | on an empty queue a send succeeds exactly if all its frames find blocks, and then the queue is the transfer |
| EndToEnd.EnqueueBehind | canard.c:972-1074 | on any queue it succeeds exactly then, and queues the transfer in order behind all frames with its identifier |
| EndToEnd.MessageArrives | canard.c:136-227 | whatever is queued before, a broadcast of up to 1023 (and up to 1027) bytes reaches the other application once, with payload, type, source, priority, transfer ID and the time of its last frame |
| EndToEnd.AnonymousMessageArrives | canard.c:160-198 | an anonymous broadcast is accepted only with at most seven bytes and a two-bit data type, and then arrives |
| EndToEnd.ServiceArrives | canard.c:229-279 | a request or response reaches the application of the node it is addressed to, with the time of its last frame |
| Transmission.RunConserves | canard.c:136-295 | whatever calls a node gets, the queue stays sorted, and the frames with one identifier leave in the order its sends made them, none lost and none repeated, also of sends that run out of memory |
| Transmission.RunDelivered | canard.c:136-543 | after any such run the frames of one identifier that left deliver, at another node, every transfer that left whole, once and in order, and nothing else |
| Transmission.CountsApart | canard.h:406-407 | how far a counter may go between two transfers of a descriptor for the second to be neither the same nor the one before: exactly not 0 or 31 modulo 32 |
| Transmission.CounterDistinguishes | canard.h:406-407 | with such a counter the receiver tells them apart, also when the first breaks off, and however soon the second comes |
| Transmission.HigherFirst | canard.c:1079-1123 | in a queue all frames of a higher priority are before those of a lower one |
| Transmission.LowerNumberWins | canard.c:1142-1180 | of two broadcasts of one descriptor the one with the lower priority number wins the bus |
| Transmission.SameDescriptor | canard.c:50-52 | the priority of a broadcast is not part of its descriptor |
| Transmission.PreemptedExactly | canard.c:136-543 | a transfer sent with a higher priority while the rest of another one of its descriptor is queued: exactly when that other one is still delivered, and when the second one is |
| Ownership.ArenaPartitioned | canard.c:1660-1710 | free list, queue, state list and chains are acyclic, disjoint and together exactly the arena; usage is capacity minus free blocks |
| PoolTrace.PeakIsMaximum | canard.c:1679-1710 | the peak is the maximum usage over all prefixes of any run of allocations and frees |
| PoolTrace.CallFollows | canard.c:136-575 | every call does to the statistics what its own allocations and frees, listed in order with the failed ones, do |
| PoolTrace.PeakIsHighest | canard.c:1679-1710 | from initialisation on, after any calls, the reported peak is the largest number of blocks in use at any moment, within a call or between calls |
| Arena.AllocateGood | canard.c:1679-1699 | taking the first free block leaves every list in order |
| Arena.FreeGood | canard.c:1701-1710 | putting a block on the free list by its link word alone leaves every list and every block's contents in order |
| Arena.TxInsertGood | canard.c:1079-1123 | linking an item at any position leaves every other list in order |
| ArenaRx.ChainAppendGood | canard.c:1371-1405 | a new buffer block at the end of a chain extends that state's payload and disturbs nothing else |
| ArenaRx.ChainDetachGood | canard.c:497-518 | handing the chain to the transfer leaves the state empty and the blocks linked as before |
| ArenaRx.RxRemoveGood | canard.c:553-567 | unlinking a state anywhere in the list keeps the order and the chains of the others |
| Instance.CanardInstance.constructor | canard.c:72-107 | a new instance has every block on the free list and nothing else |
| Instance.CanardInstance.InitPool | canard.c:1660-1677 | the blocks are linked in order, and the statistics are zero |
| Instance.CanardInstance.SetLocalNodeId | canard.c:115-129 | the address is set once, and nothing else changes |
| Instance.CanardInstance.Owned | canard.c:1660-1710 | between calls the lists of the instance partition its arena |
| Instance.CanardInstance.PeakReached | canard.c:1679-1710 | the peak of an instance is the largest usage after any part of the allocations and frees it has made |
| Instance.CanardInstance.AllocateBlock | canard.c:1679-1699 | NULL exactly when the pool is full; otherwise a block that was free, usage and peak advanced |
| Instance.CanardInstance.FreeBlock | canard.c:1701-1710 | only the link word of the block changes, usage falls by one |
| Instance.CanardInstance.PushTxQueue | canard.c:1079-1123 | the walk and the relinking insert the item at its place in the queue, which `BusArbitration.SortedIsBusOrder` gives in bits |
| Instance.CanardInstance.EnqueueSingle | canard.c:1003-1021 | a short payload becomes one queued frame, or nothing without memory |
| Instance.CanardInstance.EnqueueMulti | canard.c:1022-1074 | the loop queues the frames in order; without memory exactly the affordable prefix stays queued |
| Instance.CanardInstance.EnqueueTxFrames | canard.c:972-1074 | both cases, with the extended-frame flag |
| Instance.CanardInstance.ComputeCrc | canard.c:200-227 | the transfer CRC for payloads longer than seven bytes, the initial value otherwise; `SignatureBits.TransferCrcIsBitwise` gives it in bits |
| Instance.CanardInstance.Broadcast | canard.c:136-198 | refused arguments leave the transfer ID alone; everything else advances it, even when memory runs out |
| Instance.CanardInstance.RequestOrRespond | canard.c:229-279 | only requests advance the transfer ID |
| Instance.CanardInstance.PeekTxQueue | canard.c:281-288 | the block of the first queued frame, or NULL for an empty queue |
| Instance.CanardInstance.PopTxQueue | canard.c:290-295 | the first frame leaves; block contents are untouched, so it can still be read |
| Instance.CanardInstance.FindRxState | canard.c:1272-1283 | the walk finds the state of a descriptor, or NULL exactly if there is none |
| Instance.CanardInstance.PrependRxState | canard.c:1288-1318 | a cleared state in front, or nothing without memory |
| Instance.CanardInstance.TraverseRxStates | canard.c:1241-1267 | the state of a descriptor, created if missing; NULL exactly if it is missing and memory is full |
| Instance.CanardInstance.ReleaseStatePayload | canard.c:1320-1330 | the whole chain goes back to the pool and the length is zero |
| Instance.CanardInstance.CreateBufferBlock | canard.c:1436-1445 | a block in hand that ends its chain, or NULL |
| Instance.CanardInstance.WriteChain | canard.c:1408-1429 | the writing loop over blocks does what the recursive definition says, failure included |
| Instance.CanardInstance.BufferBlockPushBytes | canard.c:1339-1434 | head, walk, growth and writing in place are the push of the specification level |
| Instance.CanardInstance.SpliceChunk | canard.c:456-495 | the start of the final frame goes into the head or the last block, the rest stays in the frame |
| Instance.CanardInstance.ReleaseTransferPayload | canard.c:817-830 | every block of the delivered payload goes back to the pool |
| Instance.CanardInstance.DetachChain | canard.c:497-518 | the detached blocks are linked as before and hold the payload of the state, block by block |
| Instance.CanardInstance.ReadTransfer | canard.c:497-528 | what the application finds in the state block, along the linked blocks and in the frame is the transfer, stamped with the time of this call |
| Instance.CanardInstance.ReceiveFinal | canard.c:456-538 | delivery exactly if the CRC matches, of the transfer read from memory before it is released, stamped with the time of this call; the payload is released either way, also when the application did it before |
| Instance.CanardInstance.ReceiveWith | canard.c:362-543 | restart rule, checks and the three kinds of frames, as the state machine says, with the delivery read from memory |
| Instance.CanardInstance.HandleRxFrame | canard.c:297-543 | code, delivery (read from the arena and the frame) and new node of a received frame are those of the specification level on every path, the refusals of `Gate` among them; soundness is kept |
| Instance.CanardInstance.RemoveState | canard.c:553-567 | a stale state and its blocks return to the pool, the others keep their order |
| Instance.CanardInstance.CleanupStaleTransfers | canard.c:545-575 | the walk terminates and leaves exactly the live states in order |
| BitCopy.StepBits | canard.c:1466-1478 | one masked and shifted step moves exactly its bits and keeps the others |
| BitCopy.CopyBitArray | canard.c:1450-1480 | for all offsets and lengths destination bits [d, d+n) become source bits [s, s+n), no other bit changes |
| Descatter.DescatterTransferPayload | canard.c:1482-1583 | of any delivered transfer, leftover blocks and wrapped lengths included, returns how many wanted bits exist and copies exactly those of the contiguous payload; the assertions inside hold |
| Scalar.SwapByteOrder | canard.c:1600-1617 | the first bytes are reversed in place, the rest stays |
| Scalar.EncodeScalar | canard.c:738-815 | the field's bits read back as the value modulo its width, on both byte orders, and no other bit of the buffer changes |
| Scalar.DisjointFields | canard.c:738-815 | writing one field never disturbs a disjoint one |
| Scalar.DecodeScalar | canard.c:577-736 | invalid widths are refused; otherwise the field of the payload, continued with zero bits at its end, with its sign |
| Scalar.ScalarRoundTrip | canard.c:577-815 | decoding what was encoded recovers the value modulo the width, sign-extended |
| Scalar.RecoveredFits | canard.c:577-815 | a value that fits its field comes back unchanged |
| NodeStatus.Encode | uavcan.protocol.NodeStatus.c:9-24 | seven bytes with the five fields in place, nothing written behind them |
| NodeStatus.Decode | uavcan.protocol.NodeStatus.c:26-37 | the fields read from the transfer, and the error flag exactly if the length is not seven |
| NodeStatus.StatusRoundTrip | uavcan.protocol.NodeStatus.h:46-85 | every status in range is read back from its bytes |
| BatteryInfo.Encode | uavcan.equipment.power.BatteryInfo.c:9-24 | 23 bytes and the name, with every field in place |
| BatteryInfo.Decode | uavcan.equipment.power.BatteryInfo.c:26-37 | the fields read from the transfer, the name length inferred from its size, and that the decoder writes beyond the name array exactly when the payload has more than 54 bytes and its length less 23 is more than 31 modulo 256 |
| BatteryInfo.NameFits | uavcan.equipment.power.BatteryInfo.h:191-201 | exactly which payload sizes keep the inferred length within the name array |
| BatteryInfo.OverrunsExactly | canard.c:622-626 | a byte is read for a place beyond the name array exactly for those payload sizes; 55 bytes do it, and less than 23 never |
| BatteryInfo.InfoRoundTrip | uavcan.equipment.power.BatteryInfo.h:55-203 | every message in range, with a name of up to 31 bytes, is read back from its bytes |
| Messages.InfoArrives | uavcan.equipment.power.BatteryInfo.h:55-203 | a battery report sent by one node is decoded field by field by the other, through queue, frames and reassembly |
| Messages.StatusArrives | uavcan.protocol.NodeStatus.h:46-85 | a node status is one frame and is decoded field by field by the other node |
| Messages.OverrunReached | uavcan.equipment.power.BatteryInfo.h:191-201 | a transfer of 55 bytes under the type of battery reports is delivered and makes the decoder write beyond the name array |
| Messages.ServiceReportLost | Canard_wrapper.h:35-43 | of two battery reports in the log of one run of the service, the frames of the later one, received by a listener that took the earlier one last, are lost exactly if a multiple of 32 messages was sent from the earlier one on and both began within two seconds |
| Listening.OfferedUnder | DroneCAN_service_API.cpp:26-43 | under each of its two descriptors the driver was offered the frames of its messages, one after the other |
| Listening.StatusesHeard | DroneCAN_service_API.cpp:26-43 | a listener that gets what any run of the service offered, among whatever else, is delivered the status of every poll that sent one, in order |
| Listening.ReportsHeard | Canard_wrapper.h:35-43 | of the battery reports of the run it is delivered, in order, exactly those it can tell from the last one it took |
| Listening.ToldByCount | Canard_wrapper.h:35-43 | it cannot tell the report of one poll from that of another exactly if a multiple of 32 messages was sent from the one to the other, within two seconds |
| Listening.HeardReads | uavcan.equipment.power.BatteryInfo.h:55-203 | what it is delivered is decoded to the status or report that was sent |
| Layout.StatusLayout | uavcan.protocol.NodeStatus.c:9-24 | a node status byte by byte: uptime in four bytes, least significant first; health, mode and sub-mode in the next, from the top; vendor code in two, least significant first |
| Layout.InfoCodes | uavcan.equipment.power.BatteryInfo.c:9-24 | the first fourteen bytes of a battery report are seven sixteen-bit codes, least significant byte first, in this order |
| Layout.InfoLayout | uavcan.equipment.power.BatteryInfo.c:9-24 | byte by byte the flags, the three seven-bit numbers that run from one byte into the next, the battery's number and its model's |
| Layout.NameLayout | uavcan.equipment.power.BatteryInfo.c:9-24 | the name follows from byte 23 on, one byte for each character |
| Layout.TornField | canard.c:577-736 | of sixteen bits of which a payload has only its last byte, eight are read, and the number is that byte |
| Published.StatusOffered | DroneCAN_service_API.cpp:26-33 | every status that a run of the service offers is one frame, message type 341 with priority 8, whose bytes are the whole seconds of the poll's clock time, health, mode and sub-mode zero and vendor code 500 |
| Published.ReportOffered | DroneCAN_service_API.cpp:26-39 | every report is frames of message type 1092 with priority 24 that carry its bytes, the first with the bit-by-bit CRC of the 64 signature bits and those bytes, and with the transfer ID that the status before it leaves |
| Published.UptimesHeard | DroneCAN_service_API.cpp:26-33 | a listener is delivered one transfer for each poll that sent a status, in order, and decodes it to the whole seconds of that poll's clock time, with health, mode and sub-mode zero and vendor code 500 |
| Published.StatusPolls | DroneCAN_service_API.cpp:26-33 | those messages are exactly those of the polls that sent a status, in their order |
| Service.SendThenDrain | DroneCAN_service_base.cpp:3-6 | a send that fails or succeeds, followed by draining, leaves a quiet node quiet |
| Service.SendFits | Canard_wrapper.h:35-43 | on a quiet node a send succeeds exactly if its frames fit the arena |
| Service.Canard.Broadcast | Canard_wrapper.h:35-43 | a broadcast with the shared transfer ID |
| Service.Canard.PopTxQueue | Canard_wrapper.h:50-52 | the first frame leaves the queue and its block is free |
| Service.ServiceBase.TrySendFrame | DroneCAN_service_base.cpp:29-33 | the frame is offered once, and a refusal is reported once |
| Service.ServiceBase.SendPendingFrames | DroneCAN_service_base.cpp:21-27 | every queued frame is offered once in queue order, every refusal is reported, the queue is empty and its blocks are free |
| Service.ServiceBase.TryBroadcast | DroneCAN_service_base.cpp:15-19 | the health flag is the outcome of the broadcast |
| Service.ServiceBase.PublishGenericMessage | DroneCAN_service_base.cpp:3-6 | whatever fails, the node ends quiet and everything queued was offered once in order |
| Schedule.AtLeastPeriodApart | DroneCAN_service_API.cpp:26-43 | publishes are at least one period of real time apart, across every wrap of the clock |
| Schedule.PublishesInTime | DroneCAN_service_API.cpp:26-43 | polled every d milliseconds they are less than period + d apart |
| Schedule.PunctualExactly | DroneCAN_service_API.cpp:41-43 | that is guaranteed if and only if period + d fits the 32-bit clock |
| Schedule.ExtraPublishApart | DroneCAN_service_API.cpp:16-24 | a report published outside the schedule is followed by the next one after at least a period if and only if no poll before the end of that period is due by the old schedule |
| Schedule.ExtraPublishTooEarly | DroneCAN_service_API.cpp:16-24 | a report asked for every 500 ms after one second, and the next poll a millisecond later, publish two reports a millisecond apart |
| ServiceApi.SettledSend | DroneCAN_service_configuration.h:8 | with the 62-block arena a message of up to 54 bytes never fails for memory, and never uses more than eight blocks |
| ServiceApi.DroneCanService.PublishStatus | DroneCAN_service_API.h:15-19 | the frames of the encoded status are offered in order, and the node stays settled |
| ServiceApi.DroneCanService.PublishInfo | DroneCAN_service_API.h:15-19 | so are those of a battery report |
| ServiceApi.DroneCanService.PublishRegularly | DroneCAN_service_API.cpp:16-24 | with a period, exactly the frames of the given report are offered at once and the period is set; with none, nothing is offered and no report follows |
| ServiceApi.DroneCanService.RunPendingTasks | DroneCAN_service_API.cpp:26-43 | exactly the messages that are due are offered, status first, with the shared transfer ID; the schedule advances, and nothing fails for memory; `Published.StatusOnBus` gives the bytes of the status |
| ServiceApi.DroneCanService.Loop | README.md:44-50 | polled at any real times, the driver is offered exactly the log of the polls: the status of the time at exactly the scheduled polls, the report likewise, nothing else, one transfer ID counter through all; no publish fails for memory, and the publishes keep at least a period and less than period + d apart; `Published.StatusOffered` and `Published.UptimesHeard` give the bytes of every status and what is decoded |
| ServiceApi.TidsCount | Canard_wrapper.h:35-43 | the transfer ID of a poll is that of any earlier poll advanced by all messages sent from there on |

## Left out

- CAN FD, DLC codes above eight and the tail-array option: switched off in this configuration (canard.h:49-60).
- Conversion between native floats and 16-bit floats (canard.c:837-904): the fields are carried as their codes.
- NULL arguments, the user reference, the getters and the error enumeration: one-branch facts.
- The serial output, pins and initialisation of `CAN_bus_adaptor.h`: the driver is a send with an unknown outcome.
- Callbacks that call back into the library: the callback may only look at the transfer and release its payload.
- Instance.CanardInstance.DropBlock: unlinks a block before it frees it, where the source frees it first; the states in between differ, the results do not.
- Instance.CanardInstance.AppendBlock: one value stands for what every block allocated during one frame happens to hold; the blocks of one frame could differ in the source.
- Descatter.DescatterTransferPayload: asks for a transfer with storage behind every announced byte, which `Deliveries.RunStocked` proves of every delivery. Bit offsets are unbounded numbers; beyond 512 megabytes the 32-bit offsets of the source would wrap.
- Scalar.DecodeScalar: asks for such a transfer too.
- BatteryInfo.Decode: says that the decoder writes beyond the name array and when, not what those writes destroy.
- RoundTrip.TransferDelivered: starts from a receptive state; the others are the subject of `SharedCounter`, `StrayStart`, `Preemption` and `Leftovers`.
- BusArbitration.HigherWins: asks that a standard identifier has no more than eleven bits, as every one on a bus has; the frames that this library queues are all extended.
- Sends.ServiceOnBus: asks for a destination below 128, and so do the lemmas on service identifiers; a larger one would run into the request bit.
- EndToEnd.EnqueueBehind: asks for a sorted queue, and so do the theorems that use it; `Transmission.RunConserves` proves it of every queue.
- The initial value of the wrapper's transfer ID, which the source does not set: any value.
