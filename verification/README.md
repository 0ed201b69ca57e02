# NymphMQTT: a model of its protocols, and proofs about it

NymphMQTT is an MQTT 3.1.1 / 5 client with a partial broker. This project models four parts of it in Dafny and proves
what each of them keeps, over all inputs and all interleavings. `dafny verify dfyconfig.toml` checks everything.

**The dispatcher.** `Dispatcher::addRequest` and `Dispatcher::addWorker` each look at one queue and then push to the
other, under two separate mutexes, while `Worker::run` loops around `addWorker`. `Dispatcher.dfy` is a transition
system over any number of calls and workers: a program counter for each thread, one step for each lock, unlock and
access to shared state, with `ready`, `request` and `running` unprotected as they are in the code. A producer fills in
the worker at the head of the idle queue *before* it takes it off the queue, so that a worker that times out can start,
finish and come back while it is still queued. `DispatcherInvariant.dfy` gives the inductive invariant.
`Conservation.dfy` proves that each request is in exactly one place, in every reachable state, and `CallPaths.dfy` that
each call of `addRequest` has done one of its two branches completely when it returns. `QueueOrder.dfy` proves
both queues first-in-first-out over whole runs, and that a request and an idle worker can be queued together only after
two check-to-push windows have overlapped; `Stranding.dfy` gives a run in which that happens, and shows that nothing the
workers do ends it. `DispatcherProgress.dfy` proves deadlock freedom, and that after `stop` has reached the workers
every schedule is finite and ends with everything stopped. `WorkerPool.dfy` is the same code as objects updated in
place, with the lemma that an uninterrupted call in the transition system does exactly what the method does.

**The wire codec.** `PackedInt.dfy` proves the bit loops of the variable length integer equal to the division form of
section 2.2.3 of MQTT 3.1.1 (section 1.5.5 of MQTT 5.0), and finds the numbers that survive. `FixedHeader.dfy` is the
header scanner, `Endian.dfy` the 16-bit prefixes of section 1.5.3, `Messages.dfy` and `NmqttMessage.dfy` the printer
and the parser. `Readings.dfy` reads every packet that `serialize` can make byte by byte, and `ParseReadings.dfy` does so
with what a parse leaves in its object. `PublishRoundTrip.dfy` says when a PUBLISH (section 3.3) comes back,
`ParseReturns.dfy` when a parse returns at all, `Framing.dfy` why a stream of packets comes apart again, `Session.dfy`
what the two socket loops make of it, and `Delivery.dfy` all of these put together.

**The timer.** `ChronoTrigger.dfy` is the resettable timer over a logical clock in real numbers. The flags are atomic
and stored without a lock, so that every access of the timer's thread and every store of `restart`, `stop` and `finish`
is a step of its own; notifications may be lost and wake-ups spurious. `TimerProperties.dfy` says which callbacks can be
early, and when `stop` and `finish` take effect, in terms of where their stores fall. `KeepAlive.dfy` is the timer as
the client uses it, with a callback that sends and so restarts its own timer, and bounds the silence between packets
under all these interleavings.

**The handle allocator.** `ServerConnections.dfy` is the map of live sockets with the FIFO of handles to use again.

The host is little-endian, `char` is signed, integers are naturals with their width written out.

## Where the code does not do what it is for

The model follows the code; each of these is an exact statement below.

- `writePackedInt` compares with `<=` where 2^7, 2^14, 2^21 and 2^28 need one byte more (`PackedInt.RoundTripExact`).
- `parseMessage` decodes one length byte only, and the sign of that `char` fills the word above it; it also forgets a
  payload of one byte (`PublishRoundTrip.ComesBackExactly`) and exchanges QoS 1 and 2 (`PublishRoundTrip.QosExchanged`).
- Five string prefixes pass through a 64-bit swap and are cut to 16 bits (`Endian.TruncatedPrefixWrong`).
- `serialize` appends to the payload member, so that three packet types grow with every call (`Framing.SerializeAgain`).
- The socket loops announce reading the length byte by byte, but tell the scanner that five bytes are there after
  receiving two (`Session.RunReadsExactly`), and drop a byte that arrives alone.
- Nobody catches the exception that a parse throws when a packet's contents are shorter than they say: it ends the loop,
  and that packet and all later ones are lost (`Session.ParseEndsRun`). The CONNECT branch takes the first of two length
  bytes for the length, so that the code's own CONNECT with a will or credentials can do this (`Delivery.WillEndsRun`).
- `restarting` is tested before `stopping`, so that a `stop` in the interval after a callback that restarted its own
  timer is lost (`TimerProperties.StopAfterOwnRestartIsLost`).
- The check clears the flags one after the other, so that a `stop` that falls among these stores is lost with no restart
  pending (`TimerProperties.StopWhileClearing`), and the two stores of a call can fall on different sides of a clearing
  or of the check, which leaves a signal without its flag and brings a callback early (`TimerProperties.RestartWhileClearing`,
  `TimerProperties.RestartAcrossClearing`, `TimerProperties.StopAcrossCheck`).
- Of the will QoS in CONNECT the parser sees one bit, as `+` binds tighter than `&` (`Messages.ConnectFlagsReadBack`).
- A packet whose length the writer refuses is sent without one, and can still pass for a packet
  (`Framing.RefusedButDeclared`).
- A check of one queue and the push to the other are not one step (`Stranding.RequestStranded`).

A variant `Repaired` of printer and parser (strict thresholds, the whole length field, QoS bits in place, payloads of
one byte kept) and the loop `Session.RunWhole`, which receives a header to its end, prove the theorems for all
lengths and all fragmentations. The CONNECT branch is not repaired.

## Model

| member | source | states |
|---|---|---|
| PackedInt.CopySevenBits | src/cpp/bytebauble.cpp:61-69 | The inner loop copies seven bits and nothing else: it adds the seven-bit group at `src` shifted to `idx` |
| PackedInt.ReadPackedInt | src/cpp/bytebauble.cpp:53-79 | The bit loop equals the standard's multiply-by-128 decoder over a machine word, value and byte count, and stays below 2^28 |
| PackedInt.WritePackedInt | src/cpp/bytebauble.cpp:83-118 | The bit loop equals the base-128 word of the chosen length; on failure the output parameter keeps its value |
| PackedInt.RoundTripExact | src/cpp/bytebauble.cpp:53-118 | For every n, the writer succeeds and the reader recovers n and the count from any word holding the written bytes, if and only if n < 2^28 and n is none of 2^7, 2^14, 2^21; with strict thresholds, if and only if n < 2^28 |
| PackedInt.WriterRefinesStandard | src/cpp/bytebauble.cpp:84-115 | The bytes written are the standard's encoding exactly for the numbers that round-trip |
| PackedInt.WriterUsesFewestBytes | src/cpp/bytebauble.cpp:84-93 | No four bytes that the reader maps to a number off the misjudged ones use fewer bytes than the writer does for it |
| PackedInt.ContinuationBits | src/cpp/bytebauble.cpp:111-114 | In the standard's encoding every byte but the last, and only those, has the continuation bit |
| PackedInt.StandardRoundTrip | src/cpp/bytebauble.cpp:53-118 | Decoding the standard's encoding followed by anything gives the number and its length |
| PackedInt.StandardIsShortest | src/cpp/bytebauble.cpp:84-93 | No byte string that decodes to a number is shorter than the standard's encoding of it |
| PackedInt.DecodedIsDecodeBytes | src/cpp/bytebauble.cpp:53-79 | Reading a word and reading its bytes in memory order are the same decoder |
| PackedInt.PackedWordBytes | src/cpp/message.cpp:706-718 | Dumping the packed word's first bytes from memory gives the packed byte string |
| FixedHeader.ParseHeader | src/cpp/message.cpp:403-434 | The nested tests and the second scan agree with the standard's decoder: return code, length and index, for every buffer and every claimed length |
| FixedHeader.FullBuffer | src/cpp/message.cpp:407-426 | With five bytes claimed it never asks for more, and it reports corruption exactly when all four length bytes continue |
| FixedHeader.IgnoresBytesPastIndex | src/cpp/message.cpp:411-433 | A success depends on no byte at or past the returned index |
| FixedHeader.MoreBytesCompleteTheHeader | src/cpp/message.cpp:411-424 | It asks for more exactly when all length bytes it may look at continue |
| FixedHeader.ScanBytes | src/cpp/message.cpp:403-434 | The scan by the bytes themselves: which length byte ends it, and the number that the seven-bit groups make |
| Endian.TruncatedPrefixIsTop | src/cpp/message.cpp:520-540 | A length passed on in 64 bits leaves its two topmost bytes in the prefix |
| Endian.TruncatedPrefixWrong | src/cpp/message.cpp:520-540 | That prefix is zero for every length below 2^48, so it is right exactly for multiples of 2^16 |
| NmqttMessages.NmqttMessage.constructor | src/cpp/message.h:103-145 | A new message has the fields' defaults |
| NmqttMessages.NmqttMessage.Serialize | src/cpp/message.cpp:438-724 | The output for all packet types and fields, and that only the payload member changes, by what the branch appends |
| NmqttMessages.NmqttMessage.WriteParts | src/cpp/message.cpp:455-702 | The switch: first byte, variable header and payload of each of the packet types |
| NmqttMessages.NmqttMessage.Assemble | src/cpp/message.cpp:705-722 | First byte, length field, variable header and payload in this order, the length in 32 bits and possibly refused |
| Readings.PublishBytes | src/cpp/message.cpp:570-598 | For every PUBLISH, by index: each bit of the first byte; the topic behind its big-endian length, the identifier exactly when QoS > 0, a zero byte exactly in version 5, and the payload up to the end |
| Readings.SubscribeBytes | src/cpp/message.cpp:621-645 | For every SUBSCRIBE, by index: 0x82, identifier 10, a zero byte in version 5, the payload member, the topic filter behind its big-endian length, and one zero byte at the end |
| Readings.UnsubscribeBytes | src/cpp/message.cpp:653-672 | For every UNSUBSCRIBE with a topic below 2^48 bytes: 0xA2, identifier 10 and the message's own, the payload member, and the topic filter behind two zero bytes |
| Readings.ConnectBytes | src/cpp/message.cpp:459-543 | For every CONNECT with optional strings below 2^48 bytes: 0x10, protocol name, level, each flag bit, keep-alive 60, the expiry exactly in version 5, the client identifier behind its length, and the optional strings behind two zero bytes each, in order up to the end |
| Readings.ConnackBytes | src/cpp/message.cpp:546-567 | Every CONNACK says accepted, no session present |
| Readings.BareBytes | src/cpp/message.cpp:601-701 | Each other packet is its type in the upper half of the first byte and zero in the lower one, a length field and the payload member |
| Readings.PingBytes | src/cpp/message.cpp:681-685 | The ping is C0 00 |
| NmqttMessages.NmqttMessage.PublishHeader | src/cpp/message.cpp:572-597 | Flags, topic, packet identifier when QoS > 0, empty properties in version 5 |
| NmqttMessages.NmqttMessage.SubscribePacket | src/cpp/message.cpp:621-645 | The fixed identifier, empty properties in version 5, and the topic filter with its options |
| NmqttMessages.NmqttMessage.UnsubscribePacket | src/cpp/message.cpp:653-672 | Two identifiers, and the topic behind a truncated prefix |
| NmqttMessages.NmqttMessage.ConnectHeader | src/cpp/message.cpp:469-506 | Protocol name and level, flags, a keep-alive of 60, and the session expiry of version 5 in host order |
| Messages.ConnectFlagsReadBack | src/cpp/message.cpp:485-493 | The options can be read back from the flag byte the way lines 197 to 202 do, but a will QoS of 2 comes back as 0 |
| NmqttMessages.NmqttMessage.AppendConnectPayload | src/cpp/message.cpp:513-542 | The strings in order, with the prefixes the code gives them, the user name's taken from the will topic |
| NmqttMessages.NmqttMessage.ParseMessage | src/cpp/message.cpp:113-391 | Every return, every exception, every read past the end and every field of a parse |
| NmqttMessages.NmqttMessage.ParseFlags | src/cpp/message.cpp:136-143 | Command, DUP, QoS and RETAIN from the first byte |
| NmqttMessages.NmqttMessage.ParsePublish | src/cpp/message.cpp:258-308 | Topic, identifier, properties and payload, with the reads past the end told apart |
| NmqttMessages.NmqttMessage.ParsePayload | src/cpp/message.cpp:290-307 | Properties skipped in version 5, the payload taken unless one byte is left |
| NmqttMessages.NmqttMessage.ParseConnect | src/cpp/message.cpp:172-245 | The CONNECT branch: name, level (5 is compared and not set), flags, keep-alive and strings |
| NmqttMessages.NmqttMessage.LoadString | src/cpp/message.cpp:215-218 | A string whose length is the first of its two length bytes, sign-extended, cut off at the end of the input |
| ParseReturns.ReturnsExactly | src/cpp/message.cpp:113-391 | For every input and object the parse returns if and only if the packet is refused by its length, or its contents fit: a stated condition on the bytes alone for CONNACK, PUBLISH and CONNECT |
| ParseReturns.SerializedBodyReturns | src/cpp/message.cpp:171-390 | The parse of a serialized packet returns, whatever its fields, if and only if it is no CONNECT or its strings fit as they are read |
| ParseReturns.ConnectWithWillParses | src/cpp/message.cpp:212-230 | For a CONNECT with a will alone: if and only if the packet is longer than the first byte of the client identifier, taken for a length, says |
| ParseReturns.PlainConnectParses | src/cpp/message.cpp:212-218 | A CONNECT without will and credentials always returns |
| PublishRoundTrip.ComesBackExactly | src/cpp/message.cpp:136-168 | A serialized PUBLISH, of whatever sizes, is restored (topic, payload, DUP, RETAIN, identifier) if and only if its remaining length is below 128 and its payload is not one byte |
| PublishRoundTrip.QosExchanged | src/cpp/message.cpp:140-142 | When it is restored, QoS 1 and 2 come back exchanged |
| PublishRoundTrip.RepairedComesBackExactly | src/cpp/message.cpp:258-308 | The repaired variant restores it with its QoS if and only if the topic is below 2^16 bytes and the remaining length below 2^28 |
| PublishRoundTrip.EveryByteAccountedFor | src/cpp/message.cpp:258-307 | A parse of a PUBLISH that returns has split its input into topic, identifier, properties and payload without a gap, but for the forgotten byte |
| PublishRoundTrip.WidenedLength | src/cpp/message.cpp:152-153 | A length byte with its top bit set is read as five bytes and a length from 0x0FFFFF80 up |
| PublishRoundTrip.BodyRead | src/cpp/message.cpp:258-307 | A PUBLISH body is read back from wherever it starts in the buffer |
| ParseReadings.WrongLengthRefused | src/cpp/message.cpp:122-168 | A packet of another length than its length byte says, and below the 2^28 - 128 that a continuing one says, is refused, with nothing but the fields of the first two bytes set |
| ParseReadings.ConnackRead | src/cpp/message.cpp:248-255 | For every object: session present from the third byte, the reason code the fourth one as a signed char, every other field as it was or from the first two bytes |
| ParseReadings.ConnackOf | src/cpp/message.cpp:248-255 | The same for 20 02 a b |
| ParseReadings.PublishRead | src/cpp/message.cpp:258-308 | Every field of a PUBLISH whose parse returns, from the bytes, in any object |
| ParseReadings.OtherRead | src/cpp/message.cpp:311-385 | The other types set the fields of the first two bytes and nothing else |
| ParseReadings.ConnectRead | src/cpp/message.cpp:172-245 | Every field of a CONNECT that is accepted, from the bytes: version, flags, keep-alive, and each string announced where the one before ends |
| ParseReadings.ConnectAcceptedExactly | src/cpp/message.cpp:179-205 | A CONNECT whose parse returns is accepted if and only if name, level and the lowest flag are right |
| ParseReadings.ConnectRefused | src/cpp/message.cpp:179-205 | What a refused one leaves in the object |
| ParseReadings.ConnackOverruns | src/cpp/message.cpp:248-255 | A CONNACK reads past its end if and only if it has no body, and never throws |
| ParseReadings.PublishOverruns | src/cpp/message.cpp:260-303 | Exactly when a PUBLISH reads past its end; all others that do not return throw |
| ParseReadings.ConnectOverruns | src/cpp/message.cpp:172-245 | Exactly when a CONNECT reads past its end: it ends before its flags, or a string begins past the end |
| Framing.DeclaresItsLength | src/cpp/message.cpp:403-434 | For all packet types and fields, scanning a buffer that starts with a serialized packet gives the packet's size if and only if the length codec carries its remaining length, or the writer refuses it and the first four body bytes happen to encode the length of the rest |
| Framing.SerializedIsFrame | src/cpp/message.cpp:704-722 | The output is a control packet of the standard for exactly those packets |
| Framing.RefusedButDeclared | src/cpp/message.cpp:704-722 | The coincidence happens: a PUBLISH of 0x10000001 body bytes whose length is refused is a control packet all the same |
| Framing.PrefixFree | src/cpp/message.cpp:704-722 | Two frames that start the same stream are equal |
| Framing.FirstFrameFound | src/cpp/message.cpp:403-434 | The scan finds the first frame of a stream whatever follows it and whatever stale bytes the buffer holds |
| Framing.SplitConcat | src/cpp/message.cpp:403-434 | Cutting frames off a concatenation of any frames gives exactly those frames and no rest |
| Framing.MessagesAreDelimited | src/cpp/message.cpp:403-434 | The same for serialized messages that declare their lengths |
| Framing.SerializeAgain | src/cpp/message.cpp:515-541 | A second `serialize` gives the same bytes if and only if the packet is not CONNECT, SUBSCRIBE or UNSUBSCRIBE |
| Session.NmqttSession.ReceiveMessage | src/cpp/session.cpp:72-160 | One round: closed, a lone byte thrown away, or a message of which the bytes off the stream, with the stream left over, make up the stream, and which is a control packet unless its header is corrupt or the peer closes; independent of how the body arrives |
| Session.NmqttSession.ReadBody | src/cpp/session.cpp:103-150 | For every fragmentation the body is the next `msglen` bytes, or all there are before the peer closes |
| Session.NmqttSession.Listen | src/cpp/session.cpp:64-172 | The loop over a buffer with anything in it is the run over the stream and that buffer |
| Session.RoundTakes | src/cpp/session.cpp:84-160 | Every round over every stream and buffer: two header bytes off the stream, the rest of the header out of the buffer, and then exactly as many bytes as make the message a control packet, or all there are; nothing more behind a corrupt header |
| Session.RunTakes | src/cpp/session.cpp:64-172 | In every run what came off the stream for all messages, with the bytes thrown away, is no more than the stream, and all of it when the peer ends the run; with nothing thrown away it is a beginning of the stream, in order |
| Session.RunReads | src/cpp/session.cpp:64-172 | In every run every message is a control packet, or five bytes of corrupt header, or the last one, cut short by the peer; header bytes from the third on are those that lay in the buffer at the start |
| Session.NmqttSession.Run | src/cpp/session.cpp:60-172 | The messages handed over, the number of bytes thrown away and the ending, by the peer or by a parse that does not return, are a function of the stream, the first stale buffer, and which headers came apart; each message comes with a parse into a fresh object |
| Session.SmallFrameRead | src/cpp/client_listener.cpp:64-147 | A round reads a frame with a one-byte length exactly, whatever follows and whatever the buffer holds |
| Session.RunReadsExactly | src/cpp/client_listener.cpp:52-160 | Over a stream of frames, the loop hands over exactly these frames and throws nothing away until the peer closes, if and only if each has a one-byte length, no header came apart, and every one's parse returns |
| Session.ParseEndsRun | src/cpp/session.cpp:163-171 | The frames 30 02 FF FF and C0 00 end the run with neither handed over |
| Session.SizesOfRun | src/cpp/session.cpp:72-160 | When the peer ends the run, messages and lost bytes are never fewer in all than the bytes of the stream, and as many only when all lengths took one byte |
| Session.LostBytes | src/cpp/session.cpp:72-83 | A byte is lost in exactly those rounds whose header bytes come apart, but for a last byte that comes alone |
| Session.DeliverSmallPackets | src/cpp/client_listener.cpp:52-160 | Small packets written by a peer arrive as written whenever no byte was thrown away, up to the first one whose parse does not return |
| Session.ReceiveHeader | src/cpp/session.cpp:64-69 | The announced way: reading on until the header is whole gives the header that the stream starts with |
| Session.RunWhole | src/cpp/session.cpp:64-69 | A loop with such headers hands over exactly the frames of its stream up to the first one whose parse does not return |
| Session.DeliverPackets | src/cpp/session.cpp:60-172 | Then every list of packets arrives as written, under every fragmentation, up to the first one whose parse does not return |
| Delivery.DeliverShortMessages | src/cpp/session.cpp:60-172 | Printer, loop and parser as written: of messages with bodies below 128 bytes, when no byte was thrown away, those before the first whose parse does not return come through, and each PUBLISH among them is restored if and only if its payload is not one byte |
| Delivery.DeliverMessages | src/cpp/session.cpp:64-172 | Repaired printer and parser and the announced loop: under every fragmentation those before the first whose parse does not return come through, and each PUBLISH among them is restored, QoS included |
| Delivery.OnlyConnectFails | src/cpp/message.cpp:212-245 | A message whose parse does not return is a CONNECT with a will or credentials |
| Delivery.WillEndsRun | src/cpp/message.cpp:212-230 | The CONNECT with client identifier A, will topic t and will w is one |
| ChronoTriggers.ChronoTrigger.Run | src/cpp/chronotrigger.cpp:38-77 | The nested loops, with the clock and other threads acting before every access, keep the object in the state that the steps give, until the events are used up or the thread exits |
| ChronoTriggers.ChronoTrigger.Wait | src/cpp/chronotrigger.cpp:45-52 | Interval start and inner loop, from one access to the next, ending at the test of `restarting` |
| ChronoTriggers.ChronoTrigger.ClearFlags | src/cpp/chronotrigger.cpp:57-60 | The four stores in their order, each a step among those of other threads |
| ChronoTriggers.ChronoTrigger.Callback | src/cpp/chronotrigger.cpp:69 | The callback with the two stores of its own restart |
| ChronoTriggers.ChronoTrigger.CheckFlags | src/cpp/chronotrigger.cpp:54-76 | The tests in the code's order, the clearing or the callback, and whether the thread exits |
| ChronoTriggers.ChronoTrigger.Restart | src/cpp/chronotrigger.cpp:81-85 | The two stores are the two steps of a restart with nothing between them |
| ChronoTriggers.ChronoTrigger.Finish | src/cpp/chronotrigger.cpp:90-92 | The one store is the step of a finish |
| ChronoTriggers.ChronoTrigger.Stop | src/cpp/chronotrigger.cpp:97-100 | The two stores are the two steps of a stop with nothing between them |
| TimerProperties.EveryCallbackOnTime | src/cpp/chronotrigger.cpp:43-100 | In every run no callback is late, and each is on time (a full interval since its interval began and since the last restart its check could see) unless a signal ended its wait, and then the signal is of a `restart` that stored `restarting` before 59 and `signaled` after 58 of a clearing, or of a `stop` that stored `signaled` after 58 and `stopping` before 60, or not before the test at 64 |
| TimerProperties.OnTimeUnlessOverlap | src/cpp/chronotrigger.cpp:54-66 | In a run in which no call is between its stores while the thread tests or clears the flags, every callback is on time |
| TimerProperties.OrphanSignalFires | src/cpp/chronotrigger.cpp:51-69 | A signal without its flag in a wait that is not over: the thread by itself calls back at once |
| TimerProperties.RestartWhileClearing | src/cpp/chronotrigger.cpp:58-59 | From every state between the stores at 58 and 59, a `restart` leads to an early callback |
| TimerProperties.RestartAcrossClearing | src/cpp/chronotrigger.cpp:82-83 | So does a `restart` whose first store was cleared and whose second one comes in the next wait |
| TimerProperties.StopAcrossCheck | src/cpp/chronotrigger.cpp:98-99 | So does a `stop` whose second store comes after the check |
| TimerProperties.StopExact | src/cpp/chronotrigger.cpp:54-103 | For every state in which `stop` stores `stopping`, single-shot and finished timers included: unless the thread is among the stores at 57 to 60 (or 39 to 42) or will still find a restart at 55, it exits by the end of the interval that is running or about to start, with no callback but one already begun; in those cases the stop is lost, and the thread never exits, or, if it is single-shot or finished, calls back once more and exits |
| TimerProperties.StopInTheWait | src/cpp/chronotrigger.cpp:47-52 | While the thread waits: lost exactly when a restart is pending |
| TimerProperties.StopWhileClearing | src/cpp/chronotrigger.cpp:59-60 | From every state between the stores at 59 and 60 with no restart pending, a `stop` is lost and an early callback follows |
| TimerProperties.StopWakes | src/cpp/chronotrigger.cpp:97-100 | With no restart pending, the notified thread exits by itself, with no time passing and no callback |
| TimerProperties.FinishExact | src/cpp/chronotrigger.cpp:54-92 | For every state in which `finish` is called: a stop that takes effect comes first; otherwise exactly one more callback, unless it has just been made, and the exit with that interval; unless the thread is at 57 or will find a restart at 55 after that clearing, when a periodic timer goes on for ever |
| TimerProperties.FateOf | src/cpp/chronotrigger.cpp:43-76 | From every state a timer left alone either stops, calls back once more and exits, or goes on for ever, and the flags say which |
| TimerProperties.StopAfterOwnRestartIsLost | src/cpp/client.cpp:326-327 | After a callback that restarts its own timer, a `stop` at any moment before the next test at 55 is lost for ever |
| TimerProperties.CallbackRestarts | src/cpp/client.cpp:326-327 | Left alone, a callback that restarts its timer raises both flags in three steps and no time |
| TimerProperties.OwnRestartSignals | src/cpp/chronotrigger.cpp:81-85 | From its own second store on the signal is up, whatever other threads do, until the thread itself clears it at 51 or 58 |
| TimerProperties.RestartWakes | src/cpp/chronotrigger.cpp:50-61 | With both flags up, the first wake-up of a wait leads the thread by itself through the clearing into a new interval, with no time passing and no callback |
| TimerProperties.OwnRestartWakes | src/cpp/chronotrigger.cpp:43-85 | Both together: from such a callback to the next wait, and from its first wake-up into a new interval, with that callback alone |
| TimerProperties.SpuriousWake | src/cpp/chronotrigger.cpp:47-52 | A wake-up without a signal goes back to the wait exactly while the interval is not over |
| KeepAlive.NeverSilentTooLong | src/cpp/client.cpp:326-362 | In every run, wherever the stores of the restarts fall, two consecutive packets, and the last one and now, are at most two intervals, three latencies and one delay of a restart apart |
| KeepAlive.KeepAliveHonoured | src/cpp/client.cpp:204-209 | With the client's numbers that is below the Keep Alive that its own CONNECT packet announces, section 3.1.2.10 of MQTT 3.1.1, while three latencies and the delay stay below 13.6 s |
| KeepAlive.IdleClientPings | src/cpp/client.cpp:353-362 | The bound is attained: an idle client can be silent for two intervals and three latencies any number of times |
| KeepAlive.PacketsAccounted | src/cpp/client.cpp:326-362 | In every run the packets are CONNECT, those of the application and one for each callback, and each one of the application has had its restart begun or is waiting for it |
| KeepAlive.BeginRestarts | src/cpp/client.cpp:326-327 | The restart of a packet raises the flag of the timer and has its second store to come |
| ServerConnections.NmqttClientConnections.AddSocket | src/cpp/server_connections.cpp:27-44 | The handle comes from the FIFO if there is one and from the counter otherwise; unless 2^64 sockets are live it was not live, it finds the new socket with the core parameters, and every other handle finds what it found |
| ServerConnections.NmqttClientConnections.GetSocket | src/cpp/server_connections.cpp:48-56 | The socket under a live handle, and none otherwise |
| ServerConnections.NmqttClientConnections.RemoveSocket | src/cpp/server_connections.cpp:60-69 | The handle is no longer live, every other handle is live exactly if it was and finds the same entry, a live handle goes to the end of the FIFO, and the rest of the object stays |
| ServerConnections.NmqttClientConnections.SetCoreParameters | src/cpp/server_connections.cpp:72-74 | Only the parameters merged into later sockets change |
| ServerConnections.AddKeepsPartitionExactly | src/cpp/server_connections.cpp:30-41 | An addition keeps live and free handles a partition of [0, lastHandle) if and only if fewer than 2^64 - 1 sockets are live |
| ServerConnections.PartitionAndHighWaterMark | src/cpp/server_connections.cpp:27-69 | In every run, that partition, and `lastHandle` is the largest number of sockets ever live together |
| ServerConnections.ReuseIsFifo | src/cpp/server_connections.cpp:30-33 | Over whole runs, handles are used again in the order in which they were given back |
| DispatcherInvariant.NextKeepsInv | src/cpp/dispatcher.cpp:69-119 | Every step of every thread keeps the invariant: who holds which mutex, who may be queued, whose flag is up |
| DispatcherInvariant.NoPendingRequestOverwritten | src/cpp/dispatcher.cpp:73-83 | In every reachable state `setRequest` hits only un-ready workers, no worker is queued twice, and with `workersMutex` free every queued worker is un-ready and in its wait loop or leaving after `stop` |
| DispatcherInvariant.TargetIsIdle | src/cpp/dispatcher.cpp:73-75 | The worker a producer is filling in is the head of the queue and still idle |
| Conservation.ExactlyOnce | src/cpp/dispatcher.cpp:69-119 | In every reachable state each submitted request is in exactly one place (its call, the queue, one ready worker, in `process`, in `finish`, done) and any other request in none; the queue and the lists of requests processed and finished have no duplicates, and a request has been processed if and only if it is in `finish` or done |
| Conservation.RunFits | src/cpp/worker.cpp:39-60 | The place recorded step by step is the place the state shows, over every run |
| CallPaths.ReturnedAfter | src/cpp/dispatcher.cpp:69-93 | In every run, a call that has returned has made the nine accesses of 72 to 84 for one worker, notification included, or the six of 72 and 86 to 89, each once and in this order |
| QueueOrder.RequestsInOrder | src/cpp/dispatcher.cpp:87-107 | Over every run the requests pushed are those taken, in this order, followed by those pending |
| QueueOrder.WorkersInOrder | src/cpp/dispatcher.cpp:74-114 | Over every run the workers parked are those handed a request, in this order, followed by those idle in the queue |
| QueueOrder.StrandedOnlyByOverlap | src/cpp/dispatcher.cpp:72-115 | A request and a worker queued together got there through the last check-to-push windows of that call and that worker, and these overlap in the run |
| QueueOrder.OneQueueEmpty | src/cpp/dispatcher.cpp:72-115 | If no such windows overlap, one of the queues is empty |
| QueueOrder.RunStampsReal | src/cpp/dispatcher.cpp:86-114 | The windows recorded are windows of the run: from the check that finds the other queue empty to the push |
| Stranding.RequestStranded | src/cpp/dispatcher.cpp:86-115 | A run with one call and one worker strands the request, and no continuation without a new call or `stop` processes it |
| Stranding.IdleForever | src/cpp/worker.cpp:51-57 | Workers in their wait loops stay there, whatever the queue of requests holds |
| DispatcherProgress.WaitChain | src/cpp/dispatcher.cpp:72-83 | Waits for mutexes form chains of at most two, the middle one a producer that holds `workersMutex`; the end of the chain can step |
| DispatcherProgress.DeadlockFreedom | src/cpp/dispatcher.cpp:72-116 | In every reachable state every unfinished thread, or the end of its chain, can step |
| DispatcherProgress.StepCounts | src/cpp/worker.cpp:39-60 | Once `stop` has reached all workers, every step of every thread lowers a bound |
| DispatcherProgress.StepsAfterStop | src/cpp/dispatcher.cpp:50-65 | So every schedule without a new call has at most 12 steps a call and 14 a worker, and one more |
| DispatcherProgress.EndsOnlyWhenDone | src/cpp/dispatcher.cpp:57-64 | Such a schedule ends only with all calls returned, all workers out of `run` and `stop` finished |
| DispatcherProgress.StopCompletes | src/cpp/dispatcher.cpp:50-65 | From every reachable state in which `stop` has been called, that end can be reached |
| DispatcherProgress.OutcomeAfterStop | src/cpp/dispatcher.cpp:50-65 | Then each submitted request is in exactly one of three places: processed and finished, still queued, or abandoned with one worker that has left |
| DispatcherProgress.AssignedIsProcessed | src/cpp/worker.cpp:39-60 | Before `stop`, from every reachable state, a schedule of the threads under way processes each request that a ready worker has been given |
| WorkerPool.Worker.constructor | src/cpp/worker.h:35 | A new worker is running and not ready |
| WorkerPool.Worker.SetRequest | src/cpp/worker.h:38 | Sets the request and the flag, and nothing else |
| WorkerPool.Worker.Stop | src/cpp/worker.h:37 | Clears `running`, and nothing else |
| WorkerPool.WorkDispatcher.Init | src/cpp/dispatcher.cpp:34-45 | So many new workers, none ready, the old ones and the queues untouched |
| WorkerPool.WorkDispatcher.AddRequest | src/cpp/dispatcher.cpp:69-93 | The whole new state: to the longest waiting worker or to the end of the queue, and between calls one queue is empty and queued workers are un-ready and distinct |
| WorkerPool.WorkDispatcher.AddWorker | src/cpp/dispatcher.cpp:97-119 | The whole new state: the longest waiting request to the worker, or the worker to the end of the queue, and whether it waits |
| WorkerPool.WorkDispatcher.Run | src/cpp/worker.cpp:39-60 | Undisturbed, a worker processes its own request and then the whole queue in order, and parks |
| WorkerPool.WorkDispatcher.Stop | src/cpp/dispatcher.cpp:50-53 | Every worker stops running; queues, requests and ready flags stay |
| WorkerPool.RequestAddedSettles | src/cpp/dispatcher.cpp:73-90 | Adding a request keeps what holds between calls |
| WorkerPool.WorkerAddedSettles | src/cpp/dispatcher.cpp:104-116 | Adding a worker keeps it |
| WorkerPool.CallAlone | src/cpp/dispatcher.cpp:69-93 | From any place in `addRequest`, the call alone can go to its end, with the outcome of the method |
| WorkerPool.WorkerAlone | src/cpp/dispatcher.cpp:97-119 | The same for `addWorker` |
| WorkerPool.CallsRefine | src/cpp/dispatcher.cpp:69-119 | Whole uninterrupted calls of the transition system change queues and workers as the methods do, and the worker goes into its wait exactly if there was no request |
| WorkerPool.RunAlone | src/cpp/worker.cpp:39-60 | From any place in the loop a worker alone can process its own request and then the whole queue in order, and park, as the method `Run` does |

## Left out

- NmqttMessages.NmqttMessage.ParseConnect: no round trip is stated of a CONNECT, whose strings are read with one-byte lengths and written with truncated prefixes; what holds is when its parse returns, and what it has read then.
- NmqttMessages.NmqttMessage.Serialize: the packet identifier, reason code and CONNECT flags start out arbitrary, as the code leaves them uninitialised.
- Session.NmqttSession.Run: `stop` from another thread and polls that find nothing are not modelled; where a parse reads past its input, which the language leaves undefined, the model's run ends as it does at an exception.
- Session.DeliverPackets: holds of the announced loop; what the code's own loop does is `Session.RunReadsExactly` and `Delivery.DeliverShortMessages`.
- Session.ReceiveHeader: the code has no such loop; it is what the comment at src/cpp/session.cpp:67-69 announces.
- ChronoTriggers.ChronoTrigger.Stop: the join is left out; that it ends is what `TimerProperties.StopExact` says of the thread.
- ChronoTriggers.ChronoTrigger.Run: the two assignments of 45 and 46 are one step, as nobody else reads them; the flags, uninitialised in the code, start out false, as 40 to 42 clear them before they are read.
- KeepAlive.NeverSilentTooLong: sends succeed, and the delay between a send and the first store of its restart is bounded by a parameter; it covers the time while the timer's thread is alive. The client has one connection: the one timer is restarted by sends on any of them (src/cpp/client.cpp:326-327), so that with two connections the bound holds of the client's packets, not of each connection's.
- ServerConnections.NmqttClientConnections.AddSocket: calls are atomic, as the code takes no lock.
- WorkerPool.WorkDispatcher.Run: no other thread acts in between; the interleavings are those of the transition system.
- DispatcherProgress.AssignedIsProcessed: gives a schedule, and says nothing of requests that are still queued; `Stranding.RequestStranded` shows one that no schedule processes.
- DispatcherProgress.StopCompletes: from before `stop` has reached all workers it gives one schedule, as an unfair one can keep the stopping thread waiting.
- Weak memory: accesses to `ready`, `request` and `running` are sequentially consistent.
- What a request does (`process`, `finish`), and exceptions it may throw.
- The condition variable itself: a wait ends at any time, which covers notifications, timeouts and spurious wake-ups.
- Poco sockets, TLS, `TCPServer` and thread creation: foreign input and output.
- Logging, setters, the client's connection maps, the listener manager, the request handlers: nothing hard to prove.
- Host byte order detection, and the compiler-specific swaps.
