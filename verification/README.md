# Verfploeter: a verified model

Verfploeter measures anycast catchments. A client at one site sends signed ICMP echo requests; clients at
many sites collect the replies and stream them, grouped by task, to a server; the server hands them to
whoever subscribed to the task. This project models the code on that path in Dafny and proves what the path
is for: the result of a probe reaches exactly the subscribers of its task, once, whatever the threads do.

`dafny verify dfyconfig.toml` checks everything.

| file | part of the program |
|---|---|
| `Checksum.dfy`, `Cursor.dfy`, `Packet.dfy` | checksum, ICMP and IPv4 (`src/net/mod.rs`) |
| `Wire.dfy` | varints, tags and records, from the Protocol Buffers "Encoding" specification |
| `Schema.dfy`, `Layout.dfy`, `Writing.dfy`, `Encoder.dfy`, `Decoder.dfy`, `RoundTrip.dfy` | messages and their two-pass codec (`src/schema/verfploeter.rs`) |
| `Signing.dfy`, `Addresses.dfy` | signed payloads, address conversions (`src/schema/mod.rs`) |
| `Batching.dfy`, `Inbound.dfy`, `InboundRun.dfy` | sorting and grouping, the inbound threads, all their interleavings |
| `Outbound.dfy`, `OutboundRun.dfy` | the probing loop, all interleavings of the ping threads |
| `PubSub.dfy`, `PubSubRun.dfy` | the subscription table, publishing in one step, all interleavings of the handlers |
| `Registry.dfy`, `RegistryRun.dfy` | connections and task ids, all interleavings of the handlers |
| `EndToEnd.dfy`, `Walkthrough.dfy` | the parts joined, and one probe taken all the way |

Code that changes state step by step is a class or a method with loops, proved against functions; the
theorems are about those functions. Threads and handlers are state machines: a `State`, the `Step`s a thread
can take (one for each lock section, channel operation or call), `Enabled`, `Next`, and `Run`, the state
after any sequence of steps. A theorem about `Run(es)` for every `es` is about every schedule.

Conventions:

- Integers are unbounded with explicit bounds. `u32` additions wrap, as in a release build (`Add32`).
- A failed read leaves a `Cursor` where it was; a panic of a parser is the value `None`.
- A message is a value; `cachedSize` is a field of it. The size pass returns the message with its sizes
  filled in. `Bare...` clears them: `==` on the original messages does not compare them.
- `Mac` is any function from a secret and bytes to 32 bytes.
- Clocks, the outcome of sends and calls, and the order of a hash map are arbitrary.

Where the code and what is said about it differ, the model follows the code:

- `disconnect_subscribers` maps `drop` over references, which drops nothing; it is the removal of the entry
  that drops the senders (`src/server/mod.rs:144-145`).
- A subscriber that registers after the last finish of its task is never disconnected; `FinishedStreamsEnd`
  says exactly which streams can end.
- The counter of received packets also counts the empty or malformed packet that ends the receiver
  (`src/client/handlers/ping_inbound.rs:67-73`); `Conservation` accounts for it.
- An echo request checks to zero whatever its length, but its checksum is the one of RFC 1071 only while the
  accumulator does not wrap; `ChecksumMeetsRfc` says exactly when.
- The registry is safe, and task ids are distinct, exactly for the first 2^32 ids; the id that the inbound
  side uses as its sentinel is the last of them. `ExactUpToTheWrap` and `IssuedIds` say so both ways.

## Model

| member | source | states |
|---|---|---|
| Checksum.FoldClosedForm | src/net/mod.rs:131-133 | folding the carries of any sum gives its residue modulo 65535 in 1..65535, and 0 only for 0 |
| Checksum.FoldCongruent | src/net/mod.rs:131-133 | the folded sum is congruent to the sum modulo 65535 and 0 only if the sum is |
| Checksum.FoldTwoRounds | src/net/mod.rs:131-133 | from any u32 the fold loop ends within two rounds, each of which shrinks the sum |
| Checksum.ByteOrderIndependence | src/net/mod.rs:122-135 | summing with the bytes of every word swapped gives the sum with its bytes swapped, for any even or odd length (section 2(B) of RFC 1071) |
| Checksum.ChecksumMeetsRfc | src/net/mod.rs:98-135 | the two bytes stored little-endian from the little-endian sum are those of the RFC 1071 checksum exactly when the u32 accumulator loses nothing modulo 65535 |
| Checksum.ChecksumMeetsRfcWithinBound | src/net/mod.rs:98-135 | for every buffer of at most 131074 bytes the accumulator does not overflow and the bytes are those of RFC 1071 |
| Checksum.BoundIsTight | src/net/mod.rs:122-135 | 131075 bytes of 0xFF overflow the accumulator and give other bytes than RFC 1071 |
| Checksum.OnlyZerosFoldToZero | src/net/mod.rs:122-135 | within the bound the checksum is 0xFFFF exactly when every byte is 0 |
| Packet.CalcChecksum | src/net/mod.rs:122-135 | the reading loop and the fold loop compute the checksum of the whole buffer, an odd last byte included |
| Packet.IcmpBytesLayout | src/net/mod.rs:78-95 | a serialized packet is type, code, checksum, identifier and sequence number with the most significant byte first, then the body |
| Packet.IcmpPrintParse | src/net/mod.rs:64-95 | parsing a serialized ICMP packet gives the packet back |
| Packet.IcmpParsePrint | src/net/mod.rs:64-95 | parsing succeeds exactly on 8 bytes or more, and serializing what was parsed gives the same bytes |
| Packet.SerializeIcmp | src/net/mod.rs:78-95 | the serializer's output has the byte layout of RFC 792 and parses to the packet |
| Packet.ParseIcmp | src/net/mod.rs:64-76 | the cursor parser accepts exactly inputs of 8 bytes or more; the input has the byte layout of its result, and is its serialization |
| Packet.EchoRequest | src/net/mod.rs:98-120 | the patched buffer is, byte by byte, an echo request with the given fields and body, with the checksum of RFC 1071 within the bound, and checks to 0 |
| Packet.EchoBytesLayout | src/net/mod.rs:98-120 | the layout of every echo request: type 8, code 0, both fields most significant byte first, the body, and the RFC 1071 checksum of the packet with a zero checksum field |
| Packet.PutChecksum | src/net/mod.rs:114-119 | only bytes 2 and 3 are overwritten, low byte first |
| Packet.EchoSelfVerifies | src/net/mod.rs:97-135 | every echo request checks to 0, whatever identifier, sequence number and length of body |
| Packet.EchoParses | src/net/mod.rs:64-120 | an echo request parses to type 8, code 0 and the given fields and body, and its checksum field is that of RFC 1071 within the bound |
| Packet.ParseIPv4 | src/net/mod.rs:20-52 | the cursor parser panics exactly on a buffer too short for its header or its ICMP header, and otherwise reads TTL, addresses and payload from the bytes of section 3.1 of RFC 791 |
| Packet.IPv4OfLayout | src/net/mod.rs:20-52 | what the parser computes, in bytes: TTL at 8, protocol at 9, addresses at 12 and 16 most significant byte first, payload behind four times the low half of byte 0 |
| Packet.IPv4Parses | src/net/mod.rs:20-52 | any header of RFC 791 with IHL 5 to 15 and any options before a payload gives its TTL, its addresses and, for protocol 1, the ICMP packet; shorter than 8 bytes it panics; other protocols are not parsed |
| Packet.IPv4CarriesIcmp | src/net/mod.rs:20-95 | an ICMP packet behind any such header comes back as it was |
| Wire.VarintDigits | src/schema/verfploeter.rs:2360-2363 | in a written varint every byte but the last has its top bit set, and the number is the sum of (b[i] % 128) * 128^i |
| Wire.VarintReads | src/schema/verfploeter.rs:2309-2315 | the reader takes any such string of at most ten bytes, shortest or not, for that sum modulo 2^64, and leaves what follows |
| Wire.VarintFails | src/schema/verfploeter.rs:2309-2315 | the reader fails exactly when none of the first ten bytes ends a varint |
| Wire.VarintRoundTrip | src/schema/verfploeter.rs:3237-3243 | every 64-bit number survives writing and reading as a varint, whatever follows it |
| Wire.VarintSizeExact | src/schema/verfploeter.rs:3216-3223 | the computed size of a varint is the number of bytes written |
| Wire.FieldRoundTrip | src/schema/verfploeter.rs:3182-3214 | a record of any kind survives writing and reading, whatever follows it |
| Wire.MergeEncoding | src/schema/verfploeter.rs:2305-2337 | merging a sequence of records from bytes is applying them to the message one by one |
| Layout.RecordLayout | src/schema/verfploeter.rs:3237-3256 | a record is the varint of eight times its number plus its wire type 0, 1, 2 or 5, then a varint, eight bytes, a counted string or four bytes |
| Layout.BrokenRecordsRefused | src/schema/verfploeter.rs:2305-2308 | a record of number 0, of another wire type or cut short is an error |
| Layout.ShortStringRefused | src/schema/verfploeter.rs:2318-2323 | a counted string longer than what is left is an error |
| Layout.AddressLayout | src/schema/verfploeter.rs:2081-2094 | the bytes of an address, tag by tag: 08 for v4, written even when 0, and 12 for v6 |
| Layout.PayloadLayout | src/schema/verfploeter.rs:3237-3256 | the bytes of a payload: tags 08, 10, 1A and 22, zeros left out |
| Layout.PingResultLayout | src/schema/verfploeter.rs:2921-2945 | the bytes of a ping result: tags 0A, 12, 18, 22 and 28, zeros left out |
| Layout.ResultLayout | src/schema/verfploeter.rs:2595-2607 | the bytes of a result: tag 0A |
| Layout.MetadataLayout | src/schema/verfploeter.rs:1612-1621 | the bytes of metadata: hostname under 0A, version under 12, empty ones left out |
| Layout.ClientLayout | src/schema/verfploeter.rs:1083-1094 | the bytes of a client: tags 08 and 12 |
| Layout.TaskResultLayout | src/schema/verfploeter.rs:2360-2379 | the bytes of a task result: 08, 12, each result under 1A in order, and 20 01 when finished |
| Layout.AddressDispatch | src/schema/verfploeter.rs:2038-2062 | behind any valid records a known field of the wrong wire type is an error and an unknown field changes nothing |
| Layout.PayloadDispatch | src/schema/verfploeter.rs:3182-3214 | the same for a payload, and for addresses that do not decode |
| Layout.PingResultDispatch | src/schema/verfploeter.rs:2859-2894 | the same for a ping result |
| Layout.ResultDispatch | src/schema/verfploeter.rs:2560-2578 | the same for a result |
| Layout.MetadataDispatch | src/schema/verfploeter.rs:1579-1597 | the same for metadata |
| Layout.ClientDispatch | src/schema/verfploeter.rs:1045-1067 | the same for a client |
| Layout.TaskResultDispatch | src/schema/verfploeter.rs:2305-2337 | the same for a task result |
| Layout.AddressIsCut | src/schema/verfploeter.rs:2038-2050 | a number read for a 32-bit field loses its bits above 32 |
| Layout.PayloadTaskIsCut | src/schema/verfploeter.rs:3186-3192 | the same for a payload's task id |
| Layout.TtlIsCut | src/schema/verfploeter.rs:2880-2886 | the same for a TTL |
| Layout.IndexIsCut | src/schema/verfploeter.rs:1049-1055 | the same for a client's index |
| Layout.TaskIsCut | src/schema/verfploeter.rs:2309-2315 | the same for a task result's task id |
| Layout.FlagIsCut | src/schema/verfploeter.rs:2324-2330 | a flag is set exactly by a number that is not 0 in its low 32 bits |
| Layout.TimesAreWhole | src/schema/verfploeter.rs:3193-3199 | 64-bit times are read whole |
| Schema.BareTaskResultEqual | src/schema/verfploeter.rs:2184-2193 | clearing the stored sizes makes two trees the same exactly when all their fields are equal, level by level |
| RoundTrip.AddressRoundTrip | src/schema/verfploeter.rs:2038-2094 | decoding an encoded address gives it back: unset, v4 (0 included) and v6 of any length |
| RoundTrip.PayloadRoundTrip | src/schema/verfploeter.rs:3182-3256 | decoding an encoded payload gives one equal to it in every field, omitted zeros and absent or empty addresses included |
| RoundTrip.PingResultRoundTrip | src/schema/verfploeter.rs:2859-2945 | decoding an encoded ping result gives the same tree |
| RoundTrip.ResultRoundTrip | src/schema/verfploeter.rs:2560-2607 | decoding an encoded result gives the same tree, with or without a ping |
| RoundTrip.MetadataRoundTrip | src/schema/verfploeter.rs:1579-1621 | decoding encoded metadata gives it back, empty strings included |
| RoundTrip.ClientRoundTrip | src/schema/verfploeter.rs:1045-1094 | decoding an encoded client gives the same tree |
| RoundTrip.TaskResultRoundTrip | src/schema/verfploeter.rs:2305-2379 | decoding the encoding of any task result gives a tree equal to it in every field: all numbers, absent and empty submessages, both address forms, lists of any length and order |
| Encoder.SizeAddress | src/schema/verfploeter.rs:2064-2079 | the stored size is the length of the encoding exactly when that fits in u32; nothing else changes |
| Encoder.SizePayload | src/schema/verfploeter.rs:3216-3235 | all sizes stored in the tree are exact precisely when the encoding fits in u32; nothing else changes |
| Encoder.SizePingResult | src/schema/verfploeter.rs:2896-2919 | the same for a ping result |
| Encoder.SizeResult | src/schema/verfploeter.rs:2580-2593 | the same for a result |
| Encoder.SizeMetadata | src/schema/verfploeter.rs:1599-1610 | the same for metadata |
| Encoder.SizeClient | src/schema/verfploeter.rs:1069-1081 | the same for a client |
| Encoder.AddResults | src/schema/verfploeter.rs:2348-2351 | the loop over the repeated field adds the size of every element, unless the sum leaves u32, and stores each element's size |
| Encoder.SizeTaskResult | src/schema/verfploeter.rs:2339-2358 | every size stored anywhere in the tree is the length of its own message's encoding precisely when the whole encoding fits in u32; nothing else changes |
| Encoder.WriteAddress | src/schema/verfploeter.rs:2081-2094 | appends the encoding of the address and keeps what was written |
| Encoder.WritePayload | src/schema/verfploeter.rs:3237-3256 | appends exactly what the stored sizes dictate |
| Encoder.WritePingResult | src/schema/verfploeter.rs:2921-2945 | appends exactly what the stored sizes dictate |
| Encoder.WriteResult | src/schema/verfploeter.rs:2595-2607 | appends exactly what the stored sizes dictate |
| Encoder.WriteMetadata | src/schema/verfploeter.rs:1612-1621 | appends the encoding of the metadata |
| Encoder.WriteClient | src/schema/verfploeter.rs:1083-1094 | appends exactly what the stored sizes dictate |
| Encoder.WriteTaskResult | src/schema/verfploeter.rs:2360-2379 | appends exactly what the stored sizes dictate |
| Writing.PayloadWritten | src/schema/verfploeter.rs:3237-3256 | with exact stored sizes that is the encoding of the payload |
| Writing.TaskResultWritten | src/schema/verfploeter.rs:2360-2379 | with exact stored sizes the writing pass emits the encoding, so exactly the returned number of bytes, and every length prefix is right |
| Encoder.TaskResultToBytes | src/schema/verfploeter.rs:2339-2379 | the two passes together emit the encoding, tag by tag, of the length the size pass returned |
| Encoder.PayloadToBytes | src/schema/verfploeter.rs:3216-3256 | the same for a payload |
| Decoder.MergeAddress | src/schema/verfploeter.rs:2038-2062 | the tag-dispatch loop decodes what is left in the stream and stops at its limit, or fails when the bytes do not decode |
| Decoder.MergePayload | src/schema/verfploeter.rs:3182-3214 | the same for a payload, its addresses read under a nested limit |
| Decoder.MergePingResult | src/schema/verfploeter.rs:2859-2894 | the same for a ping result |
| Decoder.MergeResult | src/schema/verfploeter.rs:2560-2578 | the same for a result |
| Decoder.MergeMetadata | src/schema/verfploeter.rs:1579-1597 | the same for metadata |
| Decoder.MergeClient | src/schema/verfploeter.rs:1045-1067 | the same for a client |
| Decoder.MergeTaskResult | src/schema/verfploeter.rs:2305-2337 | the same for a task result, the repeated field collected in order |
| Decoder.TaskResultFromBytes | src/schema/verfploeter.rs:2305-2337 | parsing bytes is the decoding that the round trips are about, errors included |
| Decoder.PayloadFromBytes | src/schema/mod.rs:122 | the same for a payload |
| Signing.ToSignedBytes | src/schema/mod.rs:93-106 | the bytes are the encoding and then its hash, which verify under the same secret to the same payload |
| Signing.FromSignedBytes | src/schema/mod.rs:108-124 | for every buffer: the length error exactly below 32 bytes, the hash error exactly when the last 32 bytes are not the hash of the others, the parse error exactly when those do not decode, and otherwise their payload |
| Signing.SecretIs | src/client/handlers/ping_inbound.rs:93 | the secret is the text in the source, character by character |
| Signing.SignedVerifies | src/schema/mod.rs:92-124 | what was signed with a secret is accepted with it and gives the payload back |
| Signing.AcceptedExactly | src/schema/mod.rs:108-124 | a buffer is accepted exactly when it is a decodable string followed by its own hash |
| Signing.OtherSecret | src/schema/mod.rs:108-124 | under another secret it is accepted exactly when the hashes coincide; otherwise the error is the one of the hash |
| Signing.PayloadSize | src/schema/verfploeter.rs:3216-3235 | a payload with v4 addresses takes at most 33 bytes, signed at most 65 |
| Addresses.IpOf | src/schema/mod.rs:18-30 | v4 and v6 addresses convert, short v6 ones padded with zeros behind, and it panics exactly on more than 16 bytes |
| Batching.SortSorts | src/client/handlers/ping_inbound.rs:157-158 | the sort orders results by task id and keeps the same results |
| Batching.SortIsStable | src/client/handlers/ping_inbound.rs:157-158 | the results of every task keep their order |
| Batching.SortUnique | src/client/handlers/ping_inbound.rs:157-158 | sortedness and stability leave one list only, so the sort is determined by its contract |
| Batching.GroupedStep | src/client/handlers/ping_inbound.rs:163-181 | one turn of the grouping loop keeps the batches a partition of the results taken so far, on sorted input |
| Batching.KeyIs | src/client/handlers/ping_inbound.rs:158-164 | the key of a result is the task id in its payload, 0 without one |
| Batching.PartitionCuts | src/client/handlers/ping_inbound.rs:160-188 | in the messages' own fields: each batch is the stretch of the list between two cuts, its results have its task id in their payloads, ids strictly increase, and unless all ids are the sentinel every batch carries the client's metadata |
| Batching.BatchHoldsItsTask | src/client/handlers/ping_inbound.rs:160-188 | in a partition the batch of a task holds all results of that task, in order |
| Inbound.PingInbound.constructor | src/client/handlers/ping_inbound.rs:210-227 | an empty queue, which is present |
| Inbound.AttributeExactly | src/client/handlers/ping_inbound.rs:89-115 | a packet gives a result exactly when it is an ICMP packet whose body is a decodable string and then its hash; the result reports that payload and the packet's addresses, TTL and time |
| Inbound.PingsKept | src/client/handlers/ping_inbound.rs:157 | exactly the results with a ping are kept, in order |
| Inbound.PingInbound.Receive | src/client/handlers/ping_inbound.rs:66-79 | one read of at most 1500 bytes: counted; an empty one stops, a malformed one panics, any other goes into the channel |
| Inbound.PingInbound.Process | src/client/handlers/ping_inbound.rs:88-126 | the next arrival counts as valid exactly when it is an ICMP packet whose body is a decodable string and then its hash, and else as invalid with nothing queued; the result queued reports that payload and the packet's own fields |
| Inbound.PingInbound.Add | src/client/handlers/ping_inbound.rs:163-180 | a result of another task, by the id in its payload, closes a non-empty batch, which is sent and counted if that succeeds, and opens one of its id with the client's metadata; any other joins the batch |
| Inbound.PingInbound.SendGrouped | src/client/handlers/ping_inbound.rs:160-188 | the batches sent partition the sorted results, none empty, task ids strictly increasing and those in the payloads; unless all ids are the sentinel every batch carries the client's metadata; the counter grows by what was accepted |
| Inbound.PingInbound.TransmitRound | src/client/handlers/ping_inbound.rs:149-188 | one round empties the queue and sends batches that partition its stably sorted results, with the client's metadata unless all ids are the sentinel |
| InboundRun.ProcessIsThreeSteps | src/client/handlers/ping_inbound.rs:88-126 | a turn of the processor is its three steps in a row |
| InboundRun.PerTaskOrder | src/client/handlers/ping_inbound.rs:85-189 | in every reachable state, for every task: results sent, then the working set, then the queue are the pushed results in push order, and those are a prefix of the results of the packets in order of arrival |
| InboundRun.Conservation | src/client/handlers/ping_inbound.rs:66-189 | in every reachable state the queue is present, every packet counted is in one place, every valid result is in one place, and the transmitted count is that of the accepted batches, at most the valid count |
| InboundRun.ValidBySignature | src/client/handlers/ping_inbound.rs:88-126 | in every reachable state, of the packets classified exactly the ICMP packets with a signed body were counted as valid, the others as invalid, and what was pushed are the results of the valid ones, each with the payload signed in it, in order of arrival |
| InboundRun.RoundsPartition | src/client/handlers/ping_inbound.rs:149-188 | in every run the rounds take up the pushed results without gap or overlap, make all the calls, and each finished round's batches partition its stably sorted results, with the client's metadata unless all ids are the sentinel |
| InboundRun.QuietRun | src/client/handlers/ping_inbound.rs:66-189 | at rest each task's sent results are those of all packets that arrived, in order of arrival |
| Outbound.PingOutbound.BuildProbe | src/client/handlers/ping_outbound.rs:134-146 | a probe is an echo request, identifier 1 and sequence number 2, that checks to 0 and whose signed payload names the task's id, its source, the destination and the time |
| Outbound.ProbeSays | src/client/handlers/ping_outbound.rs:134-146 | the same of every probe, in bytes and in the fields of the task |
| Outbound.PingOutbound.ProbeOne | src/client/handlers/ping_outbound.rs:133-166 | one probe is handed to the socket, for the bits of a v4 destination and 0.0.0.0 for any other, and counted as sent or failed |
| Outbound.PingOutbound.PerformPing | src/client/handlers/ping_outbound.rs:110-169 | there is one attempt for each address the task's ping lists, in that order, failures included, and none without a ping; the two counters add up |
| OutboundRun.SerializedProbing | src/client/handlers/ping_outbound.rs:176-185 | in every schedule at most one thread probes; the log follows the lock order; every thread that gave the mutex back has attempted all addresses its task lists, and the one that holds it a prefix |
| OutboundRun.EachDestinationOnce | src/client/handlers/ping_outbound.rs:133-185 | at any time a thread has attempted exactly the first addresses its task lists, each once, in order: none while it waits, all once it released the mutex |
| OutboundRun.NoticeAfterAllProbes | src/client/handlers/ping_outbound.rs:171-202 | `task_finished` is called only after all addresses the task lists were attempted, at most once for a task received |
| OutboundRun.PacketsAreProbes | src/client/handlers/ping_outbound.rs:133-167 | every packet sent in any schedule is the signed probe of a destination of a task received |
| OutboundRun.PacketsAsAsked | src/client/handlers/ping_outbound.rs:133-167 | every packet sent in any schedule goes to an address its task lists, and is a signed request that names the task, its source, that address and the time of the attempt |
| OutboundRun.AttemptRecorded | src/client/handlers/ping_outbound.rs:133-166 | an attempt is for the next address the task lists and keeps the time and outcome of its step |
| PubSub.VerfploeterService.RegisterSubscriber | src/server/mod.rs:113-121 | the sender is appended to its task's entry, and no other entry changes |
| PubSub.VerfploeterService.GetSubscribers | src/server/mod.rs:123-134 | the snapshot is the entry of the task, if there is one |
| PubSub.VerfploeterService.DisconnectSubscribers | src/server/mod.rs:136-147 | the entry of the task is gone, and no other changes |
| PubSub.VerfploeterService.SendResult | src/server/mod.rs:281-290 | run alone, one send to each subscriber of the result's task, in order, and none to others |
| PubSub.InboxIsWindow | src/server/mod.rs:113-148 | for publishing in one step: a reader is active exactly until its task's next finish, and its inbox has a handler's result exactly when that published after the reader's registration and before that finish |
| PubSubRun.RefinesAtomicPublish | src/server/mod.rs:281-315 | every interleaving of snapshots, sends, registrations, disconnects, drops and forwards is related to publishing in one step: sent plus still owed is the ideal inbox, for every reader and handler |
| PubSubRun.ExactlyOnce | src/server/mod.rs:113-148 | a reader that has not gone away has a returned handler's result exactly once if its snapshot fell in the reader's window, else not at all |
| PubSubRun.NothingForeign | src/server/mod.rs:281-309 | what a reader receives are copies of handlers' results, all of its own task; one that went away has a prefix of its offers |
| PubSubRun.EndOfStreamLosesNothing | src/server/mod.rs:281-315 | a stream ends only after its task's finish, having carried every result whose snapshot fell in the window, once |
| PubSubRun.EndedForGood | src/server/mod.rs:292-309 | a stream that ended does not change |
| PubSubRun.FinishedStreamsEnd | src/server/mod.rs:136-147 | with no handler in flight, senders of a reader are left exactly if its task was not finished since its registration |
| PubSubRun.CallsInOrder | src/server/mod.rs:281-290 | a returned handler offers nothing more, so calls made one after the other reach every reader in that order |
| Registry.ConnectionManager.GenerateConnectionId | src/server/mod.rs:334-338 | the id is the new value of the counter, one more than the old, modulo 2^32 |
| Registry.ConnectionManager.RegisterConnection | src/server/mod.rs:340-348 | the connection is under its id and no other entry changes |
| Registry.ConnectionManager.UnregisterConnection | src/server/mod.rs:350-358 | the entry is gone and no other changes |
| Registry.ConnectionManager.GetClientTxByIdx | src/server/mod.rs:360-366 | the channel under that id, if any |
| Registry.ConnectionManager.GetClientTxByHostname | src/server/mod.rs:368-374 | none exactly when no connection has the hostname; otherwise the channel of one that has |
| Registry.MatchesExactly | src/server/mod.rs:215-225 | which connection a request means, in its own fields: the hostname in its client's metadata, or without one its index, 0 without a client |
| Registry.TaskDispatcher.DoTask | src/server/mod.rs:208-256 | a ping that names a hostname goes to a connection of that hostname and fails exactly when there is none; any other goes to the connection of its index, 0 without a client; only one that goes out uses up a task id, and the ack tells |
| RegistryRun.IssuedIds | src/server/mod.rs:230-236 | in every run, ids are pairwise distinct exactly while at most 2^32 were issued, and the sentinel is issued exactly with the 2^32nd |
| RegistryRun.Collide | src/server/mod.rs:334-338 | two ids coincide exactly when whole turns of the counter lie between them |
| RegistryRun.RegistrySafe | src/server/mod.rs:151-191 | while at most 2^32 ids were issued, registering overwrites nothing and unregistering removes the handler's own entry |
| RegistryRun.ExactUpToTheWrap | src/server/mod.rs:334-358 | the map holds exactly the connections registered and not yet unregistered, in all runs that issue at most n ids, exactly if n is at most 2^32 |
| RegistryRun.Overwrites | src/server/mod.rs:334-348 | a run with one id more in which a registration replaces another connection's |
| RegistryRun.LookupExactly | src/server/mod.rs:215-225 | what a look-up can give in any state: some connection of the hostname named, nothing exactly when there is none; without a hostname the connection of the index |
| RegistryRun.SuccessIsOnePlacement | src/server/mod.rs:208-256 | in every run a request succeeds exactly when its task was placed; once, in the channel of one connection that has the hostname the request names, or else its index as id, with the id of the ack |
| RegistryRun.PlacedTasksAreDistinct | src/server/mod.rs:229-248 | while at most 2^32 task ids were issued, placed tasks have distinct ids, and with fewer none of them is the sentinel |
| EndToEnd.ProbeFits | src/client/handlers/ping_inbound.rs:66-73 | a v4 payload takes at most 33 bytes, signed 65, as an ICMP packet 73, with any IPv4 header 133: far less than the receive buffer |
| EndToEnd.EchoIsAttributed | src/client/handlers/ping_inbound.rs:88-117 | a probe's body in any packet with any valid header is accepted and gives a result with the task's id and source, the probed destination, and the packet's addresses, TTL and time |
| EndToEnd.EchoArrives | src/client/handlers/ping_inbound.rs:66-78 | such a packet is received whole |
| EndToEnd.ArrivalIsBatched | src/client/handlers/ping_inbound.rs:149-188 | at rest the result of every packet that arrived is in a call whose batch has its task id |
| EndToEnd.Transfer | src/schema/verfploeter.rs:2305-2379 | a batch written by a client is read by the server as the same tree |
| EndToEnd.ProbeIsReported | src/client/handlers/ping_inbound.rs:66-189 | a probe of any outbound run that comes back in any inbound run is in some call for its task |
| EndToEnd.ProbeReachesItsSubscribers | src/server/mod.rs:281-315 | every server run that handled that call delivered the probe's result exactly once to each reader of the task whose window covered the handler's snapshot, and to no other reader |
| Walkthrough.EchoCanComeBack | src/client/handlers/ping_inbound.rs:66-189 | for every task, header and reply there are runs in which the first probe's echo arrives and the threads come to rest, so the premises of the theorem above can be met |
| Walkthrough.BatchCanBeRead | src/server/mod.rs:281-309 | for every batch below 4 GiB there is a server run in which a subscriber of its task receives it |

## Left out

- RoundTrip.TaskResultRoundTrip: encodings of 4 GiB and more, whose length prefixes and sizes do not fit 32 bits; the same for the other round trips. `Encoder.SizeTaskResult` shows that the size pass is exact precisely below that.
- Encoder.TaskResultToBytes: says nothing of encodings of 4 GiB and more, for the same reason; likewise `Encoder.PayloadToBytes`, `Signing.ToSignedBytes` and the packet of a probe whose v6 address is that long.
- Wire.MergeEncoding: the runtime's records are modelled from the Protocol Buffers "Encoding" specification, sections "Base 128 Varints", "Message Structure" and "Length-Delimited Records"; the runtime is not part of this model. A group of an unknown field, which the runtime skips, is rejected here; other unknown fields are skipped and not kept, a repeated singular submessage replaces the earlier one, and strings are byte sequences without a UTF-8 check.
- Signing.AcceptedExactly: no claim that a hash cannot be forged; HMAC-SHA256 is any function to 32 bytes.
- Batching.SortUnique: `sort_by_key` is modelled by its contract, not by its algorithm; the contract determines the result.
- Inbound.PingInbound.Receive: a malformed packet ends the receiver; the panic itself and what it does to the process are not modelled.
- InboundRun.Conservation: channels are unbounded, so a sender never waits; a full channel is a delay that other schedules cover. The same holds for the other state machines.
- OutboundRun.SerializedProbing: a panic while the mutex is held (a failing bind) would poison it; such runs are left out. So is the shutdown of the outbound thread, which ends no ping thread.
- PubSubRun.FinishedStreamsEnd: that a handler returns and a queue drains is assumed in the premise; no fairness of the scheduler is modelled.
- Messages as shared mutable cells: `cached_size` is a field of a value, so aliasing of one message by two encoders is not captured.
- Debug builds, in which an overflowing addition panics instead of wrapping.
- The leaky-bucket rate limiter: `ratelimit_meter` is not part of this model, and no claim is made about rates.
- Encodings of `Task`, `Ping`, `ScheduleTask`, `Ack` and the other messages of the protocol: the same generated code over again.
- Sockets, gRPC, TLS, timers and threads as such: steps that may happen at any time. Keepalive tasks, which carry no ping and are ignored by the client.
- `list_clients`, the command line, CSV and JSON output, `TaskResult`'s `Display`, Prometheus, MaxMind: reporting without state of its own.
