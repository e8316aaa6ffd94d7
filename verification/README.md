# Satel Integra client: verification model

A model of the five stateful cores of the Satel Integra client (`src/`), with machine-checked
proofs of what they promise. `dafny verify dfyconfig.toml` checks the whole project.

The Rust code that updates things in place is modelled by classes with the same fields and by
methods with the same loops and branches; each method is proved against a specification function,
and the promises are lemmas about those functions and invariants over whole runs.

| files | what they model |
|---|---|
| `Bytes` | bytes, words, 64-bit counters, bits, exclusive or, the growable byte buffer |
| `Codec`, `CodecProperties`, `CodecStreams`, `Checksum`, `WireFormat` | the byte-stuffed, checksummed, resynchronising frame codec, what its checksum detects, and its format in literal bytes |
| `Cipher`, `CipherMode`, `Packets`, `EncryptedStream`, `EndToEnd` | the cipher mode, and block by block where its output comes from, packets, the packetising stream wrapper, and codec and encryption together |
| `WorkerSpec`, `WorkerProperties`, `WorkerTelemetry`, `WorkerProgress`, `WorkerFaults`, `CommunicationWorker`, `Demux` | the connection worker: states, sessions, pings, backoff, exchanges, push frames, its telemetry, what it does when it has to, and how it fails |
| `PushMask`, `MaskCoverage`, `MaskReload`, `MaskLink` | the push mask, what it asks for against what is taken in, hot reload against the worker, and the worker as a run of that protocol |
| `Breaker`, `BreakerOverlap`, `NameFallback` | the temperature circuit breaker, also with overlapping calls, and the query-type fallback of the name queries |
| `StateCache` | state frames, the cache of zones, partitions and outputs, and their events |
| `TroubleTables`, `TroubleCache`, `TroubleInformation`, `TroubleParts`, `TroubleAgreement` | the trouble tables, the trouble cache and its events, how much of a frame its items tell, and the typed trouble decoder |

## How the world is represented

- Sockets and serial ports are scripts: what each future poll accepts, delivers, refuses or blocks
  is a parameter, so every lemma holds for all schedules. The same goes for replies of the panel,
  for the outcome of each send, and for the pseudo-random header bytes of a packet.
- The monotone clock is a natural number of milliseconds that only grows; the wall clock may jump.
  Wherever the worker waits, a hot reload may write the configuration or raise the flag: every delay
  carries the reloads that fall into it, and every lemma about runs holds for all of them.
- The channel to the state worker holds 100 messages. A push receive that waits for room in it can be
  cut off by another event; each push receive carries whether that happens.
- The AES-192 block function (section 5 of FIPS 197) is any pair of functions on 16-byte blocks
  that undo each other; the chaining around it (section 6.2 of NIST SP 800-38A, with the encryption
  of the zero block as first chaining value, and the vendor's rule for the last partial block) is
  modelled in full.
- History that proofs talk about but the program does not keep (packets built, bytes delivered) is
  ghost state of the classes. The worker's history is one log of raw marks (phases entered with both
  clocks, writes, exchanges with command and answer, ping timeouts, frames taken off a stream, stream
  errors, reconnects, resets) that no transition reads; sessions, their lengths, missed pings, outages, owed frames and
  the mask in force in the panel are computed from that log alone.
- Machine widths are explicit where they matter: the 16-bit checksum and packet counter wrap, the
  64-bit error counter wraps, the breaker's 32-bit counters wrap, the missed-ping counter saturates.

## Where the code differs from its documentation, and what is false

- The repository's `README.md` calls the encryption AES-192 in ECB mode. The code chains blocks;
  the model follows the code.
- A payload that starts with `0x0D` forms a frame end with the second header byte and is not
  returned: `CodecStreams.RoundTripExactly` shows that this is the only exception, and
  `CodecStreams.ReturnedIsTransmittable` that no frame starting with that byte is ever returned.
- The packet length prefix is one byte. Plaintexts above 249 bytes are not read back:
  `Packets.ReadableExactly` and `Packets.OneShotRoundTrip` give the exact limit.
- The checksum does not detect every altered byte: `Checksum.UndetectedAlteration` is an altered
  frame that is returned, and `Checksum.AlteredByteIsAcceptedExactly` says for every altered byte
  when that happens. The last payload byte is always safe.
- The worker takes any answer to the mask for success, also an error code, and does not send the
  mask again: `MaskReload.RefusedUpdateIsForgotten` reaches such a state,
  `MaskReload.ForgottenForGood` shows that only a changed mask or a new session ends it, and
  `MaskReload.TickRestoresExactly` when a tick brings panel and configuration together. Apart from
  that no update is lost: `MaskReload.NoLostUpdate` for the protocol, `MaskLink.WorkerLosesNothing`
  for all runs of the worker.
- A push receive takes a frame off the stream before there is room for it in the channel to the state
  worker. If another event comes first, the frame is gone: `Demux.GivenIsOwedExactly` and
  `WorkerProperties.StateWorkerGetsWhatItIsOwed` give the exact condition, and the frames missed.
- A push receive indexes an empty frame out of bounds, which ends the worker:
  `WorkerFaults.DeadExactly`. The codec does return an empty frame for an empty valid one:
  `CodecStreams.EmptyFrameIsReturned`.
- A write to the encrypted stream that fails after its packet was built is reported as failed, but the
  packet stays in the write buffer and goes out with the next write: the contract of
  `EncryptedStreams.EncryptedStream.PollWrite` says when.
- A push receive drops an acceptance `EF FF`; only exchanges could be waiting for one.
- A temperature reading is stored under the zone number in the reply, not the one asked for; the
  breaker's books are kept per stored zone and hold either way.
- Overlapping temperature queries of one zone pass its limits, by their number less one and no more:
  `BreakerOverlap.OverlapBound` and `BreakerOverlap.OverlapReachesBound`. Two calls turned away at
  once can get two tries for the price of one, under all limits with a price above one:
  `BreakerOverlap.OnePriceTwoTries`; `BreakerOverlap.PriceIsPaidExactly` says when it is always paid.
- A version reply that does not parse leaves the worker in Handshake, with the stream open:
  `WorkerFaults.HandshakeIsLeftExactly`, and `WorkerFaults.HandshakeStands` and
  `WorkerFaults.HandshakeEndsExactly` for how long, and how it ends.
- A name query answered after a reset of its session can confirm a type nobody has tried: it confirms
  the type answered if and only if that is lower than the type captured or the session's own
  (`NameFallback.ConfirmLateExactly`), and `NameFallback.LateReplyDecides` says what is read then.
  `NameFallback.LateReplyExactly` (switched to the extended types meanwhile) and
  `NameFallback.LateReplyAfterToggle` (switched off and on again) are the two ways it goes wrong.
- Reserved bits of the communication-module block are reported only when set, so the cache keeps
  them for ever: `TroubleCache.ReservedBitsExactly` and `TroubleCache.ReservedBitsLatch`.
- Command 0x22: the table-driven decoder reads 14 of the 16 jammed-bus bits of each half, the typed
  one all 16. The four spare bits are the only typed fields without an item:
  `TroubleAgreement.SpareBitsHaveNoItem`.

## Model

| member | source | states |
|---|---|---|
| Codec.SatelCodec.CalculateCrc | src/codec.rs:9-18 | the checksum loop computes the checksum that the round-trip and rejection lemmas are about, for data of every length |
| Codec.SatelCodec.Decode | src/codec.rs:45-96 | one call, recursion included, returns the first intact frame of the buffer, counts each corrupt region before it once (modulo 2^64), and leaves exactly the unread rest; it terminates |
| Codec.SatelCodec.TakeRegion | src/codec.rs:49-69 | the buffer is cut at the first header and the first end behind it, or kept from a possible header on |
| Codec.SatelCodec.UnescapeBody | src/codec.rs:70-81 | the index loop never leaves the region and undoes the stuffing between the delimiters |
| Codec.SatelCodec.EncodeTo | src/codec.rs:99-119 | appends header, stuffed payload and checksum, and end to what the destination already holds |
| CodecProperties.DrainIsRepeatedDecode | src/codec.rs:49-95 | draining, used in the stream lemmas, is what repeated calls return until one returns nothing |
| CodecProperties.ChunkingIndependence | src/codec.rs:49-95 | for every byte string, well formed or not, and every way to cut it, the same frames and the same number of errors come out, and leftovers equal up to one lone byte that starts no header |
| CodecProperties.LoneByteRemains | src/codec.rs:50-52 | that allowance is needed: two ways to cut the same bytes leave different bytes |
| CodecStreams.RoundTripWithResync | src/codec.rs:49-118 | behind any harmless bytes an encoded payload is decoded to itself and exactly itself is consumed |
| CodecStreams.RoundTripExactly | src/codec.rs:49-118 | that holds for a payload if and only if it is empty or does not start with 0x0D |
| CodecStreams.EarlyEndIsNotReturned | src/codec.rs:67-70 | from a buffer with a payload that starts with 0x0D neither it nor anything in its place is returned: a frame that is comes out of the bytes behind it |
| CodecStreams.ReturnedIsTransmittable | src/codec.rs:67-95 | no frame returned, from whatever bytes, starts with 0x0D |
| CodecStreams.EmptyFrameIsReturned | src/codec.rs:49-118 | an encoded empty payload is returned as an empty frame |
| CodecStreams.ReturnedFrameWasOnTheWire | src/codec.rs:49-95 | every frame returned stood in the buffer, delimited, stuffed and followed by its own checksum, directly before what is left |
| CodecStreams.MixedStreamConservation | src/codec.rs:53-94 | from any stream of encoded payloads, damaged regions and short regions with harmless gaps, exactly the payloads come out, in order, and exactly the damaged regions are counted, whatever follows |
| CodecStreams.MixedStreamInChunks | src/codec.rs:49-95 | the same for every way to cut the stream into chunks, with nothing left over |
| Checksum.RoundsCollideExactly | src/codec.rs:13-16 | one round maps two running checksums to one if and only if they are equal or meet, a condition on the two words alone |
| Checksum.LastByteDecides | src/codec.rs:9-18 | two payloads that differ in the last byte only have different checksums |
| Checksum.AlteredLastByteIsCounted | src/codec.rs:83-92 | a frame whose last payload byte was altered is rejected as corrupt |
| Checksum.AlteredSecondToLastExactly | src/codec.rs:83-92 | a frame whose last payload byte but one was altered is accepted if and only if the two checksums behind that byte meet |
| Checksum.AlteredByteIsAcceptedExactly | src/codec.rs:9-18 | a frame with one altered payload byte, anywhere, is accepted if and only if the two running checksums meet somewhere along the rest, and is else rejected |
| Checksum.UndetectedAlteration | src/codec.rs:83-92 | a frame with one altered byte that one decode call returns as intact, whatever harmless bytes come before it and whatever comes behind |
| WireFormat.EncodedFrame | src/codec.rs:99-119 | every encoded frame starts with FE FE and ends with FE 0D; in between each FE is followed by F0, and unstuffed stand there the payload and its checksum, high byte first |
| WireFormat.UnescapeKeepsOthers | src/codec.rs:70-81 | bytes without a pair FE F0 are left as they are |
| WireFormat.UnescapeFirstPair | src/codec.rs:70-81 | the first FE F0 becomes FE, and unstuffing goes on behind it |
| WireFormat.ChecksumRound | src/codec.rs:13-16 | one round moves every bit up by one and the top bit to the bottom, inverts every bit, and adds the high byte and the data byte modulo 65536 |
| WireFormat.ChecksumRounds | src/codec.rs:9-18 | the checksum is that round over all bytes, starting from 0x147A |
| WireFormat.FramesOnTheWire | src/codec.rs:45-119 | three frames byte by byte, encoded and decoded, whatever follows them |
| Cipher.CipherRoundTrip | src/encryption.rs:51-116 | on buffers of every length decryption undoes encryption and encryption undoes decryption, for every block bijection |
| Cipher.SatelAesCipher.Encrypt | src/encryption.rs:51-81 | the in-place loop with its chaining value, index and count computes the recursive definition of the mode |
| Cipher.SatelAesCipher.Decrypt | src/encryption.rs:84-116 | the same for the decrypting loop |
| CipherMode.EncipheredBlocks | src/encryption.rs:51-81 | each full ciphertext block is the encryption of its plaintext block masked with the ciphertext block before it, the first one with the encryption of sixteen zeros; the rest is masked with one more encryption of the last ciphertext block or of that first value |
| CipherMode.DecipheredBlocks | src/encryption.rs:84-116 | each full plaintext block is the decryption of its ciphertext block with the same mask, and the rest is masked as when it was encrypted |
| CipherMode.MaskedBits | src/encryption.rs:63-65 | a masked byte has just the bits in which the byte and its mask differ |
| Packets.ReadableExactly | src/encryption.rs:336-358 | one packet is read back as its zero-padded plaintext if and only if the plaintext has at most 249 bytes |
| Packets.PacketOnTheWire | src/encryption.rs:336-358 | a packet is its length modulo 256 and, encrypted, six header bytes, the plaintext, and zeros up to sixteen bytes in all |
| Packets.OneShotRoundTrip | src/encryption.rs:121-154 | `decrypt_data` returns what was given to `encrypt_data`, zero-padded, if and only if it has at most 249 bytes |
| Packets.OneShotFormat | src/encryption.rs:121-154 | `decrypt_data` refuses exactly what does not start with a length of at least 16 and that many bytes, and `encrypt_data` makes one packet with a header of zeros, or nothing of nothing |
| Packets.ParseAppend | src/encryption.rs:231-303 | reading a packet stream may stop at any byte and resume from the remembered length and partial packet |
| Packets.ParseAllPackets | src/encryption.rs:231-303 | packets written one after the other are read back as the padded plaintexts, in order, with no partial packet left and the sender of the last one kept |
| EncryptedStreams.EncryptedStream.PollWrite | src/encryption.rs:307-378 | keeps the stream invariant: bytes on the wire followed by the write buffer are all packets built so far, each once, in order and consecutively numbered; at most one packet is built per call, none if it blocks before; the result and what is left to write are those of the two write loops over the inner stream |
| EncryptedStreams.EncryptedStream.WriteOut | src/encryption.rs:316-328 | under every schedule of partial writes, blocking and errors that invariant is kept, and the result and what is left of the buffer are those that the schedule decides |
| EncryptedStreams.EncryptedStream.PollFlush | src/encryption.rs:380-400 | a completed flush means that the wire holds exactly all packets built |
| EncryptedStreams.EncryptedStream.BuildPacket | src/encryption.rs:332-358 | header, plaintext and zero padding to 16 bytes, encrypted in place behind the length byte, are the packet the peer parses |
| EncryptedStreams.EncryptedStream.PollRead | src/encryption.rs:231-303 | for every chunking, bytes delivered followed by the read buffer are the plaintexts of the complete packets received, the unfinished one is kept, and the caller gets the next bytes in order, no more than asked for, as soon as there are any |
| EncryptedStreams.EncryptedStream.ProcessPackets | src/encryption.rs:265-294 | cutting off and decrypting complete packets moves bytes from the raw to the read buffer without loss or reordering |
| EncryptedStreams.NumberIsModular | src/encryption.rs:345-347 | the number in a packet header, and the counter, is the packet count modulo 65536 |
| EncryptedStreams.WriteAllExactly | src/encryption.rs:316-328 | a buffer is written out whole if and only if the inner stream takes that many bytes before it stops; else just those bytes are gone, and the poll fails or waits as the inner stream does, a write of no bytes counting as failure |
| EncryptedStreams.ReadAllExactly | src/encryption.rs:239-300 | a read hands out plaintext if and only if the bytes that arrive complete a packet that has some, and else reads on, and waits when nothing more arrives |
| EncryptedStreams.Header | src/encryption.rs:339-347 | two random bytes, the packet number, the session byte, and the sender of the last packet read, in these places |
| EndToEnd.DeliveredIsPrefix | src/encryption.rs:231-400 | at every moment, for all schedules and chunkings, the frames decoded by the peer are a prefix of the payloads written and no checksum error is counted |
| EndToEnd.DeliveredIsEverything | src/encryption.rs:231-400 | after a completed flush and reading to the end, the peer has decoded exactly the payloads written, in order, with nothing left over |
| EndToEnd.PaddedStreamDecodes | src/encryption.rs:336-358 | the zero padding of short packets disappears in the decoder's resynchronisation |
| Breaker.TemperatureCache.GetZoneTemperatureWithBlocking | src/client.rs:1215-1281 | changes exactly the zone the breaker rules name, in every branch, under the limits of the zone number asked for, and rejects or unblocks just the blocked zones |
| Breaker.TemperatureCache.UpdateTempError | src/client_internal.rs:60-106 | a timeout or sensor fault counts once, blocks at the limit of its zone number and restarts the cycle count; other errors change nothing |
| Breaker.TemperatureCache.UpdateTemperatureSuccess | src/client.rs:1190-1212 | a reading takes one off each positive counter and changes no other zone |
| Breaker.TemperatureCache.ResetTemperatureSensor | src/client.rs:1171-1187 | zone numbers outside 1 to 256 change nothing; others start afresh |
| Breaker.RunKeepsInvariant | src/client.rs:1190-1281 | over every run of calls that do not overlap, each zone under its own limits: neither counter passes its limit, at most one is at it, the Block statuses say which, an unblocked zone has no blocked cycles, and the books kept from the answers balance: every failure is still counted or was taken off by a reading, a try or a reset, and the totals have them all modulo 2^32 |
| Breaker.AmortisedBound | src/client.rs:1215-1281 | failed queries of a zone, by the answers of the calls that went out, are at most both limits less one, plus tries granted, plus twice the readings (plus a fresh start per reset), and each try granted cost its number of rejected calls |
| Breaker.TryAfterExactly | src/client.rs:1239-1275 | with unblocking on, a zone just blocked stays so for exactly unblockAfter calls, whatever would be answered; the last of them makes it readable again with the counter at its limit one lower |
| Breaker.DeadSensorBound | src/client.rs:1215-1281 | with unblocking off, a probe that never answers fails at most maxTimeout times by timeout and maxSensor times by fault, ever |
| Breaker.DeadSensorExactly | src/client.rs:1215-1281 | the bounds are met: n calls for a probe that only times out, or only reports faults, make min(n, limit) queries, each counted, and it is blocked with the status of its kind of failure from the last of them on |
| Breaker.AnswersShow | src/client_internal.rs:60-106 | an answered call changes one zone at most: a reading shows in the zone that replied, a timeout or fault in the zone asked for, as a block just when it is the last one allowed |
| Breaker.ResetShows | src/client.rs:1171-1187 | a reset starts its zone afresh but for the totals, and leaves the others alone |
| Breaker.BlockedExactly | src/client.rs:1215-1235 | a zone is blocked if and only if one of its counters is at its limit |
| BreakerOverlap.OverlapBound | src/client.rs:1215-1281 | in every run with at most w overlapping queries of a zone, split into looking, querying and writing back, each counter is at most its limit plus w less one |
| BreakerOverlap.OverlapReachesBound | src/client.rs:1215-1281 | these bounds are met, for all limits and every w: by timeouts, by faults, and by both counters together |
| BreakerOverlap.OverlapAmortised | src/client.rs:1190-1281 | failed queries of a zone are at most both limits plus w less two, plus two for every try granted and every reading (and as many again per reset) |
| BreakerOverlap.TriesArePaid | src/client.rs:1239-1275 | in every run in which no two rejections wait at once to be written back, each try granted has cost its number of rejected calls |
| BreakerOverlap.OnePriceTwoTries | src/client.rs:1239-1275 | for all limits with unblocking on and a price above one there is a run with two of them waiting in which a try has not been paid for |
| BreakerOverlap.PriceIsPaidExactly | src/client.rs:1239-1275 | every try is paid for in all runs with at most w waiting rejections if and only if w is at most one, or unblocking is off, or the price is not above one |
| NameFallback.NameClient.QueryName | src/client.rs:784-865 | the loop over the types to try, for partitions and alike for zones and outputs, leaves session, result and number of exchanges as the recursive definition says |
| NameFallback.TypeNeverRises | src/client.rs:784-865 | whatever the panel answers, the session type never rises, a confirmed one never changes and costs one exchange, and no query costs more than its ladder is long |
| NameFallback.FirstAnswerDecides | src/client.rs:784-865 | for every panel, the first type not answered by a result code decides: a name is read and confirms the session, one that does not parse confirms it and is an error, anything else is an error that leaves the session alone; if all are refused the item is empty |
| NameFallback.TypesTriedAre | src/client.rs:784-803 | the types tried by an unconfirmed session, in numbers, for partitions, zones and outputs |
| NameFallback.PlainQueriesAskOldest | src/client.rs:370-387 | without the extended types a query makes one exchange, in type 1 for zones, 4 for outputs and 0 for partitions, whatever the session, and its answer decides |
| NameFallback.TryFindsNewest | src/client.rs:370-444 | against a panel with fixed support, a configured item is read in the newest supported type at the cost of the way down to it |
| NameFallback.ScanReadsEverything | src/client.rs:784-865 | in any list of queries after a reset each configured item is read, the first of them fixes the session type at the newest supported one, and the number of exchanges is given exactly, for every ladder of types |
| NameFallback.PartitionScanCost | src/client.rs:784-865 | for partitions n queries, the k-th the first of a configured one, cost at most 4k + (n - k) exchanges and end at the highest supported type |
| NameFallback.TwoTypeScanCost | src/client.rs:370-444 | for zones and outputs, with two types, such a scan costs at most 2k + (n - k) exchanges and ends at the highest supported type |
| NameFallback.ConfirmedTypeDecides | src/client.rs:786-800 | once confirmed, an item is read if and only if it is configured and the panel supports the confirmed type, in one exchange |
| NameFallback.ConfirmLateExactly | src/client.rs:786-830 | whatever happened to the session while a query was under way, its answer confirms the type answered if and only if that is below the type captured at the start or is the session type now |
| NameFallback.LateReplyDecides | src/client.rs:786-830 | from such an answer on, an item is read if and only if it is configured and the type was lowered to the answered one or the panel supports the session type as it is now; each query costs one exchange |
| NameFallback.LateReplyExactly | src/client.rs:212-219 | a non-extended query answered after the switch to extended names confirms the newest type untried: from then on all configured items are read if the panel supports it, and none if not |
| NameFallback.LateReplyAfterToggle | src/client.rs:212-219 | so does a query in any confirmed type answered after the extended types were switched off and on again |
| PushMask.MaskAsksExactly | src/worker.rs:596-642 | bit n of the mask, in either length, is set if and only if the settings select command n |
| MaskCoverage.RoutesAreDecoded | src/auto_requester.rs:72-182 | a pushed frame is routed to the state or trouble updaters if and only if their parsers know its command |
| MaskCoverage.MaskAsksForDecoded | src/worker.rs:596-642 | whatever the settings, the mask asks only for commands whose pushed frames are taken in, and for every one of them when all settings are on |
| PushMask.MaskDeterminesSettings | src/worker.rs:596-642 | the mask, in either length, tells all settings of the 18 categories apart |
| PushMask.MaskLengthsAgree | src/worker.rs:596-642 | the 12-byte mask is the front of the 14-byte one |
| PushMask.SilentExactly | src/config.rs:286-306 | the mask is empty if and only if auto-read counts as disabled |
| MaskReload.NextKeepsInvariant | src/worker.rs:412-448 | every step of reload, connect and tick, at the granularity of the lock and the flag, keeps the protocol invariant |
| MaskReload.NoLostUpdate | src/client.rs:190-211 | in every interleaving, a connected panel whose mask differs from the configuration means: flag set, a reload between its two writes, the worker in mid-send, or the panel has refused just the mask the configuration asks for |
| MaskReload.AcceptedTickRestores | src/worker.rs:130-139 | in every reachable state without a reload under way, an accepted tick leaves panel and configuration equal if and only if the flag was up or they were equal; always so unless this very mask had been refused |
| MaskReload.TickIsPossible | src/worker.rs:130-139 | a connected idle worker can always tick and be answered, whatever was refused before |
| MaskReload.TickRestoresExactly | src/worker.rs:550-594 | an answered tick brings them together if and only if the panel accepts or already agreed, and the flag is down afterwards in both cases |
| MaskReload.RefusedUpdateIsForgotten | src/worker.rs:550-594 | a run that reaches a connected state with panel and configuration apart and nothing outstanding |
| MaskReload.ForgottenMeansRefused | src/worker.rs:550-594 | every such state, of every run, comes from the panel's refusal of just this mask |
| MaskReload.ForgottenForGood | src/worker.rs:130-139 | from such a state no run changes what the panel has, until a reload changes the mask or a new session starts |
| MaskLink.EventFollows | src/worker.rs:107-165 | every event the worker handles, with the hot reloads that fall into it, is a path of these steps from its state to its state, settings and flag included, and the masks the path sends are, in order and with their outcomes, exactly the mask exchanges the event logs |
| MaskLink.RunFollows | src/worker.rs:76-168 | over all runs such a path leads from the initial state of the protocol to the state of the worker, sending just the masks in the log |
| MaskLink.WorkerLosesNothing | src/worker.rs:130-139 | over all runs with hot reloads at any wait: if the worker is connected and the mask in force by its log does not say what the settings say, then the flag is up, a reload has yet to raise it, or the panel has refused just this mask |
| Demux.SessionConservation | src/worker.rs:269-319 | for every frame sequence and every interleaving of exchanges and push receives, frames are taken in order, each once, and the state worker gets in that order exactly: what an exchange took and did not return, returned rejections unless they answer a name query, and what a push receive took except acceptances; less the frames of push receives cut off while the channel was full, and in full if and only if there was none |
| Demux.GivenIsOwedExactly | src/worker.rs:662-692 | the state worker gets everything it is owed if and only if no push receive was cut off |
| Demux.ExchangePassesOn | src/worker.rs:269-319 | an exchange passes on every frame it takes but the one it returns, and that one too if it is a rejection and no answer to a name query |
| Demux.ExchangeRepliesFirstTarget | src/worker.rs:269-319 | an exchange returns the first non-empty frame that is the awaited command or 0xEF, or none was taken |
| Demux.ExchangeEndsExactly | src/worker.rs:269-319 | an exchange is ended, just behind it, by the first arrival in time that is a stream error, the end of the stream, or a frame with the awaited command or a result code, which it returns; it times out if and only if there is none |
| Demux.NothingElseIsDropped | src/worker.rs:296-306 | in any session a frame taken by an exchange is returned if and only if it is the awaited command or 0xEF, and is kept from the state worker if and only if it is the awaited reply, an acceptance, or a result code in answer to a name query; a push receive keeps back just acceptances |
| Demux.HeardExactly | src/worker.rs:281-285 | a call resets the missed pings if and only if it took a non-empty frame and was not cut off |
| Demux.PushPanicsExactly | src/worker.rs:662-692 | a push receive indexes out of bounds if and only if it takes an empty frame |
| Demux.PushTakesExactly | src/worker.rs:662-692 | a push receive takes exactly the next arrival, if there is one in time, and passes on a frame unless it is empty, an acceptance, or cut off |
| WorkerFaults.DeadExactly | src/worker.rs:662-692 | over all runs the worker has panicked if and only if at some point a push receive met an empty frame; nothing else in a run can do it |
| WorkerFaults.HandshakeIsLeftExactly | src/worker.rs:412-548 | a connection attempt ends in Handshake, with the stream open, if and only if dialling succeeds and one of the two version replies does not parse; else it ends Connected or lost |
| WorkerFaults.HandshakeStands | src/worker.rs:107-123 | over all runs a handshake begun at c by the log stands through any events as long as none of them is a tick more than 15 s after c, a disconnect, or a priority exchange that meets a broken stream |
| WorkerFaults.HandshakeEndsExactly | src/worker.rs:107-123 | over all runs the next event closes the stream and ends such a handshake if and only if it is one of those three; every earlier tick leaves the worker as it is |
| CommunicationWorker.SatelCommunicationWorker.Run | src/worker.rs:89-168 | the actor's fields follow the state machine over every sequence of events |
| CommunicationWorker.SatelCommunicationWorker.HandleEvent | src/worker.rs:172-236 | each message is admitted or refused by the state the worker is in, and does just its transition |
| CommunicationWorker.SatelCommunicationWorker.OnTick | src/worker.rs:107-165 | watchdog, mask, ping and reconnect of one tick, with the state read once at its start |
| CommunicationWorker.SatelCommunicationWorker.RefreshMask | src/worker.rs:130-139 | the flag is taken down before the mask is sent and put up again just if sending it gets no answer, whatever reloads do meanwhile |
| CommunicationWorker.SatelCommunicationWorker.Reload | src/client.rs:190-211 | the two writes of a hot reload: the configuration, and then the flag if the mask has changed |
| CommunicationWorker.SatelCommunicationWorker.ExchangeFrames | src/worker.rs:238-320 | all ends of an exchange: not connected, send failure or timeout, reply, stream error or end, deadline |
| CommunicationWorker.SatelCommunicationWorker.Receive | src/worker.rs:269-319 | the receive loop takes, counts and passes on exactly what the recursive definition used in the demultiplexing lemmas says |
| CommunicationWorker.SatelCommunicationWorker.ReceivePushFrame | src/worker.rs:662-692 | one push receive, including the out-of-bounds index |
| CommunicationWorker.SatelCommunicationWorker.ConnectWorker | src/worker.rs:412-548 | dialling, the flag taken down, handshake and, if the settings enable it, the mask, with every early exit |
| CommunicationWorker.SatelCommunicationWorker.ConnectionIsLost | src/worker.rs:374-392 | the whole state after a loss; only a loss out of Connected counts and closes a session |
| CommunicationWorker.SatelCommunicationWorker.Disconnect | src/worker.rs:395-410 | the whole state after a clean disconnect |
| CommunicationWorker.SatelCommunicationWorker.PingTimeout | src/worker.rs:346-354 | one more missed ping, saturating, and whether the limit is reached |
| CommunicationWorker.SatelCommunicationWorker.Reset | src/state.rs:160-177 | the statistics reset, which restarts the running session |
| WorkerProperties.RunIsConsistent | src/worker.rs:89-236 | the invariant behind the results below holds between any two events of every run |
| WorkerProperties.ConnectionAccounting | src/worker.rs:328-448 | over all runs: the stream is open just in Handshake and Connected, and a session runs just in Connected, since the time the log says; the sessions established since the last statistics reset (and the one carried over it) are those the log shows as closed or running, the closed ones that ended in a loss are counted as lost, and the total time is the sum of their lengths by the wall clock |
| WorkerProperties.PingsStayBelowLimit | src/worker.rs:140-152 | over all runs with a positive limit the counter equals the ping timeouts logged since the last non-empty frame was taken off the stream by a receive that was not cut off, or the session changed, and is below the limit |
| WorkerProperties.BackoffMonotone | src/worker.rs:644-651 | delays never shrink with more failed attempts and lie between 500 and 60000 ms |
| WorkerProperties.BackoffValues | src/worker.rs:644-651 | the k-th delay is 500 * 2^(k-1) ms up to k = 7 and a minute from then on, for every k |
| WorkerProperties.ReconnectsArePaced | src/worker.rs:155-165 | over all runs the n-th automatic reconnect of an outage starts at least 500 * (2^n - 1) ms after the loss for n up to 7, and at least a minute after the one before beyond that |
| WorkerProperties.ReconnectStartsExactly | src/worker.rs:155-165 | over all runs a tick of a worker lost since c by the log starts a reconnect, and logs it, if and only if reconnecting is on and the delay has passed since c; else it does nothing |
| WorkerProperties.StateWorkerGetsWhatItIsOwed | src/worker.rs:238-320 | over all runs and sessions, of all non-empty frames taken off the streams the state worker has been given exactly those it is owed, in order, if and only if no push receive was cut off, and else all but the frames of those |
| WorkerTelemetry.TelemetryAccounting | src/worker.rs:238-392 | over all runs: timeouts, I/O errors, rejections and frames are what the log adds up to since the last statistics reset, the last send is the last write, the failed attempts are the losses since a connection was last established or given up, and the state worker was told of every phase, in order |
| WorkerProgress.CallersAreServedExactly | src/worker.rs:172-213 | over all runs a caller's exchange is carried out if and only if the worker is connected (or, for a priority one, in its handshake) and it has not waited too long; it writes just the data given, waits for its first byte, and is logged with its answer; else nothing happens |
| WorkerProgress.PingsAreSentExactly | src/worker.rs:140-153 | over all runs a tick of a connected worker whose flag is down exchanges 7E, and nothing else, if and only if nothing was written for 2000 ms; a timeout is logged as missed, and the connection is given up if and only if there is a limit and the misses in a row by the log have reached it |
| WorkerProgress.DirtyTickSendsMask | src/worker.rs:130-139 | over all runs a tick of a connected worker whose flag is up exchanges 7F with the mask for the settings of that moment, before anything else but at most one ping, and reports it just if it is answered |
| WorkerProgress.ReloadRaisesExactly | src/client.rs:190-211 | a hot reload raises the flag if and only if one of the eighteen settings changes |
| WorkerProgress.ConnectedExactly | src/worker.rs:412-548 | a connection attempt, from any state, ends Connected if and only if dialling succeeds, both versions are answered and parse, and the mask is answered if the settings ask for anything then |
| WorkerProgress.ConnectAsksExactly | src/worker.rs:508-594 | what an attempt asks, in order: 7C, 7E and 7F with the mask, each only after the one before went well |
| WorkerProgress.ConnectReportsExactly | src/worker.rs:508-594 | what an attempt reports, in order: each version that parses, and the mask if it is answered |
| WorkerProgress.RequestsAreServedExactly | src/worker.rs:214-234 | over all runs a connect request starts an attempt if and only if the worker is disconnected or lost, and a disconnect request closes the stream if and only if it is not disconnected |
| WorkerProgress.PushesAreTakenExactly | src/worker.rs:103-106 | over all runs a connected worker with something ready takes exactly one arrival: an empty frame ends it, a stream error or end loses the connection, anything else leaves it connected |
| WorkerProgress.OtherEventsExactly | src/state.rs:160-177 | a statistics reset touches nothing but the counters and the start of the session; while time passes only clocks and hot reloads move |
| StateCache.ParseBitStates | src/parsers/zones.rs:215-230 | the nested loops yield every bit of the frame, lowest first, inverted just where the zone is listed |
| StateCache.ParseStates | src/parsers/partitions.rs:133-141 | states come from a frame if and only if its command is known and it is long enough; they are its bits, of the first four bytes for partitions, inverted just for zones that are listed |
| StateCache.StateFramesAre | src/parsers/zones.rs:215-230 | in numbers: which commands carry states, the least lengths, 32 bits for partitions and all bits for zones and outputs, and which of them are inverted |
| StateCache.SatelCache.HandleFrame | src/client_internal.rs:108-378 | a frame is accepted if and only if it parses, and cells and events become what the update rules say |
| StateCache.SatelCache.UpdateCells | src/client_internal.rs:108-378 | the update loop never writes beyond the cached items, however long the frame |
| StateCache.NewCells | src/state.rs:1194-1205 | a new cache has one unread cell for every item a state command numbers |
| StateCache.CacheSizes | src/state.rs:1193-1205 | 256 zones and outputs and 32 partitions |
| StateCache.EventsReplayToCache | src/client_internal.rs:108-378 | over every sequence of frames, lengths, inversions and announcement settings, a subscriber starting from nothing knows exactly the items ever read, with their cached values |
| StateCache.CacheHoldsLatest | src/client_internal.rs:108-378 | every item holds the bit, inverted as listed then, of the latest accepted frame of its command that covers it, and is unread if and only if there was none |
| StateCache.AnnouncesExactly | src/client_internal.rs:108-378 | a frame announces, once each, in order and with the new state, exactly the covered items that changed, were never read, or are announced by configuration |
| StateCache.WritesExactly | src/client_internal.rs:108-378 | a cell is written if and only if its item is announced, with the new state and the time of the frame |
| StateCache.PlainAnnouncements | src/client_internal.rs:108-378 | in plain mode a frame announces exactly the items never read or cached with the other state |
| TroubleTables.GetRules | src/parsers/system.rs:355-475 | no rule of any table looks beyond the least length its table demands |
| TroubleTables.SlotAtHome | src/parsers/system.rs:203-475 | every item a table can produce is at home in that rule of that table only: the sixteen tables own disjoint keys, and no key occurs twice in a frame |
| TroubleCache.Decode | src/parsers/system.rs:478-530 | the loops over rules, bits, levels and codes produce the items of the definition, in order, and refuse foreign commands and short data |
| TroubleCache.FrameEntries | src/parsers/system.rs:478-530 | what the items of a frame say about a key is what stands at the key's home in the data |
| TroubleCache.TroubleStore.UpdateTroubles | src/client_internal.rs:390-426 | a frame is taken if and only if it decodes, and cache and events become what storing its items one by one gives |
| TroubleCache.AnnouncesExactly | src/client_internal.rs:390-426 | the events of a frame are, once each and in its order, exactly its items that differ from the cache before it, where a flag never heard of is inactive and a level or code zero, or all of them if unchanged ones are announced too |
| TroubleCache.CacheHoldsLastEntry | src/client_internal.rs:390-426 | after every sequence of frames each key holds the latest thing any frame said about it |
| TroubleCache.OwnerDecides | src/client_internal.rs:390-426 | reserved bits apart, that is what the last accepted frame of the key's one owning command says, whatever came in between |
| TroubleCache.ReservedBitsLatch | src/parsers/system.rs:338-342 | a reserved bit once set stays set in the cache |
| TroubleCache.ReservedBitsExactly | src/parsers/system.rs:338-342 | after every sequence of frames the cache has a reserved bit as set if and only if some accepted frame of its owning command had it set, and else does not know it |
| TroubleCache.FramesCommute | src/client_internal.rs:390-426 | frames of different commands commute in the cache |
| TroubleCache.EventsReplayToCache | src/client_internal.rs:390-426 | replaying the events from inactive flags and zero levels and codes gives the cache |
| TroubleInformation.SameItemsExactly | src/parsers/system.rs:355-530 | for all frames of all sixteen commands: two frames give the same items if and only if their data agree in every needed bit, apart from four spare bits and eleven unused bytes of command 22 and a byte of 1E and 23 that counts as zero or not |
| TroubleInformation.AcceptsExactly | src/parsers/system.rs:355-475 | which commands are decoded, and how many bytes each needs |
| TroubleParts.ExtractBitsLoop | src/parsers/system.rs:148-156 | the nested loops yield every bit of the slice, lowest first |
| TroubleParts.ReadModulesLoop | src/parsers/system.rs:846-900 | the loop over the eight modules reads each from its own chunk |
| TroubleParts.SameFramesAccepted | src/parsers/system.rs:909-928 | the typed decoder accepts a frame if and only if the table-driven one accepts its command and data |
| TroubleParts.DecodersAgree | src/parsers/system.rs:533-928 | every item of an accepted frame that has a typed field carries the value of that field |
| TroubleParts.MergedModulesAgree | src/parsers/system.rs:533-608 | a module byte merged into one bool says that at least one of its eight flags is active |
| TroubleAgreement.FieldHasItem | src/parsers/system.rs:533-928 | every typed field but the four spare bits stands for an item of its own frame |
| TroubleAgreement.DecodersAgreeExactly | src/parsers/system.rs:355-928 | for every accepted frame and key, both decoders give the same value or both give none |
| TroubleAgreement.SpareBitsHaveNoItem | src/parsers/system.rs:684-702 | the typed decoder reads four bits that no table produces an item for |

## Left out

- Sockets, serial ports, timers, `Framed` and broadcast lag: channels are always open, the event
  channel is unbounded, and an exchange that waits for room in the state worker's channel gets it.
- AES rounds, key schedule, `derive_aes_key` and the pseudo-random header bytes.
- `poll_shutdown` of the encrypted stream: the same loop as `poll_flush`.
- Correlation of replies to requests beyond the command byte: the protocol has no request number.
- `reload_config`, the raw temperature query and the discovery loop: they bypass the flag and the
  breaker by design.
- Breaker.RunKeepsInvariant: calls of one run do not overlap; `BreakerOverlap` says what holds when
  they do. The limits of a zone number stay the same over a run, and all zone numbers that share a
  slot have the same ones (those from 1 to 256 share none).
- MaskReload.NoLostUpdate: a new session is taken to start with an empty mask in the panel; which of
  the two mask lengths the module supports is left open in every step.
- MaskReload.AcceptedTickRestores: the tick's steps run without a reload between them; with one,
  `NoLostUpdate` says that the update is still outstanding.
- WorkerProperties.PingsStayBelowLimit: the limit is fixed over a run; changing it by a reload is
  not modelled.
- WorkerProperties.ConnectionAccounting: statistics are reset only between two events of the
  worker, and the telemetry counters, the failed-attempt counter and durations are unbounded.
- WorkerProperties.ReconnectsArePaced: lower bounds only, since one failed handshake can count two
  failed attempts.
- CommunicationWorker.SatelCommunicationWorker.ConnectWorker: whether a version reply parses, and
  which mask length the module supports, are inputs.
- MaskLink.EventFollows: callers that send the command 0x7F in an exchange of their own are left out,
  as they go round the flag; reloads fall where the worker waits, and `MaskReload` covers the finer
  interleavings.
- NameFallback.NameClient.QueryName: the decoding of names and parameters is not part of this
  model; a reply with a name parses or does not.
- StateCache.SatelCache.HandleFrame: one updater for all kinds of items; the seventeen updaters of
  the source differ only in the field they write and the event they send.
- TroubleCache.TroubleStore.UpdateTroubles: the three maps of the source are one map, whose keys
  tell flags, levels and codes apart; the trouble types are grouped by the numbers they carry.
- TroubleTables.GetRules: length checks inside the custom extractors that the table's least length
  makes unreachable.
- Catalogs, texts, temperatures as numbers, clock and status frames, name encodings, the auto-read
  report, configuration defaults and validation, and the thin getters and refreshers.
