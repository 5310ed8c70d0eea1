# DeepPacketAI: a verified model of the capture pipeline

DeepPacketAI captures packets, decodes them in a pool of workers, reassembles and frames
application messages, streams packets from agents to a central node, tracks flows and
subscribers, and raises alerts. This project models the parts of it that carry hard
invariants and proves them for every input, every run and every interleaving.

`dafny verify dfyconfig.toml` checks the whole project.

## How it is organised

| file | what it holds |
|---|---|
| `XdpRings`, `XdpProofs`, `XdpReader` | the AF_XDP fill and rx rings, the UMEM, and the reader, as a step system shared with the kernel; `ReadPacket` as a program over it |
| `Framing`, `Framers`, `FramerProofs`, `TcpStream` | incremental framing in general, the six framers, their wire formats, and the stream object that shares one framer between two directions |
| `KeyedFold`, `FlowTracker`, `TrackerProofs` | decoders with one record per key, the 5-tuple tracker, and what a tracker run computes |
| `Pool`, `FlowHash` | the decode pool under every schedule, and flow-affinity routing |
| `Wire`, `AgentStream`, `Throttle` | frames on a connection, the agent and central loops, the token bucket |
| `SessionBuffer`, `Hub` | the capture buffer with its flusher and final drain; the WebSocket hub |
| `Subscribers` | the registry of heap-shared subscriber profiles |
| `Mos`, `Detection` | the E-model score and its labels; aggregates and three rules |
| `Bytes`, `MapSums` | octets, fixed-width integers, big-endian numbers and other shared helpers; sums over maps |

Concurrent parts are step systems: an event list is a schedule, a step that is not enabled
changes nothing, and theorems quantify over all event lists. Parts that update an object
are classes whose methods are proved equal to functions on the object's abstract value, and
the theorems are about those functions. Fields that record history (`pushed`, `captured`,
`log`, ...) are part of the state so that theorems can speak about the past.

What the program gets from outside is a parameter: kernel activity, the classical BPF filter
(`accepts`), clocks (`now`, `ts`), `net.ParseIP` (`parse`), Go's Unicode lower-casing and
trimming (`Strings`), map iteration order, TCP chunking,
write failures, consumers of channels, and the JSON and zlib codecs, of which only
invertibility is used.

## Where the code does not do what one would expect

Each of these is proved, with a concrete input and the exact condition under which the
expected property holds.

- A SIP or HTTP header, or a WebSocket frame, may declare a length beyond Go's int. It wraps,
  and the framer then fails (`FramerProofs.OverlongTextFails`,
  `FramerProofs.OverlongWebSocketFails`) or cuts the stream in the wrong place without failing
  (`FramerProofs.OverlongTextMisframed`, `FramerProofs.OverlongWebSocketMisframed`). A declared
  length is honoured whatever follows if and only if it fits
  (`FramerProofs.LengthHonouredExactly`). `SelectFramer` never selects the WebSocket framer, so
  its cases do not arise in the program as it is.
- The place of Content-Length is looked up in the lower-cased header and used in the header
  itself. A byte that never occurs in UTF-8 becomes three, so one such byte before
  `Content-Length:0` makes the framer panic (`FramerProofs.BrokenHeaderFails`); for headers of
  ASCII and such bytes it panics if and only if what follows the name is shorter than twice
  their number (`FramerProofs.BrokenHeaderExactly`).
- The reported loss can be 100 percent, because it is rounded: a segment repeated 20000 times
  is enough (`TrackerProofs.RepeatedSegmentLoss`). It stays below if and only if
  retransmissions are less than 19999 in 20000 packets (`TrackerProofs.LossReportedExactly`).
- Bucket 0 of the throughput trend also holds payload captured less than a second before the
  first one, because seconds are truncated toward zero
  (`TrackerProofs.EarlierPayloadInFirstBucket`); it holds the first second alone if and only if
  there is no such payload (`TrackerProofs.FirstBucketExactly`).
- ICMP flows can be split over workers, because the flow key drops what the hash includes
  (`FlowHash.IcmpFlowSplits`); worker maps are disjoint exactly when no flow has packets with
  different routes (`Pool.DisjointExactly`), and their union is the sequential tracker's result
  exactly then (`FlowHash.TracksSequentiallyExactly`).
- The agent's throttle credits sleep time twice, so a sender can exceed the configured rate
  twofold for ever (`Throttle.SleepCreditedTwice`), and as long as no sleep is cut off no more
  than that (`Throttle.AtMostTwiceTheRate`). Its 2 s sleep cap loses even the bound that counts sleep as
  elapsed time (`Throttle.CapBreaksBound`). An exact account of every run
  (`Throttle.LedgerBalances`) says exactly when a run keeps either bound
  (`Throttle.RateBoundExactly`, `Throttle.SleepBoundExactly`). No sleep is cut off if batches are
  at most two seconds of rate (`Throttle.SmallBatchesUncapped`).
- Captured packets can be lost without being dropped at the cap: a batch the flusher re-queues
  after the final drain is never stored (`SessionBuffer.RequeueAfterFinalDrain`), nor is a batch
  whose write fails (`SessionBuffer.FailedWriteLoses`), nor what is buffered when flows or calls
  cannot be stored and the final drain is skipped (`SessionBuffer.GivingUpStrands`). Everything
  not dropped is stored if and only if every packet put in the buffer is drawn from it later and
  no write fails (`SessionBuffer.StoredExactly`); after a final drain the first half says that
  the flusher puts nothing back that it does not draw again
  (`SessionBuffer.StoredUnlessRequeued`).
- A call can be labelled good and still raise a QoS alert, on the half thousandth below 3.6
  (`Mos.LabelsAndAlerts`, `Mos.GoodLabelWithAlert`).
- Half the sequence space below the high mark looks like above it
  (`TrackerProofs.SeqBeforeFailsOutside`). The 32-bit comparison is the true one if and only if
  the high mark is less than half the space ahead and at most half of it behind
  (`TrackerProofs.SeqBeforeExactly`).

## Model

| member | source | states |
|---|---|---|
| `XdpRings.PrePopulate` | internal/capture/source_xdp_linux.go:386-395 | the pre-population loop leaves frame bases 0, 2048, ... in the 2048 slots and the producer at 2048 |
| `XdpRings.CheckExactly` | internal/capture/source_xdp_linux.go:464-469 | the sanity check lets through exactly the descriptors inside UMEM and those whose end wraps past 2^64 into it |
| `XdpProofs.RingsAreFifo` | internal/capture/source_xdp_linux.go:446-462 | walking the ring memory by wrapping uint32 counters and masks yields exactly the entries pushed and not yet taken, in order, however often the counters wrapped |
| `XdpProofs.FrameOwnership` | internal/capture/source_xdp_linux.go:446-511 | in every interleaving with the kernel, the frames in fill ring, kernel, rx ring, reader and behind corrupt descriptors are together frames 0..2047, each once; the retired ones number the corrupt descriptors skipped; none is lost |
| `XdpProofs.RecycleAlwaysHasRoom` | internal/capture/source_xdp_linux.go:489-511 | whenever the reader recycles a frame, its possibly stale view of the fill ring still shows a free slot |
| `XdpProofs.FifoDelivery` | internal/capture/source_xdp_linux.go:440-522 | packets examined are the kernel's well-formed deliveries byte for byte, in order, exactly once; those returned are exactly the accepted ones |
| `XdpProofs.NoCopyFromKernelFrame` | internal/capture/source_xdp_linux.go:471-479 | while bytes are copied out of a frame the kernel neither holds it nor can get it, and the bytes copied are the delivered ones |
| `XdpProofs.StepKeeps` | internal/capture/source_xdp_linux.go:440-522 | every reader or kernel step keeps the ring, ownership, content and log invariants |
| `XdpProofs.PublishedIsFetched` | internal/capture/source_xdp_linux.go:446-462 | a polling reader fetches a descriptor whenever one is published, however far the counters wrapped, and otherwise does nothing |
| `XdpProofs.ReaderMovesOn` | internal/capture/source_xdp_linux.go:459-511 | wherever the reader stands, its next step is enabled and brings it nearer to polling again; it consumes exactly one descriptor on the way, and skips it exactly if it is corrupt |
| `XdpProofs.KernelMovesOn` | internal/capture/source_xdp_linux.go:386-395 | the kernel can take the oldest fill entry while there is one, and deliver into a frame it holds while the rx ring has one of its 512 slots free |
| `XdpReader.ReadPacket` | internal/capture/source_xdp_linux.go:440-522 | whatever the kernel does before each of its steps, each time independently, the call is a run of the protocol and returns exactly the first packet it examines that the filter accepts; every poll that finds a descriptor consumes it; nothing is returned only if all polls found an empty ring, a corrupt descriptor or a rejected packet; an acceptable packet waiting at the call is returned |
| `XdpReader.CopyOut` | internal/capture/source_xdp_linux.go:471-479 | the byte-by-byte copy, with kernel activity before and after every byte, ends with the whole packet examined and the rx slot given back |
| `XdpReader.Recycle` | internal/capture/source_xdp_linux.go:481-511 | the frame goes back through the fill ring on the accept and on the reject path |
| `Framers.ExtractContentLength` | internal/reassembly/framer.go:338-363 | finds the value by its place in the lower-cased text, panics if that place lies beyond the end, and otherwise returns the declared number, without bound, wrapped to 64 bits |
| `Framers.Framer.Feed` | internal/reassembly/framer.go:62-88 | the feed loop returns the messages and leaves the buffer that framing the old buffer plus the new bytes gives |
| `Framers.Framer.Flush` | internal/reassembly/framer.go:90-94 | hands out the partial message and empties the buffer |
| `Framing.ChunkingIndependence` | internal/reassembly/framer.go:62-327 | however a stream is split, successive feeds cut off the same blocks, fail in the same cases and leave the same buffer as one feed of the whole |
| `Framing.FramingConserves` | internal/reassembly/framer.go:62-327 | messages and skipped bytes are consecutive blocks of the input which with the buffer are all of it; messages are not empty and skips are single bytes |
| `Framing.RoundTrip` | internal/reassembly/framer.go:66-85 | whole messages sent back to back come out as exactly those messages with an empty buffer |
| `Framing.ChunkedRoundTrip` | internal/reassembly/framer.go:62-327 | the same for every splitting of the stream |
| `Framing.Resynchronises` | internal/reassembly/framer.go:145-175 | bytes at which a framer skips, before a whole message, come out as single-byte skips and the message, and what follows is framed as if they had not been there |
| `FramerProofs.FramersStable` | internal/reassembly/framer.go:62-327 | for each of the six framers a step that does not wait is unchanged by later bytes, so all framing theorems apply |
| `FramerProofs.SkipExactly` | internal/reassembly/framer.go:149-268 | a framer skips a byte exactly if the bytes are there and cannot start a TLS record, a Diameter message of at least 20 bytes, or an AJP packet; the others never skip |
| `FramerProofs.WaitExactly` | internal/reassembly/framer.go:62-327 | a framer waits exactly if the header is not complete or fewer bytes are there than the declared total as a Go int |
| `FramerProofs.StrayBytesSkipped` | internal/reassembly/framer.go:145-268 | stray bytes that start no message, before a whole TLS, Diameter or AJP message, are skipped one by one and the message comes out |
| `FramerProofs.FaultExactly` | internal/reassembly/framer.go:71-82 | a framer fails on a buffer if and only if the header's Content-Length cannot be sliced or the declared total, as a Go int, is not positive |
| `FramerProofs.LengthHonouredExactly` | internal/reassembly/framer.go:71-84 | a declared total is waited for and cut off exactly, whatever bytes follow, if and only if it fits a Go int |
| `FramerProofs.HonouredExactly` | internal/reassembly/framer.go:71-84 | on one buffer it is honoured if and only if it fits or the buffer is shorter than what it wraps to; otherwise the framer fails or cuts off the wrapped length |
| `FramerProofs.OverlongWebSocketFails` | internal/reassembly/framer.go:303-323 | a ten-byte header declaring 2^64-10 bytes makes the framer fail |
| `FramerProofs.OverlongWebSocketMisframed` | internal/reassembly/framer.go:303-323 | a masked frame declaring 2^64-1 bytes is cut off after 13 |
| `FramerProofs.OverlongTextMisframed` | internal/reassembly/framer.go:338-363 | a Content-Length of 2^64+n is taken for n |
| `FramerProofs.OverlongTextFails` | internal/reassembly/framer.go:66-85 | a Content-Length of 2^63 makes the SIP and the HTTP framer fail |
| `FramerProofs.BrokenHeaderExactly` | internal/reassembly/framer.go:339-345 | a header of ASCII and bytes that never occur in UTF-8 makes the framer panic if and only if what follows the name is shorter than twice the number of such bytes before it |
| `FramerProofs.BrokenHeaderFails` | internal/reassembly/framer.go:339-345 | one byte 255 before Content-Length:0 is enough |
| `FramerProofs.TlsRecordWhole` | internal/reassembly/framer.go:149-172 | every TLS record (section 6.2.1 of RFC 5246) is one whole message |
| `FramerProofs.DiameterMessageWhole` | internal/reassembly/framer.go:195-220 | every Diameter message of at least 20 bytes (section 3 of RFC 6733) is one whole message |
| `FramerProofs.AjpPacketWhole` | internal/reassembly/framer.go:243-265 | every AJP packet of either magic is one whole message |
| `FramerProofs.WebSocketFrameWhole` | internal/reassembly/framer.go:288-324 | every WebSocket frame (section 5.2 of RFC 6455), masked or not, in all three length forms, is one whole message |
| `FramerProofs.DeclaredLengthOf` | internal/reassembly/framer.go:338-363 | with ASCII before it, the first Content-Length header, in any letter case, with leading blanks and any following headers, declares its value |
| `FramerProofs.TextMessageWhole` | internal/reassembly/framer.go:66-85 | a SIP or HTTP message with ASCII headers up to Content-Length, no early blank line, and the body's length as its value is one whole message (section 18.3 of RFC 3261) |
| `FramerProofs.DecimalRoundTrip` | internal/reassembly/framer.go:354-361 | every number has decimal digits that are read back as it |
| `TcpStream.Stream.ReassembledSG` | internal/reassembly/stream.go:53-83 | empty data does nothing, a gap empties the buffer and drops the data, otherwise every message is delivered with the endpoints of the direction |
| `TcpStream.Stream.ReassemblyComplete` | internal/reassembly/stream.go:85-92 | a non-empty remainder is delivered as sent by the client, whoever sent it |
| `TcpStream.GapRestarts` | internal/reassembly/stream.go:69-73 | a gap drops its own data and the partial message before it; what comes later is delivered as if the stream had started there |
| `TcpStream.SharedFraming` | internal/reassembly/stream.go:42-83 | without gaps the payloads delivered are the framing of the bytes of both directions as they came, and the stream fails exactly if that framing does |
| `TcpStream.DirectionAttribution` | internal/reassembly/stream.go:53-83 | without gaps, and if the shared buffer is empty at each change of direction, the messages attributed to a direction are the framing of its own bytes |
| `FlowTracker.DrainPending` | internal/flowengine/tracker.go:482-498 | the in-place filter leaves exactly the uncovered segments in order and appends exactly one sample per covered segment with positive delay |
| `FlowTracker.AddToBucket` | internal/flowengine/tracker.go:202-205 | pads with zeroes up to the bucket and adds to it |
| `FlowTracker.Tracker.HandlePacket` | internal/flowengine/tracker.go:149-302 | the flow map after a packet is that of the keyed decoder: untracked packets change nothing, others update one record |
| `FlowTracker.Tracker.Flush` | internal/flowengine/tracker.go:305-313 | hands out each record once and empties the map |
| `FlowTracker.ThroughputTrend` | internal/flowengine/tracker.go:355-374 | at most 60 windows that tile the buckets in order, each with the exact sum of its buckets, together holding every byte; all but the last have one width, the least with which 60 windows suffice |
| `KeyedFold.TrackByFlow` | internal/flowengine/tracker.go:165-180 | a flow's record is the fold of that flow's packets and exists exactly if there are any |
| `TrackerProofs.KeyIsSymmetric` | internal/flowengine/tracker.go:66-85 | both directions of a TCP, UDP or SCTP exchange have one key and opposite orientation |
| `TrackerProofs.KeyExactly` | internal/flowengine/tracker.go:66-85 | packets have one key if and only if they belong to one conversation: same protocol, same ends in either order, with ports unless it is ICMP |
| `TrackerProofs.RecordIdentity` | internal/flowengine/tracker.go:165-180 | every record carries its flow's key, whose ends are those of each of its packets in the orientation of its counters |
| `TrackerProofs.ReassembledIgnored` | internal/flowengine/tracker.go:150-163 | exactly reassembled and address-less packets are not tracked; they may be inserted anywhere without changing any flow |
| `TrackerProofs.VolumesAddUp` | internal/flowengine/tracker.go:186-193 | packets and payload bytes over all flows are those of the tracked packets |
| `TrackerProofs.DirectionCounts` | internal/flowengine/tracker.go:186-193 | each direction of a record counts exactly the packets and payload bytes that went that way |
| `TrackerProofs.TrendWithinFlow` | internal/flowengine/tracker.go:195-207 | buckets cover at most an hour and never hold more bytes than the flow |
| `TrackerProofs.BucketsExact` | internal/flowengine/tracker.go:195-207 | when payload packets carry a capture time, bucket k > 0 of the first hour holds exactly the payload bytes of second k after the first payload, and bucket 0 those less than a second before or after it |
| `TrackerProofs.FirstBucketExactly` | internal/flowengine/tracker.go:199-200 | bucket 0 holds the first second alone if and only if no payload was captured in the second before |
| `TrackerProofs.EarlierPayloadInFirstBucket` | internal/flowengine/tracker.go:199-200 | payloads at 10 s and then 9.5 s share bucket 0 |
| `TrackerProofs.FlowSpan` | internal/flowengine/tracker.go:168-234 | a flow starts at its first packet and ends at the latest, its flags are exactly those some segment carried, and FIN and RST closes follow from them |
| `TrackerProofs.LossReportedExactly` | internal/flowengine/tracker.go:331-401 | retransmissions are fewer than packets; the reported, rounded loss is between 0 and 100 percent, and below 100 if and only if 20000 x retransmissions < 19999 x packets |
| `TrackerProofs.RepeatedSegmentLoss` | internal/flowengine/tracker.go:263-272 | a flow that repeats one data segment reports 100 percent exactly from the 20000th copy on |
| `TrackerProofs.RecordCounts` | internal/flowengine/tracker.go:186-193 | a record counts exactly the packets of its flow |
| `TrackerProofs.SeqBeforeExactly` | internal/flowengine/tracker.go:478-480 | for positions up to one sequence space apart, the uint32 comparison is the true one if and only if the difference is at least -2^31 and below 2^31 |
| `TrackerProofs.SeqBeforeFailsOutside` | internal/flowengine/tracker.go:478-480 | a segment half the space below the high mark is taken to be new |
| `TrackerProofs.SequenceRefinement` | internal/flowengine/tracker.go:263-283 | over every run inside the window, the uint32 high mark is the unbounded one modulo 2^32 and the count is the number of data segments that truly start below it |
| `TrackerProofs.PendingExact` | internal/flowengine/tracker.go:285-301 | at every point a direction's pending list is, in order, exactly its pushed data segments not covered by a later opposite non-zero acknowledgement |
| `TrackerProofs.CoveredExactly` | internal/flowengine/tracker.go:482-498 | an acknowledgement covers a segment exactly if it reaches the segment's end, as long as the two are within half the sequence space |
| `TrackerProofs.SamplesExact` | internal/flowengine/tracker.go:285-301 | the samples are, in order, one for each pushed segment and the first later opposite non-zero acknowledgement that covers it, if that is later in time, with the time between them |
| `TrackerProofs.OneSamplePerSegment` | internal/flowengine/tracker.go:482-498 | a segment is the source of at most one sample: only one packet is the first to cover it |
| `TrackerProofs.RstEvidence` | internal/flowengine/tracker.go:225-248 | a flow is judged by its first RST against the TTL of its direction's first packet that is not an RST and has a TTL above 0 |
| `TrackerProofs.SuspiciousExactly` | internal/flowengine/tracker.go:514-551 | with both present, the verdict is suspicious exactly if they are five or more hops apart |
| `TrackerProofs.VerdictExactly` | internal/flowengine/tracker.go:514-533 | there is no verdict without an RST or if the first carries no TTL; it is unknown if the RST's direction has no other packet with a TTL |
| `TrackerProofs.HandshakeTimes` | internal/flowengine/tracker.go:253-261 | the SYN time is that of the first timed forward SYN, the SYN-ACK time that of the first timed reverse SYN-ACK after it; a handshake time is reported exactly if some reverse SYN-ACK followed that SYN, and is twice the distance, where a SYN-ACK without a time counts as time zero until a timed one replaces it |
| `Pool.StepKeeps` | internal/pipeline/pool.go:64-104 | every step keeps: a worker's share of the capture is what it decoded, queued and has still to be sent; its map is the decoding of what it saw |
| `Pool.StepsDecrease` | internal/pipeline/worker.go:73-93 | every step that does something brings the run closer to its end |
| `Pool.NeverStuck` | internal/pipeline/pool.go:64-104 | every unfinished state has such a step, whatever the queue bound |
| `Pool.PoolIsSequential` | internal/pipeline/pool.go:64-104 | for every worker count, bound and schedule, with flow affinity the finished workers have disjoint keys and their union is one sequential run |
| `Pool.DisjointExactly` | internal/pipeline/pool.go:64-104 | the keys are disjoint if and only if no flow has packets with different routes |
| `Pool.SequentialExactly` | internal/pipeline/pool.go:64-104 | for a decoder whose records count their packets, the union is the sequential run if and only if no flow has packets with different routes |
| `Pool.CollectorComplete` | internal/execution/pcap_pipeline.go:29-51 | the collector holds every submitted packet once and, with flow affinity, each flow's packets in capture order |
| `FlowHash.HashFollowsKey` | internal/pipeline/hasher.go:12-27 | outside ICMP the hashed bytes depend on the flow key alone |
| `FlowHash.NonIcmpAffinity` | internal/pipeline/hasher.go:12-32 | a capture whose tracked packets are not ICMP has flow affinity for every worker count |
| `FlowHash.PoolTracksSequentially` | internal/pipeline/worker.go:73-112 | over TCP, UDP and SCTP, any number of workers under any schedule yields the flows of one tracker |
| `FlowHash.TracksSequentiallyExactly` | internal/pipeline/worker.go:73-112 | for every capture, the workers' flows are those of one tracker if and only if no flow has packets with different routes |
| `FlowHash.FnvParity` | internal/pipeline/hasher.go:21-26 | the lowest bit of FNV-32a is the complemented parity of the bytes |
| `FlowHash.IcmpFlowSplits` | internal/flowengine/tracker.go:67-80 | with two workers, an echo request and a destination-unreachable between the same hosts share a key and go to different workers |
| `Wire.Conn.ReadFull` | internal/stream/wire.go:34-47 | reads the next n bytes, or all that is left, across any chunk boundaries |
| `Wire.Conn.ReadMsg` | internal/stream/wire.go:32-49 | the outcome, including each error, depends only on the byte stream |
| `Wire.FrameRoundTrip` | internal/stream/wire.go:19-49 | a written frame is read back, leaving what follows, if and only if its payload has 1 byte to 8 MiB |
| `Wire.BadLengthRefused` | internal/stream/wire.go:38-43 | a length of 0 or above 8 MiB is refused with its own error, whatever follows |
| `Wire.CutFrameFails` | internal/stream/wire.go:32-49 | a frame cut short is never taken for a message, and with which error it fails |
| `AgentStream.CompressedInvertible` | internal/stream/wire.go:54-107 | the zlib framing is invertible if both codecs are |
| `AgentStream.CompressedRejects` | internal/stream/wire.go:77-107 | only what decompresses and then decodes is taken for a message |
| `AgentStream.HandshakeAgrees` | internal/stream/agent.go:108-136 | the agent is accepted exactly if the token fits and the engine starts; it learns the engine's session and both sides then use the same codec |
| `AgentStream.Streamer.FlushBatch` | internal/stream/agent.go:192-214 | an empty batch is sent only as a heartbeat; a complete write numbers and clears the batch; a broken one closes the connection |
| `AgentStream.Streamer.OnEvent` | internal/stream/agent.go:238-285 | one turn of the select loop |
| `AgentStream.AgentRunKeeps` | internal/stream/agent.go:192-285 | in every run batch numbers are 0, 1, 2, ..., no batch exceeds 500, and sent batches plus the residue are exactly the dequeued packets in order |
| `AgentStream.TurnExactly` | internal/stream/agent.go:238-285 | a write happens exactly when a packet fills the batch to 500, at a tick or stop with anything to send, and at every heartbeat; if it completes, all that is held is the next batch and nothing stays; the loop ends exactly with a stop or a broken write |
| `AgentStream.ReceiveLoop` | internal/stream/central.go:148-158 | the receive loop decodes the batches of the byte stream up to the first error, however the stream is chunked |
| `AgentStream.ReceivePrefix` | internal/stream/central.go:148-158 | wherever the stream ends, exactly the batches whose frames came through whole are decoded |
| `AgentStream.ReceiveUntilError` | internal/stream/central.go:148-158 | after whole frames, anything that cannot be read as a batch ends the loop, with exactly those batches decoded |
| `AgentStream.OfferBatch` | internal/stream/central.go:160-178 | offering a batch with the consumer running in between is a run of the bounded queue, dropped + enqueued is the batch, and nothing is dropped if the batch fits |
| `AgentStream.QueueAccounting` | internal/stream/central.go:160-178 | enqueued is an ordered subsequence of received, enqueued + dropped = received, the bound holds, consumers get the enqueued packets in order |
| `AgentStream.DropsExactly` | internal/stream/central.go:172-177 | over every run, a packet is dropped exactly if it was offered to a full queue, all others are enqueued in order, and the consumer gets a packet whenever there is one |
| `AgentStream.BatchesArrive` | internal/stream/agent.go:192-285 | with one codec at both ends, for every agent run, every break and every consumer: central decodes a prefix of the sent batches, numbered from 0; received is a prefix of dequeued; enqueued + dropped = received |
| `AgentStream.EndToEnd` | internal/stream/central.go:86-178 | the same over one connection with its handshake: the agent takes its codec from central's reply and central from the agent's offer; a refused agent gets no codec and nothing is decoded |
| `Throttle.TokenBucket.AfterWrite` | internal/stream/agent.go:215-234 | refill, one-second cap, charge and reset; the sleep is what the deficit asks for, and 2 s if that is more |
| `Throttle.RunCounts` | internal/stream/agent.go:199-219 | a run counts every payload byte, and the refill clock stands at the last payload |
| `Throttle.LedgerBalances` | internal/stream/agent.go:215-234 | after every run, capped or not: bytes sent, tokens kept and tokens spilled are paid for by elapsed time, time slept and sleep forgiven, up to the two divisions' remainders, which stay below one unit per flush |
| `Throttle.RateBoundExactly` | internal/stream/agent.go:215-234 | when exactly a run stays within rate x (elapsed + credit), for any credit |
| `Throttle.SleepBoundExactly` | internal/stream/agent.go:215-234 | when exactly a run stays within rate x (elapsed + slept + credit): the forgiven sleep must be covered by credit, tokens left and spilled, and remainders |
| `Throttle.ForgivenExactly` | internal/stream/agent.go:226-232 | sleep is forgiven exactly in runs that go over the cap, and the bucket stays between zero and one second of rate |
| `Throttle.SmallBatchesUncapped` | internal/stream/agent.go:226-232 | if the clock does not run backwards and no batch exceeds two seconds of rate, no sleep is cut off |
| `Throttle.ThrottleBound` | internal/stream/agent.go:215-234 | without a capped sleep, payload is at most rate x (elapsed + slept) plus one nanosecond of rate per flush |
| `Throttle.AtMostTwiceTheRate` | internal/stream/agent.go:217-232 | if also every flush waits for the sleep before it, payload is at most 2 x rate x elapsed, plus 2 s of rate and one nanosecond of rate per flush |
| `Throttle.CapBreaksBound` | internal/stream/agent.go:228-230 | ten bytes at one byte per second: a capped sleep loses the bound of rate x (elapsed + slept) |
| `Throttle.SleepCreditedTwice` | internal/stream/agent.go:217-232 | a sender that never hits the cap and sleeps as told sends 2000(k-1)+1000 bytes in k-1 seconds at 1000 bytes per second |
| `SessionBuffer.Session.BufferPacket` | internal/capture/session.go:81-87 | appends below the cap and changes nothing at it |
| `SessionBuffer.Session.DrainPackets` | internal/capture/session.go:101-110 | hands out all packets and empties the buffer |
| `SessionBuffer.Session.Stop` | internal/capture/session.go:56-64 | closes the stop channel only if it is open |
| `SessionBuffer.BufferConserves` | internal/capture/live.go:488-527 | in every interleaving each captured packet is in exactly one of buffer, hand, in-flight write, final write, stored, lost in a failed write, dropped; the cap and the two write slots hold |
| `SessionBuffer.AttemptExactly` | internal/capture/session.go:81-87 | a captured or re-queued packet lands at the end of the buffer below the cap and is dropped at it; no other step drops anything |
| `SessionBuffer.DroppedExactly` | internal/capture/live.go:488-527 | over every run, dropped are exactly the packets that found the buffer at its cap, in order |
| `SessionBuffer.StoredExactly` | internal/capture/live.go:508-646 | once a run has settled, everything not dropped is stored if and only if every packet put in the buffer was drawn from it later and no write failed |
| `SessionBuffer.StoredUnlessRequeued` | internal/capture/live.go:639-646 | with nothing captured after the final drain: if and only if the flusher puts no packet back after it that is not drawn again, and no write fails |
| `SessionBuffer.EverythingStored` | internal/capture/live.go:488-527 | in particular exactly if no write fails, when the flusher is not putting packets back at the final drain and never finds both write slots busy after it |
| `SessionBuffer.FinalDrainHappened` | internal/capture/live.go:618-646 | every settled run that did not give up has had its final drain |
| `SessionBuffer.FailedExactly` | internal/capture/live.go:512-514 | packets are lost to writes exactly if some write fails |
| `SessionBuffer.FailedWriteLoses` | internal/capture/live.go:512-514 | a run in which a failed periodic write loses its batch |
| `SessionBuffer.GivingUpStrands` | internal/capture/live.go:618-632 | a run in which flows or calls cannot be stored and the buffered packets stay behind |
| `SessionBuffer.RequeueAfterFinalDrain` | internal/capture/live.go:508-524 | a schedule in which a batch re-queued after the final drain stays in the buffer for ever |
| `Hub.HubLoop.OnUnregister` | internal/ws/hub.go:70-79 | removes and closes a registered client, ignores others |
| `Hub.HubLoop.OnBroadcast` | internal/ws/hub.go:81-91 | in any order, every client gets the message or is closed and removed if its channel is full |
| `Hub.HubDelivery` | internal/ws/hub.go:59-94 | over every run a client's messages are a gap-free block of the broadcast log from its registration on, reaching to its end while registered; no channel is closed twice or sent on after close |
| `Hub.MembershipExactly` | internal/ws/hub.go:62-91 | a client is registered from its registration until it unregisters or its 256-message channel overflows, and its channel is closed at that moment |
| `Hub.RegisteredExactly` | internal/ws/hub.go:59-94 | the same over every run: registered are exactly the clients that joined and have not left since |
| `Hub.DeliveryExactly` | internal/ws/hub.go:81-107 | a broadcast is accepted while fewer than 8192 wait; the loop takes the oldest and puts it last in the channel of every registered client with room; a client receives in order |
| `Hub.EvictThenUnregister` | internal/ws/client.go:35-39 | an evicted client's own unregister does nothing |
| `Subscribers.SubscriberRegistry.EnrichCell` | internal/correlation/subscriber_registry.go:73-127 | first values stay, location and state follow the latest, lists grow without duplicates, times move outward |
| `Subscribers.SubscriberRegistry.Update` | internal/correlation/subscriber_registry.go:56-133 | updates the shared heap profile and all four maps as the abstract registry does, and keeps every index pointing at byIMSI's profiles |
| `Subscribers.SubscriberRegistry.UpdateAll` | internal/correlation/subscriber_registry.go:136-140 | from any registry, gives the registry after these further sessions |
| `Subscribers.SubscriberRegistry.LookupByMSISDN` | internal/correlation/subscriber_registry.go:151-156 | finds the profile held for the subscriber the number leads to, or nothing |
| `Subscribers.SubscriberRegistry.LookupByUEIP` | internal/correlation/subscriber_registry.go:159-164 | finds the profile held for the owner of the address, or nothing |
| `Subscribers.SubscriberRegistry.LookupByTEID` | internal/correlation/subscriber_registry.go:167-172 | finds the profile held for the last owner of the tunnel, or nothing |
| `Subscribers.AppendUniqLoop` | internal/correlation/telecom_trace.go:562-569 | appends only what is not there |
| `Subscribers.LookupsFindLast` | internal/correlation/subscriber_registry.go:101-113 | an address or TEID leads to the subscriber of the last IMSI-bearing session naming it |
| `Subscribers.NumbersFindLast` | internal/correlation/subscriber_registry.go:129-132 | an MSISDN leads to the subscriber of the last session whose subscriber then has it as its first number |
| `Subscribers.HistoryAppend` | internal/correlation/subscriber_registry.go:136-140 | several updates in a row are one history |
| `Subscribers.IndexesAgree` | internal/correlation/subscriber_registry.go:129-132 | every index entry leads to a known subscriber, an MSISDN to one whose number it is, and every known number is indexed |
| `Subscribers.SubscriberProfile` | internal/correlation/subscriber_registry.go:73-127 | after any history: the five lists have no duplicates and hold exactly the identifiers named; MSISDN, APN, PDN type, RAT and serving network are the first non-empty ones, location and state the last; FirstSeen and LastSeen are minimum and maximum of the non-zero times |
| `Mos.ComputeMOS` | internal/analysis/mos.go:10-46 | computes the score, which lies in [1, 4.5] |
| `Mos.Impairments` | internal/analysis/mos.go:12-26 | 2.5 per percent of loss, 1 per 10 ms of jitter, nothing up to 177.3 ms of delay, then 0.024 per ms and 0.11 per ms of the excess |
| `Mos.CurvePoints` | internal/analysis/mos.go:34-46 | the curve passes through 1, 2.575, 3.1 and 4.5 at R = 0, 50, 60 and 100; a perfect call scores 4.428 and one that loses everything 1 |
| `Mos.LabelIntervals` | internal/analysis/mos.go:48-61 | the labels are consecutive intervals that begin at 4, 3.6, 3.1 and 2.6 |
| `Mos.ScoreMonotone` | internal/analysis/mos.go:10-46 | the score never rises when loss, jitter or latency grows |
| `Mos.ClampedCubicMonotone` | internal/analysis/mos.go:34-43 | the clamped cubic never falls on [0, 100] |
| `Mos.CubicDips` | internal/analysis/mos.go:35-35 | the cubic alone does |
| `Mos.LabelsAndAlerts` | internal/detection/rules.go:1055-1071 | without latency a label is fair or worse exactly below 3.5995, so it comes with an alert; label and alert disagree exactly on [3.5995, 3.6) |
| `Mos.GoodLabelWithAlert` | internal/analysis/mos.go:48-61 | 9.656 percent loss is labelled good and alerts |
| `Detection.ComputeAggregates` | internal/detection/engine.go:95-107 | the single loop computes all totals and tallies |
| `Detection.FiguresExactly` | internal/detection/engine.go:93-107 | every figure is the number of flows, or of their packets, with the given type, source or destination |
| `Detection.TallyEntry` | internal/detection/engine.go:98-107 | a tally has an entry exactly for the keys that occur, with their weights summed |
| `Detection.AggregatesAddUp` | internal/detection/engine.go:95-107 | per-type, per-source and per-destination figures sum to the totals |
| `Detection.AggregatesPermute` | internal/detection/engine.go:95-107 | no figure depends on the order of the flows |
| `Detection.ConcentrationAlerts` | internal/detection/rules.go:716-748 | exactly the sources and destinations with more than half of at least ten flows, each once |
| `Detection.Thresholds` | internal/detection/rules.go:425-748 | concentrated means more than half of the flows, flooding more than four fifths of the packets and at least 1000 |
| `Detection.AtMostOneConcentrated` | internal/detection/rules.go:716-748 | at most one source and one destination |
| `Detection.FloodAlerts` | internal/detection/rules.go:425-448 | exactly the sources with over 80 percent of at least 1000 packets and at least 1000 of their own |
| `Detection.AtMostOneFlood` | internal/detection/rules.go:425-448 | at most one, packet counts being counters that start at zero |
| `Detection.OffendsLoop` | internal/detection/rules.go:577-594 | a flow offends exactly if its protocol has standard ports and neither port is one of them |
| `Detection.OffendsExactly` | internal/detection/rules.go:541-591 | which ports make a flow of each of the five protocols offend; flows of other types never do |
| `Detection.PortKeyExactly` | internal/detection/rules.go:550-593 | alerts are told apart by protocol, both addresses and both ports |
| `Detection.FirstSeenOrder` | internal/detection/rules.go:594-610 | later flows only add alerts behind those already there |
| `Detection.UnusualPortAlerts` | internal/detection/rules.go:572-622 | one alert per distinct key in first-seen order, with the number of offending flows that have it |
| `Detection.PortAlertsAccount` | internal/detection/rules.go:572-622 | alert keys are distinct and exactly the offending ones, and the occurrence counts sum to the offending flows |

## Left out

- `Framers.FollowsGo`: Go's Unicode case mapping and trimming are parameters, of which only their effect on ASCII and on bytes that never occur in UTF-8 is used; headers with other multi-byte text before Content-Length are not characterised.
- `SessionBuffer.Step`: a failed write is taken to store nothing (one transaction, or one COPY); a session without a database, and a second analysis of one session, are not modelled.
- `XdpRings.Step`: the reader shares all its memory with the kernel, so its steps are functions on values rather than methods on an object; poll errors, timestamps and Close are not modelled.
- `XdpRings.DoDeliverCorrupt`: the kernel is taken never to write a descriptor whose end wraps past 2^64, which the reader's check would let through (`XdpRings.CheckExactly`) and slicing UMEM would then panic on.
- `Throttle.Charge`: uses integer nanoseconds and exact division where the code multiplies a float by seconds, and does not model 64-bit overflow of very large deficits.
- `Mos.Score`: real arithmetic; floating-point rounding other than the final rounding to three decimals is not modelled.
- `FlowTracker.Touch`: round-trip times are exact nanoseconds; the rounding of reported milliseconds is not modelled.
- `AgentStream.Answer`: filter updates from central only appear as an event that ends the agent's connection; reconnects and the agent registry are not modelled.
- The decoders other than the flow tracker, the gopacket reassembly engine, pcap reading, eBPF loading and mmap.
- The AF_PACKET source: its last frame is copied after the block is handed back, so the ownership property does not hold for it.
- XDP shared-state reference counting on the error path where no source was opened.
- Layer isolation by time window in the telecom tracer, and exactly-once analysis per stop of a capture.
- The remaining detection rules and aggregates, KPI percentages and alert texts: counters and thresholds that hold no state between calls.
- User interface, HTTP router, SQL stores, alert dispatch, GeoIP and language-model clients: plumbing without deep invariants.
