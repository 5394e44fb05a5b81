# MixTor: a verified model of the shaped data path

MixTor carries Tor traffic over TCP connections whose frames are all one size, encrypted, and emitted on a
random clock of their own; unused slots carry dummies. This project models that path in Dafny and proves what it
is for: real cells get through whole and in order, and neither the instants nor the sizes of frames say what is
inside them. It also models the statistics the repository uses to attack its own output, and proves that each fast
loop computes its textbook definition.

`dafny verify dfyconfig.toml` checks everything. Modules and what they build on:

- **One flow.** `Cells` (the 514-byte cell), `Crypto` (counter-nonce frame cipher), `TimingCorrelation` (departure
  clock and queue), `ClockContent` (what that clock depends on), `RateLaw` (its intervals and its rate estimate), `ShapedSessions`, `Tails` (when a flow may close), `Transport` (`FlowSlot` and its service
  call), `Receiver`. Classes carry the source's fields; each method is proved equal to a step function on values,
  and `FlowInvariants`, `FlowTiming` and `Receiver` prove theorems about every run of those steps: arbitrary
  service instants, arrivals (also between two slots of one call), dummy coins, short writes and read splits.
  `QueueDepth` says how deep the queue behind the clock gets, with runs that reach it; `Schedule` that departures are
  a fixed sequence of instants, however the flow is polled; `FlowProgress` what a call must bring about.
- **All flows.** `Emitter`: the in-place `swap_remove` pass.
- **The mux.** `MuxRouting` is a state machine over atomic steps of the circuits, the demultiplexer, the bridge
  relays and their halves, interleaved in any order. `MuxIsolation`, `MuxExactness` and `MuxReplies` prove what every
  interleaving keeps, `MuxLosses` and `MuxReplyLosses` which cells are lost and by which steps, `MuxProgress` and `MuxReplyProgress` when everything can still come through,
  `MuxLifecycle` what sending, holding, closing and stopping bring about, `MuxReuse` when an id used again lets a
  predecessor's replies through, and `MuxBounds` what any client, protocol-keeping or not, can make the server
  hold. `MuxStreams` has id allocation and the process-wide
  stream counter.
- **The handshake framer.** `Handshake`: incremental MARK search over any split into reads.
- **Attack statistics.** `Counting`, `KolmogorovSmirnov`, `Correlation`, `PearsonLaw`, `Linking`; `WireLog` turns the flow theorems on
  the linking attack.
- **Smaller transducers.** `Clumping`, `OptimalPadding`, `Composition`.

Histories (`sent`, `frames`, `written`, `forced`, `accepted`, `lossy`, `lossyDown`, the provenance of mux items) exist for the
statements only; no step branches on them. Randomness is a generator with an opaque state about which nothing is
assumed. The AEAD (RFC 8439 section 2.8) is taken as correct (decryption inverts encryption, 16 bytes longer);
unforgeability is a hypothesis about the received bytes, used in `AuthenticatedPrefix` and `TamperedIsSourcePrefix`
alone. Time is one instant
per service call.

Where comments in the repository and its code differ, the code is modelled:

- The queue behind the clock is not held at 0-1 (src/transport.rs:871-872). Slots reserved for dummies
  (src/timing_correlator.rs:340) leave a backlog. `HeldAtIff`: it is held at k over every run exactly when no slots are
  reserved or the capacity is at most k; with the transport's settings a run fills all 128 places
  (`TransportQueueFills`).
- `make_dummy_frame` keeps payloads away from the clock's generator, but `pad_to_cell` draws from it for packets
  shorter than a cell (src/timing_correlator.rs:522). Where intervals vary at all, and nowhere else, that moves
  departures (`ShortPacketsMoveDeparturesIff`), and then some generator tells by its departures whether a queued
  packet is shorter than a cell (`ShortPacketPerturbsTheClock`). `ShapedSession::inject_real` always pads first, which
  is what `TimingIndependence` rests on.
- With `adapt_rate` departures follow arrivals unless all intervals round alike (`DeparturesIgnoreArrivalsIff`).
- A stream id is unique until the 16-bit counter wraps. A circuit opened under a used id can be given replies meant for
  its predecessor, and `LateRepliesIff` says exactly when.
- The schedule does not depend on how often the clock is polled (src/timing_correlator.rs:430-439) only while no slot is
  serviced more than 200 ms after the departure that follows it (`ScheduleIsAbsoluteIff`, `PollingDoesNotMatter`).
- A circuit none of whose cells is lost can be stuck all the same, `StuckWithoutLoss` for one: `CanAllBeWrittenIff` has
  the exact condition, and `CanAllBePassedOnIff` that for replies.
- `read_marked_message` drops what follows the MAC in its last read: the bytes after the message survive exactly when
  some read ends with it (`HandshakeRoundTrip`). And a MAC that ends past the 8192-byte budget is accepted or rejected
  by the luck of the read boundaries (`SplitIndependence`).
- A stream that closes before its epoch gate opens loses what was held (src/transport.rs:1293), and a writer that stops
  loses what waits for it. `LosingSteps` and `ReplyLosingSteps` list every step that loses a cell, and when. Relay
  halves outlive their `select!`, so replies may follow a close.
- End of source is noticed only inside the slot loop, so lifetime statements start from `reader_done`.
- Some regime cannot be drawn from whenever `max_dummy_packets_per_burst` is below 12 (`DrawableIff`).
- A KS value of 1 means one threshold separates the samples (`KsOneIff`), not merely that they are disjoint
  (`DisjointSamplesCanScoreHalf`).
- `build_buckets` yields min(k, number of observations) buckets, not fewer for repeated values, and lengths above the
  largest observation are padded down (`LookupIsLeast`).
- `next_boundary` with a zero period returns `now`, which is not strictly later (`NextBoundaryIsLaterIff`).
- The re-arming branch in `ClumpingPool::push` is dead, since a flush always empties the pool.

## Model

| member | source | states |
|---|---|---|
| Receiver.LosslessPipe | src/transport.rs:848-957 | For every run and every point the receiver has reached: no abort, and decoded cells + cells in sealed bytes + queue + channel are exactly the cells sent, in order |
| Receiver.DeliveredIsSourcePrefix | src/transport.rs:655-670 | Bytes delivered are always a prefix of the source bytes, however the source was read |
| Receiver.TamperedIsSourcePrefix | src/transport.rs:1013-1060 | So are they whatever was done to the bytes on the wire, unless a frame was forged |
| Receiver.DrainedCloseDeliversAll | src/transport.rs:938-955 | A flow that is done and drained has put every cell it was sent on the wire, decodable |
| Receiver.AllWrittenIff | src/transport.rs:938-943 | After the end of the source, all cells are on the wire iff the queue is empty and no real cell is in an unwritten block |
| Receiver.ReadHalf.ReadExact | src/transport.rs:1018-1022 | The result depends on the bytes, not on how they are split over reads |
| Receiver.ReadSealedFrame | src/transport.rs:1013-1025 | Short input is end of stream; otherwise one block is consumed, the counter moves on once, and the result is the opened frame or a failure |
| Receiver.StripAndForward | src/transport.rs:1030-1060 | The output is the payload of the real cells among the accepted frames, in order, and the loop ends as the stream does |
| Receiver.ReceiveOfRun | src/transport.rs:1013-1025 | Any prefix of what a flow wrote decodes to exactly its whole frames |
| FlowInvariants.RunKeepsInv | src/transport.rs:879-936 | Over every run: cipher counter = `wire_seq` = frames sealed, every frame fills a cell, written + pending = the sealed frames byte for byte, queue within its bound |
| FlowInvariants.EmitKeepsLockstep | src/transport.rs:916-921 | Sealing one frame keeps counter, sequence number and bytes in lockstep |
| FlowInvariants.FlushKeepsInv | src/transport.rs:925-936 | A partial write of any size loses and repeats no byte |
| FlowInvariants.RunConserves | src/transport.rs:879-924 | Over every run the cells sent are those emitted, queued and in the channel, in order; `real_bytes` is the payload taken so far; the emission counters count exactly the real and dummy frames sealed |
| FlowInvariants.PullConserves | src/transport.rs:881-914 | One pull moves the head of the channel to the end of the queue and adds its true payload length |
| FlowInvariants.EmitConserves | src/transport.rs:916-921 | One slot moves the head of the queue to the end of the emitted real cells, or nothing |
| FlowInvariants.SlotKeepsQueueBound | src/transport.rs:879-922 | One slot lengthens the queue by one cell at most, only when its own coin reserved it for a dummy, and never past the capacity |
| FlowTiming.TimingIndependence | src/transport.rs:848-936 | Two flows with one clock, of fixed rate or of intervals that all round alike, serviced at the same instants over wires that behave alike, emit equally many equally long frames and have the same next departure, pending and written lengths, whatever they carry, until one is dropped |
| WireLog.CallSeals | src/transport.rs:916-921 | One call of any run seals as many frames as the sequence number rises, each exactly one cell long |
| WireLog.LogIndependence | src/transport.rs:916-921 | The whole wire log, the instant and the actual length of every frame sealed, is the same for two flows with one clock, serviced alike, whatever they carry |
| WireLog.SeriesIgnoresTraffic | src/transport.rs:848-936 | Exchanging what a flow carries leaves its binned wire series as it was, on any grid |
| WireLog.LinkingOverRotations | src/correlation_attack.rs:517-601 | Any flows, each with its own rate, seed and wire: handing their traffics round changes no wire series, and over all rotations the attack is right about flow i exactly once for each traffic that matches its wire best with no other such among the i before it, going round |
| WireLog.LinkingIsChanceOverRotations | src/correlation_attack.rs:517-601 | Hence right exactly once per flow, as often as a blind guess, if no two traffics match a wire equally well |
| FlowTiming.SlotAlike | src/timing_correlator.rs:327-357 | One slot keeps two flows indistinguishable, whether each pulls, emits real or emits a dummy |
| FlowTiming.FreshAlike | src/transport.rs:634-653 | Two fresh flows satisfy the hypothesis iff generator, next departure and, at a fixed rate, mean agree |
| FlowTiming.DeparturesIgnoreArrivalsIff | src/timing_correlator.rs:294-303 | For every configuration and any logarithm: no waiting cell ever moves the departure after the due slot iff the rate is fixed or all intervals round alike |
| FlowTiming.AdaptiveClockFollowsContent | src/timing_correlator.rs:294-303 | Every other configuration has a generator and a flow for which one waiting cell moves that departure |
| FlowTiming.FlowRateBound | src/transport.rs:879-924 | From any state at most 200 ms behind at t0, at most (t1 - t0 + 200 ms)/s + 1 frames are sealed by t1, whatever traffic, polling and wire do |
| FlowTiming.AnyWindowRateBound | src/transport.rs:856-924 | From any state at all, started or not and however far behind, at most one frame more in a window from t0 to t1 |
| QueueDepth.HeldAtIff | src/transport.rs:861-872 | Over every run of a configuration, for any logarithm, the queue is held at k cells iff no slots are reserved for dummies or the capacity is at most k |
| QueueDepth.QueueDepthBound | src/transport.rs:861-872 | Over every run the queue holds at most min(reserved slots so far, `max_queue_depth`) cells |
| QueueDepth.DepthReached | src/timing_correlator.rs:340-351 | Under any generator whose coins reserve, every depth up to the capacity is reached by a run from a fresh flow, at instants that never go back, by a source that sends whole cells |
| QueueDepth.TransportQueueFills | src/transport.rs:540-563 | With the transport's own settings and any logarithm a run fills the queue to its 128 cells |
| QueueDepth.UnreservedSlot | src/transport.rs:881-921 | An unreserved slot takes out what it pulled in, and drains the queue only when the channel is empty |
| FlowTiming.RealBytesIsTotal | src/transport.rs:884-899 | When `reader_done` is set, `real_bytes` is the payload of all cells ever sent (saturating) |
| FlowTiming.FragmentationDoesNotChangeTheClass | src/transport.rs:732-737 | Sources of equal length get the same session class however their writes are cut |
| FlowTiming.RunKeepsTail | src/transport.rs:897-913 | Tail, backstop and byte total are fixed once, by `tail_targets` at some instant of the run, and never change |
| FlowTiming.DroppedExactlyWhen | src/transport.rs:925-955 | Over a whole run the flow is dropped iff at some call the write failed or it was found finished; a call that finds it finished is never before the deadline |
| FlowProgress.DroppedAtOnce | src/transport.rs:925-955 | After any run, a call keeps the flow iff its write does not fail, and it leaves neither the source ended with nothing queued or unwritten and the tail run its time and volume, nor the backstop reached after the end of the source |
| FlowProgress.HeldUntilGate | src/transport.rs:873-881 | Over every run before the entry gate opens: no real cell is sealed or queued, all cells sent are still in the channel, and the end of the source is not noticed |
| FlowProgress.TakesIffGateOpen | src/transport.rs:873-892 | A call that finds a slot due, a cell in the channel and room in the queue takes cells into the session iff it is at the gate or after it, and none before |
| FlowProgress.NoticesEndIffGateOpen | src/transport.rs:881-914 | A call that finds a slot due, room, and a closed source with an empty channel notices its end iff it is at the gate or after it |
| FlowProgress.ChannelTakesWhatFits | src/transport.rs:663-668 | The reader puts in all it has or fills the channel to its 1024 cells, and closes iff it has put in all |
| FlowProgress.WrittenIsAccepted | src/transport.rs:925-936 | Over every run as many bytes are written as the wire accepted, call by call, and they are the first bytes of the sealed frames |
| FlowProgress.DummiesAreFresh | src/timing_correlator.rs:505-509 | Over every run the i-th dummy carries the i-th cell's worth of the content generator, so none is repeated |
| Schedule.SealedIffDue | src/transport.rs:873-924 | Fixed rate, any run in which no slot is serviced more than 200 ms after the departure that follows it and the last call has room: slot k has been sealed iff its departure, one interval after the first call plus the first k after that, is not after the last call |
| Schedule.RunOnSchedule | src/timing_correlator.rs:445-459 | Over every such run the clock stands at the k-th departure of that sequence after k frames, with the generator of that slot, and no frame was sealed early |
| Schedule.PollingDoesNotMatter | src/timing_correlator.rs:430-439 | Two such flows with one clock, serviced at one first and one last instant and at any others between, have sealed equally many frames and are due next at one instant |
| FlowTiming.BackstopCloses | src/transport.rs:906-913 | The first service at or past the backstop drops the flow even if the peer never reads |
| FlowTiming.EpochFlowsEndOnTheGrid | src/transport.rs:483-499 | Under the Epoch policy a finished flow is due on a grid boundary after its class floor |
| Transport.FlowSlot.ServiceFlow | src/transport.rs:848-957 | The in-place service call computes exactly the step function all run theorems are about, with its keep/drop answer |
| Transport.FlowSlot.RunSlots | src/transport.rs:873-923 | The slot loop fires every due slot up to the cap on unwritten bytes, one pull each |
| Transport.FlowSlot.PullCell | src/transport.rs:881-914 | One pull: inject and count a cell, or fix the tail at the end of the source, or nothing |
| Transport.FlowSlot.FlushPending | src/transport.rs:925-936 | Exactly the accepted bytes leave `pending`; a closed or failed wire drops the flow |
| Transport.FlowSlot.SealInto | src/transport.rs:963-970 | One frame is sealed under the current counter, appended to `pending` and numbered |
| Transport.FlowSlot.ShouldClose | src/transport.rs:938-955 | The close decision on the fields equals the one on the abstract state |
| Transport.FlowSlot.constructor | src/transport.rs:634-653 | A registered flow starts empty, unnumbered and with its clock not started |
| Emitter.SharedEmitter.RunPass | src/transport.rs:831-840 | One pass services every registered flow exactly once and keeps exactly those whose service said so, none twice |
| Emitter.SharedEmitter.Register | src/transport.rs:795-797 | A new flow is appended and shares no object with another |
| Emitter.SwapRemoveShape | src/transport.rs:834-840 | `swap_remove` loses only the element at `i`, doubles none, and fills the hole from behind `i` |
| Tails.NextBoundaryIsLeast | src/transport.rs:379-385 | The boundary returned is the least one strictly after `now` |
| Tails.NextBoundaryIsLaterIff | src/transport.rs:382-384 | It is strictly later iff the period is not zero |
| Tails.SharedDeadline | src/transport.rs:483-499 | Two anchors get one deadline iff they fall in one epoch |
| Tails.EpochTail | src/transport.rs:483-499 | An Epoch tail is the least boundary after both now and the class floor, with no volume target |
| Tails.FixedTail | src/transport.rs:474-478 | The volume is the least multiple of 256 cells at or above the frames sent |
| Tails.ClassTailIsTarget | src/transport.rs:479-482 | A class tail lasts exactly the class's duration, and its volume is the most whole cells within the class's bytes |
| Tails.ClassIsFirstFit | src/session_bounder.rs:132-142 | The class is the first whose limit is not below the real bytes |
| Tails.ClassTailGrows | src/transport.rs:479-482 | More real bytes never give an earlier deadline or a smaller volume; clock and frame count have no say |
| TimingCorrelation.DepartureRateBound | src/timing_correlator.rs:440-460 | After an advance at t0 at most (t1 - t0 + 200 ms)/s + 1 frames are emitted by t1, whatever is injected and however often the clock is polled |
| TimingCorrelation.AdvanceProgress | src/timing_correlator.rs:445-459 | Each slot moves the schedule on by at least the minimum step, also when debt is dropped, and leaves it at most 200 ms behind |
| Schedule.ScheduleIsAbsoluteIff | src/timing_correlator.rs:445-459 | Over every run of injections and polls, adaptive or not, the next departure is never before the first plus all intervals drawn since, and equal to it iff no slot was serviced more than 200 ms after the departure that follows it |
| Schedule.EventMovesOn | src/timing_correlator.rs:445-459 | A slot moves the schedule on by the interval it draws; one later than that starts it anew one interval after now |
| RateLaw.SamplesAreExponential | src/timing_correlator.rs:462-468 | For any increasing logarithm with inverse: a sample exceeds x iff the uniform draw is below exp(-x/mean), draws below the machine epsilon counting as it |
| RateLaw.IntervalFollowsSample | src/timing_correlator.rs:441-443 | An interval is the sample, or the end of the band it is beyond, to the nearest whole microsecond |
| RateLaw.CoinReservesItsShare | src/timing_correlator.rs:340-341 | Of n evenly spaced draws the coin reserves exactly the configured share of n, rounded up |
| RateLaw.EstimateIsAverageOfGaps | src/timing_correlator.rs:286-305 | Over every run the rate estimate is the moving average over the gaps between the packets that found room, and fixed in fixed-rate mode |
| RateLaw.EstimateConverges | src/timing_correlator.rs:294-303 | Steady arrivals: after n of them the share (1 - alpha)^n of the error is left |
| TimingCorrelation.AdaptedFollows | src/timing_correlator.rs:294-303 | The rate estimate stays in its band, moves towards the last gap without passing it, and is the clamped gap when alpha is 1 |
| ClockContent.CellSizedPacketsKeepTheClock | src/timing_correlator.rs:515-531 | With cell-sized packets a slot moves clock and generator alike whatever is queued, and whatever the rate where all intervals round alike |
| ClockContent.ShortPacketPerturbsTheClock | src/timing_correlator.rs:519-525 | Any configuration, logarithm and state for which two uniform draws give different intervals: there is a generator under which, for every packet, the departure two slots on depends on its being queued iff it is shorter than a cell |
| ClockContent.ShortPacketsMoveDeparturesIff | src/timing_correlator.rs:519-525 | Some generator, state and packet shorter than a cell for which queuing it moves a departure exist iff intervals vary |
| ClockContent.VariesIff | src/timing_correlator.rs:441-443 | Where draws reach both ends of the band, intervals vary iff the two ends round to different microseconds |
| TimingCorrelation.TimingCorrelator.Tick | src/timing_correlator.rs:327-357 | A frame comes out iff the slot is due; it is the queue head unless the coin reserves the slot or the queue is empty; the whole new state |
| TimingCorrelation.TimingCorrelator.InjectReal | src/timing_correlator.rs:286-307 | Accepted iff below capacity, at the end of the queue; the rate moves only in adaptive mode |
| TimingCorrelation.TimingCorrelator.RestartClock | src/timing_correlator.rs:382-385 | The schedule starts over one fresh interval from now |
| TimingCorrelation.TimingCorrelator.AdvanceClock | src/timing_correlator.rs:440-460 | One draw; the next slot is relative to the last scheduled one, or to now when too far behind |
| TimingCorrelation.TimingCorrelator.constructor | src/timing_correlator.rs:248-270 | The content generator is split off before the first slot is scheduled |
| ShapedSessions.PadRealPacket | src/composition.rs:725-752 | Filled up or cut to a cell, untouched when it fits or no cell size is set, drawing from the composer's generator only when it fills |
| ShapedSessions.ShapedSession.InjectReal | src/composition.rs:938-945 | Every packet is cell-sized before it is queued; the clock's generator is not used |
| ShapedSessions.ShapedSession.Tick | src/composition.rs:1004-1017 | A frame iff the slot is due, always one cell long |
| Cells.CellRoundTrip | src/transport.rs:48-79 | Decoding an encoded cell gives back stream id and data, for any padding; over-long data is cut at 510 |
| Cells.EncodedLayout | src/transport.rs:48-58 | Stream id and length high byte first, then the data, then padding to 514 bytes |
| Cells.CloseCellRoundTrip | src/transport.rs:60-79 | A close cell decodes to its stream id and no data |
| Cells.DecodeRealCell | src/transport.rs:69-79 | Total on every byte string, never returning more than the cell holds |
| Cells.ReadRoundTrip | src/transport.rs:663-668 | Splitting a read into cells and decoding loses nothing, and no data cell can pass for a close sentinel |
| Cells.ReadsRoundTrip | src/transport.rs:655-669 | The cells of a whole source carry exactly its bytes, however it was read |
| Crypto.AuthenticatedPrefix | src/crypto.rs:266-282 | Whatever was inserted, removed, reordered or changed on the wire, the receiver accepts exactly the untouched leading frames, and aborts iff a further whole block was read |
| Crypto.HonestReceive | src/crypto.rs:250-282 | From an untampered prefix the receiver holds exactly the whole frames and never aborts |
| Crypto.NonceReuse | src/crypto.rs:242-248 | Two frames share a nonce iff their numbers agree modulo 2^64; the first 2^64 nonces are distinct |
| Crypto.NonceLayout | src/crypto.rs:242-248 | Four zero bytes, then byte i of the counter to base 256, least first |
| Crypto.SealedPlaintext | src/crypto.rs:253-264 | What is encrypted under that nonce is the kind byte followed by the cell |
| Crypto.OpenSealed | src/crypto.rs:253-282 | Opening a sealed frame under its counter gives it back |
| Crypto.WireLength | src/crypto.rs:116-118 | n cell-sized frames take exactly n times the fixed frame length |
| Crypto.FrameCipher.SealFrame | src/crypto.rs:253-264 | Sealed under the current nonce; the counter wraps at 2^64 |
| Crypto.FrameCipher.OpenFrame | src/crypto.rs:268-282 | Opened under the current nonce; the counter moves on also when the frame is rejected |
| Crypto.FrameCipher.NextNonce | src/crypto.rs:242-248 | Four zero bytes and the little-endian counter, which moves on |
| MuxIsolation.DownstreamIsolation | src/transport.rs:1637-1682 | Before the id counter wraps, under any interleaving: every cell delivered to a circuit is a reply really given by a bridge connection opened for its id, and one connection's replies arrive in order, none twice |
| MuxIsolation.UpstreamIsolation | src/transport.rs:1171-1245 | Before the id counter wraps: every cell written to a bridge was sent by the one circuit owning its id, in order, none twice, held data first; a prefix of what was handed over |
| MuxIsolation.DistinctIds | src/transport.rs:1461-1479 | However circuits open and close, until the 16-bit counter has wrapped the scan gives no two of them one id and none of them 0; a wire never has more than 512 streams at the server |
| MuxReuse.LateRepliesIff | src/transport.rs:1461-1479 | After any run, wrapped or not: some future gives a newly opened circuit a reply of an earlier connection iff, with no close of its id ahead on the downlink, such a reply to its id is in flight or such a connection still reads |
| MuxIsolation.StepKeeps | src/transport.rs:1156-1374 | Every atomic step of circuit, demultiplexer, relay and client keeps the routing invariant |
| MuxIsolation.HoldEndsKeeps | src/transport.rs:1281-1297 | Dropping the held cells of a stream closed before its gate disturbs no order |
| MuxIsolation.ToBridgeKeeps | src/transport.rs:1238-1244 | Taken, dropped when full, or the entry removed when the relay is gone: the invariant holds after each |
| MuxExactness.ExactDelivery | src/transport.rs:1171-1340 | Before the id counter wraps: a circuit none of whose cells was dropped has one bridge connection at most, and written + held + queued + on the wire is exactly what it sent, in order |
| MuxProgress.ForwardingDrains | src/transport.rs:1328-1337 | Before the id counter wraps, after any run: a relay past its gate with a live writer, given one turn for each cell that waits, has written all its channel ever took |
| MuxProgress.CanAllBeWrittenIff | src/transport.rs:1171-1340 | After any run, before a wrap: some future writes everything a circuit has sent to its bridge iff none of it is lost and, if some is on the uplink, the server reads, its relay if any writes, and the cap per wire need not end the wire first |
| MuxProgress.StuckWithoutLoss | src/transport.rs:1171-1247 | A circuit uncharged and never written to the end: its cell is on the wire when the server stops |
| MuxLosses.ChargedIffLost | src/transport.rs:1187-1340 | Before the id counter wraps: under every interleaving a circuit is charged with a loss iff a cell it sent is neither on the wire, nor queued, held or written at any relay |
| MuxLosses.LosingSteps | src/transport.rs:1187-1340 | Before the id counter wraps: a step makes a first cell of a circuit disappear iff it routes it to a full, gone or capped relay, ends a hold with something held, or stops a writer with something waiting |
| MuxExactness.RunExact | src/transport.rs:1171-1245 | Before the id counter wraps: every run keeps the account of each circuit without losses, and close sentinels stay the last of their stream |
| MuxReplies.ExactReplies | src/transport.rs:1637-1682 | Before the id counter wraps: a bridge connection none of whose replies was dropped has all of them, in order, passed on to its circuit, in that circuit's channel or on the wire, whatever else shares the id |
| MuxReplyProgress.CanAllBePassedOnIff | src/transport.rs:1637-1682 | After any run, before a wrap: some future passes everything a bridge connection replied on to its circuit iff none of it is lost and, if some is on the downlink, the client routes its id to a circuit that writes and no close of the id is ahead of it |
| MuxLifecycle.SendsAreSent | src/transport.rs:1615-1627 | In any state a circuit whose reader is open sends any cells it likes, one per step, in order |
| MuxLifecycle.AnswersAreGiven | src/transport.rs:1355-1369 | In any state a bridge past its gate whose reader is open gives any replies it likes |
| MuxLifecycle.OpensIff | src/transport.rs:1461-1479 | After any run a circuit can be opened iff fewer than 65534 ids are live, and gets a routed id that no live one had, not 0 |
| MuxLifecycle.HoldDrains | src/transport.rs:1281-1294 | While its gate is shut a relay with room in its hold takes over all its channel has, in order |
| MuxLifecycle.NothingPassesTheGate | src/transport.rs:1273-1297 | Under every interleaving a relay whose gate is shut has written nothing to its bridge and passed no reply on |
| MuxLifecycle.GateStaysOpen | src/transport.rs:1273-1297 | Past its gate a relay holds nothing more back, whatever step it takes |
| MuxLifecycle.CloseFreesId | src/transport.rs:1179-1184 | A close on a read uplink detaches the relay at once, and leaves the id unrouted at both ends when the client has read the answer |
| MuxLifecycle.BridgeCloseEndsRouting | src/transport.rs:1371-1373 | When a bridge closes, the client routes its id no more once it has read what is on the downlink |
| MuxLifecycle.DeadEndIsForgotten | src/transport.rs:1238-1243 | A cell for a relay or a circuit that has stopped writing removes the id's entry at that end |
| MuxLifecycle.FullCostsOneCell | src/transport.rs:1238-1244 | A relay or a circuit whose channel is full loses the cell at the head of the wire, and stays routed as it is |
| MuxLifecycle.RefusalCostsOneCell | src/transport.rs:1200-1212 | A stream refused by the global cap loses its cell, and the wire goes on |
| MuxLifecycle.StopsForGood | src/transport.rs:1171-1247 | Once the demultiplexer has ended no future opens a relay or hands one a cell, and every relay is detached |
| MuxReplyLosses.ReplyChargedIffLost | src/transport.rs:1587-1682 | Before the id counter wraps: a bridge connection is charged with a loss iff a reply it gave is neither on the wire, nor queued for or passed on to any circuit |
| MuxReplyLosses.ReplyLosingSteps | src/transport.rs:1587-1682 | Before the id counter wraps: a step makes a first reply disappear iff the client has no circuit that takes it, or its circuit stops writing with it still queued |
| MuxReplies.RunWhole | src/transport.rs:1344-1374 | Before the id counter wraps: every run keeps the account of replies given, passed on and under way |
| MuxBounds.StreamMemory | src/transport.rs:1130-1141 | Whatever cells a client puts on the wire, in or out of protocol, and however long the gate stays shut: a relay has at most 256 cells of at most 510 bytes queued and less than 256 KiB plus one cell held, and a wire routes to at most 512 relays |
| MuxBounds.HoldBounded | src/transport.rs:1281-1292 | One pull during the hold overshoots the cap by less than a cell |
| MuxStreams.MuxWire.AddStream | src/transport.rs:1461-1479 | From any counter value the wrapping scan ends with the first id neither 0 nor live and adds only that key; at 65534 live ids nothing changes |
| MuxStreams.ScanIsFirst | src/transport.rs:1469-1475 | There is one such id, and the scan function the routing model opens circuits with finds it |
| MuxStreams.MuxWire.RemoveStream | src/transport.rs:1654-1659 | A close frees its id and no other |
| MuxStreams.FreeId | src/transport.rs:1469-1475 | Pigeonhole: below 65534 live ids one other than 0 is free |
| MuxStreams.FreshBeforeWrap | src/transport.rs:1470-1475 | When every live id is below the counter, the id handed out is the counter itself |
| MuxStreams.GlobalCap | src/transport.rs:1134-1150 | Under every interleaving of any number of wires the counter is live relays plus undecided attempts, never underflows, and at most 4096 relays live; an attempt is refused iff relays and undecided attempts fill the cap |
| MuxStreams.CapFills | src/transport.rs:1134-1150 | Every number of relays up to 4096 is reached |
| MuxStreams.CapEmpties | src/transport.rs:1134-1150 | From whatever a run has come to, deciding every attempt and ending every relay brings the counter back to 0 |
| Handshake.HandshakeRoundTrip | src/crypto.rs:443-500 | A built message with any pad up to 2048 bytes, in any split into reads, with hour skew at most 1, is read back as exactly its prefix, if the MARK first occurs at the end of the pad; later bytes survive iff some read ends with the message |
| Receiver.HandshakeThenFrames | src/crypto.rs:494-500 | If some read ends with the message, the cipher gets exactly the sealed frames that follow, and decodes all of them |
| Handshake.EarlyMarkDecides | src/crypto.rs:475-487 | If the MARK occurs earlier, the message is accepted iff the bytes after that MARK are a valid MAC |
| Handshake.AcceptedIffSigned | src/crypto.rs:472-499 | On any bytes in any reads a success means that the 16 bytes after the first keyed hash of the first 32 bytes are the keyed hash of everything before them and of this hour or a neighbour; and if they lie within 8192 bytes anything else there is rejected |
| Handshake.StaleIffNoCollision | src/crypto.rs:406-422 | A message made for any hour is accepted iff its hash equals that of one of the three current hours, and rejected otherwise |
| Handshake.SuccessMeansValidMac | src/crypto.rs:475-487 | The same for a reader that has already buffered something: a success follows a valid MAC right after the first MARK buffered |
| Handshake.DecidedByFirstMark | src/crypto.rs:472-499 | While the first MARK and its MAC lie within 8192 bytes the verdict is the MAC's and no byte is lost or read too early |
| Handshake.SplitIndependence | src/crypto.rs:472-499 | All deliveries of the same bytes get one verdict iff the MAC after the first MARK is not a valid one ending past byte 8192 and by byte 9215 |
| Handshake.BufferBound | src/crypto.rs:491-498 | At most 9215 bytes are ever buffered |
| Handshake.ReadMarkedMessage | src/crypto.rs:462-500 | The loop computes the reader function the lemmas are about, and ends whatever the peer sends |
| Handshake.FindSubslice | src/crypto.rs:436-441 | The first occurrence, none if there is none, never for an empty needle |
| Handshake.MacOfMessage | src/crypto.rs:406-422 | A MAC made at one hour verifies in that hour and its two neighbours |
| KolmogorovSmirnov.KsStatistic | src/correlation_attack.rs:792-816 | The merge walk equals the maximum over all thresholds of the gap of the two empirical distributions, with any ties; 0 on an empty sample |
| KolmogorovSmirnov.MergeWalk | src/correlation_attack.rs:801-815 | The same for sorted samples |
| KolmogorovSmirnov.SelfTestKsStatistic | src/self_test.rs:272-306 | The self-test's copy on integer sizes computes the same statistic |
| KolmogorovSmirnov.BestThresholdAccuracy | src/correlation_attack.rs:823-839 | Twice the best accuracy minus 1 is the KS statistic |
| KolmogorovSmirnov.AccuracyIsKs | src/correlation_attack.rs:416-417 | Best accuracy = 1/2 + KS/2: the two size scores are one statistic |
| KolmogorovSmirnov.KsZeroIff | src/correlation_attack.rs:790-791 | 0 iff the distributions are equal |
| KolmogorovSmirnov.KsOneIff | src/correlation_attack.rs:790-791 | 1 iff one threshold separates the samples |
| KolmogorovSmirnov.DisjointSamplesCanScoreHalf | src/correlation_attack.rs:790-791 | Disjoint samples that score 1/2 |
| KolmogorovSmirnov.UniformSizesScoreZero | src/correlation_attack.rs:399-424 | Frames of one size score 0 |
| Counting.CountsArePositions | src/correlation_attack.rs:801-812 | The counts behind distributions and ranks are the numbers of samples at most, and below, a value |
| Counting.SortedCopy | src/correlation_attack.rs:796-799 | Sorting keeps the empirical distribution |
| Correlation.Ranks | src/correlation_attack.rs:873-891 | The argsort and tie-group loop gives each sample (number below) + (number equal - 1)/2 |
| Correlation.RanksSum | src/correlation_attack.rs:873-891 | Ranks sum to n(n-1)/2, ties or not |
| Correlation.RanksInvariant | src/correlation_attack.rs:871-872 | A strictly increasing transform leaves ranks alone |
| Correlation.SpearmanInvariant | src/correlation_attack.rs:858-869 | And hence Spearman |
| Correlation.Spearman | src/correlation_attack.rs:861-869 | Pearson of the ranks over the common length |
| Correlation.CauchySchwarz | src/correlation_attack.rs:728-740 | num squared is at most da2 times db2, for all series |
| Correlation.PearsonBounded | src/correlation_attack.rs:719-746 | Pearson lies between -1 and 1 |
| Correlation.Pearson | src/correlation_attack.rs:719-746 | The one-pass accumulation equals the definition; 0 below two samples or without variance |
| PearsonLaw.PearsonIsCoefficient | src/correlation_attack.rs:719-746 | For two samples or more, u and v being the deviations from the means: r squared times (u.u)(v.v) is (u.v) squared, r has the sign of u.v, and r is 0 if u.u or v.v is |
| PearsonLaw.CoefficientIsUnique | src/correlation_attack.rs:738-743 | No other number satisfies that |
| PearsonLaw.DeviationsCancel | src/correlation_attack.rs:726-727 | Deviations from the mean sum to 0 |
| PearsonLaw.PearsonRescaled | src/correlation_attack.rs:719-746 | Other units and origins of a series change at most the sign, and that iff they turn it upside down |
| PearsonLaw.PearsonWithItself | src/correlation_attack.rs:719-746 | 1 for a series that varies, against itself, and 0 for one that does not |
| Correlation.OverlapSize | src/correlation_attack.rs:776-788 | A lag compares exactly n - abs(lag) pairs, all in range |
| Correlation.LagLimitIff | src/correlation_attack.rs:757-764 | A lag is searched iff it is at most the configured one and leaves half the samples, and three, to compare |
| Correlation.ShiftedPearson | src/correlation_attack.rs:776-788 | The filter loop is Pearson of the two overlapping slices |
| Correlation.PeakCrossCorrelation | src/correlation_attack.rs:752-773 | The peak is the greatest score over all admissible lags, at the first lag reaching it |
| Correlation.PeakBounds | src/correlation_attack.rs:752-773 | The peak is at most 1, and at least abs(Pearson) iff there are three samples or Pearson is 0 |
| Correlation.TwoSamplesHaveNoPeak | src/correlation_attack.rs:757-760 | Two perfectly correlated samples for which the search reports 0 |
| Linking.AlignedSeries | src/correlation_attack.rs:481-511 | None iff the width is 0 or nothing is relevant; otherwise each window holds the bytes of its records, the grid spans them all, and no byte is lost or counted twice |
| Linking.BinIsWindow | src/correlation_attack.rs:500-509 | Window k holds exactly the instants from k to k + 1 widths after the first |
| Linking.SeriesConserves | src/correlation_attack.rs:500-509 | The windows sum to the bytes logged |
| Linking.FlatWireScoresZero | src/correlation_attack.rs:433-472 | Against a constant wire series every lag scores 0 whatever the real traffic |
| Linking.VolumeVerdict | src/correlation_attack.rs:455-466 | A flow leaks iff a score exceeds the threshold; a constant wire never does |
| Linking.LinkFlows | src/correlation_attack.rs:567-601 | Each flow is linked to the first flow of greatest peak; correct counts exactly the flows linked to themselves |
| Linking.LinksAtMostDistinctSeries | src/correlation_attack.rs:567-587 | No more flows are linked correctly than there are distinct wire series |
| Linking.UniformWireIsChance | src/correlation_attack.rs:589-601 | When all flows look alike on the wire exactly one is linked correctly: chance |
| Clumping.RunPool | src/clumping.rs:213-285 | Over every run: bursts then buffer are the packets pushed, in order; the buffer is below its threshold; a deadline exists iff something waits, and is the timeout drawn for the cycle after the oldest entry |
| Clumping.CyclesAreDrawn | src/clumping.rs:256-285 | Over every run each burst went by thresholds drawn for its own cycle, none used twice |
| Clumping.TimelyRelease | src/clumping.rs:237-245 | A tick `max_timeout` after the oldest entry leaves nothing waiting |
| Clumping.PushAccounted | src/clumping.rs:218-235 | One push keeps the account and yields at most one burst |
| Clumping.ClumpingPool.Push | src/clumping.rs:218-235 | Either the packet is buffered, or one burst takes the buffer and the packet |
| Clumping.ClumpingPool.Tick | src/clumping.rs:238-245 | A burst iff the deadline has passed, taking everything |
| Clumping.ClumpingPool.Flush | src/clumping.rs:248-254 | A manual burst iff something waits, taking everything |
| Clumping.NextThresholds | src/clumping.rs:287-298 | Both thresholds lie in their configured ranges |
| Clumping.ThresholdsReachAll | src/clumping.rs:287-298 | Every pair of them in the ranges is drawn by some generator |
| OptimalPadding.BucketsCover | src/optimal_padding.rs:76-95 | Buckets cover the sorted observations end to end with non-decreasing targets, bounded by observations, and every observation lies in one |
| OptimalPadding.BucketHoldsSlice | src/optimal_padding.rs:86-92 | The bounds of a bucket enclose every position of its slice of the sorted list |
| OptimalPadding.BucketsAreQuantiles | src/optimal_padding.rs:76-95 | min(k, n) buckets, the i-th from the (i n/count)-th smallest observation to the last of the next n/count, the last to the largest |
| OptimalPadding.LookupIsLeast | src/optimal_padding.rs:102-113 | The least target that is large enough; above all targets the largest, which is smaller than the length |
| OptimalPadding.PaddingLaws | src/optimal_padding.rs:107-113 | Monotone, idempotent, never above the one-bucket pad |
| OptimalPadding.BuildBuckets | src/optimal_padding.rs:69-96 | The loop builds the quantile table, one bucket for no observations |
| OptimalPadding.SortKeepsSizes | src/optimal_padding.rs:76-78 | The sorted copy is a permutation |
| OptimalPadding.OptimalPadder.PadLength | src/optimal_padding.rs:160-170 | Rebuilt iff enough was observed since; never shrinks a length the table reaches and shrinks any other |
| OptimalPadding.OptimalPadder.ObserveLength | src/optimal_padding.rs:151-154 | The pool grows, the table stays |
| Composition.SeedBComposer.InterleavePreservingRealOrder | src/composition.rs:758-800 | Real frames in order are the padded inputs, the dummies number the budget, each real frame sits behind the dummies of its gaps, every frame is cell-sized |
| Composition.SeedBComposer.DrawGaps | src/composition.rs:763-784 | The gaps sum to the dummy budget; a lone packet's position is one uniform draw, and otherwise a gap holds exactly the dummies whose own draw it was |
| Composition.SeedBComposer.DummyLength | src/composition.rs:701-717 | One cell, or the padded length of the ring entry drawn, or of a keepalive draw when the ring is empty |
| Composition.AnyLengthCanBeDrawn | src/composition.rs:701-717 | Each ring entry is drawn by some generator |
| Composition.SeedBComposer.IngestLength | src/composition.rs:688-695 | The ring always holds the last 16 lengths in order |
| Composition.SeedBComposer.DummyCount | src/composition.rs:617-647 | The larger of the privacy shaper's count and the regime's draw, cut at the ceiling |
| Composition.RegimeDrawRange | src/composition.rs:617-640 | 0 or 1 in the quiet share of a spiky regime's bursts, otherwise within the regime's bounds |
| Composition.RegimeDrawReachesAll | src/composition.rs:617-640 | Each such count is drawn by some generator |
| Composition.SeedBComposer.Compose | src/composition.rs:497-517 | Frames, real order, dummy count, and each length of the burst three times in the ring and once in the padder |
| Composition.ComposedSizesScoreZero | src/correlation_attack.rs:792-816 | The size attack scores 0 on a composed cell-sized burst |
| Composition.DrawableIff | src/composition.rs:802-819 | Every regime can be drawn from iff the ceiling is at least 12 |

## Left out

- Sockets, the Tokio runtime, timers, threads, SOCKS, CLI, environment, lab logging and key files: plumbing. A socket
  accepts n bytes or yields some; a channel is a bounded sequence; a service call happens at one instant.
- X25519, Elligator2, key derivation, BLAKE3 and ChaCha20-Poly1305: foreign primitives, taken as functions. The two
  handshake roles around the framer and `blackhole` are not modelled.
- Probability: distributions, DP noise (src/dp_shaper.rs), src/spectral.rs, src/timing.rs and src/seeds.rs. Draws are
  arbitrary values in the clamped range; the privacy shaper's count is a parameter.
- Floating-point rounding: `real` throughout; `ln` and `sqrt` are parameters, and a square root is assumed exact where
  a bound needs it. Scores that are equal here may differ in the last bit there.
- src/privacy_accountant.rs, most of src/session_bounder.rs, keepalives, regime switching, and `validate` functions,
  which appear as preconditions.
- The self-tester's counters, DFT peak and autocorrelation, log parsing, total-volume and duration attacks, report
  assembly: output code or one-pass sums.
- MuxRouting.Next: on values, not classes, because its subject is interleaving of concurrent tasks. Wires between the
  two ends are lossless unbounded FIFOs, as `Receiver.LosslessPipe` provides; the client's lookup and `try_send` are
  one step, which no other step can tell apart while ids are not reused. A cell is written as a whole or not at all,
  and what is on the uplink when the demultiplexer stops stays on the wire.
- MuxIsolation.DownstreamIsolation: for the first 65535 circuits of a wire, like every theorem with `Unwrapped`;
  `MuxReuse.LateRepliesIff` says when it fails after that.
- WireLog.LinkingIsChanceOverRotations: for flows observed while none of them closes, and for wires that one traffic
  matches best; among equally good matches the attack takes the first, and `LinkingOverRotations` has the count.
- Linking.LinkFlows: takes the per-flow series; filling them on the shared grid is the loop of `AlignedSeries`.
- Transport.FlowSlot.ServiceFlow: `wire_seq` and the emission counters are unbounded, and the debug counters
  `SLOTS_FIRED` and `SLOTS_DROPPED` are not kept.
- Counting.Sort: the standard library's sort is a specification-level function, not its algorithm.
- Crypto.AuthenticatedPrefix: fewer than 2^64 frames per direction, after which the nonce repeats.
- Tails.NextBoundaryIsLeast: for offsets below 2^64 nanoseconds, where the code's cast does not truncate.
