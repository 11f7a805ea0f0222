# A model of the delivery, activation and retained-work machinery

This project models four parts of the repository and proves what they are for.

* **Crash-safe records** (`tools/g0-return-lab`, Go). Every durable record is staged and then
  linked, the few mutable ones staged and renamed. On a small file system with inodes, link
  counts and half-written files, in which a process may die between any two file operations,
  the project proves exactly-once steps, exclusive segments and completion for retained work, an
  atomic snapshot for its lock-free inspector, write-once decisions, one send claim and a send
  permission that never comes back for the batch ledger.
* **The WebSocket stream machinery** (sections 5.2 to 5.5 of RFC 6455). The native gate, the
  server reader, the observer's decoder and the client encoder: byte conservation, independence
  of how the stream is cut, pairing of requests and responses across two gates, round trips, and
  agreement of the three decoders.
* **Readiness and delivery**. The observer's trace law over every run, exactly what it can read
  and records, the metadata sink's milestone with the whole story that must stand behind it and
  the exact condition under which it is announced, at most one `turn/start` over any
  number of adapter processes, and the offline audit as an exact decision.
* **Removal under interference**. The public socket is removed while other processes may replace
  or remove its name between any two calls.

Modules, from the bottom up:

| module | what it holds |
|---|---|
| `Bytes` | bytes, masking bit by bit, big-endian lengths, `Option` |
| `GateSpec`, `GateLaws`, `NativeGate`, `Pairing` | the gate as a function, its laws, the gate as an object, two gates on one set of pending ids |
| `Fragments`, `GateReading` | messages cut into frames by the rules of section 5.2 of RFC 6455: which of them a gate admits, and that it accepts nothing else |
| `Codec`, `ServerReader`, `Agreement` | the encoder, the reader with its loop, and agreement with the observer |
| `ObserverSpec`, `ObserverSplit`, `ObserverTrace`, `ObserverRuns`, `ObserverGaps`, `ObserverMarks`, `ObserverObject` | the observer, split equivalence, the trace law, when it has two gaps, upgrades and homes, the observer as an object |
| `ObserverReading`, `ObserverCalls` | exactly which bytes keep a connection's evidence alive and what they put on record; exactly what opening, closing and stray calls do |
| `Readiness`, `ReadinessRuns`, `RelayGaps`, `Performance`, `MetadataSinks` | the sink's state per epoch, its runs, what relay gaps do, a session played call by call, the sink as an object |
| `ReadinessExact`, `ReadinessDecided`, `ReadinessSilence` | readiness as a property of the records alone, the announcement decided over every run, what ends an epoch's chances |
| `FileSystem` | inodes, link counts, complete and partial contents, publish and replace with death at any operation |
| `RetainedSpec`, `RetainedInv`, `RetainedRuns`, `RetainedLaws`, `RetainedInspect` | retained work: the step relation, its invariant, runs, and the inspector interleaved with it |
| `RetainedProgress`, `RetainedReading` | that work gets done, and what a reading of any directory says |
| `LedgerSpec`, `LedgerLaws`, `LedgerExact`, `LedgerStore` | the batch ledger: decisions, laws over runs, which commands commit what, and the directory it lives in |
| `Adapter` | delivery adapters as processes over one ledger |
| `AuditSpec`, `AuditRun` | the offline audit: what a report must say, and the scan that says it |
| `Removal` | the removal with other processes acting between its calls |

Reading conventions. JSON text, UTF-8, HTTP header fields and close payloads are parameters: a
function from bytes to a verdict that every theorem quantifies over. SHA-256 is taken as
injective: a digest is the tuple it digests. A death or an I/O failure is a step, a budget of
file operations or a parameter, never an assumption. Clocks are nondecreasing numbers.

## Where the code and an expected property part

* **Cutting the stream.** The gate refuses a header only when a call leaves more than 65536
  bytes in front of its end, so a header that ends at byte 65537 still behaves the same under
  every cutting. `GateLaws.CutInvariantExactly` gives the exact condition: the verdict and the
  output do not depend on the cutting if and only if the header ends within 65537 bytes or is
  longer than any single chunk could complete.
* **One gap per epoch.** An epoch can have two gaps: the event queue may overflow on the close
  record that follows the first one. `ObserverGaps.TwoGaps` is the concrete run, and
  `ObserverGaps.OneGapExactly` says exactly when it happens, as a condition on the queue before
  each call that ends a connection.
* **Reused epochs.** A second `on_connect` with an old epoch resets the sink's state for it
  before the observer refuses the epoch. The milestone stays sound and unique all the same
  (`ReadinessRuns.ReadinessSound`), because an epoch reports each side's upgrade only once. The
  frame boundary that is asked for is that of the connection named by the announcing call.
* **Relay gaps.** For the same reason a gap reported by the relay does not spoil its epoch for
  good: a second `on_connect` of the epoch forgets it, and the epoch can then be announced.
  `Performance.GapForgotten` is the run. `RelayGaps.RelayGapExactly` gives the exact condition
  over the calls: a relay gap holds an announcement back if and only if no connect of its epoch
  came behind it.
* **Decoder agreement.** The observer looks at the incomplete tail of a stream earlier than the
  gate does: a control frame header that cannot become valid makes it give up while the gate
  still waits. `Agreement.ObserverAgrees` states the agreement with that tail set apart.

## Model

| member | source | states |
|---|---|---|
| GateSpec.ParseFrame | runtime/native/owner_helper.py:514-539 | a frame is taken whole or not at all, is never longer than what was received, and its payload is within 65535 bytes |
| GateLaws.ParsePrefix | runtime/native/owner_helper.py:514-539 | bytes that arrive later never change how a complete or a bad frame was read |
| GateLaws.DrainExtends | runtime/native/owner_helper.py:581-605 | draining a longer buffer is draining the shorter one and going on from where it stopped |
| GateLaws.FeedKeeps | runtime/native/owner_helper.py:562-605 | an accepted call releases and retains exactly the bytes it was given on top of what it held, and keeps the bounds on fragment payload and buffer |
| GateLaws.Conservation | runtime/native/owner_helper.py:581-605 | over every run of accepted calls, released bytes ++ held frames ++ buffer is the input, within the bounds |
| GateLaws.CutExactly | runtime/native/owner_helper.py:581-605 | every cutting of every stream: accepted exactly when no call is late and the stream seen at once is accepted, and then with the same output and state; refused without a late call, with the same reason, messages and pending ids |
| GateLaws.ShortHeaderIsEnough | runtime/native/owner_helper.py:581-605 | with a header that ends within 65537 bytes, any two cuttings both reject, or both accept with equal output |
| GateLaws.CutInvariantExactly | runtime/native/owner_helper.py:562-605 | independence of the cutting holds if and only if the header ends within 65537 bytes or is too long for any cutting |
| GateLaws.OverlongDepends | runtime/native/owner_helper.py:584-589 | a header of 65538 bytes with nothing behind it is accepted in one cutting and refused in another, by every gate |
| Fragments.WireParsed | runtime/native/owner_helper.py:514-539 | a frame written by the rules, of either direction, any opcode, mask and length form, is read back with its payload, and what follows is untouched |
| Fragments.AdmitsExactly | runtime/native/owner_helper.py:541-605 | for both directions and every cutting of payloads into fragments: the gate's messages are exactly the longest prefix of payloads that are valid and whose id, if any, is pending (server) or not pending (client); if all are admitted the output is the stream byte for byte and nothing is held, otherwise the message is rejected |
| Fragments.StreamAdmitted | runtime/native/owner_helper.py:562-605 | the same from the upgrade header on, under every cutting of the stream into calls |
| GateReading.ParsedIsWire | runtime/native/owner_helper.py:514-539 | conversely, whatever the gate takes for a frame is, octet for octet, a frame written by the rules with that payload |
| GateReading.BadIsNone | runtime/native/owner_helper.py:514-539 | what the gate refuses as a frame is none, nor the beginning of one, whatever follows |
| GateReading.AcceptedIsStream | runtime/native/owner_helper.py:585-605 | conversely, a buffer that is drained without failure is a stream of whole messages admitted in their turn, the beginning of one more, and bytes that are no frame yet; exactly the first were released and exactly the second are held |
| GateReading.StreamAccepted | runtime/native/owner_helper.py:562-605 | the same from the first byte on, for every cutting that was accepted |
| NativeGate.NativeWebSocketGate.TakeFrame | runtime/native/owner_helper.py:514-539 | takes exactly one complete frame off the buffer, or nothing |
| NativeGate.NativeWebSocketGate.Finish | runtime/native/owner_helper.py:541-557 | validates the held message, settles its id in the shared set, and releases its frames unchanged; Fragments.AdmitsExactly says exactly when |
| NativeGate.NativeWebSocketGate.Take | runtime/native/owner_helper.py:590-604 | one frame against the fragment state: opcode order, message size, completion |
| NativeGate.NativeWebSocketGate.TakeFrames | runtime/native/owner_helper.py:585-605 | the frame loop refines the drain function, also when it rejects midway |
| NativeGate.NativeWebSocketGate.Feed | runtime/native/owner_helper.py:559-605 | one call refines the specification, and when accepted loses, invents and reorders no byte |
| Pairing.RelayPairs | runtime/native/owner_helper.py:541-557 | two gates on one pending set, under every interleaving: the traffic is paired and the set is exactly the unanswered requests |
| Pairing.Alternation | runtime/native/owner_helper.py:541-557 | in paired traffic every exchange of an id is opposite to the one before it, and the first is a request |
| Codec.RoundTrip | runtime/native/owner_helper.py:396-407 | decoding an encoded payload of up to 65535 bytes under any mask yields one final text frame with that payload and leaves what follows untouched |
| Codec.StreamRoundTrip | runtime/native/owner_helper.py:396-407 | concatenated frames decode in the client gate to the same payload sequence, exactly as far as the messages are admitted |
| Bytes.MaskedBits | runtime/native/owner_helper.py:396-407 | masking: bit k of octet i is bit k of the payload octet added, without carry, to bit k of mask octet i mod 4 |
| Bytes.BigEndianEight | runtime/native/proxy_observer.py:374-379 | the value of an eight-octet length |
| ServerReader.ReadServerText | runtime/native/owner_helper.py:443-457 | the fragment loop returns exactly what the recursive definition of one message says, with the same refusals |
| ServerReader.SameFrame | runtime/native/owner_helper.py:410-440 | the reader's frame decoder and the gate's agree on every frame the gate takes |
| ServerReader.ReaderAgrees | runtime/native/owner_helper.py:410-457 | on every stream the server gate accepts, the reader obtains the same messages and then only waits |
| Agreement.SameFrame | runtime/native/proxy_observer.py:352-402 | the observer's frame decoder and the gate's agree on every complete server frame within the limits |
| Agreement.ObserverAgrees | runtime/native/proxy_observer.py:352-454 | on every server stream the gate accepts, the observer processes exactly the same message payloads in order, until processing one ends its evidence |
| Agreement.EndToEnd | runtime/native/proxy_observer.py:158-182 | the same from the first byte on, for one stream cut in any two independent ways for the gate and for the observer |
| ObserverSplit.SplitEquivalence | runtime/native/proxy_observer.py:158-182 | feeding a ++ b equals feeding a, then b: same records, sequence numbers and state, within the buffer limit, also across gaps and overflow |
| ObserverSplit.CutsEquivalent | runtime/native/proxy_observer.py:158-182 | any number of calls, each within the buffer limit, end where the whole stream in one piece ends, however long it is |
| ObserverSplit.FeedTwice | runtime/native/proxy_observer.py:158-182 | split equivalence for the whole observer, connection lookup included |
| ObserverSplit.FramesExtend | runtime/native/proxy_observer.py:352-454 | frames decoded from a longer buffer are those of the shorter one and then the rest |
| ObserverSplit.UpgradeExtend | runtime/native/proxy_observer.py:281-346 | the upgrade header is judged the same however it arrives |
| ObserverReading.SeeExactly | runtime/native/proxy_observer.py:352-402 | the frame recogniser against the rules written out octet by octet: broken, whole and waiting, each if and only if, with the payload unmasked octet by octet |
| ObserverReading.HandleExactly | runtime/native/proxy_observer.py:403-454 | one frame keeps the evidence alive if and only if it is in place, its message text and not malformed, its id neither in use nor over the limit, and the queue has room; it then leaves exactly these records and this state, and otherwise a gap of the epoch |
| ObserverReading.FramesExactly | runtime/native/proxy_observer.py:352-454 | the same for all frames in hand: none that is complete is unfit, what is left breaks no rule, and the records fit |
| ObserverReading.FeedExactly | runtime/native/proxy_observer.py:158-182 | one feed: a valid connection stays valid if and only if the buffer limit holds and everything in hand is readable, the upgrade included; it then has exactly the records and state that reading gives, and otherwise a gap of its epoch |
| ObserverReading.FeedEachExactly | runtime/native/proxy_observer.py:158-182 | the same over any number of calls, from the stream as a whole |
| ObserverTrace.EmitLawful | runtime/native/proxy_observer.py:224-259 | emitting, or overflowing instead, keeps the law of the trace |
| ObserverTrace.RequestKeeps | runtime/native/proxy_observer.py:517-566 | a request keeps the law and the bound of 256 pending, and is awaiting its answer |
| ObserverTrace.ResponseKeeps | runtime/native/proxy_observer.py:649-673 | a response keeps the law: it is only recorded as an answer if one request of the opposite direction with its id and method is open |
| ObserverTrace.UnaskedReported | runtime/native/proxy_observer.py:661-666 | a response to nothing known is reported as unknown, with exactly one record, or with the overflow in its place |
| ObserverTrace.FeedKeeps | runtime/native/proxy_observer.py:158-182 | one feed keeps the law and adds records of its own epoch only |
| ObserverRuns.OpenKeeps | runtime/native/proxy_observer.py:126-146 | opening under a newer epoch keeps the law, and whatever the name was used for before has its last record |
| ObserverCalls.OpenExactly | runtime/native/proxy_observer.py:126-146 | the former use of the name is ended on record, then the new epoch begins with nothing received, nothing pending and no upgrade; other connections stay as they were; a stale epoch changes nothing |
| ObserverCalls.NextIsFree | runtime/native/proxy_observer.py:126-146 | over every run the epoch the observer would choose itself is above all that were used |
| ObserverRuns.CloseKeeps | runtime/native/proxy_observer.py:184-208 | closing keeps the law, reports the first unfinished direction before anything else, and leaves the epoch with its last record |
| ObserverCalls.UnfinishedExactly | runtime/native/proxy_observer.py:192-203 | a close finds nothing unfinished exactly if both sides have upgraded and stand between two messages, or neither has begun; otherwise which side is named, and with which of the three reasons |
| ObserverCalls.CloseExactly | runtime/native/proxy_observer.py:184-208 | with room, closing writes the gap of the first unfinished direction, if any, and the close, and nothing else; other connections stay as they were |
| ObserverCalls.OthersUntouched | runtime/native/proxy_observer.py:148-208 | a call touches only the connection it names; bytes or a close for a name nobody has open give one gap without an epoch and touch nothing |
| ObserverCalls.PendingIsDeaf | runtime/native/proxy_observer.py:148-152 | a standing connection set pending leaves no trace of whatever it is fed, and no other connection notices |
| ObserverRuns.RunLawful | runtime/native/proxy_observer.py:126-279 | over every run: sequence numbers strictly increase, the first record of every epoch, whatever it is, lies above all epochs before it, only a close or an overflow follows a gap, pending stays within 256, every response answers one earlier open request, and every ended connection has its last record |
| ObserverGaps.OneGapExactly | runtime/native/proxy_observer.py:235-253 | no epoch has two gaps if and only if no ending connection finds the queue full behind a gap of its own |
| ObserverGaps.TwoGaps | runtime/native/proxy_observer.py:224-279 | a concrete run in which one epoch has two gaps |
| ObserverMarks.FeedMarks | runtime/native/proxy_observer.py:158-182 | each side's upgrade is reported once and before anything it says; a home report is true of the home expected then |
| ObserverMarks.ApplyMarks | runtime/native/activation_service.py:230-252 | the same for every call of the observer |
| ObserverObject.ParseFrames | runtime/native/proxy_observer.py:352-454 | the decoder's loop computes the recursive decoding |
| ObserverObject.UpgradeOne | runtime/native/proxy_observer.py:281-346 | the upgrade step, with its early exits, computes the specification |
| ObserverObject.CloseOne | runtime/native/proxy_observer.py:192-207 | the first unfinished direction ends the evidence, then the close is emitted |
| ObserverObject.ObserverState.Open | runtime/native/proxy_observer.py:126-146 | refuses exactly the epochs that are not newer than all before, and then changes nothing; otherwise opens under that epoch; keeps the trace law |
| ObserverObject.ObserverState.Feed | runtime/native/proxy_observer.py:158-182 | refines the specification, of which ObserverReading.FeedExactly says exactly what it accepts and records, and keeps the trace law |
| ObserverObject.ObserverState.Close | runtime/native/proxy_observer.py:184-208 | refines the specification and keeps the trace law |
| ObserverObject.ObserverState.DrainEvents | runtime/native/proxy_observer.py:210-213 | hands over the queue and empties it, leaving connections and counters alone |
| Readiness.HearKeeps | runtime/native/activation_service.py:304-366 | every row of speech keeps: whatever an accepted state records has its records in the history, in the order the protocol demands |
| ReadinessExact.HearMirrors | runtime/native/activation_service.py:304-366 | a request, answer or notice leaves the epoch fit if and only if it is welcome behind the records before it, and the sink's dictionaries keep saying what those records say |
| Readiness.GreetingTold | runtime/native/activation_service.py:236-246 | a matching home report implies an earlier client initialize with that id and its successful answer |
| Readiness.TakeUnspoiled | runtime/native/activation_service.py:295-319 | a state that is valid, open and without turns has seen no gap, close or turn since it was started, and its upgrades are on record |
| Readiness.TakeChanges | runtime/native/activation_service.py:295-366 | validity and openness are only ever lost, turn counts only grow, lease, connection and published flag never change |
| ReadinessRuns.ReadyStory | runtime/native/activation_service.py:373-379 | a ready state has the whole script behind it |
| ReadinessExact.ReadyExactly | runtime/native/activation_service.py:295-379 | for every sequence of rows of an epoch: it is ready behind them if and only if it was leased, every row is welcome where it stands, both sides upgraded, nothing closed, no turn was asked for, the client said initialized, and a thread is open that was announced or whose skills were listed |
| Performance.ScriptIsEnough | runtime/native/activation_service.py:267-379 | conversely, for every lease with a home and every session that fits it there is a run of calls, from the connect through both upgrades and one call per frame, that ends with exactly the one milestone of its epoch |
| Performance.GapForgotten | runtime/native/activation_service.py:267-276 | the run of a relay gap followed by a second connect of the same epoch: the epoch is announced |
| RelayGaps.RelayGapExactly | runtime/native/activation_service.py:397-400 | over every run, data announces its epoch if and only if it would in the same run without the relay's gaps of that epoch and no such gap was reported since the epoch was last started |
| RelayGaps.GapSinceMeans | runtime/native/activation_service.py:397-400 | "since last started" means: some report of the epoch with no connect of it behind |
| ReadinessRuns.NotBefore | runtime/native/activation_service.py:290-293 | a ready epoch was never announced successfully before, even if its state was reset in between |
| ReadinessRuns.AnnouncedExactly | runtime/native/activation_service.py:278-293 | data announces its epoch if and only if the state is, behind the whole chunk, ready and unpublished and both directions of the call's connection have finished the handshake, hold no bytes and have no fragment open |
| ReadinessDecided.AnnouncedIff | runtime/native/activation_service.py:267-400 | over every run, decided from calls and records alone: data announces its epoch if and only if the epoch was last started for this connection with a lease, the relay reported no gap of it since, no announcement of it succeeded before, its records since then show all that a ready epoch must, and both directions are at rest |
| ReadinessRuns.ReadinessSound | runtime/native/activation_service.py:278-379 | in every run each announced epoch has both upgrades, no gap, close or turn in its records, no relay gap since it was last started, and in order: initialize, its answer, the matching home, initialized, the thread opened as leased, its answer, and a sign of life; behind the announcing call both parsers of its connection have finished the handshake, hold no bytes and have no fragment open; at most one announcement per epoch succeeds |
| ReadinessSilence.RecordSilences | runtime/native/activation_service.py:295-319 | once a gap, a close or a turn of an epoch is on record, neither that call nor any later one announces the epoch |
| ReadinessSilence.UnreadableSilences | runtime/native/activation_service.py:278-293 | data that cannot be read silences its connection's epoch for good |
| ReadinessSilence.CloseSilences | runtime/native/activation_service.py:392-395 | the end of a standing connection is on record, and neither that call nor any later one announces its epoch |
| MetadataSinks.MetadataSink.ProtocolEvent | runtime/native/activation_service.py:295-366 | the callback updates exactly one epoch's state, as the specification says |
| MetadataSinks.MetadataSink.OnConnect | runtime/native/activation_service.py:267-276 | starts the epoch's state afresh, then opens; keeps soundness and uniqueness of milestones |
| MetadataSinks.MetadataSink.OnData | runtime/native/activation_service.py:278-293 | announces only behind the whole chunk, with both directions of the connection at rest; keeps soundness and uniqueness of milestones |
| MetadataSinks.MetadataSink.OnLifecycle | runtime/native/activation_service.py:392-395 | closing keeps them too |
| MetadataSinks.MetadataSink.OnGap | runtime/native/activation_service.py:397-400 | a relay gap makes its epoch unfit to be announced; only a new connect of the epoch undoes that |
| FileSystem.AlwaysTrusted | tools/g0-return-lab/retained.go:161-194 | in every reachable directory each file has one link, or exactly its stage as partner with the same complete contents |
| FileSystem.Directory.Publish | tools/g0-return-lab/main.go:317-339 | death after any operation leaves the name as it was or complete with the new record; an existing name is never replaced |
| FileSystem.Directory.Replace | tools/g0-return-lab/retained.go:417-433 | death after any operation leaves the target with the old record or the new one, whole |
| RetainedSpec.SameBounds | tools/g0-return-lab/retained.go:136-138 | the bounds on steps and interval, by division, are the consumer's own, by multiplication |
| RetainedRuns.ApplyKeeps | tools/g0-return-lab/retained.go:435-511 | every step of every process, and every death and failure, keeps the invariant of files, lock and log |
| RetainedLaws.ExactlyOnce | tools/g0-return-lab/retained.go:435-511 | in every run the step files are exactly 1..n with their own numbers, segments nondecreasing and within the state file's, and the cached count at most one behind |
| RetainedLaws.NeverRewritten | tools/g0-return-lab/main.go:317-339 | a longer run has all the effects of a shorter one, in the same files with the same contents |
| RetainedLaws.EffectStep | tools/g0-return-lab/retained.go:474-509 | an action adds at most one effect, by the lock holder, under the segment that this execution itself put into the state file |
| RetainedLaws.SegmentStep | tools/g0-return-lab/retained.go:597-641 | segment numbers rise only by one, only by the holder, before its first effect, and with the state file saying running since that moment under that process |
| RetainedLaws.ExecutionsDistinct | tools/g0-return-lab/retained.go:220-253 | executions under the lock are numbered without repetition |
| RetainedLaws.SegmentExclusive | tools/g0-return-lab/retained.go:597-641 | two steps under one segment number come from one execution |
| RetainedLaws.ResumeExactly | tools/g0-return-lab/retained.go:588-641 | whatever died before, a resume is admitted if and only if it names the task's nonce, owner and revision and the state file's segment, and then with the exact number of published steps and every file trusted; any other frees the lock and touches nothing |
| RetainedProgress.GoOn | tools/g0-return-lab/retained.go:474-509 | one undisturbed operation of a holder at work leaves it exactly one operation fewer ahead, with what it owes printed once and in order, or, exactly when none is left, the finished task and the free lock; a step is stamped with the moment its publication begins, and what is printed and saved behind it carries that stamp |
| RetainedProgress.LetsGoOnlyFinished | tools/g0-return-lab/retained.go:474-511 | from every reachable state, an undisturbed operation of a holder at work that frees the lock leaves step files 1 to total, no other, and a state file that says completed |
| RetainedProgress.RunsToCompletion | tools/g0-return-lab/retained.go:474-511 | from every reachable state with such a holder, a number of undisturbed operations computed from it, and no smaller number, leads to all steps published, the state completed and the lock free, with one snapshot printed for each count in order |
| RetainedProgress.StartsAndFinishes | tools/g0-return-lab/retained.go:513-642 | in an empty directory, a start of any task within the bounds obtains the lock and, undisturbed, publishes every step, prints every count from 0 on, and ends completed |
| RetainedProgress.StopsInOrder | tools/g0-return-lab/retained.go:448-468 | a holder told to stop saves how far it came, as interrupted with the time of the stop or as completed if nothing is left, publishes nothing more, and prints at most the snapshot that was due |
| RetainedProgress.AlwaysFinishable | tools/g0-return-lab/retained.go:513-642 | whatever died and whatever it left behind, as long as there are a task and a state file and the segment numbers are not used up, further actions lead to the finished task and the free lock |
| RetainedLaws.EmittedValid | tasks/g0-retained-resume/scripts/native_retained_data.py:35-55 | every snapshot printed by a running segment satisfies the consumer's checker, then and later |
| RetainedInspect.Glance | tools/g0-return-lab/retained.go:196-218 | one read shows what the name held at one moment, or fails as a file that changes under the reader does |
| RetainedInspect.ScanSteps | tools/g0-return-lab/retained.go:335-354 | the scan agrees with the effects of one moment, unless the state moved on meanwhile |
| RetainedReading.ScanExactly | tools/g0-return-lab/retained.go:335-354 | in any directory the scan succeeds if and only if the step files are a prefix of 1 to total, each of this task under its own number, with segments that never fall and were begun, and then with its length |
| RetainedReading.ReadsExactly | tools/g0-return-lab/retained.go:318-378 | in any directory the state is read if and only if every name belongs, the state file is valid for the task and the steps are such a prefix, at least as long as the count; the answer is the file's, with that length, and with its own status unless all steps are there |
| RetainedReading.ReadsTaskExactly | tools/g0-return-lab/retained.go:288-300 | the task is read if and only if its record is there, for this nonce and within the consumer's bounds |
| RetainedInspect.AttemptShows | tools/g0-return-lab/retained.go:318-378 | an unchanged state file at the end of an attempt makes the scanned count real and the checks pass |
| RetainedInspect.EveryRunIsOne | tools/g0-return-lab/retained.go:513-642 | the states of every sequence of actions form a trace beside which the inspector's theorems hold |
| RetainedInspect.ReadStateLive | tools/g0-return-lab/retained.go:318-378 | whenever the lock-free reader succeeds, there is one moment inside the call whose state file has the reported process, start and segment, and whose status is reported unless every step is published; the count is the number of steps published then, the time the latest of state and steps, and the snapshot valid; no interleaving makes the gap, segment, count or name checks fail |
| LedgerSpec.CheckEvents | tools/g0-return-lab/batch.go:162-171 | one pass accepts exactly the lists of valid events with distinct ids and slots |
| LedgerSpec.BatchAcks | tools/g0-return-lab/batch.go:133-147 | the loop returns the acknowledgements in order and the number still pending, or the first error |
| LedgerLaws.ExecuteKeeps | tools/g0-return-lab/batch.go:188-339 | every command, with death before or after its commit, keeps all records valid and only extends the ledger |
| LedgerLaws.RunKeeps | tools/g0-return-lab/batch.go:188-339 | the same over every run: claims and decisions stay, the revision only rises, cancellation is final |
| LedgerExact.CommitsExactly | tools/g0-return-lab/batch.go:238-336 | a command commits if and only if it is well formed, by the owner, at the current revision of a task that is not cancelled, and what it asks for is due; it then writes exactly one record, made of its own arguments, and answers with it |
| LedgerExact.AcksExactly | tools/g0-return-lab/batch.go:111-147 | the reading of the acknowledgements: every stored record once and in event order, and the number of events without one |
| LedgerExact.ReportExactly | tools/g0-return-lab/batch.go:195-237 | what a status call reports, field by field, and exactly when it answers at all |
| LedgerLaws.WriteOnce | tools/g0-return-lab/batch.go:307-336 | an acknowledged event keeps its record and decision over every run |
| LedgerLaws.AcknowledgeAgain | tools/g0-return-lab/batch.go:318-328 | repeating a decision returns the stored record, another decision is refused, and neither writes |
| LedgerLaws.OneAnswer | tools/g0-return-lab/batch.go:307-336 | any two answers to acknowledgements of one event, at any two moments of any run with deaths, carry the same record |
| LedgerLaws.EffectsAreHandled | tools/g0-return-lab/batch.go:111-147 | the effects add up to exactly the number of events acknowledged as handled |
| LedgerLaws.SendAllowedMeans | tools/g0-return-lab/batch.go:195-237 | status reports sending allowed exactly when the intent is certain, unclaimed, current, not cancelled and something is pending |
| LedgerLaws.ClaimableExactly | tools/g0-return-lab/batch.go:275-298 | the matching owner and revision obtain the claim exactly when status reports sending allowed |
| LedgerLaws.UncertainKeeps | tools/g0-return-lab/batch.go:299-306 | marking uncertain makes the intent uncertain with the same hash, keeps claim and acknowledgements valid and changes no other record |
| LedgerLaws.UncertainIsFinal | tools/g0-return-lab/batch.go:299-306 | the intent stays uncertain over every later run and sending is never allowed again |
| LedgerLaws.NeverAllowedAgain | tools/g0-return-lab/ack.go:228-284 | once an intent exists and sending is not allowed, no run of claim, uncertain, ack, revise and cancel allows it again |
| LedgerLaws.CancelTakesHold | tools/g0-return-lab/ack.go:228-284 | a revision with cancel cancels, leaves every other record alone, and nothing after it changes anything |
| LedgerLaws.CancelledIsFrozen | tools/g0-return-lab/batch.go:239-244 | no command of any run changes a record of a cancelled task |
| LedgerStore.TaskDirectory.BatchCommand | tools/g0-return-lab/batch.go:188-339 | on the file system with death after any operation, the published records are those before or those after the decision; an answer comes only after the commit |
| Adapter.AtMostOneSend | runtime/native/delivery_adapter.py:349-452 | over any number of processes, crashes and foreign commands on one directory, at most one turn is started |
| Adapter.ClaimedStaysSilent | runtime/native/delivery_adapter.py:364-380 | once the claim is taken and its holder is gone, no process ever starts a turn, however it reconciles |
| Adapter.ClaimKeepsSingle | runtime/native/delivery_adapter.py:349-362 | a claim call keeps the power to send unique; it yields that power only to its own process, and only if there was no claim before and there is one now |
| Adapter.PowerComesFromClaims | runtime/native/delivery_adapter.py:349-452 | no other action yields the power to send, and only a send by its holder starts a turn |
| Adapter.SendKeepsSingle | runtime/native/delivery_adapter.py:430-452 | a send that starts a turn held the power, had not marked its delivery before, and has marked it now; the power stays unique |
| Adapter.SendExactly | runtime/native/delivery_adapter.py:430-452 | a send starts a turn if and only if its process holds the capability with the power to send, has not sent the delivery before, and the ledger has that delivery claimed, certain, current and not cancelled; the delivery is then marked and nothing else changes |
| Adapter.PrepareCallExactly | runtime/native/delivery_adapter.py:336-351 | a prepare call holds an intent exactly when it lives to its answer, the ledger grants it, and the owner epoch fits; the intent is then the ledger's own |
| Adapter.ReconcileExactly | runtime/native/delivery_adapter.py:364-380 | reconciling adopts exactly the current claim of the caller's own delivery, uncertain or not, and what it yields cannot send |
| Adapter.ClaimCallExactly | runtime/native/delivery_adapter.py:349-362 | a claim call yields the power to send exactly when it lives to its answer, the ledger grants the claim of the delivery that was prepared, and the claim file passes its check |
| Adapter.OneSend | runtime/native/delivery_adapter.py:349-452 | prepared, claimed and sent by one process on a fresh directory, every admissible delivery starts its turn |
| AuditSpec.ChainExactly | runtime/native/delivery_audit.py:130-167 | remembering only the last page recognises exactly the complete chains: one whole thread read, or one query's pages from no cursor to no next cursor, all in full view |
| AuditRun.NextExactly | runtime/native/delivery_audit.py:80-103 | one more item keeps the capture coherent exactly when it is well formed, agrees with what its place showed before, and stays within 32 marks |
| AuditRun.Scanner.ScanItem | runtime/native/delivery_audit.py:80-103 | accepts exactly the coherent continuations, with the dictionaries an exact index of what was scanned |
| AuditRun.Scanner.ScanTurn | runtime/native/delivery_audit.py:105-116 | scans a turn's items only in full view, and otherwise gives up completeness |
| AuditRun.Scanner.ScanRead | runtime/native/delivery_audit.py:118-165 | accepts exactly the well-formed reads whose items keep the capture coherent, and keeps completeness exactly when the read joins on |
| AuditRun.ScanHistory | runtime/native/delivery_audit.py:118-167 | over all reads: acceptance, the set of marked places, compaction and chain completeness, each exactly |
| AuditRun.CheckAcks | runtime/native/delivery_audit.py:169-183 | accepts exactly the records that fit an event and agree with each other, and collects their decisions |
| AuditRun.Audit | runtime/native/delivery_audit.py:69-194 | accepts exactly the captures that make sense as a whole; reports a marker iff some scanned item equals the intent, completeness iff the chain is complete, and acknowledged, pending and waiting ids in the order of the events, the first two a partition of them |
| Removal.SettledProper | tasks/g0-auth-preserving-activation/scripts/activation_transaction.py:619-657 | however it ends, only the frozen socket or what was linked back before is deleted, and nothing moved aside is lost |
| Removal.World.MoveAside | tasks/g0-auth-preserving-activation/scripts/activation_transaction.py:599-610 | moves exactly what stands at the public name at that moment, whoever put it there; reports it absent exactly when nothing stands there |
| Removal.World.LinkBack | tasks/g0-auth-preserving-activation/scripts/activation_transaction.py:636-647 | barring a failure, gives the entry its public name back if and only if nothing stands there, and otherwise leaves what stands there |
| Removal.Transaction.Delete | tasks/g0-auth-preserving-activation/scripts/activation_transaction.py:622-633 | deletes the frozen socket and succeeds only if the public name is then seen absent |
| Removal.Transaction.Restore | tasks/g0-auth-preserving-activation/scripts/activation_transaction.py:635-657 | a foreign entry is linked back before its quarantine name is dropped, or stays there on record; never a success |
| Removal.Transaction.Take | tasks/g0-auth-preserving-activation/scripts/activation_transaction.py:587-657 | from the sight of the frozen socket on: careful and lossless whatever the others do, and if nobody disturbs and no call fails, the socket is removed and no quarantine is left |
| Removal.Transaction.RemoveOwnedPublicSocket | tasks/g0-auth-preserving-activation/scripts/activation_transaction.py:556-661 | for every behaviour of the other processes and every failing call: careful deletion, nothing lost, other quarantines untouched, and success means that the last thing seen was the absent public name; if nobody disturbs and no call fails, it succeeds exactly when the name is free or leads to the frozen socket, and otherwise leaves everything as it was |

## Left out

- JSON text, UTF-8, HTTP header fields, base64 and close codes: parameters of the model; the theorems hold for every such function.
- SHA-256: taken as injective; a digest is the tuple of what it digests.
- Power loss and sync ordering: only process death and failing calls are modelled.
- Observer inputs that are no bytes, or of an unknown direction, and the attachment state text: they add one more gap reason and no further behaviour.
- The single-result worker, its job and its own acknowledgement (`start`, `work`, `ack`): the ledger's revise command takes whether the job is bound as a parameter.
- The external claim bridge (`attach_external_claim`, `reconcile_external_claim`): it depends on a file that is not part of this model.
- Texts derived from a status report (`status`, `business_status`): combinations of fields that the report has.
- `ack_confirmed` and `audit_history` of the adapter: compositions of the audit and the acknowledge command, which are modelled.
- The adapter's owner-context file: a caller whose file does not match gets no further than a call that is never made.
- Delivery adapters are modelled as values in one state machine, because the property is about any number of processes at once; update in place of one adapter's own dictionaries is not shown.
- Retained work is a step relation over the shared directory for the same reason; only the inspector is written as a program with loops, reading from a run of that relation.
- Ownership, modes and sizes of files, and process inspection behind the lock: the model's lock is exclusive and freed by death.
- Timeouts, scheduling and the relay itself: calls come in any order.
- `_chain_wire_gates`, auth isolation, launchd, plists and leases of the activation transaction: plumbing around the modelled parts.
- Malformed shapes of audit captures: an input of the wrong shape is rejected before the model begins; every check on values is modelled.
- Removal.Transaction.RemoveOwnedPublicSocket: opening, identifying and syncing directories are calls that may fail, without further detail; a second call forgets the quarantine path of the first, so the record is stated per call.
- RetainedLaws.EmittedValid: timestamps are numbers, so the text format that the consumer also checks is not modelled.
- RetainedInspect.Glance: the identity and size checks of one file read are reduced to the failures they report.
