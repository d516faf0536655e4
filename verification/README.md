# Memory-pressure cache governor: a verified model

The governor is a daemon that reads Linux pressure stall information (PSI), climbs and descends four
pressure tiers, and on every change of tier sends each connected client a byte target. A client turns
the target into a capacity for its LRU cache, evicts, and reports its size back. This project models
that loop in Dafny 4.11 and proves what it keeps over whole runs.

| file | models |
|---|---|
| `wrappers.dfy`, `real_laws.dfy`, `decimal.dfy` | results, named products of reals, decimal text and `stoi`/`stoull` |
| `lru_model.dfy`, `lru_inclusion.dfy`, `lru_history.dfy`, `lru_statistics.dfy` | the cache as a list of entries, most recent first, and the laws over its runs |
| `lru_cache.dfy` | the hash map over a doubly linked list, on the heap, refining that list |
| `policy_engine.dfy` | `PolicyEngine`: the class, its one-poll step, runs of polls |
| `policy_history.dfy`, `policy_settling.dfy`, `policy_flapping.dfy`, `policy_defaults.dfy` | counters against history, brackets, rate, settling and its limits, and the defaults in numbers |
| `protocol.dfy`, `wire_round_trip.dfy` | the printed messages and the field-searching decoder |
| `framing.dfy`, `transport.dfy` | length-prefixed frames, and the read and write loops over a socket |
| `registry.dfy`, `daemon.dfy` | the client table and broadcasts, the poll step |
| `governed_cache.dfy`, `listener.dfy` | the target handlers, and the listener that runs them |
| `closed_loop.dfy`, `refinement.dfy` | all of it as one transition system, and the classes refining its moves |
| `accuracy.dfy` | what the daemon has on record, in any run |
| `envelope.dfy`, `loop_limits.dfy` | its end-to-end bound, and what lies outside it |
| `starvation.dfy`, `overshoot.dfy`, `ratchet.dfy` | exactly when a client loses all capacity, exactly when it exceeds a bound, and what every SHRINK costs for ever |
| `psi_parser.dfy`, `psi_laws.dfy` | the PSI file parser, and what it reads back |

Code that changes state is modelled by classes and methods with loops; each is proved against a
function on values, and the laws are proved about that function. `hide` statements keep the proofs
small. Averages, thresholds and fractions are exact reals and the conversion of a target to an integer
is a floor. A mutex-protected operation is one atomic step.

## Findings

- **A client of which nothing is on record loses its whole cache and its bound.** Every target computed
  from size 0 is 0: the first SHRINK empties the cache, its capacity stays 0 for ever, and at capacity
  0 the eviction test `size_ == capacity_` finds nothing to evict, so the cache grows by one entry for
  every new key (`LoopLimits.SilentJoin`, in every run, however messages interleave). This is so for a
  client that registers empty, as the workload driver does before its first put
  (`src/cache_app/main.cpp:149-150`), and for every client that reconnects: all the listener ever sends
  are the reports of commands applied (`GovernedCache.GovernedCache.ListenThrough`,
  `Listener.DaemonHears`), never a REGISTER, and the daemon starts the connection at size 0.
- **Exactly when a client is left without capacity.** A SHRINK f computed from a record R leaves
  capacity 0 if and only if R * (1 - f) is less than one entry (`GovernedModel.ShrinkZeroesIff`): one
  entry is lost to the first default SHRINK, three go 2, 1, 0 (`OneEntryIsZeroed`,
  `ThreeEntriesAreGone`). In any run, once no command is on its way, a client has no capacity if and
  only if it joined without or such a SHRINK was dispatched to it, and since then no GROW of at least
  one entry (`Starvation.ZeroIffDry`). In a synchronous run, one with nothing in flight for the client
  when the daemon dispatches, one such SHRINK decides for ever (`Starvation.ZeroIffStarved`).
- **Every SHRINK costs an entry for ever.** In a synchronous run, with every tier's fraction above 0 as
  in the defaults, a client that joined at NORMAL with capacity C has at most C minus the number of
  SHRINKs dispatched to it, and none after C of them (`Ratchet.RatchetsToZero`); in proportion, it
  keeps at most the product of 1 - f * f over them (`Ratchet.EveryShrinkCosts`). Pressure that comes and
  goes often enough takes such a cache to zero.
- **"Grow back the same fraction" restores only what was not shrunk**: with accurate reports, SHRINK f
  and GROW f give back capacity for all S entries if and only if f is 0 or S is 0
  (`GovernedModel.GrowBackRestoresIff`); ten entries and f = 0.1 give nine (`TenPerCentOfTenIsLost`).
- **A capacity can exceed the initial one.** In any run, once no command is on its way, it has stayed
  within a bound B, from the initial capacity upwards, if and only if every GROW dispatched was
  computed from a record R with R * (1 + f) < (B + 1) * entry size (`Overshoot.NeverExceedsIff`).
  Synchronous runs meet this with B the initial capacity (`Overshoot.SynchronousGrowsWithin`); a GROW
  computed before the report of a SHRINK arrives may not (`LoopLimits.StaleGrowOvershoots`).
- **The debounce does not prevent flapping on every constant signal.** For every configuration with
  ordered thresholds, a constant signal settles from a reachable state if and only if it is not one
  with avg60 at HIGH's promote threshold, avg10 below CRITICAL's demote threshold and, if CRITICAL's
  debounce is above 1, not below HIGH's, from a tier that leads there (`PolicyFlapping.SettlesIff`).
  With the defaults: avg60 at least 15, avg10 at least 8 and below 15, the tier HIGH or CRITICAL
  (`DefaultSettlesIff`); there the tier alternates for ever with period 4 (`Cycles`). A signal that
  asks HIGH both ways keeps it there for ever if and only if its first poll does not complete
  CRITICAL's debounce and HIGH's debounce is at least 2 (`PinnedIff`).
- **A cache grown back can hit what an ungoverned one misses.** Beside a cache of larger or
  equal capacity, a resize to n keeps every later hit a hit of the larger one if and only if n is at
  least 1 and leaves no more room than the larger one has: n - |small| <= N - |large|
  (`LruInclusion.ResizeKeepsIff`). A SHRINK to at least one entry always meets this, and so does
  a GROW up to the larger capacity while the two hold the same; a GROW after entries had to go may not
  (`GrowingBackBreaksInclusion`).
- The comment at `src/governor/policy_engine.cpp:57-59` speaks of half the promote threshold of
  CRITICAL; the code compares avg60 with the promote threshold of HIGH, and so does the model. The two
  agree on every poll if and only if HIGH's promote threshold is half of CRITICAL's
  (`PolicyFlapping.CommentAgreesIff`, with `CommentDiffers` for 10 and 30).

## Model

| member | source | states |
|---|---|---|
| LruCache.LRUCache.constructor | include/client/governed_cache.h:23 | a new cache is well formed and empty, and owns no node |
| LruCache.LRUCache.AddToFront | include/client/governed_cache.h:121-127 | prepends the node, keeping head, tail, prev and next coherent and all entries unchanged |
| LruCache.LRUCache.Detach | include/client/governed_cache.h:106-110 | takes an inner or last node out of the chain, which stays a coherent chain of the others |
| LruCache.LRUCache.MoveToFront | include/client/governed_cache.h:103-119 | the node is first, the others keep their order, for the nodes and for the entries they carry |
| LruCache.LRUCache.EvictLru | include/client/governed_cache.h:129-144 | drops exactly the last node from chain, map and size, and deletes that node and no other |
| LruCache.LRUCache.Delete | include/client/governed_cache.h:142 | a node is deleted only if this cache allocated it and has not deleted it before |
| LruCache.LRUCache.Get | include/client/governed_cache.h:34-45 | keeps the structure coherent, and is the list operation: a hit returns the value and moves the key to the front, a miss inserts nothing; statistics follow |
| LruCache.LRUCache.Put | include/client/governed_cache.h:47-64 | keeps the structure coherent, and is the list operation: overwrite and move to front, or evict the last when size equals capacity and prepend; a node is allocated exactly on a miss, and exactly the nodes that left the list are deleted |
| LruCache.LRUCache.Insert | include/client/governed_cache.h:60-63 | exactly one fresh node is allocated and prepended, under its key in the map |
| LruCache.LRUCache.EvictTo | include/client/governed_cache.h:66-70 | keeps exactly the first min(n, size) entries, and deletes exactly the other nodes |
| LruCache.LRUCache.Resize | include/client/governed_cache.h:72-75 | sets the capacity and keeps exactly the first min(n, size) entries |
| LruCache.LRUCache.ResetStats | include/client/governed_cache.h:85-88 | zeroes the statistics and nothing else |
| LruCache.LRUCache.Destroy | include/client/governed_cache.h:25-32 | the loop ends having deleted every node still allocated, each once |
| LruModel.RunKeeps | include/client/governed_cache.h:34-75 | over every run of gets, puts and resizes: keys stay distinct, and the size is within the capacity whenever that is at least 1 |
| LruModel.PutStaysWithin | include/client/governed_cache.h:56-63 | a put keeps the size within the capacity if and only if the capacity is at least 1 |
| LruModel.ZeroCapacityIsUnbounded | include/client/governed_cache.h:56-63 | from empty at capacity 0 nothing is evicted: the size is the number of distinct keys put |
| LruInclusion.Inclusion | include/client/governed_cache.h:34-75 | same requests on capacities 1 <= c1 <= c2, the small cache shrunk or grown at will as long as it fits, the large one only grown: the small list is a subsequence of the large one, with no more hits over as many lookups |
| LruInclusion.NeverGrownEqual | include/client/governed_cache.h:34-75 | if the small cache is never grown, it equals the large one until it is full |
| LruInclusion.ResizeKeepsIff | include/client/governed_cache.h:66-75 | after a resize of the small cache to n every later hit in it is the same hit in the large one, whatever is requested, if and only if n >= 1 and n - size <= room of the large one |
| LruInclusion.BreaksUnlessFits | include/client/governed_cache.h:66-75 | for every other resize there are requests after which the small cache hits and the large one misses |
| LruInclusion.SmallHitIsLargeHit | include/client/governed_cache.h:34-45 | every hit of the small cache is a hit of the large one with the same value |
| LruInclusion.SubEvictBoth | include/client/governed_cache.h:129-144 | evicting the last entry of both preserves the subsequence relation |
| LruInclusion.GrowingBackBreaksInclusion | include/client/governed_cache.h:66-75 | a resize that does not fit: a cache shrunk and grown back to equal capacity holds an entry the other lacks after one lookup and one put |
| LruHistory.PutOnly | include/client/governed_cache.h:47-64 | after any puts, the cache holds the newest put of each key in order of last put, cut to the capacity (not cut at capacity 0) |
| LruHistory.RecencyKeys | include/client/governed_cache.h:47-64 | the list scanned from the newest put holds each key put exactly once |
| LruStatistics.StatisticsAreHistory | include/client/governed_cache.h:34-45 | over every run of gets, puts and resizes only gets count: hits are those whose key was held, and hits and misses together all of them |
| LruStatistics.EntriesAreHistory | include/client/governed_cache.h:34-75 | over every run the entries stand in the order of the last operation on their keys, the latest first, each with the last value put |
| LruStatistics.EvictsLeastRecentlyUsed | include/client/governed_cache.h:56-58 | the entry a put evicts is the one used longest ago |
| Policy.PolicyEngine.constructor | src/governor/policy_engine.cpp:16-21 | starts at NORMAL with zero counters; an empty configuration means the defaults, whose numbers the PolicyDefaults rows pin |
| Policy.PolicyEngine.Reset | src/governor/policy_engine.cpp:27-31 | back to NORMAL with zero counters, configuration kept |
| Policy.PolicyEngine.Evaluate | src/governor/policy_engine.cpp:43-116 | the counter updates of the source are the one-poll step stated by what the poll asks for, for any configuration and state |
| Policy.RunKeepsCounters | src/governor/policy_engine.cpp:43-116 | over every run the counters are never both non-zero and stay below the debounce they wait for |
| PolicyHistory.CountersAreHistory | src/governor/policy_engine.cpp:75-113 | since the tier last changed: m polls are a rising (falling) tail exactly when m is at most the promote (demote) counter; a falling tail may ask upwards only in its first poll |
| PolicyHistory.FiresExactlyWhen | src/governor/policy_engine.cpp:75-113 | SHRINK and GROW fire exactly when those tails reach the debounce, with which fraction, to which tier, and with both counters zero |
| PolicyHistory.WellBracketed | src/governor/policy_engine.cpp:80-107 | over every run the SHRINKs still open are exactly the fractions of tiers 1 to the current one; each GROW closes the fraction its SHRINK opened |
| PolicyHistory.TransitionsArePaid | src/governor/policy_engine.cpp:76-109 | the debounces of all transitions plus the polls a counter holds never exceed the number of polls; reaching a tier costs the debounces below it |
| PolicyHistory.ActionsCost | src/governor/policy_engine.cpp:76-109 | if every debounce is at least d, d times the number of actions is at most the price paid |
| PolicyHistory.DefaultRate | src/governor/policy_engine.cpp:6-14 | with the defaults, at most one action every two polls, and CRITICAL needs eight polls |
| PolicySettling.Settles | src/governor/policy_engine.cpp:60-113 | thresholds ordered and avg60 trigger off: from any reachable state a constant signal moves one way, and the tier equals the resting tier from exactly the poll that completes the debounces crossed |
| PolicySettling.Monotone | src/governor/policy_engine.cpp:60-113 | on such a signal later polls never undo earlier moves |
| PolicySettling.ClimbsTo | src/governor/policy_engine.cpp:60-90 | exact arrival time of a climb over several tiers, counting polls already held |
| PolicySettling.SinksTo | src/governor/policy_engine.cpp:92-113 | exact arrival time of a descent over several tiers |
| PolicySettling.RestFacts | src/governor/policy_engine.cpp:60-99 | the resting tier is stable and every tier on the way pushes towards it |
| PolicyFlapping.Cycles | src/governor/policy_engine.cpp:66-113 | a signal that pushes HIGH up and CRITICAL down, with no push down at HIGH that comes in time, alternates between them for ever, each for one debounce of CRITICAL |
| PolicyFlapping.PinnedIff | src/governor/policy_engine.cpp:75-101 | from any reachable state at HIGH, a signal that asks HIGH both ways keeps it there for ever if and only if one more poll does not complete CRITICAL's debounce and HIGH's debounce is at least 2 |
| PolicyFlapping.SettlesIff | src/governor/policy_engine.cpp:43-116 | for every configuration with ordered thresholds and every reachable state, a constant signal settles if and only if it is not one that avg60 pushes from HIGH to CRITICAL and avg10 pulls back, and then at the tier stated |
| PolicyFlapping.DefaultSettlesIff | src/governor/policy_engine.cpp:6-14 | with the defaults, a constant signal settles from a reachable state if and only if it is not avg60 >= 15, 8 <= avg10 < 15 at HIGH or CRITICAL |
| PolicyDefaults.DefaultBands | src/governor/policy_engine.cpp:6-14 | with the defaults, in numbers: the tier at which each constant signal settles from each tier, for avg60 below 15 and from 15 on |
| PolicyDefaults.DefaultClimb | src/governor/policy_engine.cpp:6-14 | a fresh engine under avg10 >= 30 is at ELEVATED from poll 3, HIGH from poll 6 and CRITICAL from poll 8, not before |
| PolicyDefaults.DefaultDescent | src/governor/policy_engine.cpp:6-14 | from CRITICAL under avg10 < 2 and avg60 < 15 it is at HIGH from poll 2, ELEVATED from poll 5 and NORMAL from poll 8, not before |
| PolicyFlapping.CommentAgreesIff | src/governor/policy_engine.cpp:57-72 | the avg60 trigger and its comment agree on every poll if and only if HIGH's promote threshold is half of CRITICAL's |
| Decimal.StoIPrint | include/governor/protocol.h:66 | reading a printed integer gives it back over int32, and out_of_range outside |
| Decimal.StoULLPrint | include/governor/protocol.h:69 | reading a printed size gives it back over uint64, and out_of_range outside |
| Decimal.StoIReads | include/governor/protocol.h:66 | of any text: blanks, a sign, digits, whatever follows; the number in front, invalid_argument without digits, out_of_range outside int32 |
| Decimal.StoULLReads | include/governor/protocol.h:69 | the same over uint64, where a minus sign wraps |
| Protocol.Serialize | include/governor/protocol.h:31-41 | the stream holds the text whose decoding is proved to be the message |
| Protocol.Deserialize | include/governor/protocol.h:43-78 | filling the message field by field is the decoding function, with defaults for missing fields and the exceptions of the conversions |
| Protocol.Find | include/governor/protocol.h:46 | the first occurrence at or after a position, or none |
| Protocol.TextIs | include/governor/protocol.h:31-41 | the printed object, key by key |
| Protocol.ExtractionIs | include/governor/protocol.h:45-60 | in any text, by positions: where a field's value starts, and that it ends at the next quote, or at the next comma or brace, or is empty without such an end |
| Protocol.NoStart | include/governor/protocol.h:47-52 | without a colon behind the key, or without anything but blanks and quotes behind the colon, a field is empty |
| Protocol.DecodeOrder | include/governor/protocol.h:62-75 | which number throws first, and what each field of the message is otherwise |
| Protocol.NoFields | include/governor/protocol.h:43-78 | a text without any quoted key decodes to the message of unknown type and zeros |
| WireRoundTrip.DecodeInvertsText | include/governor/protocol.h:31-78 | decoding a printed message followed by any text gives the message back if its numbers fit the field types, and out_of_range otherwise |
| WireRoundTrip.FieldLater | include/governor/protocol.h:45-47 | a quoted word other than the key, and the text around it, never hides or fakes the first occurrence of the key |
| WireRoundTrip.NumberField | include/governor/protocol.h:45-60 | a number after the first occurrence of its key is extracted whole |
| WireRoundTrip.WordField | include/governor/protocol.h:45-60 | a quoted word after the first occurrence of its key is extracted whole |
| WireRoundTrip.TextLength | include/governor/protocol.h:31-41 | a printed message has 1 to 137 characters, so a payload with its newline is at most 138 bytes and no reader's limit applies |
| Framing.Frame | include/governor/protocol.h:103-110 | byte by byte: the length of what follows, most significant byte first; the characters of the text; a line feed |
| Framing.NoFrame | src/client/governor_client.cpp:148-179 | when there is no frame: nothing left, a short header, a length of 0 or above 65536 at the client, a payload not yet whole |
| Framing.GarbledFrame | src/governor/client_registry.cpp:189-209 | a frame whose numbers do not fit is skipped by the daemon and throws in the client's listener |
| Framing.StreamRoundTrip | src/client/governor_client.cpp:148-185 | any representable messages framed one after another, in front of anything, are read back exactly, in order, by client and by daemon |
| Transport.ReadPayload | src/client/governor_client.cpp:169-179 | whatever sizes the reads have, the payload is exactly the next len bytes, or all there are at end of stream |
| Transport.SendToClient | src/governor/client_registry.cpp:223-234 | through short writes and a finite number of EAGAINs the whole frame is sent, or an error leaves a proper prefix |
| Transport.GovernorClient.SendMessage | src/client/governor_client.cpp:51-68 | success sends exactly one frame; failure sends a proper prefix and drops the connection |
| Transport.GovernorClient.RegisterCache | src/client/governor_client.cpp:70-76 | success sends one REGISTER frame with the size given; failure sends a proper prefix of it and drops the connection; the daemon decodes what was added as exactly that one REGISTER message with this pid and this size |
| Transport.GovernorClient.ReportSize | src/client/governor_client.cpp:78-84 | success sends one REPORT_SIZE frame with the size given; failure sends a proper prefix of it and drops the connection; the daemon decodes what was added as exactly that one REPORT_SIZE message with this pid and this size |
| Transport.GovernorClient.Connect | src/client/governor_client.cpp:22-40 | an existing connection is kept; otherwise the result is the operating system's; nothing is sent either way |
| Transport.ReadMessage | src/client/governor_client.cpp:148-185 | whatever sizes the reads have, one turn of the read loop gives the first message of the decoded stream and leaves the rest, or gives the reason decoding stops |
| Transport.CommandsArrive | src/client/governor_client.cpp:148-185 | a stream of frames alone decodes to exactly its messages at both ends |
| Registry.ClientRegistry.HandleNewConnection | src/governor/client_registry.cpp:144-151 | the descriptor is on record with size 0 and pid 0, all others unchanged |
| Registry.ClientRegistry.RemoveClient | src/governor/client_registry.cpp:213-221 | exactly that descriptor is gone |
| Registry.ClientRegistry.Record | src/governor/client_registry.cpp:195-206 | REGISTER sets pid and size, REPORT_SIZE the size, of a connected client only |
| Registry.ClientRegistry.HandleClientMessage | src/governor/client_registry.cpp:155-211 | whatever sizes the reads have, the table takes exactly the decoded messages, and loses the client if its end is closed; the read loop spins if and only if an open peer has written part of a payload |
| Registry.TableIsHistory | src/governor/client_registry.cpp:120-221 | over every run the table holds exactly the connected clients, each with the last size and pid said since its accept, 0 if none |
| Registry.ClientRegistry.GetTotalCacheSize | src/governor/client_registry.cpp:261-268 | the loop's result is the total modulo 2^64, for every iteration order |
| Registry.CountIsConnected | src/governor/client_registry.cpp:256-259 | over every run the table's keys are exactly the connected clients, and the client count is their number |
| Registry.ClientRegistry.GetClientCount | src/governor/client_registry.cpp:256-259 | for a table that has come about through any events, the count is the number of clients connected after them |
| Registry.TotalIsReported | src/governor/client_registry.cpp:261-268 | over every run the total is the sum, over the connected clients, of the last size each of them said |
| Registry.ClientRegistry.Broadcast | src/governor/client_registry.cpp:236-254 | exactly one message to each client, with its own scaled size as target; over its own socket the frame of that message, or a prefix of it, and over no other socket anything |
| Registry.Target | src/governor/client_registry.cpp:241 | the target is the floor of the scaled size |
| Registry.BroadcastSum | src/governor/client_registry.cpp:236-254 | in every order, the targets of n clients add up to more than the scaled total minus n and at most the scaled total, for SHRINK and GROW |
| Daemon.GovernorDaemon.OnPsiUpdate | src/governor/governor_daemon.cpp:39-87 | the engine takes one step; its action, if any, becomes one broadcast from the sizes on record, written to each client's socket; without one nothing is written |
| GovernedCache.GovernedCache.constructor | src/client/governed_cache.cpp:5-17 | the cache is empty with the given capacity, and both callbacks are set |
| GovernedCache.GovernedCache.Start | src/client/governed_cache.cpp:23-32 | success sends one REGISTER frame with the current size in bytes, failure nothing or a proper prefix of it; if the connection is refused nothing is sent |
| GovernedCache.GovernedCache.Get | src/client/governed_cache.cpp:39-42 | the list operation on the owned cache |
| GovernedCache.GovernedCache.Put | src/client/governed_cache.cpp:44-50 | the list operation on the owned cache, with no report |
| GovernedCache.GovernedCache.HandleCommand | src/client/governed_cache.cpp:63-96 | a target on the right side of the capacity resizes and sends one report of the new size, or a proper prefix of it, dropping the connection; any other target changes nothing and sends nothing; what is sent decodes as a REPORT_SIZE of the entries held afterwards |
| GovernedCache.GovernedCache.ProcessMessage | src/client/governor_client.cpp:98-105 | SHRINK and GROW run the callbacks set by the constructor, everything else is ignored: cache, report and connection are as taking the message in the closed loop says |
| GovernedCache.GovernedCache.Listen | src/client/governor_client.cpp:148-187 | over one connection the cache is the fold of the messages taken, and what is sent is exactly the reports of applied targets; all messages of the stream are taken, or the loop ends at the first report that could not be written whole |
| GovernedCache.GovernedCache.ListenThrough | src/client/governor_client.cpp:134-187 | over successive connections each goes on with the cache the one before left, sends exactly its own reports, and only a number that throws keeps the listener from the next |
| Listener.DaemonHears | src/client/governed_cache.cpp:63-96 | what the daemon decodes from such a connection is exactly the reports written whole, in order, and never a REGISTER |
| GovernedModel.NestedFloor | src/client/governed_cache.cpp:65 | scaling bytes, rounding and dividing by the entry size rounds only once |
| GovernedModel.HandleReports | src/client/governed_cache.cpp:63-96 | in bytes, for SHRINK and GROW, every cache and target: when a command applies, the capacity it leaves, that it reports exactly the entries held afterwards, and that a GROW keeps all entries |
| GovernedModel.TakeReports | src/client/governor_client.cpp:98-105 | the same for a message; no other type changes or reports anything |
| GovernedModel.ShrinkIsProportional | src/client/governed_cache.cpp:63-80 | with an accurate report of S entries, SHRINK f leaves exactly the floor(S * (1 - f)) most recently used entries, that capacity, and an accurate record |
| GovernedModel.GrowBackUndershoots | src/governor/policy_engine.cpp:103-108 | a following GROW f with no puts between keeps the entries and gives exactly the twice rounded capacity, at most floor(S * (1 - f * f)) |
| GovernedModel.GrowBackRestoresIff | src/governor/policy_engine.cpp:103-108 | that capacity holds all S entries if and only if f is 0 or S is 0 |
| GovernedModel.TenPerCentOfTenIsLost | src/governor/policy_engine.cpp:103-108 | ten entries shrunk and grown back by 0.1 have capacity nine |
| GovernedModel.ShrinkZeroesIff | src/client/governed_cache.cpp:63-80 | whatever a cache of capacity at least 1 holds, a SHRINK f computed from any record R leaves capacity 0 if and only if R * (1 - f) is less than one entry |
| GovernedModel.OneEntryIsZeroed | src/client/governed_cache.cpp:63-80 | a client on record with one entry is emptied by the first default SHRINK, whatever it holds |
| GovernedModel.ThreeEntriesAreGone | src/governor/policy_engine.cpp:6-14 | three entries go 2, 1, 0 on the default way to CRITICAL |
| Accuracy.RecordIsSaid | src/client/governed_cache.cpp:63-96 | in every run, with any interleaving: with nothing on its way up, the size on record is the size of the entries the client had when it registered or when a command last changed its capacity |
| Accuracy.ReportArrives | src/governor/client_registry.cpp:195-206 | after a command that applies and its report, the record is the size of the entries held |
| Envelope.EnvelopeHolds | src/governor/governor_daemon.cpp:70-87 | in every run with nothing in flight for the client at each dispatch, for any fractions in [0,1] and any tier the client joined at: capacity within the initial one times the regrown and shrunk products, record and report in flight within capacity, live size within capacity when that is at least 1 |
| Envelope.JoinedAtNormal | src/governor/policy_engine.cpp:6-14 | joined at NORMAL: capacity never exceeds the initial one, and with the defaults 90, 67.5 and 33.75 per cent of it at ELEVATED, HIGH and CRITICAL |
| Envelope.NextKeeps | src/client/governed_cache.cpp:63-96 | every move of the closed loop keeps the invariant of a client's link |
| Envelope.ToldKeeps | src/governor/client_registry.cpp:236-254 | a dispatched target respects the ceiling of the tier it leads to |
| Envelope.HandledKeeps | src/client/governed_cache.cpp:63-96 | a delivered target becomes a capacity under the ceiling and a report under the capacity, applied or not |
| Envelope.CeilingGrows | src/governor/policy_engine.cpp:103-108 | a demotion's scaled ceiling fits under the ceiling of the lower tier, also below the lowest tier seen so far |
| Envelope.MessagesSurviveTheWire | include/governor/protocol.h:31-110 | in such runs, if the peak in bytes fits 64 bits, all messages in flight survive framing, splitting and decoding |
| LoopLimits.SilentJoin | src/client/governed_cache.cpp:23-32 | a client that registers empty, or reconnects without registering: the first SHRINK empties it, its capacity is 0 ever after, and its size is then the number of distinct keys put since, in every run |
| LoopLimits.SilentZeroKeeps | src/governor/client_registry.cpp:241-251 | every move keeps record, targets and reports of such a client at 0 |
| LoopLimits.SilentJoinIsToldZero | src/governor/policy_engine.cpp:75-84 | three polls after such a join a SHRINK to 0 is on its way |
| LoopLimits.StaleGrowOvershoots | src/governor/client_registry.cpp:246-254 | ten moves with the defaults in which a GROW computed before the report arrives takes a cache of capacity 10 to 11 |
| Starvation.ZeroIffDry | src/client/governed_cache.cpp:63-96 | in every run, with any interleaving and any cache joining: once no command is on its way, a client has no capacity if and only if it joined without or some SHRINK f was dispatched to it from a record R with R * (1 - f) less than one entry, and since then no GROW f with R * (1 + f) at least one entry |
| Starvation.ZeroIffStarved | src/client/governed_cache.cpp:63-96 | in every synchronous run, a client that joined with capacity has none, once no command is on its way, if and only if some such SHRINK was dispatched to it, whatever followed |
| Starvation.NextDecides | src/client/governed_cache.cpp:63-96 | every move keeps the first equivalence, with all commands on their way folded in |
| Overshoot.NeverExceedsIff | src/governor/client_registry.cpp:246-254 | in every run, with any interleaving: once no command is on its way, the capacity has stayed within a bound B, from the initial capacity upwards, at every moment if and only if every GROW f dispatched was computed from a record R with R * (1 + f) < (B + 1) * entry size |
| Overshoot.RunWithinIff | src/governor/client_registry.cpp:246-254 | the same with commands on their way: capacity so far and every pending GROW are within B exactly under that condition |
| Overshoot.SynchronousGrowsWithin | src/governor/client_registry.cpp:246-254 | synchronous runs meet the condition with B the initial capacity, for a client that joined at NORMAL |
| Overshoot.SynchronousRunWithin | src/governor/client_registry.cpp:246-254 | and for any client with B the peak of the envelope |
| Ratchet.EveryShrinkCosts | src/governor/policy_engine.cpp:103-108 | in every synchronous run, with no command on its way: the capacity, weighed by the growth still due, is at most what it joined with times the product of 1 - f * f over the SHRINKs dispatched to it; and, if every fraction is above 0, grown back to NORMAL it is at least one entry smaller for each of them |
| Ratchet.RatchetsToZero | src/governor/policy_engine.cpp:103-108 | with every fraction above 0, joined at NORMAL with capacity C: at most C less the number of SHRINKs, and 0 from C SHRINKs on |
| Ratchet.NextSpends | src/client/governed_cache.cpp:63-96 | every move keeps both bounds, with the command in flight accounted for |
| Refinement.PollIsNext | src/governor/governor_daemon.cpp:39-87 | the daemon's poll over sockets is the closed loop's poll: same engine, same table, and to each client the frame the move adds, or a part of it if the write fails |
| Refinement.JoinIsNext | src/client/governed_cache.cpp:23-32 | accepting a client and its start is the closed loop's join |
| Refinement.ListenIsDelivered | src/client/governor_client.cpp:148-187 | the listener, hearing the commands on their way, is that many deliveries down: same cache, and the reports sent are those the moves add |
| Refinement.CollectIsDelivered | src/governor/client_registry.cpp:155-211 | the registry, reading the reports on their way, is that many deliveries up: same table |
| Refinement.DeliversDown | src/client/governor_client.cpp:148-187 | k deliveries down are the fold of k messages, with all its reports on their way up |
| PsiParser.ParseLine | src/governor/psi_poller.cpp:71-86 | the token loop is the fold over the words after the first, stopping at the first number that does not convert |
| PsiParser.ParsePsiFile | src/governor/psi_poller.cpp:66-96 | the line loop is the fold over the lines |
| PsiLaws.ParseConcat | src/governor/psi_poller.cpp:88-94 | parsing whole lines followed by anything is parsing the rest from the state the lines leave |
| PsiLaws.FieldsRead | src/governor/psi_poller.cpp:75-85 | on printed fields and foreign words, in any order and repeated with any values, the token loop puts the fields one after another |
| PsiLaws.LastFieldWins | src/governor/psi_poller.cpp:75-85 | however often a key occurs and with whatever values, its last occurrence decides |
| PsiLaws.AbsentFieldKeeps | src/governor/psi_poller.cpp:75-85 | a key that does not occur keeps the value it had |
| PsiLaws.DecimalReads | src/governor/psi_poller.cpp:80-82 | digits, a point and digits are read as that decimal number |
| PsiLaws.StoDReads | src/governor/psi_poller.cpp:80-82 | of any text: blanks, a sign, digits around a point, a power of ten, whatever follows |
| PsiLaws.StoDNone | src/governor/psi_poller.cpp:80-82 | without a digit in front it throws invalid_argument |
| PsiLaws.BadFieldThrows | src/governor/psi_poller.cpp:75-85 | a value that does not convert throws, whatever stands before and behind it in the line |
| PsiLaws.BadLineThrows | src/governor/psi_poller.cpp:88-94 | and so does its line, whatever stands before and behind it in the file |
| PsiLaws.GappedLine | src/governor/psi_poller.cpp:71-76 | the tokens of a line do not depend on the white space between them |
| PsiLaws.UnterminatedReads | src/governor/psi_poller.cpp:88 | a last line without its line end is read like any other |
| PsiLaws.MissingHalf | src/governor/psi_poller.cpp:66-67 | a half without a line is zero |
| PsiLaws.FileReads | src/governor/psi_poller.cpp:88-94 | lines with any fields, in any order, repeated with different values, missing or foreign: each half is what the fields of its lines, taken in order, put |
| PsiLaws.KernelRoundTrip | src/governor/psi_poller.cpp:66-96 | each half is exactly the hundredths and totals that the last line with its prefix prints, fields in any order, whatever the lines before say |

## Left out

- IEEE double rounding in thresholds, fractions, targets and PSI averages: exact reals with floor instead.
- Sockets, epoll, accept loops, file reading, threads, sleeps, signals and logging: operating-system calls; only the sizes of reads and writes are kept, as nondeterminism.
- Transport.Socket.ReadHeader: assumes the 4-byte length prefix is delivered whole; the source drops the connection (client) or skips the bytes (daemon) otherwise.
- Transport.SendToClient: EAGAIN is retried for ever in the source; the model's kernel answers EAGAIN finitely often and never takes nothing of a non-empty write, so the loop ends.
- GovernedCache.GovernedCache.ListenThrough: the sleep between failed attempts to connect is not modelled.
- Callbacks other than those `GovernedCache` sets: the listener is modelled with them.
- PsiParser.StoD: decimal numbers only; hexadecimal, infinities and nan, which `std::stod` accepts, and the range of double are not modelled.
- PsiParser.ParseLine: reads averages with that `StoD`.
- PsiParser.ParsePsiFile: reads averages with that `StoD`.
- 64-bit wrap-around of cache sizes, of the hit and miss counters and of `size() * entry_bytes`: the counts are unbounded; only the registry's total wraps.
- Targets outside [0, 2^64), where the conversion from double is undefined: fractions lie in [0, 1].
- `hit_rate` as a double, `get_tier_name`, `connected_at`, `min_size_bytes`, `get_stats`, heartbeats: no property beyond their definition.
- ClosedLoop.Next: a client stays connected once it has joined; a reconnected one joins anew with the cache it has. Disconnection, and a frame lost with its connection, are covered by the registry and the listener alone.
- Memory ordering below the mutexes: each locked operation is one step.
- `cache_app`, `pressure_gen`, `main.cpp`, evaluation scripts: drivers.
