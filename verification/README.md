# fleet-router: a verified model

fleet-router accepts state-history (SHiP) and chain API clients and spreads them over
upstream nodes. This project models its stateful core in Dafny and proves what that core
keeps over whole runs, for every interleaving, every byte string or every history.

What is modelled, by component:

- **Configuration replacement** (`EngineModel`, `EngineSums`, `EngineInvariants`,
  `EngineReload`, `EngineTheorems`, `EngineDraining`, `EnginePublished`, `EngineExamples`,
  `EngineHeap`, `Sessions`). Listener
  generations are created, published, drained and reaped while acceptors run. `EngineModel`
  is a step system: one step per region that runs under a lock, with a commit split at the
  write lock and an accept split at every counter it reads. `EngineInvariants` and
  `EngineReload` prove that every step keeps one invariant, `EngineTheorems` draws the
  conclusions for all runs, `EngineDraining` says exactly when a draining generation still
  gains connections, `EnginePublished` is about the lists as the status view reads them. `EngineHeap` is the imperative form with generations and
  counters as objects; its methods are proved to be runs of the step system.
- **Upstream monitor** (`Zcd`, `StatusFrames`, `ChainIds`, `Monitor`, `Progress`,
  `Quarantine`). The strict and lenient frame decoders, the chain-id admission rules, the
  one-in-flight status protocol with its v1/v0 fallback, the stale tracker, and the
  block-failure quarantine with pruned lists.
- **Lifecycle capture and event log** (`Telemetry`). A multi-writer version counter and a
  bounded log read by watermark.
- **Mock chain API** (`HeadBody`, `FcJson`, `FcReader`, `FcWriter`, `Calendar`). The
  splicing of a HEAD body into a byte stream, fc's level-limited JSON reader, the writer it
  inverts, and the calendar under the block times.
- **TLS names and coverage** (`Sni`, `Holes`). Certificate selection by server name, and the
  holes between declared archive ranges.

`Options`, `Bytes` and `Seqs` hold small shared definitions.

The socket, the clock, shutdown and the order in which a hash map is walked are inputs: what
they do is a parameter of a step or an unconstrained choice, so the results hold for all of it.

## Where the code does less than its comments or a plain reading suggest

- A generation on the draining list can still gain a connection between the two halves of a
  commit, because accepts run on the old table until the new one is published
  (`EngineExamples.StagedDrainingCanGain`). It can exactly while the published table binds it
  (`EngineDraining.DrainingGainsExactly`); from publication on it never does
  (`EngineTheorems.DrainingNeverGains`).
- In that window an accept is bounded by the cap of the generation that the old table binds,
  so a reload that lowers the cap can be followed by a connection above the new one: the same
  run shows it, and `EngineDraining.AboveActiveCapExactly` says when. At all other times the
  bound is the active cap (`EngineTheorems.AcceptWithinCap`).
- A completed capture had no overlapping writer exactly when fewer than 2^63 changes began in
  between, not 2^64: a change moves the version twice (`Telemetry.CaptureUndisturbedExactly`,
  `Telemetry.WrapHidesChanges`).
- A stale flag taken over from an earlier generation stays until the new tracker sees
  progress, so "stale" is not decided by the last 12 intervals alone
  (`Progress.StaleExactly`, `Progress.InheritedFlagLingers`).
- An unpinned pool's agreement on one chain id can be lost when a reload merges the samples
  of two earlier pools (`ChainIds.InheritCanDisagree`); `ChainIds.InheritAgreesExactly` says
  when it is kept. Pinned pools always keep theirs.
- The mock's reader does not undo a `\u` escape, so printing and reading back is the identity
  exactly without such characters (`FcWriter.RoundTripExact`, `FcWriter.ControlCharacterChanges`).

## Model

| member | source | states |
|---|---|---|
| EngineTheorems.StepKeeps | src/runtime.rs:484-722 | every step of accepting, closing, reloading and reaping keeps the engine's whole invariant: lists disjoint and known, bindings on listed generations, ordered revisions, shared counters, caps, and partial sums of accepts in progress |
| EngineTheorems.RunKeeps | src/runtime.rs:484-722 | so does every interleaving, whatever its length |
| EngineTheorems.ListsAndTable | src/runtime.rs:484-517 | after every run the two lists hold each generation once; the published table binds listed generations only, never a published draining one, and active ones except while a reload is between its halves |
| EngineTheorems.ConnectionsStayListed | src/runtime.rs:705-722 | after every run a generation with an open connection is on exactly one of the two lists |
| EngineTheorems.DrainingNeverGains | src/runtime.rs:503-517 | once published as draining, or bound by no table, a generation is never bound or given a connection again in any continuation of the run |
| EngineDraining.StepGainsExactly | src/runtime.rs:621-671 | among all steps of all parties, only the end of an accept at the address where the published table binds the target, with a sum below its cap, gives it a connection |
| EngineDraining.AcceptGainsExactly | src/runtime.rs:621-671 | an uninterrupted accept gives a target a connection iff the published table binds it at that address and the name's total is below its cap, whatever list it is on |
| EngineDraining.DrainingGainsExactly | src/runtime.rs:495-517 | in any state that a run reaches, some continuation gives a target on the draining list a connection iff the published table still binds it and its cap is not 0; that binding exists only between the halves of a commit |
| EngineDraining.GainsWhileUnpublished | src/runtime.rs:495-517 | a step that gives a generation on the draining list a connection happens between the halves of a commit, while the old published table binds it |
| EngineDraining.AboveActiveCapExactly | src/runtime.rs:623-659 | a granted connection takes its name above the active generation's cap iff it went to a generation on the draining list although the name had that many already; only between the halves of a commit |
| EngineExamples.StagedDrainingCanGain | src/runtime.rs:495-517 | there is a run, with a reload from cap 2 to cap 1, in which a generation on the draining list gains a connection and its name goes above the active cap |
| EngineTheorems.AcceptWithinCap | src/runtime.rs:623-659 | at the end of every accept in every run: a sum below the cap finds a permit, and a granted connection leaves all connections of the name within the cap of the generation that took it, which is the active one unless a reload is between its halves |
| EngineTheorems.DecideWithinCap | src/runtime.rs:639-654 | the same for any state with the invariant: the second refusal is unreachable |
| EngineTheorems.PeakWithinLargestCap | src/runtime.rs:623-659 | over whole runs the connections of a name never exceed the largest cap ever committed for it |
| EngineTheorems.CountersShared | src/runtime.rs:406-415 | any two coexisting generations with one name, expected chain id and require flag share the very counter of every endpoint both list, through every reload sequence |
| EngineTheorems.RevisionsIdentify | src/runtime.rs:394-418 | name and revision identify a generation among active and draining; revisions of a name increase in draining order and stay below the active one |
| EngineTheorems.AcceptNowIsRun | src/runtime.rs:621-671 | an accept that nothing interrupts is a run of open, scan and decide steps that grants iff the name's total is below the cap |
| EngineTheorems.ReadListExact | src/runtime.rs:625-638 | what an accept adds up while nothing else runs is the total of the name over active and draining |
| EngineTheorems.AcceptNowFacts | src/runtime.rs:623-659 | such an accept reads exactly the name's total, which is at least the target's own connections, and keeps the invariant |
| EngineReload.InheritShares | src/runtime.rs:127-144 | after inheriting from all earlier generations of its key, oldest first, a new one holds their shared counter of every common endpoint |
| EngineReload.PrepareAllGood | src/runtime.rs:394-475 | a prepared configuration lists one generation per listener, reused iff its specification is running, new otherwise, and binds each address once |
| EngineReload.StageKeeps | src/runtime.rs:495-501 | the bookkeeping half of a commit keeps the invariant, and so does a configuration that is refused |
| EngineReload.PublishKeeps | src/runtime.rs:503-517 | so does publication under the write lock |
| EngineReload.ReapEngineKeeps | src/runtime.rs:705-722 | so does dropping the draining generations without connections |
| EngineReload.ReapPublishKeeps | src/runtime.rs:705-722 | so does publishing the shorter draining list |
| EngineInvariants.ScanDone | src/runtime.rs:625-646 | an accept that has read every counter holds at least the connections open at that moment, although others closed while it read |
| EngineInvariants.DecideKeeps | src/runtime.rs:639-659 | granting or refusing a connection keeps the invariant |
| EngineInvariants.DisconnectKeeps | src/runtime.rs:186-192 | closing a connection keeps the invariant, also for accepts in progress |
| EngineHeap.Generation.InheritObservations | src/runtime.rs:127-144 | the new generation points to the earlier one's counter for every common endpoint and keeps its own for the others |
| EngineHeap.Generation.TryAcquire | src/runtime.rs:647-654 | takes a permit iff one is free; nothing else changes |
| EngineHeap.Runtime.SumDraining | src/runtime.rs:629-638 | the connections of a kind over the published draining generations of a name |
| EngineHeap.Runtime.Existing | src/runtime.rs:625-638 | those plus the target's own: the total that the model adds up |
| EngineHeap.Runtime.Accept | src/runtime.rs:621-671 | dispatching a socket is the model's accept: refused without a binding, else decided by the total over all generations of the name |
| EngineHeap.Runtime.Disconnect | src/runtime.rs:664-671 | a session that ends is the model's disconnect |
| EngineHeap.Runtime.FindReusable | src/runtime.rs:382-393 | the first active generation with exactly that specification, if any |
| EngineHeap.Runtime.NewGeneration | src/runtime.rs:406-418 | a fresh object whose counters are inherited from every earlier generation of its key |
| EngineHeap.Runtime.PrepareListener | src/runtime.rs:382-482 | one more listener, as the model prepares it, or the reason it cannot be |
| EngineHeap.Runtime.Prepare | src/runtime.rs:349-482 | the model's outcome for the whole configuration, refusals for names, addresses that cannot be had, certificates that do not load and addresses taken twice included, with nothing running changed |
| EngineHeap.Runtime.Stage | src/runtime.rs:484-501 | the bookkeeping half of a commit is the model's stage step |
| EngineHeap.Runtime.Publish | src/runtime.rs:503-517 | the publishing half is the model's publish step |
| EngineHeap.Runtime.Reap | src/runtime.rs:705-722 | the reaper is the model's two reap steps |
| Sessions.Tally | src/api.rs:350-358 | the count of every key among the registered sessions |
| Sessions.StatusCounts | src/api.rs:360-395 | each row shows what earlier rows left, and the total is their sum |
| Sessions.DistinctKeysCountOnce | src/api.rs:375-390 | counts under distinct keys add up to every listed session exactly once |
| EnginePublished.PublishedIdentify | src/runtime.rs:591-619 | after every run, also between the halves of a commit or a reap, name and revision identify a generation among those published |
| Sessions.ReachableStatus | src/api.rs:350-395 | in every reachable engine, from the lists as last published, each row shows exactly its own sessions and the total counts every session of a generation on either list exactly once |
| HeadBody.TailSuffices | mock-ship/src/chain_api.rs:1055-1074 | three bytes of history and the new ones decide whether a head ends at the newest byte |
| HeadBody.FirstEndStays | mock-ship/src/chain_api.rs:1055-1074 | more output leaves the first CRLFCRLF where it was |
| HeadBody.WatchedWrite | mock-ship/src/chain_api.rs:1065-1075 | after a watched write the tail tells whether the body is due, and the wire is the rendered exchange up to what is owed |
| HeadBody.HeadBodyIo.Announce | mock-ship/src/chain_api.rs:1010-1018 | an announced HEAD body opens a new exchange with nothing written, or replaces the body of one whose head has not ended |
| HeadBody.HeadBodyIo.PollOwed | mock-ship/src/chain_api.rs:1020-1031 | whatever the socket takes at a time, owed bytes move to the wire in order and ready means none is left |
| HeadBody.HeadBodyIo.Limit | mock-ship/src/chain_api.rs:1055-1064 | the limit is the first place where a head ends over everything written before, found from three bytes |
| HeadBody.HeadBodyIo.PollWrite | mock-ship/src/chain_api.rs:1045-1077 | exactly the bytes reported as written join the exchange, the body is owed exactly when they end its head, and the wire stays what the exchanges render to, up to what is owed |
| HeadBody.HeadBodyIo.PollFlush | mock-ship/src/chain_api.rs:1079-1090 | a flush or shutdown is ready only when the wire shows every exchange in full |
| HeadBody.WriteMoves | mock-ship/src/chain_api.rs:1045-1077 | with nothing owed, a non-empty write to a socket that takes anything is answered with at least one byte |
| HeadBody.ResubmittedIsPrefix | mock-ship/src/chain_api.rs:1045-1077 | a layer that offers again what was not written puts in exactly the bytes of its output, from the first on |
| HeadBody.HeadBodyIo.HeadAnswer | mock-ship/src/chain_api.rs:1010-1090 | for every split into writes and every short write, the accepted bytes are those the answers to the writes report, and the wire is these bytes with the body once, right after the first CRLFCRLF |
| HeadBody.HeadBodyIo.WholeAnswer | mock-ship/src/chain_api.rs:1010-1090 | for an output that is offered until written: what is accepted is a prefix of it, and once it is all accepted and flushed the wire is the old bytes, the output up to its first CRLFCRLF, the body, and the rest of the output |
| FcReader.Reader.Value | mock-ship/src/chain_api.rs:1750-1760 | at level d, the value and cursor of fc's budget parser with 200 - 2d units, or its refusal |
| FcReader.Reader.Object | mock-ship/src/chain_api.rs:1762-1787 | the same for an object, duplicates kept in order |
| FcReader.Reader.Array | mock-ship/src/chain_api.rs:1789-1809 | the same for an array; a non-empty one on the last level is refused |
| FcReader.Reader.String | mock-ship/src/chain_api.rs:1811-1827 | the raw bytes up to the closing quote with escapes undone, and the cursor past it |
| FcReader.Reader.Number | mock-ship/src/chain_api.rs:1829-1850 | a whole run of digits in the range of its 64-bit type, not followed by a letter, digit or point |
| FcReader.Reader.Keyword | mock-ship/src/chain_api.rs:1852-1870 | true, false or null, not followed by a letter or digit |
| FcReader.ParseParams | mock-ship/src/chain_api.rs:1646-1680 | on every byte string, the members fc's budget parser returns for the top-level object, or its refusal |
| FcReader.LevelLimitExact | mock-ship/src/chain_api.rs:1749-1809 | what is accepted is exactly what a reader of any larger number of levels accepts and what nests no deeper than 100 levels with nothing in a container on level 100 |
| FcJson.ValueCut | mock-ship/src/chain_api.rs:1749-1760 | on every input a reader of n levels is the reader of m >= n levels cut off at n |
| FcJson.MembersCut | mock-ship/src/chain_api.rs:1762-1787 | the same from inside an object |
| FcJson.ItemsCut | mock-ship/src/chain_api.rs:1789-1809 | the same from inside an array |
| FcWriter.JsonString | mock-ship/src/chain_api.rs:1560-1583 | the quoted text, each character escaped as fc does |
| FcWriter.JsonList | mock-ship/src/chain_api.rs:1585-1588 | the items quoted, separated by commas, in brackets |
| FcWriter.ReadEscaped | mock-ship/src/chain_api.rs:1811-1827 | reading an escaped text gives each character's reading and leaves the cursor just past the closing quote |
| FcWriter.ReadItems | mock-ship/src/chain_api.rs:1789-1809 | reading a printed list gives its items in order |
| FcWriter.ReadApis | mock-ship/src/chain_api.rs:767-770 | reading the printed answer gives one member with every item in order, and the cursor just past the text |
| FcWriter.RoundTripExact | mock-ship/src/chain_api.rs:1565-1588 | reading the answer back gives exactly the items iff none holds a control character other than TAB, LF and CR, a DEL or a C1 control |
| FcWriter.ControlCharacterChanges | mock-ship/src/chain_api.rs:1811-1827 | the printed answer for one control character reads back as that character spelled out |
| Calendar.Successor | mock-ship/src/chain_api.rs:1614-1626 | for every day number the next day's date is the next day of the proleptic Gregorian calendar |
| Calendar.Epoch | mock-ship/src/chain_api.rs:1614-1626 | day 0 is 1970-01-01 |
| Calendar.EveryDateHit | mock-ship/src/chain_api.rs:1614-1626 | every valid date is the date of its own day number |
| Calendar.EveryDayOnce | mock-ship/src/chain_api.rs:1614-1626 | every day number is that of its own, valid date: a bijection |
| Calendar.DatesIncrease | mock-ship/src/chain_api.rs:1614-1626 | later days have later dates |
| Calendar.MomentCounts | mock-ship/src/chain_api.rs:1600-1612 | the fields of a slot's time count back to 2000-01-01 plus half a second per slot |
| Calendar.BlockTimesIncrease | mock-ship/src/chain_api.rs:1600-1612 | over all u32 slots block times are texts of 23 characters in strictly increasing lexicographic order |
| Quarantine.AnswersAsHistory | src/models.rs:2282-2376 | over every history with a non-decreasing clock the pruned lists answer as the full history: a drop arms iff the block is not excluded and the counted drops since the last arming or clear reach the strikes within the window; exclusion at any later time agrees too |
| Quarantine.LookUnobservable | src/models.rs:2339-2351 | a read that prunes changes no verdict of any continuation |
| Quarantine.ArmedCovers | src/models.rs:2290-2326 | arming adds the new exclusion and loses or extends no other |
| Quarantine.VerdictAgrees | src/models.rs:2290-2326 | the verdict on one drop is that of the history before it |
| Quarantine.UpstreamFailures.Prune | src/models.rs:2339-2344 | exactly the exclusions that ran out are dropped, and no answer at that time or later changes |
| Quarantine.UpstreamFailures.QuarantinedFor | src/models.rs:2346-2351 | the history's answer for the block, now and for every later question |
| Quarantine.UpstreamFailures.ClearQuarantines | src/models.rs:2333-2337 | nothing counts or excludes any more |
| Quarantine.UpstreamFailures.RecordBlockFailure | src/models.rs:2290-2326 | arms exactly when the history says so; without a policy in force the drop changes no list |
| Zcd.DecodeFixedFields | src/zcd.rs:410-471 | the walk over a fixed table gives the verdict that follows from where the buffer ends |
| Zcd.StrictExact | src/zcd.rs:410-483 | success iff the table fits or the buffer ends exactly before the optional last field; else the error names the one field whose span holds the end, truncated on its boundary, malformed inside |
| Zcd.FieldMapAt | src/zcd.rs:281-315 | each decoded field is its own bytes of the buffer |
| Zcd.ZcdBuilder | src/zcd.rs:316-396 | the lenient builder is the walk that stops at the first field that does not fit |
| Zcd.LenientWhole | src/zcd.rs:316-396 | on a fixed table that walk keeps exactly the whole fields |
| Zcd.StrictAgreesWithLenient | src/zcd.rs:410-483 | whenever strict decoding succeeds the lenient builder yields the same fields |
| StatusFrames.Envelope | src/zcd.rs:485-489 | a result frame is one variant byte and the rest |
| StatusFrames.ReportV0 | src/zcd.rs:473-479 | a v0 body decodes iff it has 88 bytes or at least 120, and reports its bytes at the table's offsets |
| StatusFrames.ReportV1 | src/zcd.rs:481-483 | a v1 body decodes iff it has at least 128 bytes, and reports its bytes at the table's offsets |
| StatusFrames.FrameReport | src/tasks.rs:688-728 | a status frame that is accepted reports its own bytes |
| ChainIds.FrameStored | src/tasks.rs:730-855 | from bytes to state: an admitted status stores the ranges, head and irreversible block at their offsets and brings the upstream online; a refused one takes it offline without chain id and keeps its ranges |
| ChainIds.ReportKeeps | src/tasks.rs:730-795 | in any vetted pool a status report keeps the rules for each upstream: offline holds no chain id, a pinned pool holds only the pin, and always under the require flag; it keeps agreement, and in a pool merged from several chains it brings no further one |
| ChainIds.LossKeeps | src/models.rs:2223-2234 | marking an upstream offline keeps the rules for each upstream, brings no further chain and keeps agreement |
| ChainIds.RunKeeps | src/tasks.rs:730-795 | every run of reports and losses keeps the rules for each upstream, whatever peers are found and whether the known ids agreed or not; with real peers a run that starts from one chain stays on one, and otherwise all known ids agree or each was known at the start |
| ChainIds.PeerUnique | src/tasks.rs:734-737 | the search for an anchoring peer finds the same chain id in whatever order the map is walked |
| ChainIds.NewPool | src/runtime.rs:46-60 | a new pool starts with all of it |
| ChainIds.InheritsNewest | src/runtime.rs:406-415 | after inheriting oldest first, an upstream holds the sample of the newest earlier pool that lists it |
| ChainIds.InheritKeepsVetting | src/runtime.rs:127-144 | an inherited sample keeps the per-upstream rules of its policy |
| ChainIds.InheritKeepsPinned | src/runtime.rs:406-415 | in a pinned pool every rule survives any number of reloads |
| ChainIds.InheritAgreesExactly | src/runtime.rs:406-415 | an unpinned pool's ids agree after a reload iff the newest samples that it takes over agree |
| ChainIds.InheritCanDisagree | src/runtime.rs:406-415 | two earlier pools can leave a new one with two chains online |
| ChainIds.Pool.FindPeer | src/tasks.rs:734-737 | some other online upstream's chain id, or none only if there is none |
| ChainIds.Pool.MarkOffline | src/models.rs:2223-2234 | the upstream is offline without chain id or lag, since the first moment of the outage; nothing else about it and no other upstream changes, and the pool keeps its rules |
| ChainIds.Pool.CaptureHeadReference | src/tasks.rs:319-334 | the highest head of the other live upstreams in use, in whatever order the map is walked, is noted for this one |
| ChainIds.LagIsBehindReference | src/tasks.rs:319-334 | as long as the noted reference has not been cleared, the lag of a later report is how far the others were ahead when the upstream was asked: no other was further, and one was exactly that far if it is not 0 |
| ChainIds.LossHidesLag | src/models.rs:2223-2234 | a loss between the request and the report clears the reference, and the report then shows no lag |
| ChainIds.Pool.ApplyStatusUpdate | src/tasks.rs:683-855 | the variant, or the decoder's error; a frame that is no status, does not decode or reports no head changes nothing; any other is stored for this upstream only |
| ChainIds.Pool.InheritObservations | src/runtime.rs:127-144 | every upstream that the earlier pool lists takes over its sample, and no other changes |
| Monitor.SessionPaces | src/tasks.rs:481-610 | in every session at every moment: requests are at most results plus one; between two requests lie a result and the whole status interval after the first send |
| Monitor.TimerExact | src/tasks.rs:576-607 | a timer polls again, with the version of the last result, iff the ABI was accepted and the last request was answered; else it ends the session; it is set exactly one status interval after the last request was sent, or to the connect timeout before the first |
| Monitor.EndExact | src/tasks.rs:179-184 | an ended session saw a status iff a result came, and counts as unanswered iff it asked with v1 and none came |
| Monitor.VisitExact | src/tasks.rs:436-461 | what one session does to the version and the miss count |
| Monitor.PollsByHistory | src/tasks.rs:360-477 | over any succession of failed connects and sessions the next one polls with v0 iff the last result ever was v0 or two probes went unanswered since the last one |
| Monitor.RunSession | src/tasks.rs:481-610 | whatever other parties do to the pool between the inputs, to this upstream too, the loop is a run of the steps of the session and every end but shutdown leaves this upstream offline; upstreams that the others leave alone are unchanged, and rules that held and that the others keep still hold, with or without agreement |
| Monitor.OneInput | src/tasks.rs:519-607 | in any pool one turn of the loop is one step, offline if it ends the session; no other upstream changes and every rule that held still holds |
| Monitor.SendStatus | src/tasks.rs:336-343 | the others' highest head is noted first; a request is in flight iff its send succeeded |
| Monitor.OnBinary | src/tasks.rs:641-656 | a status result answers the request, sets the next version and is stored; any other frame changes neither session nor pool |
| Monitor.PauseBounds | src/tasks.rs:280-315 | after a row of failed connects the pause is the base interval doubled per failure, at most five times and at most 30 s; a client that reaches the upstream cuts it to that moment or the base interval, whichever is later |
| Monitor.LongerRowsWaitLonger | src/tasks.rs:280-288 | more failed connects in a row never shorten the delay |
| Monitor.OneVisit | src/tasks.rs:390-475 | one failed connect or session: version, misses, attempts and pause as the history gives them, and the upstream offline |
| Monitor.MonitoringConnection | src/tasks.rs:360-477 | whatever other parties do to the pool, the outer loop ends with the version and has made the pauses that the history gives, with the upstream offline after every round, other upstreams untouched and the rules of the pool unbroken |
| Progress.StaleExactly | src/tasks.rs:78-117 | after n intervals a live upstream is stale iff n >= 12 and none of its last 12 end blocks exceeds the highest before them, or it came flagged and only 0 was seen |
| Progress.InheritedFlagLingers | src/tasks.rs:78-117 | a flag that was taken over outlives the start of a new tracker |
| Progress.WatchedIs | src/tasks.rs:78-117 | the kept block is the highest seen, the counter the intervals since, saturating |
| Progress.ProgressTracker.TickOne | src/tasks.rs:80-110 | one upstream's interval |
| Progress.ProgressTracker.Tick | src/tasks.rs:78-117 | every upstream moves on by what it reported, in whatever order; the hint is given the first time one is stale and looks frozen; the result counts those that advanced |
| Progress.StateMonitor | src/tasks.rs:39-62 | after any rounds of reports every live upstream is flagged exactly as its history says and no frozen one is |
| Telemetry.Accounting | src/telemetry.rs:272-323 | over every run the version has moved by one per begin and end, modulo 2^64, and the writers are the begins without an end |
| Telemetry.VersionReturnsExactly | src/telemetry.rs:324-341 | a version taken with no writer stands again with no writer iff the changes in between are a multiple of 2^63 |
| Telemetry.CaptureUndisturbedExactly | src/telemetry.rs:329-354 | a completed capture had no writer at any moment since its version iff fewer than 2^63 changes began in between |
| Telemetry.WrapHidesChanges | src/telemetry.rs:317-341 | 2^63 changes do go unnoticed |
| Telemetry.RunLogs | src/telemetry.rs:356-365 | along every run the log is the newest 500 of all events, numbered from one |
| Telemetry.HistoryGrows | src/telemetry.rs:356-365 | what a run has logged extends what it had logged at any earlier moment |
| Telemetry.ReadsExactlyOnce | src/telemetry.rs:375-382 | successive watermark reads of a growing history repeat nothing, keep the order, and miss exactly what was evicted before the first read after it was logged, from any watermark |
| Telemetry.ReaderExactly | src/telemetry.rs:375-382 | the same for a reader of the retained log at any moments of any run |
| Telemetry.Store.BeginChange | src/telemetry.rs:317-322 | the model's begin step |
| Telemetry.Store.EndChange | src/telemetry.rs:272-281 | the model's end step; the publisher is woken iff no writer is left |
| Telemetry.Store.CaptureVersion | src/telemetry.rs:324-327 | a version that stands now, or none while a writer is active |
| Telemetry.Store.AppendEvent | src/telemetry.rs:356-365 | the event is stamped, joins the history under the next id, and the log stays its newest 500 |
| Telemetry.Store.Emit | src/telemetry.rs:368-373 | one event inside one change; live streams have been sent the whole history |
| Telemetry.Store.EventsAfter | src/telemetry.rs:376-382 | every retained event after the watermark, in order |
| Telemetry.Store.CaptureEvents | src/telemetry.rs:332-354 | completes iff the version stands with no writer; then the stamped transitions join the log and the streams, and the answer ends with them |
| Holes.Collect | src/models.rs:920-939 | exactly the non-empty ranges of enabled archive servers |
| Holes.SortByKey | src/models.rs:940 | sorted by begin, then end, and a permutation |
| Holes.Merge | src/models.rs:941-947 | ranges in ascending order with a gap between any two, covering the same blocks |
| Holes.CoverageHoles | src/models.rs:920-953 | a block is in a hole iff it is between the lowest begin and the highest end and in no declared range; the holes are non-empty, disjoint and ascending |
| Sni.NormalizeExactly | src/tls.rs:105-127 | a pattern is accepted iff, trimmed and lower-cased, it is a host name, or a star label before a host name of two labels or more |
| Sni.WildcardExactly | src/tls.rs:131-146 | a wildcard matches exactly the names of one non-empty dot-free label, a dot and its suffix (section 6.4.3 of RFC 6125) |
| Sni.WildcardsAgree | src/tls.rs:131-146 | the name determines the wildcard that matches it |
| Sni.MatchesFolded | src/tls.rs:131-132 | folding a name twice matches as folding it once |
| Sni.Validate | src/tls.rs:71-85 | accepts iff every entry has names, all are patterns and no pattern is named twice; an error is the first thing wrong: which of the three it is, where, and the name as written |
| Sni.ResolveName | src/tls.rs:356-385 | an exact match, else a wildcard match, else the default |
| Sni.MatchesOnce | src/tls.rs:71-85 | in a valid configuration at most one entry matches a name exactly and at most one by wildcard |
| Sni.OrderFree | src/tls.rs:356-385 | so the certificate does not depend on the order of the entries |

## Left out

- Client sessions, the fleet view, the planner and the chain API proxy: only their accepts, ends and published state enter the model.
- EngineHeap.Runtime.Accept: runs without interleaving; the interleavings of its reads are in the step system.
- EngineHeap.Runtime.Prepare: why an address cannot be had or a certificate does not load, the dashboard's own address and token, and a router that is already stopping are not modelled.
- EngineReload.StageKeeps: starting and stopping the background jobs of a generation, drain deadlines and configuration files are not modelled.
- ChainIds.Pool.ApplyStatusUpdate: log messages and role hints are not modelled.
- Monitor.RunSession: the stored ABI is not modelled.
- Quarantine.UpstreamFailures.RecordBlockFailure: one policy over a history; a policy changed by a reload is not modelled.
- Telemetry.Store.AppendEvent: ids are unbounded, so their wrap after 2^64 events is not modelled; a live stream that falls behind its channel is not either.
- Calendar.Successor: over unbounded integers, so the end of the 64-bit range of day numbers is not modelled.
- Holes.CoverageHoles: the other configuration warnings and the wording are not modelled.
- Sni.Validate: the presence and content of certificate and key files are not modelled.
- Certificate hot reload, token and host checks, metrics, HTML and JSON rendering of the status view, the command line: formatting, plumbing or single branches.
- The other configuration range checks: each is settled by one branch.
