# Oikos: verified models of the agent and the desktop aggregator

Oikos is a monitoring agent written in Go and a desktop program written in Rust and TypeScript.
This project models the parts of both whose correctness is not visible from one function body,
and proves what they promise: a concurrent broadcast protocol, a listing maintained change by
change, stream framings that have to be undone exactly, byte parsers over 64-bit counters,
stateful delta arithmetic, and three desktop and subprocess state machines.

`dafny verify dfyconfig.toml` checks everything. There is one module per file.

| files | component |
|---|---|
| `Hub`, `HubSafety` | the broadcast protocol as interleaved steps; its invariant and theorems over all runs |
| `Source`, `EventSource`, `Handlers` | what drives the protocol: a ticker, a producer, the HTTP stream handlers |
| `LateSampling` | what a stopped generation of a ticking source can still do |
| `Broadcaster` | the object behind both sources, as its methods change it, tied to runs of the protocol |
| `Sorting`, `Services` | what `sort.Slice` promises; the systemd services projection |
| `Sse` | the event writer and the incremental event reader |
| `DockerLogs` | the log stream demultiplexer and line splitter |
| `Tokens`, `CpuStat`, `ProcStat`, `Slurp` | procfs tokenising, the two stat parsers, the growing read buffer |
| `Usage`, `Collector`, `ProcessCollector` | usage arithmetic under wrap-around, the two collectors over whole runs |
| `Fleet`, `Peers`, `Registry` | the desktop's fleet store, peer list and task registry |
| `Journal` | the bounded log stream over a subprocess |
| `Common` | shared types and sequence vocabulary |

How to read it:

- Code that changes state is a class or a method with loops. Its contract equates the new state
  with a specification function, and the lemmas are about that function.
- Concurrent code is a step system. A step may be taken whenever it is enabled, so a statement
  about every run covers every interleaving. A stopped generation is not assumed to be gone.
- Go's `uint64` is the bounded type `u64`, with wrap-around written out as `Wrap`. Fractions and
  rates are reals.
- JSON decoding, UTF-8 replacement, unit scopes, read results, save results and what a producer
  emits are parameters, so every theorem holds for all of them.

## Where the code does not do what one might expect

Each of these is a proved statement with its exact condition or a concrete run.

- A cancelled producer can still be heard by later subscribers exactly until it returns
  (`EventSource.StaleBroadcastIff`, with a run in `EventSource.StaleBroadcastIsPossible`). A stopped
  generation of a ticking source can exactly while it wants the mutex, is sampling, has taken a
  tick, or has a tick waiting and its loop still running (`LateSampling.StaleBroadcastIff`). It
  starts a bounded number of further samples (`Source.StoppedGenerationsFade`; the bound is met,
  `LateSampling.LateBoundIsMet`) and all sampling dies out (`Source.SamplingDiesOut`).
- The collector is meant for one goroutine, but a stopped generation that is inside `prime` or
  `sample`, or still has a sample ahead of it, and no other, can be using it together with a later
  generation (`LateSampling.OverlapIff`, with a run in `LateSampling.OverlapIsPossible`).
- The comment on `splitLines` says non-empty lines; blank lines inside a payload are kept
  (`DockerLogs.BlankLinesSurvive`).
- `parseStat` leaves a stale total in the reused destination exactly when no aggregate line is
  present (`CpuStat.StaleTotalIffNoAggregate`, `CpuStat.StaleTotalExample`).
- The first services snapshot differs from the listing of the same reply exactly when two
  readable units share a name (`Services.FirstSnapshotIffDistinct`, `Services.DuplicateUnitsDiffer`).
- The supervisors and the peer list stay in agreement under exactly the commands that meet
  `Registry.StaysSynced`: a failed save breaks it, and so does removing one of several peers with
  one address (`Registry.SyncedIff`, `Registry.UnsavedAddition`, `Registry.RepeatedAddress`). The disagreement lasts until the peer is removed or added
  again (`Registry.FailedAddSticks`, `Registry.FailedRemoveSticks`).
- The name in `/proc/<pid>/stat` comes back exactly when no `)` follows it
  (`ProcStat.NameRecoveredIff`).

## Model

| member | source | states |
|---|---|---|
| `HubSafety.LatestWins` | agent/internal/sampler/sampler.go:154-179 | in every interleaving, whenever no broadcast holds the mutex, what a subscriber received or has waiting is a subsequence, in broadcast order, of the broadcasts since it subscribed; for a live subscriber it ends with the latest one |
| `Common.SubsequenceIff` | agent/internal/sampler/sampler.go:162-163 | being a subsequence, in that statement, is having strictly increasing positions in the broadcast order |
| `HubSafety.LastDefaultUnreachable` | agent/internal/sampler/sampler.go:170-178 | at the third select the slot is free in every run, even if readers drain between selects, so the value is always sent and never dropped |
| `HubSafety.OneLiveGeneration` | agent/internal/sampler/sampler.go:82-133 | in every run a stop handle exists exactly while there are subscribers, and then exactly one generation, the one it stops, has not been stopped |
| `HubSafety.NeverPanics` | agent/internal/sampler/sampler.go:97-133 | no run sends on or closes a closed channel or closes a done channel twice; a channel is open exactly while its id is registered |
| `HubSafety.RunExtends` | agent/internal/sampler/sampler.go:82-109 | along every run ids and broadcasts are only added, received values stay received, and nothing closed or stopped is reopened |
| `HubSafety.FreshId` | agent/internal/sampler/sampler.go:85-88 | the id the next Subscribe hands out was never handed out before in the run |
| `HubSafety.UnsubscribeTwice` | agent/internal/sampler/sampler.go:97-103 | repeating an Unsubscribe changes nothing |
| `HubSafety.BroadcastNeverBlocks` | agent/internal/sampler/sampler.go:154-179 | a broadcast holding the mutex always has an enabled step, whatever readers do |
| `HubSafety.BroadcastProgress` | agent/internal/sampler/sampler.go:154-179 | that step is its own, leaves the registry and every other goroutine alone, and lowers the number of steps left |
| `HubSafety.BroadcastCompletes` | agent/internal/sampler/sampler.go:154-179 | so from every reachable state a broadcast can be completed and the mutex released within three steps a subscriber and one more |
| `HubSafety.StepKeeps` | agent/internal/sampler/sampler.go:82-179 | every single step of every participant keeps the protocol invariant |
| `HubSafety.RunKeeps` | agent/internal/sampler/sampler.go:82-179 | hence every run does |
| `Source.StepRefines` | agent/internal/sampler/sampler.go:118-152 | each step of the ticking source is at most one protocol step with the same effect on the shared state |
| `Source.RunRefines` | agent/internal/sampler/sampler.go:118-152 | every run of the ticking source is a run of the protocol, so all protocol theorems apply to it |
| `Source.StoppedGenerationsFade` | agent/internal/sampler/sampler.go:118-152 | in every run each generation primes at most once and before its first sample, samples at most once per tick taken, leaves its loop only once stopped, and then starts at most one more sample (two if stopping the ticker leaves a delivered tick behind) |
| `Source.QuietProgress` | agent/internal/sampler/sampler.go:135-160 | with no subscriber, every step of a goroutine moves only that goroutine and lowers its rank |
| `Source.SamplingDiesOut` | agent/internal/sampler/sampler.go:128-152 | with no subscriber and none arriving, all goroutines together take no more steps than the total rank of the state |
| `Source.StoppedGoroutinesCanMove` | agent/internal/sampler/sampler.go:135-160 | and until all have exited, one of them can take a step, so they do exit |
| `LateSampling.StaleBroadcastIff` | agent/internal/sampler/sampler.go:118-160 | from every reachable state, a stopped generation can broadcast again, and can be the first that a later subscriber hears from, if and only if it has not exited and wants the mutex, is sampling, has taken a tick or has one waiting |
| `LateSampling.OverlapIff` | agent/internal/sampler/sampler.go:118-152 | from every reachable state, a stopped generation can be inside prime or sample together with a later generation if and only if it has not exited and is inside one, has taken a tick or has one waiting |
| `LateSampling.OverlapIsPossible` | agent/internal/metrics/collector.go:16-39 | a concrete run in which a stopped generation samples while the next one primes, though the collector is for one goroutine |
| `LateSampling.LateBoundIsMet` | agent/internal/sampler/sampler.go:118-152 | a concrete run with one sample started after a draining stop, and with two after one that does not drain |
| `EventSource.RefinesGate` | agent/internal/sampler/event_source.go:35-65 | every protocol step is a step of an abstract switch that is active exactly while watched and admits an id once |
| `EventSource.StepRefines` | agent/internal/sampler/event_source.go:35-81 | each step of a source driven by a producer, which may go on emitting after cancellation, keeps the protocol invariant and refines the same switch |
| `EventSource.RunRefines` | agent/internal/sampler/event_source.go:35-81 | every run of such a source is a run of the protocol, so all protocol theorems apply to it |
| `EventSource.StaleBroadcastIff` | agent/internal/sampler/event_source.go:42-81 | from every reachable state, a cancelled producer can broadcast again, and can be the first that a later subscriber hears from, if and only if it has not returned |
| `EventSource.ActiveIffHandle` | agent/internal/sampler/event_source.go:42-64 | some generation is uncancelled exactly while there are subscribers |
| `EventSource.StaleBroadcastIsPossible` | agent/internal/sampler/event_source.go:59-81 | a concrete run in which a cancelled producer's value reaches a subscriber of the next generation, whose own producer emitted nothing |
| `Handlers.RunKeeps` | agent/internal/api/sse.go:32-47 | with Subscribe and deferred Unsubscribe as brackets, streaming handlers and subscriptions correspond one to one in every run |
| `Handlers.NoHandlerMeansInactive` | agent/internal/api/sse.go:32-47 | with no handler streaming every generation has been stopped; with one streaming exactly one has not, and no streaming handler's channel is closed under it |
| `Broadcaster.Source.constructor` | agent/internal/sampler/sampler.go:59-76 | a new source is the protocol's initial state |
| `Broadcaster.Source.Subscribe` | agent/internal/sampler/sampler.go:82-93 | exactly the protocol's Subscribe step: a fresh id with an empty open channel, a generation started iff it is the first |
| `Broadcaster.Source.StartLocked` | agent/internal/sampler/sampler.go:118-126 | one new open done channel, which the stop handle names |
| `Broadcaster.Source.Unsubscribe` | agent/internal/sampler/sampler.go:97-109 | exactly the protocol's Unsubscribe step; an unknown id changes nothing |
| `Broadcaster.Source.Close` | agent/internal/sampler/sampler.go:105 | closes that channel only; callers must show it is open |
| `Broadcaster.Source.StopLocked` | agent/internal/sampler/sampler.go:128-133 | closes the handle's done channel, which callers must show open, and forgets the handle |
| `Broadcaster.Source.Receive` | agent/internal/sampler/sampler.go:78-82 | a reader takes the one buffered value: the protocol's Receive step |
| `Broadcaster.Source.FirstSelect` | agent/internal/sampler/sampler.go:165-169 | sends iff the slot is free: the protocol's first-select step, with the mutex held |
| `Broadcaster.Source.SecondSelect` | agent/internal/sampler/sampler.go:171-174 | drops the stale value if a reader has not taken it: the second-select step |
| `Broadcaster.Source.ThirdSelect` | agent/internal/sampler/sampler.go:175-178 | sends into the freed slot: the third-select step |
| `Broadcaster.Source.ReplaceStale` | agent/internal/sampler/sampler.go:170-178 | with readers receiving at any point, a run of the protocol that ends with the channel served |
| `Broadcaster.Source.TrySendLatest` | agent/internal/sampler/sampler.go:164-179 | with readers receiving at any point, a run of the protocol that serves that channel |
| `Broadcaster.Source.Broadcast` | agent/internal/sampler/sampler.go:154-160 | for any order of the registry and any concurrent receives, a run of the protocol that logs the value once, releases the mutex, and leaves every subscriber's received-or-buffered values ending with it |
| `Sorting.FitsAt` | agent/internal/systemd/service.go:129-131 | inserting after the last element not greater keeps a sequence ordered under any strict weak order |
| `Sorting.Slice` | agent/internal/systemd/service.go:129-131 | a permutation with no element before a lesser one, which is all `sort.Slice` promises |
| `Services.LessIff` | agent/internal/systemd/service.go:130 | a name comes before another exactly when it is a proper prefix of it or has the smaller character where they first differ |
| `Services.LessTotal` | agent/internal/systemd/service.go:130 | that order is total and irreflexive |
| `Services.LessTransitive` | agent/internal/systemd/service.go:130 | and transitive |
| `Services.SortServices` | agent/internal/systemd/service.go:129-131 | a permutation sorted by name |
| `Services.List` | agent/internal/systemd/service.go:29-43 | fails exactly when the connection does; otherwise a permutation, sorted by name, of the readable units annotated with their write scope |
| `Services.Snapshot` | agent/internal/systemd/service.go:120-127 | every service of the index once, sorted by name, for any map iteration order |
| `Services.BuildIndex` | agent/internal/systemd/service.go:75-82 | the index of the readable units, a later unit replacing an earlier one of its name |
| `Services.Producer` | agent/internal/systemd/service.go:73-107 | one snapshot after listing (empty if listing failed) and one per delivered change, each the sorted index after exactly the changes so far; none after a failed subscription |
| `Services.IndexIsProjection` | agent/internal/systemd/service.go:75-82 | the index built unit by unit is the filter and annotation of the whole unit table |
| `Services.UpdatesCommute` | agent/internal/systemd/service.go:97-102 | projecting and then updating incrementally equals changing the unit table and then projecting, for any sequence of changes |
| `Services.VisibleEnumerates` | agent/internal/systemd/service.go:34-40 | what List collects from a table's units is that projection, each service once |
| `Services.SortedUnique` | agent/internal/systemd/service.go:129-131 | sorting distinct names has exactly one result |
| `Services.ListingUnique` | agent/internal/systemd/service.go:120-131 | so a snapshot does not depend on iteration order or on the sorting algorithm |
| `Services.SnapshotEqualsList` | agent/internal/systemd/service.go:29-107 | every snapshot equals what List returns for the unit table the delivered changes leave, in whatever order that table is listed |
| `Services.ListingRows` | agent/internal/systemd/service.go:29-43 | a listing has a row for every readable unit reported and no other, and the row repeats the unit's name, description, load, active and sub state, each in its place |
| `Services.SnapshotRows` | agent/internal/systemd/service.go:73-118 | after any delivered changes a snapshot has exactly one such row for each readable unit of the table they leave, in strictly ascending order of names |
| `Services.OnlyReadableEmitted` | agent/internal/systemd/service.go:70-107 | no snapshot ever holds an unreadable unit, and every entry carries its own write scope, also after a failed listing or with duplicate units |
| `Services.FirstSnapshotIffDistinct` | agent/internal/systemd/service.go:29-83 | the first snapshot equals the listing of the same reply if and only if no two readable units share a name |
| `Services.DuplicateUnitsDiffer` | agent/internal/systemd/service.go:29-83 | a concrete reply for which they differ |
| `Sse.Response.WriteSSE` | agent/internal/api/sse.go:60-68 | appends `data: `, the encoding and two line feeds, byte for byte, or nothing when encoding failed |
| `Sse.FindBlank` | desktop/core/src/client.rs:181-183 | the first blank-line delimiter, or none if there is none |
| `Sse.SplitOnArrival` | desktop/core/src/client.rs:157-160 | splitting what has arrived and then the leftover with what comes next gives the frames and leftover of the whole |
| `Sse.FramesPartition` | desktop/core/src/client.rs:157-160 | frames followed by the leftover are the bytes received, each frame ends at its first delimiter, the leftover has none |
| `Sse.FrameBytes` | desktop/core/src/client.rs:157-160 | a frame ends in two line feeds and has no two in a row before, nor has the leftover |
| `Sse.FramesUnique` | desktop/core/src/client.rs:157-160 | no other division into frames has that shape |
| `Sse.ItemsAppend` | desktop/core/src/client.rs:159-164 | the items of more frames are the items of the first ones, then the rest unless one failed to decode |
| `Sse.NextFrame` | desktop/core/src/client.rs:159-163 | what one turn of the inner loop consumes and yields |
| `Sse.Drain` | desktop/core/src/client.rs:159-164 | yields the items of every complete frame in the buffer, keeps exactly the leftover, stops at the first decoding error |
| `Sse.Sse` | desktop/core/src/client.rs:153-166 | the items depend only on the bytes received before a transport error and on whether one occurred, never on the chunking |
| `Sse.ErrorEndsSession` | desktop/core/src/client.rs:157-163 | a stream reports an error exactly if the transport failed or some frame could not be decoded, and then the error is its last item and the only one |
| `Sse.FirstDataLine` | desktop/core/src/client.rs:173-178 | a frame's data is what follows `data: ` in the first line that starts so; without one there is none |
| `Sse.BrokenIsFinal` | desktop/core/src/client.rs:161 | after a decoding error later bytes change nothing |
| `Sse.EventIsFrame` | agent/internal/api/sse.go:65-67 | a written event with no line feed in its payload is exactly one frame |
| `Sse.EventLine` | desktop/core/src/client.rs:171-179 | its data line is the payload, less one trailing carriage return |
| `Sse.PayloadRoundTrip` | desktop/core/src/client.rs:156-179 | a list of payloads comes back from the written stream if and only if none holds a line feed or ends in a carriage return |
| `Sse.RoundTrip` | desktop/core/src/client.rs:147-179 | values written as events and delivered in any chunks, cut anywhere, are read back as exactly those values in order |
| `DockerLogs.BigEndian` | agent/internal/docker/logs.go:105 | the size is read from four bytes, most significant first |
| `DockerLogs.SizeInverts` | agent/internal/docker/logs.go:105 | size encoding and decoding invert each other in both directions |
| `DockerLogs.FrameOnWire` | agent/internal/docker/logs.go:95-117 | a frame laid out byte by byte, first byte the code and bytes four to seven the size, yields its payload unless empty, as stderr exactly if the code is 2 |
| `DockerLogs.Body.ReadFull` | agent/internal/docker/logs.go:97 | fills the buffer with the next bytes, or reports that fewer were left |
| `DockerLogs.ReadHeader` | agent/internal/docker/logs.go:97-105 | the size and stream of the next eight bytes |
| `DockerLogs.ReadPayload` | agent/internal/docker/logs.go:109-112 | the next bytes, exactly as many as asked for, or failure |
| `DockerLogs.NextFrame` | agent/internal/docker/logs.go:96-112 | one turn of the loop takes exactly one frame off the specified output; what it emits is the bytes the header sizes, as stderr exactly if the header's first byte is 2 |
| `DockerLogs.DemuxFrames` | agent/internal/docker/logs.go:95-117 | the framed branch delivers the stream's non-empty frames: all of them, or up to and including the first one the consumer refuses |
| `DockerLogs.ScanLine` | agent/internal/docker/logs.go:85-87 | one line off the specified output, or nothing at the end or at a line that fills the buffer |
| `DockerLogs.DemuxTty` | agent/internal/docker/logs.go:84-93 | the TTY branch delivers the stream's lines as stdout up to the first over-long one, or up to and including the first one refused |
| `DockerLogs.Demux` | agent/internal/docker/logs.go:83-117 | both branches, chosen by whether the container has a TTY |
| `DockerLogs.TtyInverts` | agent/internal/docker/logs.go:84-93 | LF-terminated lines come back as written if and only if each fits the scanner's buffer and none ends in CR |
| `DockerLogs.DemuxInverts` | agent/internal/docker/logs.go:95-117 | from the first k bytes of any encoded frames, exactly the non-empty payloads of the complete frames, in order, code 2 as stderr and every other as stdout |
| `DockerLogs.OutputOfFrame` | agent/internal/docker/logs.go:100-115 | in that output every non-empty frame has its place, with its payload, as stderr exactly if its code is 2 |
| `DockerLogs.OutputsCounted` | agent/internal/docker/logs.go:106-115 | and there is nothing else in it |
| `DockerLogs.DemuxInvertsWhole` | agent/internal/docker/testdaemon_test.go:107-114 | demultiplexing the whole encoding gives every non-empty payload back |
| `DockerLogs.DemuxMonotone` | agent/internal/docker/logs.go:95-117 | for arbitrary bytes, output on a prefix is a prefix of output on the whole |
| `DockerLogs.SplitLines` | agent/internal/docker/logs.go:121-131 | the in-place trimming loop computes the specified lines |
| `DockerLogs.SplitInvertsJoin` | agent/internal/docker/logs.go:121-131 | LF-free lines joined with LF and followed by any number of LFs come back if and only if the last is not empty and none ends in CR |
| `DockerLogs.LinesAreClean` | agent/internal/docker/logs.go:126-129 | for every payload no line holds LF or ends in CR |
| `DockerLogs.BlankLinesSurvive` | agent/internal/docker/logs.go:119-131 | an empty line comes out exactly when the payload has a line, between LFs or ends, that is empty or all CRs, empty lines with only LFs after them aside |
| `DockerLogs.BlankLineExample` | agent/internal/docker/logs.go:119-131 | a concrete payload whose blank line is kept |
| `Tokens.NextLine` | agent/internal/procfs/parse.go:11-18 | the first line and what follows its LF |
| `Tokens.LineOf` | agent/internal/procfs/parse.go:11-18 | a printed LF-free line is read back, with the rest untouched |
| `Tokens.NextField` | agent/internal/procfs/parse.go:22-34 | the bytes b[i..j] such that only bytes 9, 10, 13 and 32 come before, none is inside, and one follows unless the input ends, and the rest from j |
| `Tokens.FieldMeaning` | agent/internal/procfs/parse.go:22-34 | there is only one such i and j |
| `Tokens.AfterLine` | agent/internal/procfs/parse.go:11-18 | taking a line shrinks non-empty input |
| `Tokens.AfterField` | agent/internal/procfs/parse.go:22-34 | taking a non-empty field shrinks the input, so every field loop ends |
| `Tokens.FieldOf` | agent/internal/procfs/parse.go:22-34 | a word printed after any separators and before a separator is the next field |
| `Tokens.FieldsOfSpaced` | agent/internal/procfs/parse.go:22-34 | splitting into fields inverts printing words with any separator runs |
| `Tokens.WrapStep` | agent/internal/procfs/parse.go:47 | one wrapping multiply-and-add is the unbounded one modulo 2^64 |
| `Tokens.Atou` | agent/internal/procfs/parse.go:38-50 | the decimal value modulo 2^64; false exactly for an empty or non-digit string |
| `Tokens.PrintedValue` | agent/internal/procfs/parse.go:38-50 | reading a printed number gives it back if and only if it is below 2^64 |
| `CpuStat.ParseCpuTimes` | agent/internal/procfs/procfs.go:130-146 | the i-th counter is the i-th column's value, zero where missing or malformed |
| `CpuStat.StatBuffer.ParseStat` | agent/internal/procfs/procfs.go:109-128 | the new destination is the specified reading of the section over the old total and an empty core list |
| `CpuStat.StaleTotalIffNoAggregate` | agent/internal/procfs/procfs.go:109-128 | the result is independent of the destination's old contents if and only if the section has an aggregate line |
| `CpuStat.StaleTotalExample` | agent/internal/procfs/procfs.go:109-128 | a concrete section that keeps any total the destination held |
| `CpuStat.LineFields` | agent/internal/procfs/procfs.go:119-121 | a printed cpu line is recognised and split into its name and columns |
| `CpuStat.SectionOfText` | agent/internal/procfs/procfs.go:111-127 | printed cpu lines, followed by nothing or by any line that is not a cpu line, are read exactly up to there |
| `CpuStat.MeaningOfCores` | agent/internal/procfs/procfs.go:122-126 | core lines append their counters in order and leave the total alone |
| `CpuStat.ParseInvertsPrint` | agent/internal/procfs/procfs.go:109-146 | an aggregate line and any number of core lines, with any separator runs, extra columns and following section, give back exactly the printed counters whatever the destination held |
| `CpuStat.ParseInvertsKernel` | agent/internal/procfs/procfs.go:109-146 | the kernel's text byte for byte: `cpu`, a core's number, runs of spaces, decimal counters, further columns, line feeds and then anything not starting with `cpu`, gives back exactly the counters |
| `ProcStat.IndexByte` | agent/internal/procfs/process.go:150-157 | the first position of the byte or -1 |
| `ProcStat.LastIndexByte` | agent/internal/procfs/process.go:159-166 | the last position of the byte or -1 |
| `ProcStat.ParseFields` | agent/internal/procfs/process.go:83-125 | the token loop puts every numbered field where it belongs |
| `ProcStat.AbsorbedFields` | agent/internal/procfs/process.go:92-119 | absorbing the fields one by one equals picking columns 0, 1, 11, 12, 17 and 21 |
| `ProcStat.ParseProcStat` | agent/internal/procfs/process.go:73-127 | the specified parse: nothing exactly when the parentheses are missing or reversed |
| `ProcStat.RefusedIff` | agent/internal/procfs/process.go:73-78 | a line is refused exactly when no '(' has a ')' somewhere after it |
| `ProcStat.NameRecovered` | agent/internal/procfs/process.go:71-127 | for every byte string as name, including spaces, line feeds and any parentheses, name and fields come back exactly if nothing after it holds a ')' |
| `ProcStat.KernelLineRecovered` | agent/internal/procfs/process.go:71-127 | the same for the kernel's line byte for byte: decimal pid, ` (`, any name, `)`, fields after runs of spaces, line feed |
| `ProcStat.NameRecoveredIff` | agent/internal/procfs/process.go:71-80 | the name comes back if and only if no ')' follows it |
| `ProcStat.NumbersRecovered` | agent/internal/procfs/process.go:98-125 | printed parent, threads, utime + stime and pages × page size come back exactly when they fit a Go int or 64 bits |
| `Slurp.File.Read` | agent/internal/procfs/procfs.go:61 | any pattern of short reads, end of file reported at once or late, and faults; a read must be offered a free byte |
| `Slurp.Reader.constructor` | agent/internal/procfs/procfs.go:32-42 | an empty buffer with capacity 4096 |
| `Slurp.Reader.Grow` | agent/internal/procfs/procfs.go:56-60 | capacity 2c + 1 with the same bytes in front |
| `Slurp.Reader.Advance` | agent/internal/procfs/procfs.go:61-62 | one read extends the buffer by the next bytes of the file |
| `Slurp.Reader.Slurp` | agent/internal/procfs/procfs.go:47-70 | the file's whole content whatever the buffer held; nothing exactly when a read failed; capacity at most the larger of the old one and twice the bytes plus one |
| `Usage.GuardsBoundUsage` | agent/internal/metrics/collector.go:106-117 | for all counters, overflowing or not, usage is in [0, 1], and when it is not 0 the clamp has changed nothing |
| `Usage.WrappedIdleExceedsTotal` | agent/internal/metrics/collector.go:111-115 | if idleness fell, the wrapped idle difference exceeds the total difference, so the guard catches it |
| `Usage.CountersSpelledOut` | agent/internal/procfs/procfs.go:81-87 | total is the sum of all eight counters, idleness that of idle and iowait, busy that of the other six |
| `Usage.UsageCases` | agent/internal/metrics/collector.go:106-117 | the guards restated over unbounded counters, when the sums do not overflow |
| `Usage.UsageZero` | agent/internal/metrics/collector.go:108-115 | 0 when the eight counters together did not advance, idle and iowait together fell, or the other six together fell |
| `Usage.UsageMeaning` | agent/internal/metrics/collector.go:106-117 | otherwise the gain of user, nice, system, irq, softirq and steal over the gain of all eight |
| `Usage.SinceBootMeaning` | agent/internal/metrics/collector.go:120-126 | in [0, 1]; times the sum of all eight counters it is the sum of those six; 0 when nothing was counted |
| `Usage.UsageConserves` | agent/internal/metrics/collector.go:106-117 | usage times the gain of all eight counters is the gain of those six, also when none advanced |
| `Collector.Collector.constructor` | agent/internal/metrics/collector.go:29-34 | a new collector has no baseline |
| `Collector.Collector.Reset` | agent/internal/metrics/collector.go:39 | no baseline any more |
| `Collector.Collector.Collect` | agent/internal/metrics/collector.go:44-86 | succeeds exactly when all six reads do; a failure leaves the baseline, a success reports against it and replaces it |
| `Collector.Collector.Cpu` | agent/internal/metrics/collector.go:88-103 | every line against its own previous reading, or since boot without a baseline or with another core count |
| `Collector.Drive` | agent/internal/metrics/collector.go:36-86 | a Reset and any sequence of Collects produce the specified frames and baseline |
| `Collector.FailuresDoNotShow` | agent/internal/metrics/collector.go:44-86 | every frame is computed from consecutive successful reads, as if failed ones had not happened |
| `Collector.AggregateConserved` | agent/internal/metrics/collector.go:44-126 | over a run with failures, a stable core count and counters that neither fall nor overflow, usages times the gains of all eight counters add up to the final user, nice, system, irq, softirq and steal counters together |
| `Collector.CoreConserved` | agent/internal/metrics/collector.go:44-126 | the same for every core |
| `ProcessCollector.ProcessCollector.constructor` | agent/internal/metrics/process_collector.go:25-27 | a new collector has an empty, unusable baseline |
| `ProcessCollector.ProcessCollector.Reset` | agent/internal/metrics/process_collector.go:31 | only marks the baseline unusable |
| `ProcessCollector.ProcessCollector.Collect` | agent/internal/metrics/process_collector.go:34-81 | a failed read changes nothing; otherwise a sorted permutation of the projected processes, and the baseline becomes exactly this frame |
| `ProcessCollector.CpuInRange` | agent/internal/metrics/process_collector.go:53-58 | every fraction is in [0, 1], and non-zero only for a pid with an earlier, lower reading and an advanced total |
| `ProcessCollector.RowsOfFrame` | agent/internal/metrics/process_collector.go:49-80 | one row per process, repeating its pid, parent, name, state, memory and threads, by CPU then memory descending, every fraction in range and non-zero only for pids of the frame before |
| `ProcessCollector.Drive` | agent/internal/metrics/process_collector.go:29-81 | after a Reset, any sequence of Collects, failed ones included, produces the tables of the successful reads, each computed from its frame and the one before; the baseline is then the last of them, keyed by exactly its pids |
| `ProcessCollector.RowOfPid` | agent/internal/metrics/process_collector.go:51-67 | the row of a pid listed once shows the fraction of its own jiffies |
| `ProcessCollector.JiffiesConserved` | agent/internal/metrics/process_collector.go:34-81 | over any such run, for a pid in every successful frame, with plausible counters, the fractions in its rows times elapsed jiffies add up to the jiffies it gained |
| `Fleet.NetTotalWithout` | desktop/src/store.ts:59-63 | the total is that of one device's received and sent bytes and the others' total, whichever is taken |
| `Fleet.AddUp` | desktop/src/store.ts:59-63 | the loop computes that total |
| `Fleet.CapWindow` | desktop/src/store.ts:51-55 | capping after each append keeps exactly the last 120 values |
| `Fleet.Store.constructor` | desktop/src/store.ts:65-68 | an empty store |
| `Fleet.Store.SetPeers` | desktop/src/store.ts:70-80 | the specified transition: known hosts keep their state, new ones start empty, others are forgotten |
| `Fleet.Store.ApplyStatus` | desktop/src/store.ts:82-92 | the specified transition; an unknown address changes nothing |
| `Fleet.Store.ApplyMetrics` | desktop/src/store.ts:94-123 | the specified transition; an unknown address changes nothing |
| `Fleet.HistoriesAreWindows` | desktop/src/store.ts:50-123 | over every run of events, the hosts are the latest peer list's addresses, and each history is the last 120 samples of the frames since that host was added |
| `Fleet.OrderMatchesHosts` | desktop/src/store.ts:70-80 | the order names exactly the known hosts in every reachable state |
| `Fleet.PeersAreLatest` | desktop/src/store.ts:70-80 | in every run the order is that of the latest peer list, and each host shows the peer that list gives last for its address |
| `Fleet.SelectionMoves` | desktop/src/store.ts:82-125 | status events and frames leave order and selection alone; selecting changes nothing else |
| `Fleet.HistoryShape` | desktop/src/store.ts:50-123 | the four series of a host have equal length, at most 120, and no rate is negative |
| `Fleet.StatusIsLatest` | desktop/src/store.ts:82-123 | in every run a host is online exactly when the last event about it since it was added was a frame or a status saying so, its identity is the last one reported, and it was last seen at its last frame |
| `Fleet.SelectionSurvives` | desktop/src/store.ts:78 | a selection still listed is kept, otherwise the first peer of the list is selected, none only for an empty list |
| `Fleet.BytesConserved` | desktop/src/store.ts:50-119 | in every run, where the frames a host's history shows have increasing timestamps and non-decreasing totals, its recorded rates times the seconds between its recorded timestamps add up to the bytes between the first and last of them |
| `Fleet.RecordedSamples` | desktop/src/store.ts:94-123 | in every run a host's history shows, frame by frame of its window, the timestamp, the usage, the used fraction of memory, and the bytes per second since the frame before, 0 when time or total did not advance and for the first frame |
| `Fleet.WindowSeries` | desktop/src/store.ts:50-119 | the windows of the recorded series belong together position by position |
| `Peers.PeersFile.constructor` | desktop/core/src/peers.rs:48-54 | holds the loaded list |
| `Peers.PeersFile.Index` | desktop/core/src/peers.rs:66-68 | the first position of the address; none exactly when it is absent |
| `Peers.PeersFile.Add` | desktop/core/src/peers.rs:72-82 | refused exactly for a listed address, otherwise appended at the end |
| `Peers.PeersFile.Remove` | desktop/core/src/peers.rs:85-90 | refused exactly for an unlisted address, otherwise the first such peer is gone |
| `Peers.PeersFile.Rename` | desktop/core/src/peers.rs:93-99 | refused exactly for an unlisted address, otherwise the first such peer is renamed |
| `Peers.RemoveCounts` | desktop/core/src/peers.rs:85-90 | removing takes away one peer of that address and none of any other |
| `Peers.RenameKeepsAddresses` | desktop/core/src/peers.rs:92-99 | renaming leaves every address in its place |
| `Peers.AddThenRemove` | desktop/core/src/peers.rs:72-90 | removing what was just added restores the list, order included |
| `Peers.RenameOverwrites` | desktop/core/src/peers.rs:92-99 | the last of two renames wins, and removal forgets them |
| `Peers.DistinctIff` | desktop/core/src/peers.rs:72-75 | addresses are distinct exactly when none occurs twice |
| `Peers.OperationsKeepDistinct` | desktop/core/src/peers.rs:70-99 | every operation keeps the addresses distinct |
| `Registry.Shell.constructor` | desktop/src-tauri/src/lib.rs:365-380 | starting up supervises every loaded peer in order |
| `Registry.Shell.SupervisePeer` | desktop/src-tauri/src/lib.rs:302-308 | registers a new supervisor under the address and aborts the one it displaces |
| `Registry.Shell.AddPeer` | desktop/src-tauri/src/lib.rs:71-86 | the specified transition and result, also when saving fails after the list has changed |
| `Registry.Shell.RemovePeer` | desktop/src-tauri/src/lib.rs:89-101 | the same for removal |
| `Registry.Shell.RenamePeer` | desktop/src-tauri/src/lib.rs:104-116 | the same for renaming |
| `Registry.Shell.SubscribeView` | desktop/src-tauri/src/lib.rs:135-162 | an unknown peer changes nothing; otherwise a new task under the view's key, the displaced one aborted |
| `Registry.Shell.UnsubscribeView` | desktop/src-tauri/src/lib.rs:165-169 | the view's key is freed and its task aborted |
| `Registry.Shell.SubscribeLogs` | desktop/src-tauri/src/lib.rs:210-244 | as for a view, under the key reserved for logs |
| `Registry.Shell.UnsubscribeLogs` | desktop/src-tauri/src/lib.rs:247-251 | as for a view |
| `Registry.StepAccounts` | desktop/src-tauri/src/lib.rs:71-251 | every command keeps every spawned task accounted for |
| `Registry.EveryTaskAccounted` | desktop/src-tauri/src/lib.rs:71-308 | in every run of the application every running task, supervisor or view, is the one its key names, no key has two running, no key names an aborted task, and a supervisor runs exactly while it is registered |
| `Registry.CommandsAreLocal` | desktop/src-tauri/src/lib.rs:71-251 | a command disturbs only the key it is about; removing a peer leaves its view streams running |
| `Registry.UnsubscribeStops` | desktop/src-tauri/src/lib.rs:165-169 | after unsubscribing a view the key made of address, bar and kind names nothing and the task it named does not run; the logs are the view of kind `logs` |
| `Registry.SubscribeStarts` | desktop/src-tauri/src/lib.rs:135-162 | after subscribing a view of a listed peer its key names a new running task and the displaced one does not run; for an unlisted peer nothing changes; the logs likewise |
| `Registry.AdditionStarts` | desktop/src-tauri/src/lib.rs:71-86 | a saved addition of a new address appends exactly that peer and starts its supervisor, the displaced one stopped; a listed address changes nothing |
| `Registry.RemovalStops` | desktop/src-tauri/src/lib.rs:89-101 | a saved removal takes away the first peer of the address and its registration, and its supervisor does not run; an unlisted address changes nothing |
| `Registry.RenamingNames` | desktop/src-tauri/src/lib.rs:104-116 | renaming gives the first peer of the address the new name, saved or not, and changes nothing else |
| `Registry.FinishingKeepsEntry` | desktop/src-tauri/src/lib.rs:140-158 | a view whose stream ends stays registered as finished; supervisors do not end |
| `Registry.ViewKeyIsUnique` | desktop/src-tauri/src/lib.rs:137 | address and kind are recovered from a key when kinds hold no separator |
| `Registry.SetupSynced` | desktop/src-tauri/src/lib.rs:368-380 | after start-up the registered addresses are exactly the listed ones, even with repetitions |
| `Registry.SyncedIff` | desktop/src-tauri/src/lib.rs:71-116 | from agreement, a command keeps it if and only if it was refused, or an addition was saved, or a removal was saved exactly if the address occurred once, or it was neither |
| `Registry.OneSupervisorPerPeer` | desktop/src-tauri/src/lib.rs:71-116 | from distinct addresses and with additions and removals saved, in every run exactly the listed addresses are registered and have a running supervisor |
| `Registry.UnsavedAddition` | desktop/src-tauri/src/lib.rs:78-83 | a concrete addition that breaks the agreement |
| `Registry.RepeatedAddress` | desktop/src-tauri/src/lib.rs:92-97 | a concrete saved removal that breaks it, of one of two peers with one address |
| `Registry.FailedAddSticks` | desktop/src-tauri/src/lib.rs:78-83 | after an addition that was not saved the peer is listed and unsupervised through every run that does not remove it |
| `Registry.FailedAddUndone` | desktop/src-tauri/src/lib.rs:78-97 | removing it restores the state before the addition exactly |
| `Registry.FailedRemoveSticks` | desktop/src-tauri/src/lib.rs:92-97 | after a removal that was not saved the peer's supervisor keeps running, under the same handle, through every run that does not add the address again |
| `Journal.StepKeeps` | agent/internal/journal/journal.go:71-93 | every step of goroutine, subprocess, reader and canceller keeps the stream's invariant |
| `Journal.StreamIsPrefix` | agent/internal/journal/journal.go:71-93 | in every run delivered plus buffered lines are a prefix of the parsable scanned lines, missing at most one, with at most 64 buffered; the channel is closed only after the subprocess was reaped; an uncancelled closed stream has passed on everything up to the end of input or an over-long line |
| `Journal.StreamEnds` | agent/internal/journal/journal.go:71-93 | once the subprocess has exited the goroutine takes boundedly many more steps |
| `Journal.StuckOnlyWhenWaiting` | agent/internal/journal/journal.go:73-92 | the goroutine can take a step unless, and only unless, it sends into a full buffer nobody reads or cancels, waits for output that has not ended, or waits to reap a subprocess still running |
| `Journal.LingeringSubprocess` | agent/internal/journal/journal.go:73-92 | a concrete run in which the subprocess ends its output and runs on, and the channel stays open until it exits |

## Left out

- Hub and Broadcaster: subscriber ids are unbounded naturals; `nextID` is a Go int that would wrap after 2^63 subscriptions.
- Source: the ticker is a parameter, draining or not draining a delivered tick when stopped; when a tick comes is arbitrary.
- Source: fairness is not modelled. Termination is stated as a bound on steps plus the existence of a next step.
- Broadcaster.Source.Readers: readers receive only between the statements of a send, which is where a receive can change its outcome.
- Handlers.NoHandlerMeansInactive: covers the subscription bracket; the immediate snapshot sent before it is one more `writeSSE`.
- Sorting.Slice: an insertion sort stands in for the library's algorithm; only its promise is used.
- Services: changes lost between listing and subscribing, or inside the connection, are not modelled. Agreement is relative to the changes delivered.
- Services: `Get`, `Start`, `Stop` and `Restart` are single calls to the connection.
- Sse: HTTP, JSON and UTF-8 decoding are parameters. Only the subset of section 9.2.5 of the WHATWG HTML Living Standard that the agent writes is read.
- DockerLogs.Demux: read errors other than the end of the stream, which end either loop the same way; of the TTY scanner, how it refills its buffer.
- DockerLogs: a log line split across two frames is not rejoined by the code, so nothing is claimed of it; timestamps are library time parsing.
- procfs: `meminfo`, `loadavg`, `uptime`, `net/dev`, `diskstats`, `btime` and `cmdline` would only repeat the tokeniser results; opening and listing files is the operating system's.
- CpuStat.StatBuffer.ParseStat: the core list is a value; sharing of its backing array between calls is not captured.
- Slurp.Reader.Slurp: the result is a value; that it aliases the reader's buffer until the next call is not captured.
- Usage and ProcessCollector: fractions are reals; IEEE rounding is not modelled.
- Collector.Collector.Collect: the memory, load, network and disk values of a frame are carried over unchanged and are only represented by whether reading them succeeded.
- ProcessCollector: the display name, command line or else name, is chosen before the model's processes begin.
- Fleet: JavaScript numbers are reals and naturals; counters above 2^53 are not exact in the original.
- Peers: loading and saving TOML is a parameter (the loaded list, empty when loading failed, and whether a save succeeds); `base_url` is a format string.
- Registry: commands are atomic, as the shell runs them one at a time; the asynchronous fetch and action commands touch no registry.
- Registry: what a task does while it runs, and the SSH stubs, are not modelled. Removing a peer does not abort its view streams in the code, and none is claimed to be.
- Journal.StreamEnds: bounds the goroutine's steps once the subprocess has exited; that it exits, killed by cancellation or on its own, is up to the subprocess.
- Journal: parsing a journald entry is a parameter.
- React components, configuration, routing, allowlists, audit records and format helpers.
