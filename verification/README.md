# Telemetry link: a verified model

This project models the hard parts of a balloon-telemetry link and proves what
they guarantee. `dafny verify dfyconfig.toml` checks everything.

The system has four parts, and the model follows them.

1. **Bandwidth.** The ground station keeps one subscription task for each metric
   and divides a bandwidth limit among them; onboard, each subscription has a
   loop that downlinks the latest sample at its rate.
   `Subscriptions.dfy` is the ground side as a step machine: a coroutine is
   atomic between awaits, so `update_bps` is two segments split at
   `await old_task`, and a run is any schedule of segments. `Redistribution.dfy`
   holds the laws of its runs, `RunRates.dfy` reads the records off a schedule,
   `Shutdown.dfy` and `CleanExit.dfy` those of leaving
   the handler, `Budget.dfy` and `TaskRates.dfy` the rates on record, and those
   the subscriptions carry, while a redistribution is under way.
   `SubscribeHandler.dfy` is the handler class itself, each method tied to the
   step machine. `Downlink.dfy` is the onboard loop over
   arbitrary polls, sizes and delays, `DownlinkTimes.dfy` what it sends and when,
   read off its turns. `Bandwidth.dfy` composes the two sides.
2. **Telemetry payloads.** A sample is cut into segments, each a JSON object with
   base64 data, packed into JSON lists under a byte budget, unpacked and put back
   together. `Utf8.dfy`, `Base64.dfy` (section 4 of RFC 4648) and `Json.dfy` with
   `JsonRoundTrip.dfy` (RFC 8259, with the defaults of Python's `json`) are the
   layers; `Telemetry.dfy`, `Payload.dfy` and `Segmentation.dfy` use them, and
   `PayloadText.dfy` gives a payload character by character.
3. **Command server.** A C thread that polls, accepts and reads clients, drops
   them from an array in place, and forwards what they send through a pipe:
   `CommandServer.dfy` and `CommandPipe.dfy`; `CommandTurns.dfy` says what turns
   of the thread do, read off the turns.
4. **Samples as Protocol Buffers.** `Wire.dfy` is the encoding ("Base 128
   Varints", "Length-Delimited Records" of the Protocol Buffers encoding
   specification), `SampleMessage.dfy` the message and its decoder,
   `WireLayout.dfy` the bytes of an encoding, `MessageMerge.dfy` what the decoder
   makes of other input, `SampleSizes.dfy` the size constants, `SendSample.dfy` the C functions that
   fill the struct and write into a fixed buffer.

Two smaller parts: `SampleCache.dfy` is the thread-shared latest sample behind a
lock and a condition, `MetricKeys.dfy` the Redis keys, their values, channels and
listing.

Poll results, readiness bits, `read` and `accept` results, delays, schedules and
interleavings are parameters, so each theorem is about all of them. Time is
real-valued. Floats in protobuf messages are bit patterns. A Dafny `char` is a
Unicode scalar value, so a `string` is a Python string without lone surrogates.

## Where the code does less than it seems to

Each of these is a theorem of the model, with the exact condition.

- Two updates of one metric in flight at once leave one subscription running
  that the handler no longer knows, also after shutdown (`OverlapOrphans`,
  `OneSubscriptionExactly`, `OverlapsExactly`, `ShutDownLeaks`). So does adding a
  metric, exactly when it is already known (`AddedAgain`).
- An update that is in flight when the turn of its metric comes on leaving the
  handler, or that starts from then on, creates a subscription nobody stops
  (`LeftInFlight`, `StartedMeanwhile`). Nothing of a metric remains if and only if
  neither happens and none of its starts overlapped before (`ExitExactly`); for a
  metric without unfinished calls the last condition is the whole of it
  (`ExitQuietly`).
- A lowered limit is exceeded while it is being distributed: from equal rates,
  exactly when their sum is more than it (`NewLimitExactly`, `LoweredLimit`). The
  discovery of a metric after a fair distribution never brings the rates on
  record above the limit (`DiscoveryWithin`); for arbitrary rates
  `OverBudgetExactly` says when a redistribution does. The subscriptions that run
  carry no more than what is on record, but together with those cancelled and not
  yet ended they can carry more than the limit, after a discovery too
  (`OpenExactly`, `DiscoveryOpenExactly`).
- A subscription at rate zero, which every metric starts with, sends one sample
  and then fails on a division by zero (`ZeroRate`); with fewer units of
  bandwidth than metrics a fair distribution puts all of them there (`Starved`).
- `min_datagram_size` is not a lower bound for a sample without data
  (`MinSizeExactly`, `EmptySampleBelowMin`).
- The first datagram of a payload is charged for a separator it does not need
  (`AcceptsExactly`).
- The header's 147 bytes for a file are one more than any file takes
  (`FileBound`).
- The server judges a client by a readiness bit that is not its own after
  dropping one before it (`NeighbourRead`), and when the client was accepted in
  the same turn, after the poll (`FreshClientStale`); `OwnBitsExactly` says when
  neither happens.
- The server writes a chunk and its newline separately. A receive between the
  two, or a read of 1023 bytes, leaves the newline in the pipe, to be received as
  an empty command (`EmptyCommandExactly`, `ChunkExactly`, `LinesExactly`), and a
  receive between the two takes a newline off a chunk that ends in one
  (`EarlyReceive`).
- `wait_for_sample` can sleep although a sample is there (`LostWakeupExactly`,
  `LostWakeup`).
- Metric ids with a colon are cached but never listed (`ListedExactly`).

The rate of a downlink is in bytes a second in the code, although the name says
bits; the model follows the code.

## Model

| member | source | states |
|---|---|---|
| Subscriptions.StepInv | command/src/sync_metric_ids.py:40-85 | every segment of every coroutine keeps: same keys in both dictionaries, current subscription of its own metric, updates waiting only for cancelled tasks, conservation, calm without overlaps |
| Subscriptions.RunInv | command/src/sync_metric_ids.py:40-85 | the same over every schedule |
| Redistribution.Conservation | command/src/sync_metric_ids.py:60-72 | over every run from the start: running subscriptions plus updates in flight of a metric are one plus its overlapping starts |
| Redistribution.NeverTwo | command/src/sync_metric_ids.py:60-72 | without overlapping updates no metric ever has two subscriptions that have not ended, at any await point of any schedule |
| Redistribution.OneSubscriptionExactly | command/src/sync_metric_ids.py:60-72 | once nothing is in flight, exactly one running subscription if and only if no start overlapped, else the surplus is counted |
| Redistribution.OverlapExactly | command/src/sync_metric_ids.py:61-66 | what a caller can check: a start overlaps exactly when another update of the metric is in flight |
| Redistribution.OverlapsExactly | command/src/sync_metric_ids.py:60-72 | over every run from the start: no overlap if and only if every update of the metric began with none in flight |
| Redistribution.OverlapOrphans | command/src/sync_metric_ids.py:60-72 | from any state with a metric at rest, two updates of it can be scheduled so that two subscriptions run for good |
| Redistribution.KnownGrow | command/src/sync_metric_ids.py:40-58 | over every run known metrics only grow and both dictionaries have the same keys |
| RunRates.RecordsExactly | command/src/sync_metric_ids.py:40-77 | over every schedule, read off it alone: the known metrics are those added, the limit is the one set last, each rate is that of the metric's last update to start |
| RunRates.SubscribedExactly | command/src/sync_metric_ids.py:60-72 | and with none in flight and each started alone, the metric's one subscription runs at that rate |
| Redistribution.RedistributionFair | command/src/sync_metric_ids.py:80-85 | every interleaving of one redistribution: never two active subscriptions a metric, and once done every metric has `max_bps // n` on record and one subscription carrying it |
| Redistribution.Confluent | command/src/sync_metric_ids.py:80-85 | any two interleavings that finish end in the same observable state |
| Redistribution.WorkDecreases | command/src/sync_metric_ids.py:60-85 | every internal step uses up work, so no interleaving goes on for ever |
| Redistribution.NeverStuck | command/src/sync_metric_ids.py:60-85 | while a call has not returned some internal step is possible, from every reachable state |
| Redistribution.Settles | command/src/sync_metric_ids.py:60-85 | every reachable state is brought to rest by some internal schedule |
| Redistribution.FairTotal | command/src/sync_metric_ids.py:80-85 | after a redistribution `sum(bps) <= max_bps < sum(bps) + n` |
| Redistribution.BudgetUntilUpdate | command/src/sync_metric_ids.py:40-85 | those bounds stay until the next update or change of the limit, however many metrics are discovered |
| Budget.OverBudgetExactly | command/src/sync_metric_ids.py:80-85 | from any rates at rest and any order of the dictionary: the rates on record exceed the limit at some await point if and only if some number of new shares and the remaining old rates do |
| Budget.NewLimitExactly | command/src/sync_metric_ids.py:74-85 | from equal rates: a new limit is exceeded at some await point if and only if the old sum exceeds it |
| Budget.DiscoveryWithin | command/src/sync_metric_ids.py:40-48 | after a discovery, with the new metric last, the sum keeps within the limit at every await point |
| Budget.LoweredLimit | command/src/sync_metric_ids.py:74-77 | a run in which a lowered limit is exceeded |
| TaskRates.RunningWithin | command/src/sync_metric_ids.py:60-72 | without overlaps the subscriptions that run carry at most what is on record |
| TaskRates.DiscoveryRunning | command/src/sync_metric_ids.py:40-48 | so after a discovery they never carry more than the limit |
| TaskRates.OpenExactly | command/src/sync_metric_ids.py:60-85 | from any rates at rest: the subscriptions not yet ended can carry more than the limit during a redistribution if and only if the larger of old rate and share, summed over the metrics, is more |
| TaskRates.DiscoveryOpenExactly | command/src/sync_metric_ids.py:40-48 | after a discovery among n metrics: if and only if n old shares and one new share are more than the limit |
| Shutdown.ShutDownLeaks | command/src/sync_metric_ids.py:112-123 | nothing of a metric remains after shutting down if and only if no start of it overlapped and none of its updates is in flight; with none in flight as many go on running as starts overlapped |
| CleanExit.ExitExactly | command/src/sync_metric_ids.py:118-123 | whatever other coroutines do during the awaits and afterwards: nothing of a metric remains if and only if no start had overlapped, each one before its turn is alone, none is in flight at its turn, and none comes from then on |
| CleanExit.ExitQuietly | command/src/sync_metric_ids.py:118-123 | seen beforehand: for a metric without unfinished calls, and none created, nothing remains if and only if no start had overlapped |
| CleanExit.LeftInFlight | command/src/sync_metric_ids.py:60-72 | an update in flight when the handler is left creates a subscription afterwards |
| CleanExit.StartedMeanwhile | command/src/sync_metric_ids.py:60-72 | so does one that starts while the handler waits, with none in flight and no overlap before |
| Shutdown.ExitLeaks | command/src/sync_metric_ids.py:118-123 | how many remain, running or about to be created: the overlaps in the end, and one more if the metric's subscription no longer ran at its turn |
| Shutdown.ExitIsShutDown | command/src/sync_metric_ids.py:118-123 | with nothing running meanwhile the loop, in any order, is the shutdown above |
| Shutdown.AddedAgain | command/src/sync_metric_ids.py:40-46 | adding a metric keeps to one subscription if and only if it was not known; on a known one the old subscription stays beside the new, also after shutting down |
| SubscribeHandler.MetricSubscribeHandler.constructor | command/src/sync_metric_ids.py:31-38 | the handler starts empty, in the invariant |
| SubscribeHandler.MetricSubscribeHandler.UpdateBpsBegin | command/src/sync_metric_ids.py:61-66 | the first segment is the machine's step |
| SubscribeHandler.MetricSubscribeHandler.UpdateBpsResume | command/src/sync_metric_ids.py:66-72 | the second segment is the machine's step |
| SubscribeHandler.MetricSubscribeHandler.Suspend | command/src/sync_metric_ids.py:60-72 | the event loop run on the handler's fields for any schedule is the machine's run |
| SubscribeHandler.MetricSubscribeHandler.CreateUpdates | command/src/sync_metric_ids.py:83-85 | the task group creates one update of the share for each known metric, each once |
| SubscribeHandler.MetricSubscribeHandler.RedistributeBpsFairly | command/src/sync_metric_ids.py:80-85 | fails and changes nothing without metrics; else the state is the run of the created updates, its own calls return before it does, the invariant is kept, and from rest, for every interleaving, fair and at rest again when the task group is left |
| SubscribeHandler.MetricSubscribeHandler.SetMaxBps | command/src/sync_metric_ids.py:74-77 | the same limit is ignored; a new one is recorded, even when the distribution then fails; else the state is the run of its distribution, for every schedule and any updates in flight, and fair from rest |
| SubscribeHandler.MetricSubscribeHandler.AddMetricFully | command/src/sync_metric_ids.py:40-48 | adds exactly the id, known or not; manual mode stops there, fair mode is the run of a distribution over the metrics then known; on an unknown id the invariant is kept, and from rest fair mode ends fair |
| SubscribeHandler.MetricSubscribeHandler.UpdateMetricIdList | command/src/sync_metric_ids.py:53-58 | known ids become old and listed ids; each new id is added once, while unknown, so the invariant is kept and no subscription is overwritten; with no new id nothing changes; in manual mode each new id gets rate zero and one task and all else stays; in fair mode the state is the run of one redistribution after each addition under the given schedules, the limit stays unless a schedule sets it, and from rest it ends fair and at rest |
| SubscribeHandler.MetricSubscribeHandler.Exit | command/src/sync_metric_ids.py:118-123 | every metric is visited once, its subscription on record at its turn is cancelled and awaited, whatever other coroutines do meanwhile; with nothing else running, exactly the subscriptions on record end |
| Downlink.DownlinkLoop | onboard-server-py/src/onboard_server/handle_commands.py:32-68 | the loop computes the specified run, and fails at once without a socket |
| Downlink.Dedup | onboard-server-py/src/onboard_server/handle_commands.py:42-49 | samples sent are the non-empty polls with consecutive repeats removed, in order |
| DownlinkTimes.PairsExactly | onboard-server-py/src/onboard_server/handle_commands.py:42-49 | over every run the samples sent, with the bytes of each, are those of the non-empty polls with consecutive repeats removed; at rate zero the first of them |
| DownlinkTimes.SentExactly | onboard-server-py/src/onboard_server/handle_commands.py:42-68 | over every run at another rate: each fresh poll is sent, with its bytes, at the sum of the times of the turns before it, and the clock ends at the sum of all |
| DownlinkTimes.ZeroRateExactly | onboard-server-py/src/onboard_server/handle_commands.py:42-63 | at rate zero: all of that up to and with the first fresh poll |
| DownlinkTimes.PromptGap | onboard-server-py/src/onboard_server/handle_commands.py:61-68 | without delays the time from a send is exactly the larger of half a second and bytes over rate, and one second for each turn after it without a send |
| Downlink.ZeroRate | onboard-server-py/src/onboard_server/handle_commands.py:46-63 | at rate zero the first sample is sent and the loop fails, exactly when there is a sample |
| Downlink.NoBusyWait | onboard-server-py/src/onboard_server/handle_commands.py:62-68 | every turn without a send takes at least a second, every turn with one at least half |
| Downlink.Pacing | onboard-server-py/src/onboard_server/handle_commands.py:43-68 | between any two sends of any run: bytes before the second at most rate times time, and at most two sends a second |
| Downlink.BufferFits | onboard-server-py/src/onboard_server/handle_commands.py:51-60 | after a message of b >= 1 bytes the buffer lies in [b+1, 2b], for every history |
| Downlink.SteadyExactly | onboard-server-py/src/onboard_server/handle_commands.py:51-60 | no resize happens in a stretch of messages if and only if each fits the buffer as it was |
| Downlink.FewResizes | onboard-server-py/src/onboard_server/handle_commands.py:51-60 | along sizes that never shrink resizes are logarithmic in last size over first |
| Downlink.RunBuffer | onboard-server-py/src/onboard_server/handle_commands.py:51-60 | both buffer laws for every run of the loop |
| Downlink.SetToDouble | onboard-server-py/src/onboard_server/handle_commands.py:51-60 | over every run the buffer is as found or as set last, and every setting is twice the size of a message sent |
| Bandwidth.WindowBound | onboard-server-py/src/onboard_server/handle_commands.py:43-63 | over every run and every window: bytes sent at most rate times window and one last message |
| Bandwidth.ActiveAreCurrent | command/src/sync_metric_ids.py:60-85 | after a distribution the active subscriptions are exactly those on record |
| Bandwidth.OpenCount | command/src/sync_metric_ids.py:80-85 | and there are as many as metrics, each with the share |
| Bandwidth.TotalBandwidth | onboard-server-py/src/onboard_server/handle_commands.py:43-63 | while a fair distribution with positive shares stands, all connections ever opened together downlink in any window at most `max_bps` times its length, one last message for each active subscription, and what loops of ended ones still send |
| Bandwidth.NothingLeft | onboard-server-py/src/onboard_server/handle_commands.py:43-68 | that is nothing once those loops are silent |
| Bandwidth.RedistributedBandwidth | command/src/sync_metric_ids.py:80-85 | from any state at rest, after every interleaving of a redistribution and once the replaced loops are silent: at most the limit and one last message a subscription |
| Bandwidth.Starved | onboard-server-py/src/onboard_server/handle_commands.py:63 | with fewer units than metrics no connection of an active subscription downlinks more than one sample |
| Utf8.RoundTrip | shared/src/encode_telemetry.py:59-62 | decoding undoes encoding for every string |
| Utf8.DecodesExactly | bcp-redis-client/python/src/bcp_redis_client/asyncio.py:11 | bytes decode to a string exactly when they are its encoding |
| PayloadText.CharBits | shared/src/encode_telemetry.py:62 | how many bytes a character takes, and its value from the bits in them |
| Base64.RoundTrip | shared/src/encode_telemetry.py:39-41 | decoding undoes encoding for every byte string |
| Base64.EncodeLength | shared/src/encode_telemetry.py:39-41 | four characters for each three bytes begun |
| Base64.EncodeExactly | shared/src/encode_telemetry.py:39-41 | every character: padding past the last bit, elsewhere the letter of the alphabet of RFC 4648 for the six bits at its place |
| JsonRoundTrip.TextRoundTrip | shared/src/encode_telemetry.py:60-62 | parsing undoes printing for every value with distinct keys, any text, any integers, any nesting |
| Telemetry.DecodeTelemetry | shared/src/decode_telemetry.py:7-15 | the loop returns the decoded list or the first exception, for every payload |
| PayloadText.FirstErrorWins | shared/src/decode_telemetry.py:10-14 | the first item that fails decides, with its exception; else each item is decoded in its place |
| PayloadText.DecodeItemExactly | shared/src/decode_telemetry.py:11-12 | in any dictionary only the segment's text is replaced, by its bytes; a value that is no text and bad base64 each raise their exception |
| Telemetry.PayloadRoundTrip | shared/src/decode_telemetry.py:7-15 | decoding a payload's bytes gives exactly the datagrams added, in order |
| Payload.PayloadLength | shared/src/encode_telemetry.py:59-65 | two brackets, the datagram sizes, and two for each gap |
| Payload.AcceptsExactly | shared/src/encode_telemetry.py:53-57 | a datagram is accepted exactly when the result fits, with two to spare if it is the first |
| Payload.BudgetKept | shared/src/encode_telemetry.py:48-57 | over every run of adds the encoded length keeps to the budget if and only if the budget holds an empty list |
| Payload.RejectedForGood | shared/src/encode_telemetry.py:53-57 | a rejected datagram stays rejected however the payload grows |
| Payload.TelemetryPayload.Size | shared/src/encode_telemetry.py:64-65 | the length in terms of the datagrams; nothing changes |
| Payload.TelemetryPayload.Add | shared/src/encode_telemetry.py:53-57 | appended exactly when it fits, else unchanged; the payload is always that of its run of offers |
| Payload.TelemetryPayload.ToBytesOf | shared/src/encode_telemetry.py:59-62 | after any run of adds, within budget and decodable to what was added |
| Payload.DatagramSizeExact | shared/src/encode_telemetry.py:34-45 | a datagram's size field by field: digits, escaped id, base64 |
| PayloadText.DatagramTextExactly | shared/src/encode_telemetry.py:37-45 | a datagram's text with the names of its members in their order |
| PayloadText.PayloadExactly | shared/src/encode_telemetry.py:59-62 | a payload's bytes: the ASCII of its datagrams' texts in brackets, comma and space between any two |
| PayloadText.DumpNatExactly | shared/src/encode_telemetry.py:44-45 | integers are their decimal digits, without leading zeros |
| PayloadText.EscapeUnitExactly | shared/src/encode_telemetry.py:44-45 | a \u escape is the four hexadecimal digits of its unit |
| PayloadText.EscapeCharExactly | shared/src/encode_telemetry.py:44-45 | which characters stand for themselves, have a letter, or are escaped as one unit or a surrogate pair |
| Segmentation.MinSizeExactly | shared/src/sample.py:40-54 | the minimum bounds a datagram from below if and only if it has data or seven digits |
| Segmentation.MinSizeAttained | shared/src/sample.py:40-54 | exactly which datagrams with data attain it |
| Segmentation.EmptySampleBelowMin | shared/src/sample.py:13-54 | a sample without data falls four characters below it |
| Segmentation.GetDatagramExactly | shared/src/sample.py:13-37 | a datagram carries the sample's id and time and, under its sequence number, exactly the bytes whose index has that quotient by the segment size |
| Segmentation.NegativeSegment | shared/src/sample.py:13-20 | a negative sequence number counts segments from the end, but -1 gives none |
| Segmentation.GetDatagramFields | shared/src/sample.py:23-37 | decoded from its payload a datagram has the sample's id and time and the three numbers it was made with, for all integers |
| Segmentation.RebuiltExactly | shared/src/sample.py:13-37 | any datagrams that carry, by their fields and bytes, segments of one sample, in any order with repeats and losses: the bytes known are those of the segments that arrived, each right |
| Segmentation.Reassembly | shared/src/sample.py:13-37 | the sample is rebuilt if and only if every segment arrived |
| Segmentation.SegmentsRebuild | shared/src/sample.py:13-37 | for every sample and segment size the datagrams made for all segments rebuild it, and without the last they do not |
| Segmentation.EndToEnd | shared/src/decode_telemetry.py:7-15 | the same through any payloads, encoded and decoded |
| CommandServer.PassFilters | bcp-fetch-client/src/command_server.c:65-88 | for all readiness bits the table left is the order-preserving filter that drops exactly the clients whose read failed |
| CommandServer.PassWrites | bcp-fetch-client/src/command_server.c:67-75 | the pipe receives exactly what the reads returned, one line a client, in table order |
| CommandServer.PassPartitions | bcp-fetch-client/src/command_server.c:76-86 | every descriptor is then either listed once or closed once, never both |
| CommandServer.ExaminedOnce | bcp-fetch-client/src/command_server.c:65-88 | each connection present at the start is examined once, in order, and by which poll entry |
| CommandServer.OwnBitsExactly | bcp-fetch-client/src/command_server.c:28-85 | in a turn every client is judged by its own bit of this poll if and only if none was accepted this turn and none but the last is both ready and gone |
| CommandServer.NeighbourRead | bcp-fetch-client/src/command_server.c:65-85 | the smallest case where a removal makes a neighbour's bit count |
| CommandServer.FreshClientStale | bcp-fetch-client/src/command_server.c:46-66 | with no removals, a client accepted this turn is read if and only if the entry past those polled happens to be set |
| CommandServer.RunSafe | bcp-fetch-client/src/command_server.c:28-89 | over every run: at most the maximum of clients, and the table lists exactly the accepted descriptors not yet closed, each once |
| CommandServer.DestroyClosesAll | bcp-fetch-client/src/command_server.c:241-255 | after destroy every accepted descriptor has been closed once |
| CommandTurns.ReadExactly | bcp-fetch-client/src/command_server.c:65-70 | which clients a pass reads: each by the entry that lies as far along as there are clients before it that stay |
| CommandTurns.PassCloses | bcp-fetch-client/src/command_server.c:76-79 | a pass closes, in table order, the clients that were read and were gone |
| CommandTurns.TurnExactly | bcp-fetch-client/src/command_server.c:37-88 | an interrupted poll changes nothing; else the table met is the old one and the client if there is room, and table, pipe and descriptors after the turn are those of the clients kept, read and lost of it |
| CommandTurns.ClientListed | bcp-fetch-client/src/command_server.c:46-86 | an accepted client is last in the table after its turn when there was room and its own read did not fail, and else is closed in that turn |
| CommandTurns.ClientsOpened | bcp-fetch-client/src/command_server.c:46-62 | over every run the descriptors opened are those that `accept` returned, read off the turns, each once and in order |
| CommandServer.CommandServer.AcceptClient | bcp-fetch-client/src/command_server.c:52-61 | listed if there is room, else closed |
| CommandServer.CommandServer.Remove | bcp-fetch-client/src/command_server.c:80-84 | the move in place removes one entry and keeps the order of the rest |
| CommandServer.CommandServer.ReadAll | bcp-fetch-client/src/command_server.c:65-88 | the loop, with its index wrapping below zero, stays within both arrays, ends, and equals the specified pass |
| CommandServer.CommandServer.Destroy | bcp-fetch-client/src/command_server.c:251-254 | closes what is listed |
| CommandServer.CommandServer.TakeTurn | bcp-fetch-client/src/command_server.c:28-89 | one turn of the thread is one step of the server |
| CommandPipe.ReceivedIsPrefix | bcp-fetch-client/src/command_server.c:66-75 | in every interleaving of single writes and receives the strings received, one a receive and as long as it read, newlines restored, and what is left in the pipe are the stream the schedule writes |
| CommandPipe.RestoredExactly | bcp-fetch-client/src/command_server.c:204-216 | a receive loses nothing if and only if it read no NUL |
| CommandPipe.ChunkExactly | bcp-fetch-client/src/command_server.c:197-216 | from a drained pipe one receive returns the chunk and drains the pipe if and only if it comes after both writes and the chunk is NUL-free and at most 1022 bytes |
| CommandPipe.LinesExactly | bcp-fetch-client/src/command_server.c:66-75 | the same for runs of any number of chunks, each with a receive at either moment |
| CommandPipe.EarlyReceive | bcp-fetch-client/src/command_server.c:204-216 | a receive between the writes returns the chunk if and only if it is NUL-free and does not end in a newline |
| CommandPipe.EmptyCommandExactly | bcp-fetch-client/src/command_server.c:66-75 | exactly an early receive or a chunk of 1023 bytes leaves the newline alone in the pipe, and the next receive of the run returns an empty command |
| CommandPipe.Receive | bcp-fetch-client/src/command_server.c:191-217 | the buffer code returns the bytes read, newline stripped and cut at a NUL |
| Wire.VarintRoundTrip | bcp-fetch-client/src/send_sample.c:20 | varints of 64 bits are read back |
| Wire.FieldsRoundTrip | bcp-fetch-client/test_common/decode_sample.h:22 | every list of records is read back |
| WireLayout.VarintExactly | bcp-fetch-client/src/send_sample.c:20 | a varint's bytes are the base-128 digits, least first, the top bit on all but the last, none superfluous |
| WireLayout.FixedExactly | bcp-fetch-client/src/send_sample.c:20 | a fixed number's bytes are its base-256 digits, least first |
| WireLayout.EncodeExactly | bcp-fetch-client/src/generated/nanopb/sample.pb.h:39-61 | every encoding byte for byte: the tag of each field number and type, lengths, and what is left out when it is zero |
| SampleMessage.MessageRoundTrip | bcp-fetch-client/src/generated/nanopb/sample.pb.h:49-61 | every message that fits the structs decodes to itself, negative integers and zero-valued members included |
| MessageMerge.DecodedExactly | bcp-fetch-client/src/generated/nanopb/sample.pb.h:13-27 | of all messages' encodings exactly those that fit the arrays of 64, 4096, 128 and 16 characters are decoded, to themselves |
| MessageMerge.ConcatenationMerges | bcp-fetch-client/test_common/decode_sample.h:15-22 | encodings of any number of messages one after the other decode to their merge |
| MessageMerge.UnknownIgnored | bcp-fetch-client/test_common/decode_sample.h:22 | a record of an unknown number makes no difference, wherever it stands |
| SampleMessage.DecodeSample | bcp-fetch-client/test_common/decode_sample.h:10-31 | the decoder's loop over any bytes is the specified decoding |
| SampleSizes.PrimitiveBound | bcp-fetch-client/src/generated/nanopb/primitive.pb.h:43-60 | at most 4098 bytes, attained exactly by the longest string |
| SampleSizes.FileBound | bcp-fetch-client/src/generated/nanopb/sample.pb.h:59-73 | at most 146 bytes, attained exactly by the longest strings |
| SampleSizes.SampleBound | bcp-fetch-client/src/generated/nanopb/sample.pb.h:49-75 | at most 4171 bytes, and exactly which samples attain it |
| SampleSizes.SampleBoundTight | bcp-fetch-client/src/generated/nanopb/sample.pb.h:74-75 | some sample takes all 4171 bytes, so no smaller buffer would do |
| SendSample.OStream.Write | bcp-fetch-client/src/send_sample.c:18-20 | appends the bytes or refuses them whole |
| SendSample.OStream.EncodeSample | bcp-fetch-client/src/send_sample.c:19-25 | writes the encoding, and fails exactly when it does not fit |
| SendSample.Strlcpy | bcp-fetch-client/src/send_sample.c:48 | the array holds the string, cut to leave room for its NUL |
| SendSample.Send | bcp-fetch-client/src/send_sample.c:16-35 | never fails for lack of space; what is sent is the encoding byte for byte and decodes to the message |
| SendSample.PrimitiveSent | bcp-fetch-client/src/send_sample.c:36-54 | what the senders of scalars promise, in numbers: a missing id and, with bounds checking, one of 64 bytes or more are refused; else a receiver gets the id, or without checking its first 63 bytes |
| SendSample.SendSampleInt32 | bcp-fetch-client/src/send_sample.c:36-54 | each refusal in its case, else a receiver decodes the caller's id, timestamp bits, tag and value |
| SendSample.SendSampleInt64 | bcp-fetch-client/src/send_sample.c:56-74 | the same for int64 |
| SendSample.SendSampleFloat | bcp-fetch-client/src/send_sample.c:76-94 | the same for float bits |
| SendSample.SendSampleDouble | bcp-fetch-client/src/send_sample.c:96-114 | the same for double bits |
| SendSample.SendSampleBool | bcp-fetch-client/src/send_sample.c:116-134 | the same for booleans |
| SendSample.SendSampleString | bcp-fetch-client/src/send_sample.c:136-156 | the same for strings, untruncated when bounds are checked |
| SendSample.SendSampleFile | bcp-fetch-client/src/send_sample.c:158-180 | the same for files |
| SampleCache.ReturnedExactly | bcp-redis-client/python/src/bcp_redis_client/sample.py:100-136 | under every interleaving a value returned is the last sample heard when the lock was taken, none exactly if none had been, and the thread is done with its call |
| SampleCache.ReadsOrdered | bcp-redis-client/python/src/bcp_redis_client/sample.py:100-136 | later reads never see an older sample, nor none after some |
| SampleCache.RunHears | bcp-redis-client/python/src/bcp_redis_client/sample.py:100-109 | what is stored is what a schedule delivers until a stop, a corrupt payload or another metric's sample |
| SampleCache.LostWakeupExactly | bcp-redis-client/python/src/bcp_redis_client/sample.py:131-136 | behind every waiting thread lie its look, when nothing had been heard, and its wait; it sleeps although a sample is there if and only if one had been heard between them |
| SampleCache.LostWakeup | bcp-redis-client/python/src/bcp_redis_client/sample.py:131-136 | from any state before the first sample, that schedule blocks the thread until another sample or a timeout |
| SampleCache.WokenReturns | bcp-redis-client/python/src/bcp_redis_client/sample.py:107-136 | a thread that does wait returns at its next turn after a sample was stored or its timeout, with the last sample stored by then |
| SampleCache.SampleSubscriber.Listen | bcp-redis-client/python/src/bcp_redis_client/sample.py:101-109 | one round of the listener is the machine's step |
| SampleCache.SampleSubscriber.RequestStop | bcp-redis-client/python/src/bcp_redis_client/sample.py:94-95 | leaving the context asks the listener to stop |
| SampleCache.SampleSubscriber.GetSample | bcp-redis-client/python/src/bcp_redis_client/sample.py:111-113 | returns the latest sample and changes no field |
| SampleCache.SampleSubscriber.WaitCheck | bcp-redis-client/python/src/bcp_redis_client/sample.py:131-133 | the first look |
| SampleCache.SampleSubscriber.WaitEnter | bcp-redis-client/python/src/bcp_redis_client/sample.py:134-135 | the wait begins without a second look |
| SampleCache.SampleSubscriber.WaitLeave | bcp-redis-client/python/src/bcp_redis_client/sample.py:134-136 | after waking, the latest sample |
| MetricKeys.JoinSplit | bcp-redis-client/python/src/bcp_redis_client/asyncio.py:17 | joining undoes splitting |
| MetricKeys.SplitJoin | bcp-redis-client/python/src/bcp_redis_client/asyncio.py:17 | splitting undoes joining of colon-free parts |
| MetricKeys.IdOfExactly | bcp-redis-client/python/src/bcp_redis_client/asyncio.py:16-19 | a key yields an id if and only if it is `sample-cache:` and the id, and the id has no colon |
| MetricKeys.GetAllMetricIds | bcp-redis-client/python/src/bcp_redis_client/asyncio.py:5-21 | for any batching with repeats: exactly the colon-free ids with a key, or failure exactly when a key is not UTF-8 |
| MetricKeys.ListedExactly | bcp-redis-client/python/src/bcp_redis_client/sample.py:14-19 | after any run of sets the answer is the colon-free ids that were set, so all of them if and only if none has a colon |
| MetricKeys.AllDecodable | bcp-redis-client/python/src/bcp_redis_client/asyncio.py:9-11 | after any run of sets there is an answer |
| MetricKeys.LastStored | bcp-redis-client/python/src/bcp_redis_client/sample.py:14-19 | over every run of sets the value under an id's key is the text of the last call whose sample has that id |
| MetricKeys.OthersKept | bcp-redis-client/python/src/bcp_redis_client/sample.py:14-19 | and a key that no call names keeps its value |
| MetricKeys.HeardExactly | bcp-redis-client/python/src/bcp_redis_client/sample.py:20-87 | a subscriber to an id's channel hears the texts of exactly the calls whose sample has that id, in order |
| MetricKeys.Redis.SetSample | bcp-redis-client/python/src/bcp_redis_client/sample.py:14-19 | the text is stored under `sample-cache:` and the sample's own id, whatever the argument, and published on `sample-channel:` and that id; nothing else changes |
| MetricKeys.Redis.GetSample | bcp-redis-client/python/src/bcp_redis_client/sample.py:63-67 | the text under `sample-cache:` and the id, if there is one |

## Left out

- MetricSubscribeHandler.UpdateMetricIdList: other coroutines may run during each suspension but may not add metrics, as only the sync task does; the `updated` flag, which nothing reads, is not modelled.
- MetricSubscribeHandler.Exit: nothing adds a metric during the loop, which would make the iteration raise; a sync task cancelled in the middle of a redistribution is not modelled.
- Subscriptions.StepInv: a subscription task ends only by being cancelled; tasks that die of connection errors make `update_bps` raise and are excluded.
- Downlink.DownlinkLoop: equality of samples is an equivalence; a sample holding a NaN is unequal to itself in Python and is sent again. The shipped `get_sample` raises on a missing key instead of returning `None`, which would end the loop; the model keeps the loop's own treatment of `None`.
- Bandwidth.TotalBandwidth: bytes count when they are handed to the socket; queueing below it is not modelled, nor when the loop of a cancelled subscription notices that its connection is closed.
- Telemetry.DecodeTelemetry: payloads with lone surrogate escapes count as malformed, floats are kept as their literals without rounding, `json.loads`'s detection of UTF-16, UTF-32 and byte-order marks is not modelled, nor the interpreter's limit on digits of an integer and on nesting; none of these occurs in what `to_bytes` writes.
- CommandPipe.ReceivedIsPrefix: writes to the pipe are complete, and `strdup` succeeds.
- CommandServer.CommandServer.TakeTurn: filling `fds` before the poll is not modelled; its `fd` fields do not matter because readiness is arbitrary. A failed poll ends the thread, which is a run that stops. The listening socket and the pipe's own descriptors are left out.
- SampleMessage.DecodeSample: the sources of nanopb are not part of this model; it is stricter or laxer than the specification in corners that its own encoder never produces (32-bit limits on tags, lengths and booleans, UTF-8 validation); they are not modelled.
- SendSample.SampleStruct.constructor: the members of a C union share storage; in the model each has its own, so reading a member that was not chosen is not captured.
- SampleCache.SampleSubscriber.Listen: an exception in the listener ends it, as in Python; that `__exit__` joins the thread is not modelled.
- MetricKeys.GetAllMetricIds: the keyspace does not change during the scan.
- MetricKeys.Redis.GetSample: the text is returned unparsed; the sample model's own JSON is Pydantic's.
- Lone surrogates in metric ids: not representable in a Dafny `string`.
- `command_server_broadcast`, `request_sample.c`, `handle_connection` and the telecommand codec: little logic of their own.
- Message framing over TCP: the code assumes one read is one message and gives no guarantee.
- Pydantic models, cJSON wrappers, netCDF, the user interfaces and the web servers: input and output.
