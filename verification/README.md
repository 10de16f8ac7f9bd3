# Verification model of the ingestion plane

A Dafny model, with proofs, of the parts of the ingestion plane whose correctness is not visible from one
function body: the buffer of the Loki sink, the sampler's counters and its ladder of rules, the two
batchers of the gateway with the circuit breaker, the word automata and sparse vectors of the search
engine inside the documentation site, and a few smaller pieces (LogQL selectors, stream keys, the template
table, the card number check).

`dafny verify dfyconfig.toml` checks everything. Each file is one component; the program's objects are
classes whose methods are proved against specification functions, and the results over all runs, inputs or
interleavings are lemmas about those functions.

| files | component |
|---|---|
| `LokiProtocol`, `LokiChunks`, `LokiOrder`, `LokiSink`, `LokiLabels`, `LokiText`, `LokiKeys`, `LokiConfigured` | the sink's buffer: steps under the lock and every interleaving of them; cutting into chunks; the order and the labels of what is sent; the class itself; label sets; label texts as clients write them; what a stream key tells, without and with configured labels |
| `SamplerStore`, `SamplerAverage`, `SamplerLadder`, `SamplerSpike`, `SamplerInterleaving`, `SamplerService`, `SamplerDecision` | the counters in Redis and their windows; the moving average; the ladder; its spike rung; calls that overlap; batches; what a batch answers |
| `MinerBatcher`, `SamplerClient`, `SamplerBatcher`, `SamplerEnforcement`, `Breaker`, `GatewayTypes` | the gateway's batching stages |
| `TokenSet`, `TokenSetBuilder`, `TokenSetDigits`, `TokenSetSearch`, `TokenSetIntersect`, `TokenSetGlob`, `Vector` | lunr's automata, with the alphabets they are right over, and vectors |
| `LabelSelector`, `TemplateUpsert`, `CardNumbers`, `GoStrings`, `Options` | the smaller pieces; the string functions and the option type they use |

How the outside world appears: the clock, replies of Redis, the miner and the sampler, encoding and posting
outcomes, and tickers are parameters that may take any value. Concurrency is modelled where the program
has it: in the Loki sink, one step per section under the lock, and in the sampler, one step for
the MULTI block, for reading the average, for writing it and for each window sum, in any order. Times are integers
(milliseconds), the average and vector entries are real numbers, counters are unbounded integers;
`int32` record indexes wrap around as in Go.

Results worth knowing before reading the table:

- An entry whose chunk could not be encoded is never given back to the sink's counters. The counters are
  therefore exactly the buffered, the in-flight and these skipped entries, and an idle sink still counts the
  skipped ones (`LokiProtocol.RunLeaks`). In Go, encoding a push request of strings does not fail, so the branch is
  a defensive one.
- The sampler's sliding windows are exact as long as twice the skew between event time and clock and the delay
  between counting an event and summing its windows are at most 7140.001 seconds together, and wrong beyond that;
  without delay this is a skew of 59 and a half minutes (`SamplerStores.ExactUpTo`).
- A window stays within the total exactly if no call sums one after another call for the key has come in; if all
  calls come to their end, exactly if they come one after the other (`SamplerInterleavings.TotalsCapWindowsExactly`,
  `TotalsCapWindowsWhenSerial`).
- The average stays within its lag exactly on the runs on which no event's bucket gets ahead of the one before
  by more than one (`SamplerAverages.LagExactly`).
- With the shipped numbers (factor 3, at least 100 events a minute, half-life 10) no event spikes as long as events
  are gradual, in minute order for one (`SamplerSpikes.ShippedNeverSpikes`).
- Two label sets that the sink can form share a stream key only if, in one of them, the value of a key looks as if
  it ended early: the text shown from there on has a comma, the configured pairs that belong between this key and a
  later free one, and that key. Such a set always has another one with its stream key, and the two end up in one
  buffer (`LokiConfigured.OneEndsEarly`, `EarlyEndCollides`, `LokiProtocol.MistakenMixes`). If no configured value
  holds a comma, the value itself must hold all of this (`LokiConfigured.EndsEarlyByMark`): with the
  configuration that is shipped, an `env` of `a,pod=b` is harmless (`LokiConfigured.ShippedEnvIsSafe`).
- `first_seen` of a template is the earliest report exactly if a report with the earliest time was let through: the
  first one, one of another version than its predecessor, or one with a later `last_seen` than all before it
  (`TemplateUpserts.FirstSeenIsEarliestExactly`).
- The word automaton of the search loses words over some alphabets: the text under which a node is registered
  runs edge labels and node numbers together. It is right on all word lists over an alphabet exactly if no digit
  of the alphabet has a smaller character in it (`TokenSetDigits.AlwaysKnowsExactly`); a list of words over any
  other one, of which the fourth is lost, is `TokenSetDigits.BadWords`.
- Swapping two neighbouring digits of a card number goes unnoticed exactly for 0 and 9.

## Model

| member | source | states |
|---|---|---|
| LokiProtocol.RunSound | gateway/pkg/sink/loki/loki.go:179-227 | In every state that any interleaving of offers, pops and chunk ends reaches, the entry and byte counters are exactly the number and size of the entries buffered, in flight or skipped; every buffer's byte count is that of its entries; every accepted entry is in exactly one place; only droppable entries were dropped |
| LokiProtocol.StepKeeps | gateway/pkg/sink/loki/loki.go:489-605 | Each single step, from any such state, keeps all of this |
| LokiProtocol.RunBounded | gateway/pkg/sink/loki/loki.go:193-205 | The counters exceed the configured limits at most by the held entries whose labels say neither debug nor, if info is not protected, info, and the bytes in addition by less than one largest other entry |
| LokiProtocol.RunSorts | gateway/pkg/sink/loki/loki.go:430-444 | Every offered entry is accepted or dropped; the labels of a dropped one say debug, or info under a policy that gives info up; so never warn, error or fatal |
| LokiProtocol.RunAdmitsExactly | gateway/pkg/sink/loki/loki.go:193-205 | At every offer of a run, the entry is dropped exactly if a limit has been reached and its labels say debug, or unprotected info; else it is accepted |
| LokiProtocol.RunDropsUnderPressure | gateway/pkg/sink/loki/loki.go:193-205 | Every dropped entry was offered in a state of the run in which a limit had been reached |
| LokiProtocol.DroppableExactly | gateway/pkg/sink/loki/loki.go:430-444 | The policy gives up exactly entries that say debug and, with debug first and no protection, info, for which a push request without severity counts |
| LokiProtocol.RunBytes | gateway/pkg/sink/loki/loki.go:221-223 | Over any run the byte counter is the length of the held lines and 32 for each |
| LokiProtocol.KeyLabelsExactly | gateway/pkg/sink/loki/loki.go:248-260 | An entry is keyed on its labels of five names; one that Enqueue takes also on the configured ones, which win |
| LokiProtocol.RunLeaks | gateway/pkg/sink/loki/loki.go:544-550 | After everything has been flushed the counters hold the entries of chunks that could not be encoded, and nothing else |
| LokiProtocol.RunUniform | gateway/pkg/sink/loki/loki.go:209-222 | With Enqueue alone, configured keys without separators and label sets none of whose values looks as if it ended early, every buffer, batch and chunk holds entries of one label set, the one it is sent under |
| LokiProtocol.MistakenMixes | gateway/pkg/sink/loki/loki.go:209-222 | For any entry with a value that looks as if it ended early there is another one that joins its buffer under the wrong labels, whenever there is room for two |
| LokiProtocol.PopHolds | gateway/pkg/sink/loki/loki.go:491-501 | Popping a buffer changes neither the held entries nor the counters |
| LokiProtocol.SettleHolds | gateway/pkg/sink/loki/loki.go:543-601 | Ending a chunk removes just that chunk's entries from the held ones, and none after an encoding error |
| LokiChunks.CutSteps | gateway/pkg/sink/loki/loki.go:504-509 | The chunk loop moves on exactly when the entry cap is at least one |
| LokiChunks.ChunksPacked | gateway/pkg/sink/loki/loki.go:503-604 | The chunks are not empty, concatenate to the batch, keep both caps (bytes but for the last entry), and only the last may stop short of a cap |
| LokiChunks.PackedOnce | gateway/pkg/sink/loki/loki.go:503-604 | Those promises leave no choice: any cut that keeps them is the greedy one |
| LokiChunks.ChunksAreThePacked | gateway/pkg/sink/loki/loki.go:503-604 | So a way to cut a batch is the loop's if and only if it keeps them |
| LokiChunks.FlushedChunks | gateway/pkg/sink/loki/loki.go:489-605 | A flush empties its own stream alone and ends the greedy chunks of its entries in order, each with its own outcome |
| LokiChunks.ChunksInterleave | gateway/pkg/sink/loki/loki.go:489-605 | In every interleaving, the chunks of a popped batch that have ended, followed by the greedy chunks of its rest, are the greedy chunks of the batch |
| LokiOrders.BatchInOrder | gateway/pkg/sink/loki/loki.go:489-605 | In every interleaving, the ended chunks of a batch and then its rest are the popped entries in order |
| LokiOrders.RunInOrder | gateway/pkg/sink/loki/loki.go:179-246 | In every interleaving, for each stream key, the batches in the order of their pops, of each the ended chunks and then the rest, and behind them the buffer, are the accepted entries of the key in order |
| LokiOrders.RunLabelled | gateway/pkg/sink/loki/loki.go:321-331 | In every interleaving, buffers and batches go under the labels that the first accepted entry of their key gave: all of a push request's, the keyed ones otherwise |
| LokiOrders.WaitsSincePush | gateway/pkg/sink/loki/loki.go:447-465 | An accepted entry whose stream has not been popped has waited no longer than the time since the last push of its buffer |
| LokiChunks.FlushedAllStreams | gateway/pkg/sink/loki/loki.go:447-486 | A round of flushes empties the streams it names and changes no other buffer |
| LokiSinks.LokiSink.Enqueue | gateway/pkg/sink/loki/loki.go:179-246 | The class, with its buffer objects, does the offers of the protocol one entry after the other and stays sound |
| LokiSinks.LokiSink.EnqueuePushRequest | gateway/pkg/sink/loki/loki.go:279-366 | The same for the entries of all streams of a push request, under the parsed labels |
| LokiSinks.LokiSink.ShouldDropUnderPressure | gateway/pkg/sink/loki/loki.go:430-444 | Only debug and, by configuration, info may go |
| LokiSinks.LokiSink.Take | gateway/pkg/sink/loki/loki.go:491-501 | The lock section that takes the entries over is the protocol's pop |
| LokiSinks.LokiSink.CutChunk | gateway/pkg/sink/loki/loki.go:504-531 | The scan over entries and bytes ends where the greedy cut ends, with the times and lines up to there |
| LokiSinks.LokiSink.EndChunk | gateway/pkg/sink/loki/loki.go:543-601 | What follows a chunk's outcome is the protocol's chunk end |
| LokiSinks.LokiSink.FlushStream | gateway/pkg/sink/loki/loki.go:489-605 | Pop and loop together are a flush: nothing for a missing or empty stream, else all greedy chunks |
| LokiSinks.LokiSink.FlushDue | gateway/pkg/sink/loki/loki.go:447-465 | Exactly the streams that are due by bytes, entries or age are emptied; after it, what still holds entries is below both caps and younger than the flush interval |
| LokiSinks.LokiSink.FlushAll | gateway/pkg/sink/loki/loki.go:468-486 | Only streams with entries are flushed, as many as the deadline allows; with time to spare no buffer keeps an entry |
| LokiLabels.ParseLokiLabelsString | gateway/pkg/sink/loki/loki.go:369-402 | The loop reads the label map that the pair-by-pair definition gives |
| LokiTexts.SpacedTextReads | gateway/pkg/sink/loki/loki.go:369-402 | Clean labels, with any spaces around names, equals signs, quoted values and commas, and with any pieces without an equals sign between them, are read as written; of two for one key the later counts |
| LokiTexts.DocumentedTextReads | gateway/pkg/sink/loki/loki.go:369-402 | The documented text with comma and space is read as its two labels |
| LokiLabels.ReadsBackExactly | gateway/pkg/sink/loki/loki.go:369-402 | A label set survives printing and parsing exactly if keys and values are clean and no brace stands at the very front |
| LokiLabels.ParsedIsTidy | gateway/pkg/sink/loki/loki.go:369-402 | Whatever the text, parsed keys and values are clean |
| LokiLabels.FrontBraceIsLost | gateway/pkg/sink/loki/loki.go:373-377 | What becomes of a set whose first key starts with a brace |
| LokiLabels.StreamKey | gateway/pkg/sink/loki/loki.go:248-275 | The key is the text of the picked labels with the configured ones on top, in key order |
| LokiKeys.KeyTextReadsBackExactly | gateway/pkg/sink/loki/loki.go:262-274 | With keys free of separators, a greedy reading recovers the label set from a stream key if and only if no value contains `,k=` for a possible key k after its own |
| LokiKeys.KeyTextInjective | gateway/pkg/sink/loki/loki.go:262-274 | Two label sets of that kind with one stream key are equal |
| LokiKeys.KeyTextCollides | gateway/pkg/sink/loki/loki.go:262-274 | Any other label set shares its stream key with a different one |
| LokiConfigured.StreamLabelsAreSinkSets | gateway/pkg/sink/loki/loki.go:248-260 | The label sets of stream keys are just those over the five keys and the configured ones that have every configured label |
| LokiConfigured.OneEndsEarly | gateway/pkg/sink/loki/loki.go:248-275 | Of two such sets with one stream key, a value of one looks as if it ended early |
| LokiConfigured.EarlyEndCollides | gateway/pkg/sink/loki/loki.go:248-275 | Every such set with a value that looks so shares its stream key with another such set |
| LokiConfigured.EndsEarlyByMark | gateway/pkg/sink/loki/loki.go:248-275 | If configured values have no commas, a value looks so exactly if it holds a comma, the configured pairs up to a later free key, and that key |
| LokiConfigured.ShippedEnvIsSafe | gateway/config.yaml:81-84 | With the labels configured there, the value `a,pod=b` of `env` does not look so |
| LokiLabels.KeyTextAmbiguousWithComma | gateway/pkg/sink/loki/loki.go:262-274 | With a comma in a value two label sets share a key |
| SamplerStores.Store.Touch | sampler/pkg/redis/store.go:54-116 | The key's state and the returned counters after one event, each window summed at its own reading of the clock |
| SamplerStores.Store.SumWindow | sampler/pkg/redis/store.go:119-147 | The loop's sum is that of the live buckets of an inclusive range of minutes, zero for a key not seen yet |
| SamplerStores.CountersOrdered | sampler/pkg/redis/store.go:62-116 | Whatever the clock and the order of events: 1 <= CurMin <= Total, no window exceeds Total, which is the number of events; windows read at one time are ordered, and CurMin is within the first while its bucket lives; First and Last are those of the first and last event |
| SamplerStores.CountersExact | sampler/pkg/redis/store.go:105-147 | With a clock that does not go back, a skew and a delay of the window reads with 2 skew + delay <= 7140001 ms, each counter is the number of events in its range of minutes, in spite of expiry, and 1 <= CurMin <= Win10m <= Win1h <= Win24h <= Total |
| SamplerStores.WindowsExact | sampler/pkg/redis/store.go:67-68 | The same for any span up to a day and for the window of any event, whatever was counted between that event and the read |
| SamplerStores.ExactUpTo | sampler/pkg/redis/store.go:67-68 | With a clock not before the epoch that does not go back, the day window is exact on all runs if and only if 2 skew + delay <= 7140001 ms |
| SamplerInterleavings.WindowsExactInterleaved | sampler/pkg/redis/store.go:62-147 | In every interleaving of calls for one key, under the same bound, the window a call sums is the number of events counted so far in its minutes |
| SamplerInterleavings.SumsInTurn | sampler/pkg/redis/store.go:105-116 | So the three sums a call makes in turn are the events counted so far in ten minutes, an hour and a day |
| SamplerAverages.AverageLag | sampler/pkg/redis/store.go:96-100 | After gradual events, those in minute order among them, the average is at least CurMin - (1 - alpha) / alpha |
| SamplerAverages.LagExactly | sampler/pkg/redis/store.go:96-100 | For a run of events, this holds after every event and for every weight if and only if no event finds more than one event more in its live bucket than the event before it did |
| SamplerAverages.AverageNonNegative | sampler/pkg/redis/store.go:96-100 | The average is never negative |
| SamplerAverages.AverageFollows | sampler/pkg/redis/store.go:96-100 | In any order it is at least alpha times CurMin |
| SamplerAverages.AverageBelow | sampler/pkg/redis/store.go:96-100 | In any order it is at most the largest CurMin so far |
| SamplerAverages.LateLags | sampler/pkg/redis/store.go:96-100 | A run of five events, not gradual, on which the lag is larger |
| SamplerLadders.PowerOfTwoExactly | sampler/pkg/policy/policy.go:66-68 | The bit trick holds exactly for the powers of two |
| SamplerLadders.FirstRung | sampler/pkg/service/service.go:106-166 | The reason is the first rung whose condition holds, the note is that rung's, and only the last two rungs thin out |
| SamplerLadders.KeptAsConfigured | sampler/pkg/policy/policy.go:24-62 | In the numbers of the configuration: below error, an event is kept exactly if new, spiking, warming up, a milestone, or due by the rate of its severity |
| SamplerLadders.ThinnedAsConfigured | sampler/pkg/policy/policy.go:56-62 | An event that reaches the last two rungs is kept exactly if its total is a multiple of the configured rate, of 100 where it is zero |
| SamplerLadders.BudgetNamesOnly | sampler/pkg/service/service.go:139-165 | The budget changes no action, only the reason, for debug and info over it |
| SamplerSpikes.SpikesExactly | sampler/pkg/service/service.go:125-130 | Over any run, off the floor and past novelty, an event in a minute with enough events is kept as a spike exactly if CurMin (1 - F alpha) >= F (1 - alpha) times the average before it |
| SamplerSpikes.SpikeIsLarge | sampler/pkg/service/service.go:125-130 | A spike is an event in a minute with at least the configured number of events and the factor times the average |
| SamplerSpikes.GradualNeverSpikes | sampler/pkg/service/service.go:125-130 | After gradual events nothing spikes if F (1 - alpha) / (alpha (F - 1)) is below the smallest spike |
| SamplerSpikes.ShippedNeverSpikes | sampler/config.yaml:14-25 | So with the shipped numbers nothing does |
| SamplerSpikes.BurstSpikes | sampler/pkg/service/service.go:125-130 | With smaller numbers, the second of two events of one minute spikes |
| SamplerLadders.KeptExactly | sampler/pkg/service/service.go:106-166 | An event is kept exactly if it is on the floor, or in a minute with enough events and with the factor times the average, or due by its total alone |
| SamplerLadders.SevereKept | sampler/pkg/policy/policy.go:24-45 | Under a configured policy exactly error and fatal are on the floor, and always kept |
| SamplerLadders.OneInK | sampler/pkg/service/service.go:139-165 | Of any K events with consecutive totals one is kept, whatever the average, the windows and the spikes |
| SamplerLadders.KeptAtMost | sampler/pkg/service/service.go:106-166 | Besides the spikes, and so without any at all, at most max(1, WarmupN) + log2 n + 1 + n / K of the first n events are kept |
| SamplerLadders.SpikesAreSmall | sampler/pkg/service/service.go:125-130 | After gradual events a spike forces CurMin <= F (1 - alpha) / (alpha (F - 1)) |
| SamplerLadders.KeptInOrder | sampler/pkg/service/service.go:106-166 | In minute order and with a steady clock, of n events at most that bound and the limit of a spike for every minute are kept |
| SamplerLadders.SteepNeverSpikes | sampler/pkg/service/service.go:125-130 | With F alpha > 1 no event spikes, in any order |
| SamplerLadders.SteepKeepsFew | sampler/pkg/service/service.go:106-166 | Then the bound on kept events holds for every run of a key |
| SamplerInterleavings.SteepNeverSpikesInterleaved | sampler/pkg/redis/store.go:62-116 | With F alpha > 1 no event spikes, however the commands of calls for one key interleave and whatever clock each sees |
| SamplerInterleavings.SteepKeepsFewInterleaved | sampler/pkg/redis/store.go:62-116 | So the bound on kept events holds in every interleaving |
| SamplerInterleavings.WindowOvertakesTotal | sampler/pkg/redis/store.go:62-116 | Two calls that interleave so that one returns a window of two events and a total of one |
| SamplerInterleavings.TotalsCapWindowsExactly | sampler/pkg/redis/store.go:62-116 | On a schedule of calls, every window is within its call's total, whatever the event times and the clock, if and only if no call sums a window after another one has come in |
| SamplerInterleavings.TotalsCapWindowsWhenSerial | sampler/pkg/redis/store.go:62-116 | For schedules on which all calls finish, if and only if each call finds the earlier ones done |
| SamplerServices.Service.DecideBatch | sampler/pkg/service/service.go:41-103 | Touches and decisions, each with its reason, note and policy version, item by item up to the first nil item or failed reply, after which the touches stay and the decisions are lost |
| SamplerServices.StaysFailed | sampler/pkg/service/service.go:51-55 | Nothing after a failure is touched |
| SamplerServices.Aligned | sampler/pkg/service/service.go:90-98 | A batch that succeeds has one decision per item, under the item's own index |
| SamplerServices.BatchRuns | sampler/pkg/service/service.go:74-79 | A batch runs each key through exactly its own events |
| SamplerServices.DecisionsFollowRuns | sampler/pkg/service/service.go:74-98 | Each decision is made of the ladder's verdict on the counters of its key's run so far |
| SamplerDecisions.DecisionSays | sampler/pkg/service/service.go:74-98 | On a batch that succeeds, action, reason, rate, note, version and window counts of each decision are those of the verdict and the counters of its key's run so far |
| SamplerDecisions.DecisionCounts | sampler/pkg/service/service.go:90-98 | With a steady clock and short delays, the counts of a decision are the events of its key in ten minutes, an hour and a day |
| SamplerDecisions.SevereItemsKept | sampler/pkg/service/service.go:106-114 | Under a configured policy every error and fatal of a batch is kept, whatever Redis holds |
| SamplerDecisions.OneInKOfBatch | sampler/pkg/service/service.go:139-165 | Of any K decisions on one key in a row one is to keep |
| SamplerDecisions.FewKeptOfBatch | sampler/pkg/service/service.go:106-166 | The decisions to keep on one key are at most the ladder's bound for its run and its spikes |
| SamplerDecisions.FailureLeaves | sampler/pkg/service/service.go:74-79 | What the first item that fails leaves: nothing, or one more event under its own key |
| SamplerDecisions.ItemsShareExactly | sampler/pkg/redis/store.go:155-165 | Without colons, two items share counters exactly if tenant, template, service, environment and severity agree |
| SamplerDecisions.TimeIsOwn | sampler/pkg/service/service.go:65-71 | An item is counted at its own time to the millisecond, or at that of the batch |
| SamplerServices.BaseKeyInjective | sampler/pkg/redis/store.go:155-165 | Without colons in their parts, two keys are equal only for the same tenant, template, service, environment and severity, after defaults |
| MinerBatchers.ResultExists | gateway/pkg/miner/batcher.go:133-145 | An index has a result exactly if the answer contains one for it; it is the last such |
| MinerBatchers.EmitAligned | gateway/pkg/miner/batcher.go:102-200 | Whatever the answer: one record per log, in order, under its own position, with the last result that came for it and a fallback exactly where none came |
| MinerBatchers.EmitShadows | gateway/pkg/miner/batcher.go:147-158 | A record gets the last shadows the answer has for it, or none |
| MinerBatchers.FallbackSays | gateway/pkg/miner/batcher.go:82-190 | A record without a result says so: fallback provenance, no confidence, seen just now, and the error if there was one |
| MinerBatchers.RunSound | gateway/pkg/miner/batcher.go:68-234 | Over any run, records sent plus buffer are the logs received, in order; no batch is empty or larger than max(1, maxBatch); after stop or close nothing is left |
| MinerBatchers.RunAligned | gateway/pkg/miner/batcher.go:68-234 | Over any run, each record sits at its log's position in a batch and is a fallback exactly if that batch's answer had no result for it |
| MinerBatchers.TimerDrains | gateway/pkg/miner/batcher.go:204-233 | After the timer every log received has its record |
| MinerBatchers.Batcher.Flush | gateway/pkg/miner/batcher.go:73-202 | The closure, with its two maps, sends these records, with a dummy template of just now for a log without result, and empties the buffer |
| MinerBatchers.Batcher.Loop | gateway/pkg/miner/batcher.go:204-233 | The select loop does the turns of the machine and ends at stop or close |
| Breakers.Breaker.Open | gateway/pkg/sampler/breaker.go:26-40 | Open exactly if enough failures followed the last success and the last one is not further back than the timeout |
| Breakers.Breaker.Fail | gateway/pkg/sampler/breaker.go:51-58 | Adds one failure to the history the breaker answers for |
| Breakers.Breaker.Success | gateway/pkg/sampler/breaker.go:43-48 | Adds one success to it |
| Breakers.MadeExactly | gateway/pkg/sampler/breaker.go:26-40 | While all calls fail, an attempt gets through exactly if too few have failed or the timeout has passed since the last |
| Breakers.MadeApart | gateway/pkg/sampler/client.go:50-101 | After the trip, each RPC of one caller starts later than the timeout after the end of the one before |
| Breakers.FewCallsWhileDead | gateway/pkg/sampler/client.go:50-101 | So at most maxFailures + t / timeout RPCs start up to a time t after the trip |
| SamplerClients.DecisionFound | gateway/pkg/sampler/client.go:106-111 | A decision is found exactly if the response has one for the index; it is the last such |
| SamplerClients.AskedOf | gateway/pkg/sampler/client.go:64-79 | The sampler is asked for each record under its own index and time, with its template, five of its labels, its severity and its tenant |
| SamplerClients.SuppressedByAnswer | gateway/pkg/sampler/client.go:45-134 | A decision other than keep comes from a usable response, at the record's own index, with the breaker closed |
| SamplerClients.DecidedByAnswer | gateway/pkg/sampler/client.go:104-131 | With the breaker closed and a usable response, the last decision for the record is the one it gets |
| SamplerClients.SamplerClient.DecideBatch | gateway/pkg/sampler/client.go:45-134 | Every record gets its decision, with the window counters that came along, or the fallback, and the breaker hears of exactly the RPCs made |
| SamplerBatchers.RunSound | gateway/pkg/sampler/batcher.go:74-144 | Over any run, both sides are made of the received records, each on exactly one side, in order, by its own decision; batches stay small; after stop or close nothing is left |
| SamplerBatchers.RunConserves | gateway/pkg/sampler/batcher.go:74-144 | Kept, suppressed and still buffered records are together as many as were received |
| SamplerBatchers.RunJustified | gateway/pkg/sampler/batcher.go:92-124 | A record is suppressed only if its severity's flag is set, it is fatal or its namespace is set, and it was answered so at its own index, with the breaker closed and a response of the right length |
| SamplerBatchers.RunShadows | gateway/pkg/sampler/batcher.go:107-124 | A kept record is marked as a shadow exactly if neither its severity's flag nor its namespace is set and it is not fatal, or if it was marked before; one the sampler wanted suppressed is kept as a shadow only |
| SamplerBatchers.EnforcedExactly | gateway/pkg/sampler/batcher.go:147-178 | A record is enforced exactly by the flag of its own severity, by being fatal, or by its namespace |
| SamplerEnforcements.SuppressedByFlag | gateway/pkg/sampler/batcher.go:107-124 | Over any run, a suppressed record whose namespace is not set is fatal or of a severity whose own flag is |
| SamplerEnforcements.OnlyFatalWhenOff | gateway/pkg/sampler/batcher.go:147-178 | With all flags off and no namespace set only fatal records are suppressed |
| SamplerEnforcements.FlaggedIsSuppressed | gateway/pkg/sampler/batcher.go:107-124 | A record of a flagged severity, or of a set namespace, to which a usable response says SUPPRESS at its index, is suppressed |
| SamplerEnforcements.OneFlagOneSeverity | gateway/pkg/sampler/batcher.go:147-178 | Changing one flag changes the side and the order of no record of another severity |
| SamplerBatchers.TickDrains | gateway/pkg/sampler/batcher.go:127-144 | After a tick every record received is on one of the sides |
| SamplerBatchers.RunCounted | gateway/pkg/sampler/batcher.go:79-144 | Over any run the attempts follow one another in time, and on any stretch of vain flushes, from the start or from a success on, the RPCs are those that a new breaker lets through |
| SamplerBatchers.RunFewCalls | gateway/pkg/sampler/client.go:50-101 | On any such stretch of a run at most 5 + t / 30000 RPCs start up to t milliseconds after the trip |
| SamplerBatchers.SamplerBatcher.ShouldEnforce | gateway/pkg/sampler/batcher.go:147-178 | The switch and the look-up of the namespace are the enforcement of EnforcedExactly |
| SamplerBatchers.SamplerBatcher.Flush | gateway/pkg/sampler/batcher.go:79-125 | Deciding and routing the record objects is the machine's flush; records that have left are not touched |
| SamplerBatchers.SamplerBatcher.Turn | gateway/pkg/sampler/batcher.go:127-144 | One turn of the select loop is the machine's turn |
| TokenSets.SignatureInjective | docs/assets/js/application.js:2214-2220 | Over an alphabet in which no digit has a smaller character, equal node texts mean equal flags and equal edges |
| TokenSets.TextsTellExactly | docs/assets/js/application.js:2214-2220 | Over an alphabet, texts tell all nodes apart if and only if no digit has a smaller character in it |
| TokenSetBuilders.RedirectSame | docs/assets/js/application.js:2264-2269 | Replacing a child by a node with its flag and edges changes no node's language |
| TokenSetBuilders.RegisteredDistinct | docs/assets/js/application.js:2264-2269 | Two registered nodes that accept the same words are one node |
| TokenSetBuilders.Builder.Insert | docs/assets/js/application.js:2247-2262 | Fails exactly for a word out of order; else the automaton is that of the sequence with the word added, and stays closed, acyclic and consistent |
| TokenSetBuilders.FromArray | docs/assets/js/application.js:2122-2125 | Succeeds exactly for words in order; the automaton is closed and acyclic, and accepts exactly the words and is minimal if among their characters no digit has a smaller one |
| TokenSetBuilders.BuiltRight | docs/assets/js/application.js:2246-2269 | The same of what the steps of the builder, as functions of its state, make of words in order |
| TokenSetDigits.WordIsLost | docs/assets/js/application.js:2264-2269 | For any digit and smaller character, a list of words over these two, in order, of which the automaton does not accept the fourth |
| TokenSetDigits.AlwaysKnowsExactly | docs/assets/js/application.js:2246-2269 | Over an alphabet, every list of words in order gives an automaton of exactly these words if and only if no digit has a smaller character in it |
| TokenSetArrays.ToArray | docs/assets/js/application.js:2196-2213 | From an acyclic automaton, every accepted word exactly once |
| TokenSetIntersections.JointIsBoth | docs/assets/js/application.js:2221-2244 | Walking both automata in step reads the words that one accepts and some path of the other matches, * matching any character |
| TokenSetIntersections.Intersect | docs/assets/js/application.js:2221-2244 | The worklist ends, and its result accepts exactly the words, but for the empty one, that the acyclic set accepts and the query set, loops and all, matches |
| TokenSetGlobs.FromString | docs/assets/js/application.js:2185-2195 | The query set of a term matches exactly what the term means, * standing for any characters; that of the empty term nothing |
| TokenSetGlobs.ExpandTerm | docs/assets/js/application.js:2289 | Building, querying, intersecting and listing yield exactly once each word, but for the empty one, that the automaton accepts and the term means; these are the indexed ones if among their characters no digit has a smaller one |
| Vectors.Vector.PositionForIndex | docs/assets/js/application.js:1987-1990 | The binary search ends at the index or where it belongs |
| Vectors.Vector.Upsert | docs/assets/js/application.js:1995-1998 | Indexes stay ascending, and the list is the plain map with the value added or combined |
| Vectors.Vector.Insert | docs/assets/js/application.js:1991-1994 | The same without combining; a duplicate index leaves the elements alone |
| Vectors.Vector.Magnitude | docs/assets/js/application.js:1999-2005 | The length, whether computed or cached, is the current one |
| Vectors.Vector.Dot | docs/assets/js/application.js:2006-2008 | The merge of both lists sums the products under shared indexes |
| Vectors.SpliceIsInsert | docs/assets/js/application.js:1995-1998 | Splicing a pair in at its position adds it to the map |
| Vectors.DotSymmetric | docs/assets/js/application.js:2006-2008 | The product does not depend on the order of the vectors |
| Vectors.DotSelf | docs/assets/js/application.js:1999-2010 | A vector's product with itself is its squared length |
| Vectors.DotOfOne | docs/assets/js/application.js:2006-2008 | Vectors of one entry under one index have the product of the entries |
| LabelSelectors.EscapeIsOnePass | planner/pkg/service/service.go:226-236 | The two replacements in a row are one pass over the characters |
| LabelSelectors.EscapedHasNoBareQuote | planner/pkg/service/service.go:226-230 | No quote in an escaped value can close it |
| LabelSelectors.SelectorReadsBack | planner/pkg/service/service.go:209-224 | A decoder recovers the three labels, whatever they hold and whatever follows |
| LabelSelectors.SelectorInjective | planner/pkg/service/service.go:209-224 | Different service, env or namespace give different selectors |
| LabelSelectors.QueryReadsBack | planner/pkg/service/service.go:148-157 | So for the whole query: labels and regular expression are recovered |
| TemplateUpserts.Database.UpsertTemplate | indexfeed/pkg/database/database.go:43-55 | One row changes, as the conflict clause says, and no other |
| TemplateUpserts.TableByKey | indexfeed/pkg/database/database.go:43-55 | A row depends on the candidates for its own key only |
| TemplateUpserts.LastSeenIgnoresOrder | indexfeed/pkg/database/database.go:51-54 | last_seen is the latest of all candidates', in whatever order they came |
| TemplateUpserts.RowIsOfApplied | indexfeed/pkg/database/database.go:47-54 | first_seen is the earliest, and the rest of the row that of the last, of the candidates let through |
| TemplateUpserts.FirstSeenExactly | indexfeed/pkg/database/database.go:50-54 | first_seen never grows, and takes a candidate into account exactly if it is let through or not earlier |
| TemplateUpserts.FirstSeenIsEarliestExactly | indexfeed/pkg/database/database.go:43-55 | After any candidates, first_seen is the earliest of all if and only if one with the earliest was the first, of another version than its predecessor, or of a later last_seen than all before it |
| TemplateUpserts.FirstSeenDependsOnOrder | indexfeed/pkg/database/database.go:50-54 | Two candidates whose order decides first_seen |
| TemplateUpserts.SeenInOrder | indexfeed/pkg/database/database.go:50-51 | first_seen <= last_seen if each candidate has it |
| TemplateUpserts.RepeatChangesNothing | indexfeed/pkg/database/database.go:53-54 | Repeating the latest candidate changes nothing |
| CardNumbers.IsValidCreditCard | gateway/pkg/ingest/redactor.go:91-120 | The loop accepts exactly the digit strings of the right length whose Luhn sum is a multiple of ten |
| CardNumbers.SpacedIsSame | gateway/pkg/ingest/redactor.go:91-93 | A space or dash anywhere makes no difference |
| CardNumbers.TestNumberIsValid | gateway/pkg/ingest/redactor.go:100-119 | A four before fifteen ones, the number of the repository's tests, is valid |
| CardNumbers.ChangeIsDetected | gateway/pkg/ingest/redactor.go:100-119 | A valid number with one digit changed is refused |
| CardNumbers.ChangeInTextIsDetected | gateway/pkg/ingest/redactor.go:91-119 | The same in the text as written, with separators |
| CardNumbers.SwapIsDetected | gateway/pkg/ingest/redactor.go:100-119 | A valid number with two unequal neighbours swapped passes exactly if they are 0 and 9 |

## Left out

- SamplerStores.Store.Touch: no other call comes between the commands of one; calls that overlap are in SamplerInterleavings. A window sum, a plain pipeline of up to 1441 GETs, is one read at one time. The average is kept exactly, not rounded to six digits; names under one base key are taken to be disjoint from those of other keys.
- SamplerInterleavings.SteepKeepsFewInterleaved: for runs in which every call has come to its end; reading the times of the first and last event is not a step, and a window sum is one step.
- SamplerServices.BaseKeyInjective: assumes names without colons; with colons two templates can share a key.
- LokiProtocol.RunUniform: says nothing about push requests, which are keyed on five labels and stored under the labels of the first stream.
- LokiSinks.LokiSink.FlushStream: retries, gzip and JSON are one outcome per chunk; a cap below one entry, with which the loop does not end, is excluded.
- MinerBatchers.RunAligned: for batch limits that fit 32 bits.
- SamplerBatchers.SamplerBatcher.Turn: the loop is one turn at a time; enum values unknown to the gateway, on which its metrics code panics, are excluded.
- Breakers.Breaker.Open: one caller at a time; the mutex is not modelled.
- SamplerClients.SamplerClient.DecideBatch: the records of a batch are distinct objects, as they come from the mining stage, and the clock is past Go's zero time.
- LokiSinks.LokiSink.Enqueue: a flag tells entries of push requests from others; entries given to Enqueue do not have it.
- Lower-casing is that of ASCII letters.
- Transport, timers, metrics, logging, configuration, health servers and generated code.
- Postgres beyond the upsert statement, Qdrant, embeddings, Drain3, Unicode normalisation and the regular expressions of the redactor.
- Fuzzy terms, stemming, scoring and the query parser of lunr; the parts of the bundle that are not lunr.
- Draining at shutdown across stages: each batcher is modelled up to its own stop.
- The alpha of the average from its half-life: any weight in (0, 1] is covered.
- Statistics rows (`UpsertStat`), plain overwrites.
