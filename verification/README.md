# metrics-alerting core, modelled in Dafny

metrics-alerting is a Go metrics service. An **agent** collects runtime gauges
and a poll counter into an in-memory store. It ships that store to a
**server** in batches over HTTP or metric by metric over a gRPC stream, and it
retries a send that the server refused. The server keeps the metrics in a map
from name to text. A gauge is kept as the text that was put, in whatever
spelling the float parser accepted. A counter is kept as the decimal text of
its running sum.

This project models:

- both server stores: the current `storage/metrics.go` and the older
  `storage/storage.go`, which recovers from a panic;
- both agent stores: `agent/stats.go` with typed records and the older
  `storage/stats.go` with text records;
- the three delivery loops: the batch worker of `httpagent.go`, repeated in
  `routines.go`; the stream worker of `grpcagent.go`; and the earliest
  `routine.go`;
- the gRPC conversions of `utils/grpc/convert.go`;
- the `host:port` flag value of `models/address.go`;
- the row table of `entities/index.go`;
- the config-file precedence of `infra/config/agent_flags.go`.

The modules are:

- `GoStrconv`: int64 arithmetic, `strconv.ParseInt`/`Atoi` and decimal formatting, written out.
- `GoMaps`: Go's unordered map iteration.
- `HttpStatus`, `Wrappers`: shared constants and `Option`.
- `ServerStorage`, `LegacyStorage`: the two server stores.
- `RuntimeMetrics`, `Entities`, `AgentStats`, `LegacyStats`: the agent's metric names, records and stores.
- `GrpcConvert`: the conversions.
- `Delivery`, `GrpcDelivery`, `LegacyDelivery`: the sending loops.
- `NetAddress`: the address flag value.
- `AgentFlags`: the config file merge.

Stores whose maps the Go code updates in place are classes with `map` fields.
Their `Put`, `Get` and `Update` methods are each proved equal to a pure outcome
function, and the properties are lemmas about those functions. Two methods
range over a Go map: `AgentStats.StatStorage.GetAll` and
`LegacyStorage.MemStorage.HTML`. They are specified through a ghost iteration
`order`, which lists every key exactly once, together with direct facts about
what they return.

A few things from outside the code are inputs to the model:

- Floating-point parsing is a `FloatParser` oracle.
- The network is an oracle `responses: nat -> SendResult`, indexed by the
  global call number.
- A `select` that picks the cancelled context is an oracle
  `cancelled: nat -> bool`.
- A sleep is recorded as its length in seconds.

## Model

| member | source | states |
|---|---|---|
| GoStrconv.AddInt64 | internal/storage/metrics.go:49 | int64 `+`: the exact sum when it fits, otherwise the sum wrapped by 2^64 in either direction |
| GoStrconv.FormatInt | internal/storage/metrics.go:50 | `%v` of an int: non-empty, holds no ':' or '.', starts with '-' exactly for negatives |
| GoStrconv.ParseInt | internal/storage/metrics.go:39-46 | `strconv.ParseInt(s, 10, 64)`: a result is always an int64 and comes only from non-empty text without '.' or ':' |
| GoStrconv.ParseFormatInt | internal/storage/metrics.go:39-50 | a stored counter reads back as the int64 that was written |
| GoStrconv.FormatIntInjective | internal/storage/metrics.go:50 | two different int64 values are never stored as the same text |
| ServerStorage.PutOutcome | internal/storage/metrics.go:22-56 | every branch of Put is stated: an empty name gives 404; an unknown kind gives 501; a gauge is stored verbatim or refused with 400; a corrupt stored counter gives 500; a bad delta gives 400 but leaves a new counter at "0"; a good delta is added with wrap-around; no other name changes |
| ServerStorage.GetOutcome | internal/storage/metrics.go:59-68 | an unknown kind gives 501, a missing name gives 404, otherwise the stored text and 200 |
| ServerStorage.MemStorage.constructor | internal/storage/metrics.go:16-18 | the new store is empty |
| ServerStorage.MemStorage.Put | internal/storage/metrics.go:22-56 | the in-place update leaves the map and status that PutOutcome gives |
| ServerStorage.MemStorage.Get | internal/storage/metrics.go:59-68 | the three outcomes of a lookup, equal to GetOutcome |
| ServerStorage.MemStorage.GetAll | internal/storage/metrics.go:71-73 | the whole map, with 200 |
| ServerStorage.GaugeRoundTrip | internal/storage/metrics.go:27-31 | an accepted gauge reads back verbatim with 200, under either known kind |
| ServerStorage.RejectedGaugeKeepsValue | internal/storage/metrics.go:28-30 | an unparsable gauge is refused and what was readable before stays readable |
| ServerStorage.CounterAccumulates | internal/storage/metrics.go:32-50 | any non-empty series of int64 deltas on one name stores the wrapped running sum from 0, or from the stored start |
| ServerStorage.CounterStep | internal/storage/metrics.go:34-50 | one counter Put of a formatted delta stores the wrapped sum and returns 200 |
| ServerStorage.CounterPutsFrame | internal/storage/metrics.go:32-50 | a series of counter Puts on one name leaves every other name and its value untouched |
| ServerStorage.WrappedSumExact | internal/storage/metrics.go:49 | when no running total overflows, the wrapped sum is the plain sum |
| ServerStorage.IncrementsAreCounted | internal/storage/metrics.go:32-50 | n increments of "1" on a new name leave exactly n, for any n up to MaxInt64 |
| ServerStorage.ThreePlusFour | internal/storage/metrics.go:32-50 | deltas "3" then "4" on a new name read back as "7" |
| LegacyStorage.LegacyPutOutcome | internal/storage/storage.go:22-61 | the older Put, branch by branch: there is no empty-name check, and a corrupt stored counter panics, which is recovered with status 0 and the map unchanged |
| LegacyStorage.MemStorage.constructor | internal/storage/storage.go:63-65 | the new store is empty |
| LegacyStorage.MemStorage.Put | internal/storage/storage.go:22-61 | the in-place update equals LegacyPutOutcome |
| LegacyStorage.MemStorage.HTML | internal/storage/storage.go:67-90 | the page is the header, one row per stored name in some enumeration of the keys that has no repeats and misses none, then the footer; it always starts with the header and ends with the footer, and an empty store gives only those two |
| LegacyStorage.AppendRow | internal/storage/storage.go:78-84 | adding a name to the order appends exactly that name's row to the page |
| LegacyStorage.MemStorage.Get | internal/storage/storage.go:92-101 | identical to the current store's lookup |
| LegacyStorage.EmptyNameAccepted | internal/storage/storage.go:31-36 | the older store saves a gauge under "", which the current store refuses with 404 |
| LegacyStorage.RecoveredPanicStatus | internal/storage/storage.go:44-47 | stored "1.3" plus delta "8" returns status 0 from the older store and 500 from the current one |
| LegacyStorage.AgreesWithCurrentStore | internal/storage/storage.go:22-61 | apart from the empty name and a corrupt stored counter, the two stores give the same map and status |
| RuntimeMetrics.PollCountIsNew | internal/agent/stats.go:106 | the 27 runtime gauges and PollCount use different names |
| Entities.Table.constructor | internal/entities/index.go:21-23 | a new table has no rows |
| Entities.Table.Put | internal/entities/index.go:26-29 | one row is appended at the end and the earlier rows are kept |
| AgentStats.PutOutcome | internal/agent/stats.go:43-73 | a gauge is stored as a value-only record and a counter as a delta-only record, replacing and not adding; a parse failure returns its error with the map unchanged; an unknown kind is ignored with nil; records keyed by their own id stay so |
| AgentStats.UpdateWrites | internal/agent/stats.go:76-109 | Update's 29 Puts in order: the 27 runtime gauges, then RandomValue, then PollCount |
| AgentStats.StatStorage.constructor | internal/agent/stats.go:36-40 | the new store is empty and well keyed |
| AgentStats.StatStorage.Put | internal/agent/stats.go:43-73 | the in-place update equals PutOutcome and keeps the store well keyed |
| AgentStats.StatStorage.Update | internal/agent/stats.go:76-109 | the store becomes the fold of its Puts over the 29 writes, and the result is always nil |
| AgentStats.StatStorage.GetAll | internal/agent/stats.go:218-226 | one record per stored name, in some order with no repeats and no omissions: as many records as names, each of them a stored record, and every stored record among them |
| AgentStats.GetAllRecordsWellFormed | internal/agent/stats.go:218-226 | each record GetAll returns carries its own name and exactly the field its kind needs |
| AgentStats.PutAllKeys | internal/agent/stats.go:76-109 | a series of Puts never removes a name and adds only names that it wrote |
| AgentStats.PutAllUntouched | internal/agent/stats.go:76-109 | a name that no write mentions keeps its record |
| AgentStats.PutAllWellKeyed | internal/agent/stats.go:43-73 | every series of Puts keeps each record under its own id |
| AgentStats.PutAllAcceptedPresent | internal/agent/stats.go:43-73 | every write that parses leaves its name in the store |
| AgentStats.UpdatePollCount | internal/agent/stats.go:106 | after Update, PollCount holds exactly the count as a delta-only counter record |
| AgentStats.UpdateGaugesPresent | internal/agent/stats.go:78-104 | after Update, each runtime gauge whose formatted value parses is present |
| AgentStats.UpdateUntouched | internal/agent/stats.go:76-109 | Update leaves every other stored name as it was |
| AgentStats.CountersDoNotAccumulate | internal/agent/stats.go:58-69 | two counter Puts on one name keep only the second value, unlike the server |
| LegacyStats.Names | internal/storage/stats.go:33-182 | the set of names a write list assigns, in both directions |
| LegacyStats.UpdateWrites | internal/storage/stats.go:33-182 | Update's 29 assignments in order: the 27 runtime gauges, then PollCount, then RandomValue |
| LegacyStats.StatStorage.constructor | internal/storage/stats.go:27-31 | the new store is empty |
| LegacyStats.StatStorage.Update | internal/storage/stats.go:33-182 | the map becomes the fold of the 29 assignments, and the result is always nil |
| LegacyStats.AssignIsOverride | internal/storage/stats.go:33-182 | assigning a list is overriding the old map with the map of the list alone |
| LegacyStats.AssignKeys | internal/storage/stats.go:33-182 | the keys afterwards are the old keys plus the written names |
| LegacyStats.AssignWritten | internal/storage/stats.go:33-182 | every written name holds one of the records written under it |
| LegacyStats.AssignUntouched | internal/storage/stats.go:33-182 | a name that is never written keeps its record |
| LegacyStats.AssignLastWins | internal/storage/stats.go:33-182 | a name holds the last record written under it |
| LegacyStats.AssignWellNamed | internal/storage/stats.go:33-182 | records stay stored under their own names |
| LegacyStats.AssignIdempotent | internal/storage/stats.go:33-182 | repeating the same assignments changes nothing |
| LegacyStats.UpdateNames | internal/storage/stats.go:33-182 | Update writes exactly the 27 runtime names, PollCount and RandomValue |
| LegacyStats.UpdateKeys | internal/storage/stats.go:33-182 | after Update the keys are the old ones plus those 29 names, and the other names keep their records |
| LegacyStats.UpdateExtras | internal/storage/stats.go:170-179 | PollCount holds the formatted count as a counter and RandomValue holds the random text as a gauge |
| LegacyStats.UpdateGauges | internal/storage/stats.go:35-169 | each runtime name holds a gauge record under its own name |
| GrpcConvert.ConvertCodeHTTPtoGRPC | internal/utils/grpc/convert.go:29-42 | each of 404, 400, 500 and 501 maps to its own code in both directions; every other status maps to Unknown |
| GrpcConvert.ConvertFromMetricsToGRPC | internal/utils/grpc/convert.go:12-27 | succeeds exactly for gauge and counter; id and type are copied; the field of the kind is copied and the other stays zero |
| GrpcConvert.StoreStatusesHaveCodes | internal/utils/grpc/convert.go:29-42 | every status the server store returns except 200 has a gRPC code other than Unknown |
| GrpcConvert.ConvertAgentRecords | internal/utils/grpc/convert.go:12-27 | the agent's gauge and counter records convert to the expected messages, and an unknown type is refused |
| Delivery.RoundAttempts | internal/agent/httpagent/httpagent.go:65-74 | a round makes between one and four calls |
| Delivery.AttemptsFromStops | internal/agent/httpagent/httpagent.go:66-73 | once k calls are refused, every call before the last is refused, and an early stop means the last answer was not a refusal |
| Delivery.RoundStops | internal/agent/httpagent/httpagent.go:64-74 | stops only on an answer that is not ECONNREFUSED, or after four refusals |
| Delivery.RetryRound | internal/agent/httpagent/httpagent.go:64-74 | the retry loop makes the calls given by RoundAttempts and returns the last answer; it sleeps 0, 1, 3, 5 seconds up to its call count; all earlier calls were refused |
| Delivery.Worker | internal/agent/httpagent/httpagent.go:55-82 | the worker's loop equals the recursive specification of taking jobs until cancel, close or error |
| Delivery.WorkerBounds | internal/agent/httpagent/httpagent.go:55-82 | the worker takes at most the queued jobs, makes one to four calls per job, and any error is the final answer of the last round |
| Delivery.WorkerDeliversAll | internal/agent/httpagent/httpagent.go:55-82 | with every call answered and no cancellation, every job is taken with one call each, and the result is nil |
| Delivery.WorkerSucceedsAfterRetries | internal/agent/httpagent/httpagent.go:64-77 | refusals followed by success do not stop a worker: when every round ends in success and there is no cancellation, every queued job is taken and the result is nil |
| Delivery.WorkerCancelledFirst | internal/agent/routines.go:113-115 | a context cancelled before the first job gives nil and no call |
| Delivery.RefusedTwiceThenOk | internal/agent/routines.go:120-130 | refused, refused, then success: three calls with sleeps 0, 1 and 3, and nil |
| Delivery.AlwaysRefused | internal/agent/routines.go:120-133 | four refusals: four calls with sleeps 0, 1, 3 and 5, and the refusal is returned |
| Delivery.OtherErrorStopsAtOnce | internal/agent/routines.go:127-133 | another error stops the round after one call and is returned |
| Delivery.Tick | internal/agent/httpagent/httpagent.go:28-51 | one report tick starts RateLimit workers and hands one job to one round; with RateLimit at most 0 it blocks forever |
| GrpcDelivery.SendJob | internal/agent/grpcagent/grpcagent.go:92-113 | the job loop equals its recursive specification |
| GrpcDelivery.JobDelivers | internal/agent/grpcagent/grpcagent.go:92-113 | the delivered messages are the converted metrics in order; there is no error exactly when all are delivered; an error names the metric right after the delivered ones |
| GrpcDelivery.JobCalls | internal/agent/grpcagent/grpcagent.go:101-112 | one to four calls for each metric sent or failed, and none for a metric that does not convert |
| GrpcDelivery.JobCallBound | internal/agent/grpcagent/grpcagent.go:92-113 | a job makes at most four calls per metric |
| GrpcDelivery.JobDeliversAll | internal/agent/grpcagent/grpcagent.go:92-113 | with every call answered, every metric is delivered with one call each |
| GrpcDelivery.Worker | internal/agent/grpcagent/grpcagent.go:83-116 | the stream worker's loop equals its recursive specification |
| GrpcDelivery.StreamDeliversAll | internal/agent/grpcagent/grpcagent.go:83-116 | with every call answered and no cancellation, the stream worker takes every job and returns nil |
| GrpcDelivery.StreamSucceedsAfterRetries | internal/agent/grpcagent/grpcagent.go:83-116 | when every job ends without error, whatever calls came before it, and there is no cancellation, the stream worker takes every job and returns nil |
| GrpcDelivery.AgentRecordsConvert | internal/agent/grpcagent/grpcagent.go:93-99 | a buffer of well-formed agent records never fails to convert |
| LegacyDelivery.Tick | internal/agent/routine.go:62-74 | success: one call, no log; another error: one call, logged as a failure; a refusal: retried after 1, 3, 5 seconds until an answer that is not a refusal, and always logged as retriable; on the same answers it makes as many calls as the newer round, whose pauses are these with a 0-second pause in front |
| LegacyDelivery.RefusedThenOkRetriesOnce | internal/agent/routine.go:63-71 | a refusal followed by success gives a tick of two calls with one 1-second pause; by Tick's contract the refusal is still logged |
| NetAddress.JoinSplit | internal/models/address.go:17 | joining the pieces of strings.Split gives the original text back |
| NetAddress.SplitJoin | internal/models/address.go:17 | splitting joined pieces that hold no separator gives the same pieces |
| NetAddress.ParseAddress | internal/models/address.go:16-28 | accepted exactly with two pieces, a non-empty host and an int port; the host-and-port error comes exactly from the piece checks |
| NetAddress.ParseFormatAddress | internal/models/address.go:16-32 | printing a valid address and setting it back gives the same host and port |
| NetAddress.StringParsesBack | internal/models/address.go:30-32 | what String prints, Set accepts as the same address |
| NetAddress.Address.constructor | internal/models/address.go:34-36 | localhost, port 8080 |
| NetAddress.Address.Set | internal/models/address.go:16-28 | on success takes the parsed host and port; on error returns it and leaves both fields unchanged |
| NetAddress.RefusesHostOnly | internal/models/address.go:18-19 | a value with no colon is refused as not host:port |
| NetAddress.RefusesEmptyHost | internal/models/address.go:18-19 | an empty host is refused |
| NetAddress.RefusesThreePieces | internal/models/address.go:18-19 | two colons are refused |
| NetAddress.RefusesBadPort | internal/models/address.go:21-24 | a port that is not an integer is refused with the parse error |
| NetAddress.AddressTestValues | internal/storage/address_test.go:9-81 | the test's 8080 prints as "8080" and "808o" is not a port |
| AgentFlags.PickString | internal/infra/config/agent_flags.go:73-75 | a text setting takes the file's value exactly when its flag was not passed and the value is not empty |
| AgentFlags.PickInt | internal/infra/config/agent_flags.go:76-78 | a number setting takes the file's value exactly when its flag was not passed and the value is not zero |
| AgentFlags.MergeKeepsPassedFlags | internal/infra/config/agent_flags.go:73-90 | a setting whose flag was passed never changes |
| AgentFlags.MergeIgnoresEmpty | internal/infra/config/agent_flags.go:73-90 | an empty or zero value in the file never overrides |
| AgentFlags.MergeIdempotent | internal/infra/config/agent_flags.go:73-90 | merging the same file twice is merging it once |
| AgentFlags.MergeWithoutFlags | internal/infra/config/agent_flags.go:73-90 | with no flags passed, a file that sets every setting wins on each of them |
| AgentFlags.AgentConfig.constructor | internal/infra/config/agent_flags.go:30-37 | the flag defaults: localhost:8080, 2, 10, "", 1, "" |
| AgentFlags.AgentConfig.ParseConfig | internal/infra/config/agent_flags.go:54-93 | the open, read and unmarshal errors leave the settings unchanged; a `null` document, which decodes without error into a nil pointer, crashes at the first field read before anything is assigned; a loaded file is merged field by field |
| AgentFlags.AgentConfig.LoadConfigFile | internal/infra/config/agent_flags.go:42-44 | the file is read only when a path is set, and its error is dropped; a `null` document still crashes the agent |

## Left out

- Mutexes, goroutines, `errgroup` and channels are not modelled as concurrency. The model runs a worker's jobs in sequence. A `select` between cancellation and a job is the `cancelled` oracle.
- Sleeps are recorded as their lengths in seconds, and the 1-second request timeout of `httpagent.go:68` is left out. Nothing measures time.
- `strconv.ParseFloat` is an oracle. Only whether it succeeds matters to the stores. `fmt` `%v` of the runtime fields and of the random float is abstracted: Update takes the 27 formatted runtime strings and the formatted random value.
- Reading `runtime.MemStats`, `rand`, and polling (`Poll*`, `Send*` bodies, HTTP and gRPC clients, request encoding, signing, encryption, gzip) are not part of this model. The network is the `responses` oracle.
- The infinite `for` loops of `SendStats` in `httpagent.go`, `routines.go` and `routine.go` are modelled as a single tick. The workers run over a finite job queue that ends with the closed channel.
- Delivery.Tick: the workers that find the channel closed make no calls and return nil. Only the one round is modelled, and cancellation inside that round is not.
- Delivery.Tick: with RateLimit at most 0, `jobs <- st` waits forever. The model returns `Blocked` for that case instead of diverging.
- ServerStorage.MemStorage.GetAll returns the map value. The Go code hands out the live map, and later writes through it are not modelled.
- The 29 straight-line `Put`/assignment statements of both `Update` functions are modelled as one loop over the list of writes that `UpdateWrites` gives in source order.
- Command-line flag parsing is not modelled: the set of passed flag names is an input. `env.Parse` overrides are not modelled either. The config file's open, read and JSON decoding are abstracted as `ConfigFile`. Its `NullDocument` case stands for the JSON text `null`, the one valid document that leaves the decoded pointer nil. The default config path is a constructor parameter.
- AgentStats.UpdateGaugesPresent only holds for gauges whose formatted value the float parser accepts, because the formatter of runtime values is abstracted.
- AgentFlags.AgentConfig.ParseConfig: the nil-pointer panic on a `null` document is reported as `crashed` with the settings unchanged. The process exit that follows, since nothing recovers the panic, is not modelled.
- The `Address.String` function has no contract of its own. Its round trip with `Set` is NetAddress.StringParsesBack.
- Go's `int` is 64 bits wide, so `Atoi` is modelled as `ParseInt` with the int64 range. `Itoa` is modelled as `FormatInt`.

## Findings

| source | as written | input that shows it | evidently intended | confidence | as-written member | corrected member |
|---|---|---|---|---|---|---|
| internal/storage/storage.go:44-47 | a stored counter that does not parse panics. The deferred `recover` swallows the panic, so `Put` returns the zero value 0, which is not an HTTP status | stored `{"SomeMetric": "1.3"}`, counter delta `"8"` (the case of storage_test.go:90-102, which expects 500) | 500 Internal Server Error, as the current `metrics.go:40-42` returns | not executed | LegacyStorage.RecoveredPanicStatus | ServerStorage.PutOutcome |
