# Verification of the ingest pipeline

A Dafny model of the telemetry pipeline and proofs about it. OTLP requests are
mapped to rows, published to Kafka, consumed in batches, inserted into
ClickHouse and rolled up by materialized views. `dafny verify dfyconfig.toml`
checks everything.

## What is modelled

**Batch handling** (`InsertHandler.dfy`, `ConsumerProtocol.dfy`). The insert handler and
the DLQ are methods over a class of sinks (table, DLQ topic, counters), proved
equal to a function of the batch and of what the environment answers: does each
record unmarshal, what do the insert and the two possible DLQ publishes say. A Go
panic is an answer too; each `recover` is the code that looks at it.
`Consumer.Run` is a labelled step system. One label is one atomic action of one
goroutine (or of the context), so a run is any interleaving of the fetcher, the
workers and the committer, with panics, failed commits and cancellation at any
point. Assumed of the environment: polls return increasing offsets per
partition, at or above the starting commit; a commit that takes effect moves each
partition of its batch to its highest offset + 1, whatever error it reports; a
ClickHouse insert is all-or-nothing, and so is a DLQ publish; there is at least
one worker and a DLQ; no rebalance happens during the run. Loss is accepted by
design: a record counted lost, or a batch counted dropped, is settled.

**Redelivery** (`DedupToken.dfy`, `Redelivery.dfy`). The dedup token as the text
under its hash, the table's token window, and any history of inserts of batches
with fixed boundaries: any order, any repetition, any of them failing, whichever
worker or consumer made them. Crashing consumers are one way such histories arise.
That a batch holds every log record inside its offset ranges is stated where it is
needed.

**Rollups** (`Rollup.dfy`, `MetricRollups.dfy`, `SpanRollups.dfy`). Views fire on
each inserted block, each level reading the block its source table was just
given; tables merge rows of one sorting key in any order. The aggregate is any
commutative, associative `plus`; the two instances give the real columns.
`GROUP BY timestamp` is read as the truncated alias.

**Series deduplication and usage** (`Lru.dfy`, `SeriesDedup.dfy`,
`SeriesInterleaving.dfy`, `MetricMapper.dfy`, `UsageRows.dfy`, `Recorder.dfy`,
`Accounting.dfy`).
The LRU cache, the filter/publish/mark cycle sequentially and interleaved, the
byte apportionment in wrapping 64-bit arithmetic, and `HourlyRecorder` twice: as
a class over heap objects, for who shares what, and as a step system, for Record
and Close racing with a publish. `Accounting.dfy` joins the mappers' tallies, the
stat rows and the recorder into one statement about mapped rows.

**Fast paths** (`Attributes.dfy`, `SpanMapper.dfy`, `LogMapper.dfy`,
`Fingerprint.dfy`, `Utf8.dfy`, `ExpHistogram.dfy`). Attribute maps are heap
objects, so that sharing one map between rows is visible; each fast form is
proved to give what a simple form gives from scratch. A loop over a Go map takes
its keys in any order. Strings are byte strings: one character is one byte.

**Small concurrent objects** (`AsyncPublisher.dfy`, `Authenticator.dfy`). Step
systems with one label per use of a lock, a flag, a queue or a cache, plus the
authenticator one request at a time as a class.

`Ordering.dfy` and `Text.dfy` are sorting by a strict total order, Go's string
order and decimal formatting.

## Where the code does less than one might expect

Each of these is proved, with its exact condition.

- A batch that goes to the DLQ goes there whole, so its malformed records are
  counted malformed and parked: the counters add up to more than the batch
  (`InsertHandler.CountersAddUp`, `InsertHandler.MalformedCountedTwice`).
- `AsyncPublisher.Close` called while another `Close` is waiting returns at once,
  with rows still queued or held; and with a buffer but no workers even the first
  `Close` returns over rows nobody will read (`AsyncPublisher.SecondCloseDoesNotWait`,
  `AsyncPublisher.CloseDrainsWithWorkers`).
- An exponential histogram without positive buckets loses its zero count, and its
  empty lists do not have the shape the rollup asks for
  (`ExpHistogram.ZerosNeedAPositiveBucket`).
- The comment on `mergeAndCapAttrs` says GenAI spans drop the identity keys; those
  of the resource stay (`SpanMapper.ResourceIdentityKeysStay`).
- A log row whose service or environment comes from its record is counted in the
  statistics under its resource's, which may be empty (`LogMapper.TalliedAsStored`).
- A token text holds only the ends of a batch's offset ranges, so two batches
  share one when one has gaps the other fills (`DedupToken.GapsShareTokens`;
  `DedupToken.TokenIsSpans` is the exact condition).

And three properties of a function alone, for arguments its callers do not pass
today:

- Without a DLQ, `PublishAll` on a nil receiver is silent: a failed insert leaves
  its records unaccounted for and the offsets commit anyway
  (`InsertHandler.NilDlqLeavesRecordsUnsettled`). The wiring always builds one
  (internal/app/ingest.go:85, 98, 115 and 130).
- A republish interval below one second passes the guard of `NewDedup` and makes
  `Bucket` divide by zero (`SeriesDedup.BucketPanicsBelowOneSecond`). The
  configuration yields whole seconds (internal/config/ingestion.go:72-73).
- `TruncateUTF8` panics for a negative cap (`Utf8.TruncateUTF8`). Its callers pass
  constants (internal/ingestion/spans/genai.go:53-54,
  internal/ingestion/llmscores/extract.go:47 and 58).

The streams under the stored hashes separate strings by the byte 0xFF. The strings
come from proto3 string fields, whose decoder rejects anything that is not UTF-8;
bytes are hex-encoded and nested values written as JSON
(internal/infra/otlp/protoconv.go:18-34). So the maps hashed are clean of 0xFF, and
`Fingerprint.StreamNamesTheMap` applies to all of them;
`Fingerprint.UnforgeableExactly` says what would hold of arbitrary bytes.

## Model

| member | source | states |
|---|---|---|
| InsertHandler.Sinks.PublishAll | internal/ingestion/core/dlq.go:30-66 | the whole batch is parked under its reason, or counted lost, or (nil DLQ, empty batch) nothing happens; a panicking publish parks and counts nothing |
| InsertHandler.PublishParks | internal/ingestion/core/dlq.go:38-53 | a successful publish adds one letter per record, in order, with its key, value and the reason given, and raises that reason's counter alone; a failed one raises the lost counter alone; a panicking one changes nothing |
| InsertHandler.BatchIsParked | internal/ingestion/core/insert_handler.go:60-70 | a failed insert parks the batch's own letters as an insert failure, a recovered panic as a panic, each with its counter |
| InsertHandler.Sinks.Scan | internal/ingestion/core/insert_handler.go:71-86 | the rows and the malformed count up to the first record whose unmarshalling panics |
| InsertHandler.Sinks.Body | internal/ingestion/core/insert_handler.go:71-106 | table, DLQ and counters after the handler's body, for every way its calls can answer or panic |
| InsertHandler.Sinks.Handle | internal/ingestion/core/insert_handler.go:55-108 | the same for the handler with its deferred recovery; only a panic of the recovering publish escapes |
| InsertHandler.ScanSplits | internal/ingestion/core/insert_handler.go:73-89 | every scanned record is a row or counted malformed, and there are no rows exactly when none unmarshalled |
| InsertHandler.RowsInOrder | internal/ingestion/core/insert_handler.go:73-86 | each record that unmarshals is a row, in batch order: record i is row i less the malformed before it |
| InsertHandler.EveryRecordSettles | internal/ingestion/core/insert_handler.go:55-108 | with a DLQ, or without needing it, every record is inserted, parked under its own key and value, counted malformed or counted lost, unless the panic escapes to the worker |
| InsertHandler.NilDlqLeavesRecordsUnsettled | internal/ingestion/core/dlq.go:30-33 | a batch is settled exactly when a DLQ is configured or the batch does not reach it |
| InsertHandler.CountersAddUp | internal/ingestion/core/insert_handler.go:73-106 | the counters sum to the batch size plus its malformed records if it reached the DLQ; to the batch size exactly when it did not or none was counted malformed |
| InsertHandler.MalformedCountedTwice | internal/ingestion/core/insert_handler.go:75-104 | a batch of two that counts three |
| ConsumerProtocol.StepInv | internal/infra/kafka/consumer.go:33-128 | every step of every goroutine keeps the protocol's invariants |
| ConsumerProtocol.ConsumerIsSafe | internal/infra/kafka/consumer.go:33-128 | in every state of every run: commits are offered in fetch order without gaps, every fetched record below a committed offset was handled and settled (or its batch counted dropped), `done` is signalled at most once per batch, the gauge is never negative |
| ConsumerProtocol.BelowCommitIsOffered | internal/infra/kafka/consumer.go:116-128 | when batches are in log order and commits covered by offers, a fetched record below its partition's committed offset is in a batch offered for commit |
| ConsumerProtocol.CommitsNeverMoveBack | internal/infra/kafka/consumer.go:116-128 | no partition's committed offset ever decreases, whichever commits fail |
| ConsumerProtocol.CommitCoversBatch | internal/infra/kafka/consumer.go:119-125 | a commit that takes effect covers every record of the batch the committer holds, puts each of its partitions one past a record of it, and moves no other partition |
| ConsumerProtocol.ReturnedIsCommitted | internal/infra/kafka/consumer.go:116-128 | if every commit takes effect, then when Run returns every record of every batch given to the committer is below its partition's commit |
| ConsumerProtocol.ReturnIsClean | internal/infra/kafka/consumer.go:49-54 | when Run returns, the gauge is zero, both channels are empty, every batch a worker took was handled and signalled exactly once, and every batch the committer was sent was offered |
| ConsumerProtocol.HandledIsInFlight | internal/infra/kafka/consumer.go:33-128 | a batch being handled is fetched and not yet offered for commit, and never more than 2 * workers + 2 batches are: the bound of the crash theorem while commits succeed |
| ConsumerProtocol.NoDeadlock | internal/infra/kafka/consumer.go:56-128 | unless all is drained and the fetcher polls, or Run has returned, some goroutine can step |
| ConsumerProtocol.WorkShrinks | internal/infra/kafka/consumer.go:56-128 | every step of the program other than a poll lowers a measure over both channels and what workers and committer hold |
| ConsumerProtocol.DrainIsFinite | internal/infra/kafka/consumer.go:78-128 | after cancellation the number of steps is bounded by that measure |
| ConsumerProtocol.ShutdownTerminates | internal/infra/kafka/consumer.go:33-54 | after cancellation a run takes at most 18 + 17 per worker more steps, and can stop only by returning |
| DedupToken.Token | internal/ingestion/core/insert_handler.go:28-53 | the token is the hash of a text that depends only on the set of records |
| DedupToken.ReadsSpanText | internal/ingestion/core/insert_handler.go:46-52 | the text reads back to each partition's smallest and largest offset |
| DedupToken.TokenIsSpans | internal/ingestion/core/insert_handler.go:28-53 | two batches have equal texts exactly when their spans agree |
| DedupToken.TokenNamesSignal | internal/ingestion/core/insert_handler.go:46-52 | texts of signals without a bar agree exactly when signal and spans do |
| DedupToken.PartitionsInOrder | internal/ingestion/core/insert_handler.go:40-51 | the lower partition is written first |
| DedupToken.SpanExample | internal/ingestion/core/insert_handler.go:50 | one partition's text, as the program writes it |
| DedupToken.TokenIsRecordSet | internal/ingestion/core/insert_handler.go:23-53 | for batches that hold every log record in their ranges, texts are equal exactly when the record sets are, in whatever order |
| DedupToken.GapsShareTokens | internal/ingestion/core/insert_handler.go:37-51 | without that, two different batches with one text |
| Redelivery.BatchesHaveDistinctTokens | internal/ingestion/core/insert_handler.go:93-97 | different batches that hold their ranges get different tokens, unless the hash collides |
| Redelivery.RedeliveryIsIdempotent | db/01_spans.sql:109-113 | for any history of inserts, in any order, repeated and failing, the table is each applied batch's rows once, in order of first application, if and only if every applied redelivery reaches back at most `blocks` first applications and `seconds` seconds |
| Redelivery.InFlightIsRecent | internal/ingestion/core/insert_handler.go:23-27 | a batch in flight, with at most `bound` in flight ever, was first applied among the last 2 * bound - 1 first applications |
| Redelivery.CrashesDoNotDuplicate | internal/ingestion/core/insert_handler.go:23-27 | however often a consumer of any number of workers crashes and rereads from its commit, inserting out of order and failing: if at most `bound` batches are in flight and the window holds 2 * bound - 1 blocks, redeliveries within `seconds` leave each applied batch in the table once |
| Rollup.TruncateIsBucketStart | db/05_metrics_rollups.sql:49-52 | a truncated time is the start, a multiple of the bucket, of the one bucket that holds the time |
| Rollup.GroupKeyIsBucket | db/05_metrics_rollups.sql:46-77 | a view groups a row under a key exactly when the key has the row's own GROUP BY columns and begins the bucket that holds its time |
| Rollup.TruncateNests | db/05_metrics_rollups.sql:119-125 | truncating to a finer bucket first changes nothing when the buckets nest |
| Rollup.GroupKeysCompose | db/05_metrics_rollups.sql:36-77 | a coarse view's key of a fine view's key is the coarse key of the raw row |
| Rollup.ViewTotal | db/05_metrics_rollups.sql:54-77 | the rows a view makes of a block combine, key by key, to the block's rows |
| Rollup.ViewIsGrouped | db/05_metrics_rollups.sql:46-77 | a view makes one row per key of a block |
| Rollup.MergeTotal | db/05_metrics_rollups.sql:36-38 | merging two rows of one sorting key changes no key's total |
| Rollup.CascadeAgrees | db/05_metrics_rollups.sql:36-77 | after any inserts and merges every level's stored rows combine, key by key, to one GROUP BY over all raw rows |
| MetricRollups.GroupedIfCounts | db/05_metrics_rollups.sql:46-77 | a view groups a point under a key exactly when tenant, metric, fingerprint, service and host agree and its time lies in the key's bucket |
| MetricRollups.RollupsAgree | db/05_metrics_rollups.sql:36-77 | in metrics_1m, 5m and 1h the stored rows of a key combine to the min, max, sum, count, hist_sum and hist_count of exactly the raw points of its columns whose time lies in its 60, 300 or 3600 seconds |
| MetricRollups.LevelsCascade | db/05_metrics_rollups.sql:110-148 | each metric view groups by what its table sorts by, and the buckets nest |
| SpanRollups.PeerNameIsFirstSet | db/10_span_rollups.sql:97-105 | a client-side span's peer is the first set of peer service, database system, database name, server address and destination; any other span has none |
| SpanRollups.PeerTypeIsSource | db/10_span_rollups.sql:106-112 | the peer's type is `database` or `messaging` exactly when that source names it |
| SpanRollups.GroupedIfCounts | db/10_span_rollups.sql:68-125 | a view groups a span under a key exactly when the 25 other columns agree and its time lies in the key's bucket |
| SpanRollups.RollupsAgree | db/10_span_rollups.sql:57-125 | in span_stats_1m, 5m and 1h the stored rows of a key combine to the request count, row sum and count and duration of exactly the spans of its columns whose time lies in its 60, 300 or 3600 seconds |
| SpanRollups.LevelsCascade | db/10_span_rollups.sql:162-195 | each span view groups by what its table sorts by, and the buckets nest |
| Attributes.CapStringMap | internal/infra/otlp/typed_attrs.go:42-53 | keeps in place the keys with fewer than `limit` smaller ones, and returns how many it deleted |
| Attributes.CapSize | internal/infra/otlp/typed_attrs.go:42-53 | a cap that cuts leaves exactly `limit` keys |
| Attributes.KeptBelowDropped | internal/infra/otlp/typed_attrs.go:42-53 | every key kept is smaller than every key dropped |
| Text.LessIsFirstDifference | internal/infra/otlp/typed_attrs.go:48 | keys are compared as Go compares strings: by the first byte that differs, or by length |
| Attributes.FirstNonEmptyIsFirst | internal/infra/otlp/strings.go:5-15 | the value of the first listed key that has one, empty when none has |
| Attributes.DimensionsAreFirst | internal/infra/fingerprint/resource.go:15-25 | each of the seven dimensions is the first value its own labels have |
| Attributes.CapOnceIsEnough | internal/ingestion/spans/mapper.go:54-67 | capping the base, merging and capping again equals merging and capping once, for all maps and limits |
| SpanMapper.ResourceBaseAttrs | internal/ingestion/spans/mapper.go:54-67 | the capped base, in any key order, without a promoted key |
| SpanMapper.MergeAndCapAttrs | internal/ingestion/spans/mapper.go:152-175 | the base itself when the span adds nothing; otherwise a new map, capped; the base unchanged; no promoted key over a base without one |
| SpanMapper.SharedBaseIsReference | internal/ingestion/spans/mapper_test.go:16-32 | the fast form, shared map included, equals merging the uncapped resource with the span and capping once |
| SpanMapper.NormalizeMessagingAttrs | internal/ingestion/spans/mapper.go:203-214 | fills, in list order, each current key that is unset from the first older name that is set |
| SpanMapper.NormalizedKeys | internal/ingestion/spans/mapper.go:203-214 | for unrelated keys the order does not matter: each current key ends with the first value among its own name and the older ones, and no other key changes |
| SpanMapper.MessagingKeysNormalized | internal/ingestion/spans/mapper.go:196-201 | so for the two keys the rollups read |
| SpanMapper.MapScope | internal/ingestion/spans/mapper.go:42-46 | row by row the simple form, each row the shared base or new, the base whenever the span adds nothing |
| SpanMapper.RowHolds | internal/ingestion/spans/mapper.go:147-175 | a row holds no promoted key; while at most `limit` keys qualify, exactly the resource's unpromoted keys and the span's (less the identity keys of a GenAI span), the span's value winning; beyond that the smallest `limit` of them |
| SpanMapper.SpansInOrder | internal/ingestion/spans/mapper.go:42-46 | the i-th row of a scope is its i-th span's |
| SpanMapper.MapRequest | internal/ingestion/spans/mapper.go:20-52 | all rows equal the simple form's and hold no promoted key, no existing map is changed, and the tally has one entry per resource with spans and counts every row once |
| SpanMapper.TallyIsLabelled | internal/ingestion/spans/mapper.go:47-49 | a tally entry carries its resource's own service, environment and row count |
| SpanMapper.ResourceIdentityKeysStay | internal/ingestion/spans/mapper.go:147-153 | an identity key stays on a GenAI row exactly when the resource carries it and the cap keeps it |
| LogMapper.NewResourceContext | internal/ingestion/logs/mapper.go:69-79 | a private copy of the resource map, its dimensions, and the fallback keys it lacks |
| LogMapper.Resolve | internal/ingestion/logs/mapper.go:81-103 | map and dimensions of patching every missing fallback key from scratch; the shared map exactly when the record supplies none, and never written |
| LogMapper.PatchedKeys | internal/ingestion/logs/mapper.go:81-97 | a fallback key without a value takes the record's, and no other key changes |
| LogMapper.MapRequest | internal/ingestion/logs/mapper.go:29-56 | every row equals the simple form's, and the tally has one entry per resource with records and counts every row once |
| LogMapper.TallyIsLabelled | internal/ingestion/logs/mapper.go:51-53 | a tally entry carries its resource's own service, environment and record count |
| LogMapper.TalliedAsStored | internal/ingestion/logs/mapper.go:51-53 | with the program's keys and labels, a row's service (environment) is the one it is tallied under exactly when the resource has the key itself or the record supplies nothing else for it |
| MetricMapper.RowAccumulator.Add | internal/ingestion/metrics/mapper.go:80-97 | one row per call, one series per distinct non-zero fingerprint |
| MetricMapper.MapRequest | internal/ingestion/metrics/mapper.go:52-78 | a row per data point in order, no request carries two series of one fingerprint, the tally counts every row once |
| MetricMapper.TallyIsLabelled | internal/ingestion/metrics/mapper.go:73-75 | a tally entry carries its resource's own service, environment and point count |
| UsageRows.CountRecords | internal/ingestion/ingestionstats/usage.go:32-35 | the tally's sum modulo 2^64 |
| UsageRows.SharesSum | internal/ingestion/ingestionstats/usage.go:41-47 | floor shares sum to the total or less by under one byte per row |
| UsageRows.Rows | internal/ingestion/ingestionstats/usage.go:28-50 | one row per resource; the bytes sum to the request, exactly when nothing wraps (each row but the last its floor share, the last at least its own and less than one byte per row more) and modulo 2^64 always |
| UsageRows.NextRow | internal/ingestion/ingestionstats/usage.go:41-48 | one turn of the loop: nothing underflows while products fit 64 bits |
| Recorder.HourlyRecorder.Record | internal/ingestion/ingestionstats/recorder.go:50-68 | sums per key into objects of its own; ignored once closing; the caller's rows and rows handed out before keep their values |
| Recorder.HourlyRecorder.Snapshot | internal/ingestion/ingestionstats/recorder.go:119-128 | every buffered object once, and an empty buffer |
| Recorder.HourlyRecorder.Flush | internal/ingestion/ingestionstats/recorder.go:103-117 | the buffer is handed to Publish once; a failure counts its rows dropped |
| Recorder.HourlyRecorder.Close | internal/ingestion/ingestionstats/recorder.go:130-138 | the last flush, an empty buffer, and nothing on a second call |
| Recorder.RecordAllGains | internal/ingestion/ingestionstats/recorder.go:56-67 | each key gains what was recorded for it, less whole words where its counter wrapped |
| Recorder.NothingIsLostOrDoubled | internal/ingestion/ingestionstats/recorder.go:50-138 | over every interleaving of Record, flushes and Close: per key, recorded = buffered + being published + published + dropped (exactly below 2^64, modulo words beyond); after Close nothing is buffered or in hand |
| Recorder.ClosedStaysClosed | internal/ingestion/ingestionstats/recorder.go:53-55 | after Close nothing more is recorded and the buffer only empties |
| Recorder.DroppedOnlyByFailure | internal/ingestion/ingestionstats/recorder.go:111-116 | over any run in which no publish fails nothing is dropped, and in which all fail nothing is published |
| Accounting.EmitUsage | internal/ingestion/ingestionstats/usage.go:15-26 | the recorder gains one row per tally entry, under the entry's key and with its count, together carrying the request's bytes; nothing for a null recorder or an empty request |
| Accounting.MappedRows | internal/ingestion/ingestionstats/usage.go:8-15 | what a request stamped within one hour mapped for a key is the row count of the resources of that service and environment |
| Accounting.MappedRowsAreAccounted | internal/ingestion/ingestionstats/recorder.go:50-138 | over any run of requests, flushes, failures and Close, the rows mapped for a key by the requests recorded are those buffered, being published, published and dropped for it; after Close, published and dropped alone |
| Lru.AddKeeps | internal/ingestion/metricseries/dedup.go:33-36 | adding sets its key, alters no other value, and evicts nothing while there is room |
| Lru.ForgottenOnlyAfterCapacityOthers | internal/ingestion/metricseries/dedup.go:55-77 | a key just touched is forgotten only after `capacity` distinct other keys were touched |
| Lru.RemembersLastPut | internal/ingestion/metricseries/dedup.go:55-77 | a key that, once put, never has `capacity` other keys touched since its own last touch always holds its last value |
| SeriesDedup.NewDedup | internal/ingestion/metricseries/dedup.go:29-37 | disabled exactly for a non-positive capacity or interval; the interval is cut to seconds |
| SeriesDedup.Bucket | internal/ingestion/metricseries/dedup.go:39-44 | the republish interval that holds the clock, counted from the epoch and towards it before; 0 without a cache; a panic for intervals below one second |
| SeriesDedup.BucketPanicsBelowOneSecond | internal/ingestion/metricseries/dedup.go:29-44 | Bucket divides by zero exactly for a positive capacity and an interval between 0 and 1s |
| SeriesDedup.Dedup.FilterUnpublished | internal/ingestion/metricseries/dedup.go:46-67 | the rows let through and the cache after the lookups |
| SeriesDedup.PublishPair | internal/ingestion/metrics/handler.go:50-61 | the rows given to the publisher and the cache afterwards, marked only after success; all rows without a cache; a panic, with the cache untouched, for an interval below one second |
| SeriesDedup.ExportSets | internal/ingestion/metrics/handler.go:50-61 | without eviction an export publishes exactly the rows not yet published in its bucket or later, and only a success is remembered |
| SeriesDedup.ExportTwice | internal/ingestion/metrics/handler.go:50-61 | after a success the same rows are all suppressed within the interval, and all published again in a later one |
| SeriesDedup.SuccessesIncrease | internal/ingestion/metricseries/dedup.go:46-79 | in sequential exports the buckets in which a key succeeds strictly increase, whatever the clock does, as long as from its first success on fewer than `capacity` other keys are touched between its touches |
| SeriesDedup.SuccessesIncreaseWhenKeysFit | internal/ingestion/metricseries/dedup.go:46-79 | so they do for every key when the keys of the successful exports fit the cache |
| SeriesInterleaving.SuccessMeansPublished | internal/ingestion/core/paired_publisher.go:10-25 | over every interleaving, with failures and evictions, each cache entry is backed by a publish in its bucket, and after a successful export each of its series was published in that bucket or a later one |
| Fingerprint.FingerprintHash | internal/infra/fingerprint/hash.go:14-27 | 0 for the empty map, otherwise the hash of the canonical stream, whatever the key order |
| Fingerprint.StreamReadsBack | internal/infra/fingerprint/hash.go:19-25 | the stream parses back to the map when no string holds 0xFF |
| Fingerprint.StreamNamesTheMap | internal/infra/fingerprint/hash.go:14-27 | for maps without a 0xFF byte, streams are equal exactly when the maps are |
| Fingerprint.SeparatorForges | internal/infra/fingerprint/hash.go:10-12 | why the 0xFF byte must be excluded: two maps, one with it, and one stream |
| Fingerprint.UnforgeableExactly | internal/infra/fingerprint/hash.go:14-27 | among maps of arbitrary bytes, no other map has a map's stream exactly when it is empty or a single entry free of 0xFF |
| Fingerprint.SeriesHash | internal/infra/fingerprint/fingerprint.go:13-33 | equals the filter-first form of internal/infra/fingerprint/fingerprint_test.go:14-26: drop, merge, set the sentinels, hash |
| Fingerprint.SeriesIdentity | internal/infra/fingerprint/fingerprint.go:17-33 | two points hash the same bytes exactly when name, temporality and every low-cardinality label agree |
| Fingerprint.ComputeLogId | internal/ingestion/logs/mapper.go:156-166 | the hash of trace id, timestamp and body, separated |
| Fingerprint.LogTextNamesTheRecord | internal/ingestion/logs/mapper.go:156-166 | equal texts exactly for equal trace id, timestamp and body, whatever bytes the body holds |
| Utf8.TruncateUTF8 | internal/infra/otlp/strings.go:17-28 | the string if it fits, else the prefix up to the last rune start at or below the cap; panics exactly for a negative cap |
| Utf8.BoundaryIsRuneStart | internal/infra/otlp/strings.go:24-26 | in valid UTF-8 the code-point boundaries are the rune starts and the end |
| Utf8.TruncationIsLongestValidPrefix | internal/infra/otlp/strings.go:17-28 | for valid UTF-8 the cut prefix is valid, the longest such within the cap, and at most 3 bytes below it |
| ExpHistogram.BaseIsUnique | internal/ingestion/metrics/mapper.go:171 | a scale determines its base |
| ExpHistogram.BoundsDouble | internal/ingestion/metrics/mapper.go:171-180 | 2^scale buckets double the bound, or one bucket spans 2^-scale doublings |
| ExpHistogram.ToExplicit | internal/ingestion/metrics/mapper.go:166-184 | the bounds and counts produced from the scale's base |
| ExpHistogram.ConversionIsFaithful | internal/ingestion/metrics/mapper.go:166-184 | with a positive bucket: strictly increasing bounds, one more count than bounds, the full total, and the exponential form's cumulative count at every bound |
| ExpHistogram.ZerosNeedAPositiveBucket | internal/ingestion/metrics/mapper.go:167-170 | the total survives exactly when there is a positive bucket or no zero count; the rollup's shape exactly with a positive bucket |
| AsyncPublisher.EveryBatchInOnePlace | internal/ingestion/core/async_publisher.go:40-75 | over every interleaving: no send on the closed queue, the queue within its capacity, each batch queued, held, published or dropped exactly once after its Enqueue and never before, the counter equal to the dropped rows |
| AsyncPublisher.DropsHaveReasons | internal/ingestion/core/async_publisher.go:46-68 | a batch is dropped only at a closed publisher, at a full queue or by a failed publish, and published only by a successful one |
| AsyncPublisher.SmoothRunsDropNothing | internal/ingestion/core/async_publisher.go:40-71 | a run in which nothing closes, fills or fails drops nothing; one in which every publish fails publishes nothing |
| AsyncPublisher.DrainedIsSettled | internal/ingestion/core/async_publisher.go:57-71 | with nothing queued or held, every decided batch is published or dropped exactly once |
| AsyncPublisher.CloseDrainsWithWorkers | internal/ingestion/core/async_publisher.go:77-87 | the Close that closes leaves nothing queued or held, exactly when there is a worker or no buffer |
| AsyncPublisher.SecondCloseDoesNotWait | internal/ingestion/core/async_publisher.go:78-82 | a Close that finds it closed guarantees a drain only if there is neither worker nor buffer |
| AsyncPublisher.DrainIsFinite | internal/ingestion/core/async_publisher.go:57-71 | once the queue is closed the workers take boundedly many steps |
| AsyncPublisher.DrainProgresses | internal/ingestion/core/async_publisher.go:57-87 | until all workers have exited, so that Close can return, one of them has a step |
| Authenticator.Authenticator.constructor | internal/auth/resolver.go:51-68 | the defaults for a non-positive TTL or size |
| Authenticator.Authenticator.LookupCache | internal/auth/resolver.go:104-114 | a live entry is a hit, expiry included; an expired one is removed; nothing else changes |
| Authenticator.Authenticator.ResolveTenantID | internal/auth/resolver.go:70-102 | a live entry answers without a lookup; otherwise the key's entry is what a definite lookup found, with its own TTL, or none; nothing else enters the cache |
| Authenticator.RepliesAreGiven | internal/auth/resolver.go:70-126 | over every run a cached reply, shared ones included, is an answer the finder gave for that key, definite, and stored no longer than its TTL before the check |
| Authenticator.CacheHoldsFindings | internal/auth/resolver.go:84-95 | transient errors and refusals are never cached, and the cache stays within its size |
| Authenticator.DefiniteIsStored | internal/auth/resolver.go:116-126 | a definite answer is stored for the configured TTL, or 15 seconds when it is a refusal, from its stamp |
| Authenticator.LiveEntryIsServed | internal/auth/resolver.go:104-114 | an entry read before its expiry, or at it, is the reply |
| Authenticator.OneLookupPerKey | internal/auth/resolver.go:80-96 | at most one lookup per key is in flight |
| Authenticator.NobodyIsStuck | internal/auth/resolver.go:80-96 | a request that is not done has a step, or waits for a leader of its own key that has |
| Authenticator.RequestsEnd | internal/auth/resolver.go:70-102 | a request takes at most 13 steps of its own |

## Left out

- ConsumerProtocol.ConsumerIsSafe: does not model rebalancing, retries inside the Kafka client or broker metadata; the environment assumptions above stand for them.
- InsertHandler.Sinks.PublishAll: does not model the DLQ headers or a publish that delivers part of a batch.
- Redelivery.RedeliveryIsIdempotent: does not model the table's own timing of window cleanup, or redelivery with other batch boundaries, which the system accepts as duplicates.
- MetricRollups.RollupsAgree: does not model val_last (its argument depends on a ClickHouse alias setting), the `any` columns or the histogram quantile state; sums are over the reals.
- SpanRollups.RollupsAgree: does not model the tDigest state or db_statement (`any`); sums are over the reals.
- SeriesDedup.SuccessesIncrease: does not cover a key crowded out of the cache, which may be published again in an earlier bucket.
- ExpHistogram.ToExplicit: computes over the reals, where the base is a given number with the defining power; rounding and overflow of float64 powers are not captured, and negative buckets are not read by the code either.
- Fingerprint.FingerprintHash: takes the hash as a parameter; so do SeriesHash, ComputeLogId and the dedup token. Collisions are not excluded.
- SpanMapper.MapRequest: does not model the row's other fields; the promoted, identity and legacy key lists are parameters, and whether a span is GenAI is an input.
- LogMapper.MapRequest: does not model the row's fields other than resource map and dimensions.
- MetricMapper.MapRequest: does not model rows beyond their fingerprints, nor the switch over metric types that yields the data points.
- Authenticator.ResolveTenantID: the limiter's decision, the clock and the finder's answer are inputs; the token bucket and SHA-256 are not modelled.
- Recorder.NothingIsLostOrDoubled: the jittered timer is a step that may happen at any time; a non-positive flush interval, for which the jitter panics, is not modelled.
- Heap effects in the step systems: AsyncPublisher and Consumer are modelled on values, so a caller that changes rows after Enqueue is not captured.
- `TypedAttrs`, severity and operation-name tables, `*RowValues`, configuration, Prometheus wiring, generated protobuf code: each is settled by reading one branch.
- Kafka, ClickHouse, MySQL, gRPC and HTTP clients and servers, topic creation, TTL deletion, codecs, JSON and protobuf, logging.
