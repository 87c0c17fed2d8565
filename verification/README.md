# Clouditor: caches, streams and pagination

A Dafny model of the parts of Clouditor whose correctness depends on several functions, goroutines
or network calls working together, with proofs of what they promise.

- **Policy evaluation** (`policies/rego.go`, `policies/policies.go`, `MetricConfiguration.Hash`).
  `PolicyModel` gives `Eval`, `evalMap` and `queryCache.Get` as functions on the two caches.
  `RegoEvaluator.RegoEval` is the object that updates its maps in place, proved against them.
  `PolicyFindings` and `PolicyRepeats` say what findings and errors mean and when a call to the source
  is spared. `PolicyAgreement`, `PolicyRuns` and `PolicyChanges` compare whole runs with evaluation
  without any cache. `PolicyConcurrency` is a step system of any number of goroutines with the read-write lock of
  the metrics cache (waiting writers included) and the lock of the query cache; `PolicyCoherence`,
  `PolicyTermination`, `PolicyOrder`, `PolicyKeys`, `PolicyMetadata`, `PolicyInterleaving`,
  `PolicyResting` and `PolicyInvisible` hold what its interleavings keep. `CacheKeys` treats the keys.
- **Self-healing streams** (`api/streams.go`). `StreamProtocol` is a step system of channel objects,
  send loops, put-back goroutines, blocked senders and `GetStream` calls. A message is the number of
  its submission, so two messages are never confused. `StreamCalls`, `StreamQueue`,
  `StreamConservation`, `StreamSerial`, `StreamDrain`, `StreamPanics`, `StreamOverlap` and
  `StreamSenders` hold the results.
- **Pagination** (`service/paginate.go`, `api/pagination.go`). `Sorting` and `Pagination` are the
  serving side, `PageTokens` (in `PageToken.dfy`), `TokenLaws` and `Base64Url` the token text, and
  `ListAll` the client and both sides together. The token follows the Protocol Buffers encoding (base 128 varints,
  default values omitted) and the URL-safe alphabet of section 5 of RFC 4648.
- **Range columns** (`api/assessment/metric.go`). `RangeJson` is the three-way tagged union stored as
  JSON.

Compiling and running Rego, printing a target value, and a `MetricsSource` are parameters. Answers of
a source may depend on the number of the call, so a source can fail for a while and can change. What
`init` and `SendMsg` return is any outcome. Results hold for all of these, with one exception: results
that compare findings up to configuration metadata (`full` is false in `PolicyAgreement`,
`PolicyChanges` and `PolicyResting`) suppose that policies do not read that metadata, that operators
are those of the schema, and that the target values in use (`Rego.targets`) print differently.
`ComparableCanBeMet` shows that these hypotheses can be met.

Where a promise does not hold of the code, the model keeps the code's behaviour, and the exact
condition is proved:

- A listing is complete under every reordering of the slice between calls exactly when no two
  distinct values tie under `less`. With one fixed order it is complete exactly when the effective
  page size is positive, or zero on an empty list. A negative size, or a token that points outside
  the slice, panics.
- The caches are invisible exactly when the applicability key decides which list is right: evidences
  with the same key that evaluate without error have the same applicable metrics, and one that does
  not meets an error on the list of any that does. The key does not name the cloud service, so an
  evidence of one service can fail on the list filled for another, although evaluating it without
  caches succeeds; and a metric that is not on the list is not run, so its error can disappear. The
  same condition is exact for every interleaving of concurrent evaluations.
- The metadata in results is that of the current configuration if changes of configurations are
  announced and handled between evaluations. With concurrent evaluations it need not be, even with
  every event handled: the configuration is fetched before the query lock is taken and can be stored
  after the eviction. The cache is free of outdated configurations exactly in the runs that never
  store one that was changed, and its event handled, in between.
- The comment on `Evict` says that it deletes the keys that belong to the metric. The code also
  deletes the entries of every metric whose id merely begins with the given one.
- Applicability keys are ambiguous when types or tool ids contain dashes: two are equal exactly when the
  pieces between all dashes are.
- `GetStream` panics instead of returning an error exactly when the channel it found is dead and its
  `init` is nil or fails: it overwrites the channel variable with nil and then reads its fields. The
  process ends with everything that is undelivered. Without overlapping calls, everything submitted
  can still be delivered exactly as long as that has not happened.
- With overlapping `GetStream` calls, what is undelivered on a channel object is stranded for ever
  exactly when the process has panicked or the object is lost: no loop sends on it, the map does not
  point to it and no call refers to it. At most one loop sends on each object in every reachable
  state exactly when calls do not overlap; and in a given run, exactly if no call revives a channel
  that another call has revived in the meantime.
- A range is stored exactly when it is set and JSON can express its values. Reading it back loses null
  values, and a variant whose message is nil.

## Model

| member | source | states |
|---|---|---|
| PolicyRuns.CachesInvisibleExactly | policies/rego.go:94-187 | over any set of evidences: in every run of hits, fills, failed fills, events and clearings each evaluation answers as evaluation without caches does (a success only where that succeeds, with the same findings), if and only if for every two evidences with the same key, the first without errors: the same metrics apply to the second, or, if the second is in error, the first one's list meets an error too |
| PolicyRuns.CachedEvalRefinesPlain | policies/rego.go:94-187 | from a new evaluator, over a source that does not change but may fail for a while: an evaluation succeeds only if plain evaluation does, with exactly its findings in the same order, and one that meets no failure succeeds whenever plain evaluation does |
| PolicyRuns.EvalRefines | policies/rego.go:94-187 | one evaluation in any good cache state refines plain evaluation and leaves a good state: every list complete and filled in one go, every query current |
| PolicyRuns.WrongKeyDeviates | policies/policies.go:82-87 | if two evidences share a key and a metric applies only to the second, or the second is in error only off the first one's list, evaluating them in turn gives a wrong answer |
| PolicyRuns.ListHidesError | policies/rego.go:168-184 | an evidence in error is evaluated successfully from a list that has none of the metrics in error |
| PolicyRuns.CachedListHidesError | policies/rego.go:168-184 | concrete case: a metric that crashes on the second evidence did not apply to the first, so evaluating the second succeeds although plain evaluation fails |
| PolicyRuns.HitSucceedsExactly | policies/rego.go:168-184 | evaluation from a cached list succeeds if and only if no metric of that list is missing or in error for this evidence |
| PolicyRuns.ListOfAnotherServiceFails | policies/policies.go:82-87 | concrete case: an evidence of one service fills the list, the same evidence of another service then fails with NotFound although plain evaluation succeeds without findings |
| PolicyChanges.CachedEvalStaysWithinPlain | policies/rego.go:116-184 | however implementations and configurations change, with implementation changes announced: a fill that succeeds means that plain evaluation under the current source succeeds, with the same findings up to configuration metadata; a success from a cached list is a subsequence of the findings that apply, also where plain evaluation fails. With configuration changes announced too, the same including metadata, for all policies and renderings |
| PolicyChanges.EvalWithin | policies/rego.go:122-167 | one such evaluation, and a fill that fails leaves no list behind, not even a partial one |
| PolicyChanges.PublishKeepsSound | policies/rego.go:191-202 | replacing implementations, and configurations, and handling their events keeps every cached query equal to what compiling the current code, with the current configuration, gives |
| PolicyAgreement.HitIsCurrent | policies/rego.go:217-224 | a query found under a key is what compiling afresh would give for this metric, service and configuration, in full or up to metadata |
| PolicyAgreement.ComparableCanBeMet | api/assessment/metric.go:143-145 | what comparing up to metadata supposes is met by all policies that are shown no metadata and all sources that configure natural numbers, each printed as that many digits |
| PolicyAgreement.EvalMapAgrees | policies/rego.go:204-334 | through the query cache, one metric on one resource gets the verdict of fetching, compiling and running afresh, and the cache stays current |
| PolicyAgreement.FillAgrees | policies/rego.go:132-162 | the scan over all metrics yields exactly the applicable ones and their findings, skipping missing metrics and stopping on other errors |
| PolicyAgreement.ServeAgrees | policies/rego.go:168-184 | the scan over a cached list yields the findings of that list, and any error stops it |
| PolicyFindings.EvalFindings | policies/rego.go:94-334 | over any source and caches: each finding of a successful evaluation is of a metric of the cached list, or of the answered list of metrics; running the query cached for it and an answered configuration on the resource gives applicable with that compliance, and the finding has that metric and that query's operator, target value and configuration; a query that was not there before was made from answered configuration and code and compiles. Without a usable resource, or when the list of metrics cannot be fetched, that error is reported and both caches stay |
| PolicyFindings.VerdictExactly | policies/rego.go:204-334 | when a metric is missing, not applicable or in error, in terms of the answers of the source and the outcome of the policy; a finding has the compliance that running the policy gave and the fetched configuration's operator and target |
| PolicyFindings.FindingsExactly | policies/rego.go:125-162 | plain evaluation has one finding for each applicable metric, in order, each as its policy says |
| PolicyFindings.GetStores | policies/rego.go:344-369 | a hit answers from the cache without a call; a miss makes one call, and on success the key holds exactly the returned query, made from the given configuration and the fetched code; all other entries stay, and a failure stores nothing |
| PolicyFindings.SecondGetIsFree | policies/rego.go:352-358 | asking again for the key, of any source, gives the same query and makes no call |
| PolicyFindings.ListsAfterEval | policies/rego.go:108-187 | over any source and caches: an evaluation touches no list but its own, and not a cached one even if it fails on it; a fill that succeeds caches the metrics of exactly its findings, in order, and one that fails leaves the entry that counts as not cached |
| PolicyRepeats.RepeatNeedsNoCode | policies/rego.go:94-187 | after a successful evaluation the same evidence evaluates to the same findings with one configuration call per listed metric and nothing else, even if every other call fails, and leaves both caches as they are |
| PolicyRepeats.ErrorsExactly | policies/rego.go:125-184 | which error is reported: from a cached list NotFound if the first metric that does not evaluate is missing, the other error if it is in error; a fill never reports a metric as not found |
| PolicyRepeats.EventKeepsTheRest | policies/rego.go:191-202 | an event leaves every cached list, and every cached query whose key does not begin with the metric, and makes no call |
| RegoEvaluator.RegoEval.constructor | policies/rego.go:77-89 | a new evaluator has empty caches |
| RegoEvaluator.RegoEval.Get | policies/rego.go:344-369 | result and new query cache of the object, as the function that `GetStores` and `SecondGetIsFree` describe: a hit changes nothing, a miss fetches, compiles and stores, and stores nothing on an error |
| RegoEvaluator.RegoEval.EvalMap | policies/rego.go:204-334 | configuration, key, cached query and result on the object's own maps, as the function that `EvalFindings` and `EvalMapAgrees` describe |
| RegoEvaluator.RegoEval.FillList | policies/rego.go:125-162 | the filling loop, in place, computes the recursive scan |
| RegoEvaluator.RegoEval.ServeList | policies/rego.go:168-184 | the serving loop, in place, computes the recursive scan |
| RegoEvaluator.RegoEval.Eval | policies/rego.go:94-187 | result and whole new state of the object, error paths included, as the function that `EvalFindings`, `ErrorsExactly` and the run results describe |
| RegoEvaluator.RegoEval.Evict | policies/rego.go:381-391 | deleting while iterating leaves exactly the entries whose key does not begin with the metric, unchanged |
| RegoEvaluator.RegoEval.Empty | policies/rego.go:371-378 | deleting while iterating leaves nothing |
| RegoEvaluator.RegoEval.HandleMetricEvent | policies/rego.go:191-202 | an event of any type evicts the metric's queries and touches nothing else, the applicability lists included |
| PolicyCoherence.QueryCacheIsCoherent | policies/rego.go:344-391 | in every reachable state of any interleaving, also while a goroutine holds the lock with a fetched implementation: a cached query of a metric without pending event comes from its current implementation and from a configuration whose hash is in its key |
| PolicyCoherence.StepKeepsCoherence | policies/rego.go:94-391 | every atomic step of every goroutine keeps that invariant |
| PolicyCoherence.NoDeadlock | policies/rego.go:111-167 | in every reachable state, while any goroutine is unfinished, some goroutine can step |
| PolicyCoherence.SectionsExclude | policies/rego.go:111-167 | in every reachable state, while one goroutine fills a list no other fills or reads any, only one is inside the query cache, and no reader gets in while one waits to fill |
| PolicyCoherence.LatestChangeHolds | policies/rego.go:191-202 | from any state and through any run, a changed implementation or configuration is what the source holds until its next change, and each change is announced by one event about its metric |
| PolicyInvisible.InterleavingInvisibleExactly | policies/rego.go:94-187 | over a source that does not change, in every interleaving of evaluations of a set of evidences and event handlers, every evaluation that has returned answers exactly as plain evaluation does, metadata included, if and only if the applicability key decides which list is right |
| PolicyInvisible.WrongKeyShows | policies/policies.go:82-87 | if a list filled for one evidence is wrong for another with the same key, two evaluations after each other, run to the end, give a wrong answer |
| PolicyResting.InterleavedEvalIsRight | policies/rego.go:94-187 | after any run with any changes, once every event is handled: an evaluation that starts and ends while the source rests returns, however interleaved with others, exactly plain evaluation's findings if it fills its list (and plain evaluation succeeds), a subsequence of those that apply if it is served; without failing calls a fill fails only where plain evaluation does. Each finding has the compliance that running the current implementation on the resource gives, its metric and that configuration's operator and target. Up to metadata; in full if no outdated configuration is cached or in flight |
| PolicyMetadata.FreshExactly | policies/rego.go:212-224 | in every state of a run, every cached query without a pending event has the current configuration, metadata included, if and only if the run never stores a configuration that was changed, and the change handled, after it was fetched |
| PolicyMetadata.HandledChangeIsMissed | policies/rego.go:212-224 | for any metric, service and configurations: a reachable state with every event handled in which the configuration from before a change is still cached |
| PolicyInterleaving.PhaseStaysRight | policies/rego.go:104-187 | every step of an evaluation keeps what it has found so far equal to what plain evaluation finds on the metrics dealt with |
| PolicyResting.SettledIsCurrent | policies/rego.go:344-391 | with no event outstanding, every cached query is what compiling the current implementation gives |
| PolicyOrder.ListsStayOrdered | policies/rego.go:125-167 | under any interleaving of evaluators, handlers and changes, every cached list is a subsequence of the catalogue |
| PolicyConcurrency.StepKeepsLocks | policies/rego.go:111-167 | after every step each lock is held by exactly the goroutines that are inside the section it protects |
| PolicyConcurrency.SomeoneCanStep | policies/rego.go:344-352 | whenever the locks match the sections, some goroutine can step: the query lock is only ever taken last |
| PolicyConcurrency.CachedNeedsNoCall | policies/rego.go:344-358 | in any state, a goroutine that finds its query cached goes on with it and releases the lock, even if the source fails |
| PolicyConcurrency.FailedCallReturns | policies/rego.go:116-187 | in any state, an evaluation whose call to the source fails returns an error, not NotFound, and adds nothing to the query cache |
| PolicyConcurrency.FillLeaves | policies/rego.go:125-167 | in any state, a fill that returns leaves its list cached if it succeeds and none under its key if it fails, even one stored meanwhile; no other list changes, and no other step changes any |
| PolicyConcurrency.HandlingTakesEvent | policies/rego.go:191-202 | only the end of a handler takes an event away, one about its metric |
| PolicyTermination.StepDoesWork | policies/rego.go:94-187 | every step of any goroutine, whatever it meets, strictly decreases a measure of the work left |
| PolicyTermination.EveryScheduleFinishes | policies/rego.go:94-202 | from any reachable state every schedule is finite, bounded by that measure, and ends with all calls returned and all locks free |
| CacheKeys.QueryKeyInjective | policies/rego.go:220 | equal query keys if and only if equal metric, service, operator and printed target value, through unpadded base64url; so if and only if equal target value, where the two print differently unless equal |
| CacheKeys.QueryKeyDeterminesParts | api/assessment/metric.go:143-145 | equal query keys have the same metric, service and configuration hash, whatever the operators and however values print |
| CacheKeys.EvictionExactly | policies/rego.go:381-391 | evicting removes every entry of the metric for all services and configurations, and an entry of another metric exactly when the evicted id is a prefix of its id |
| CacheKeys.KeyBeginsWithMetric | policies/rego.go:220 | every query key begins with its metric, dashes or not, so eviction by prefix reaches all entries of the metric |
| CacheKeys.EvictionTakesLongerIds | policies/rego.go:381-391 | concrete case: evicting "AtRestEncryption" removes the entries of "AtRestEncryptionEnabled" |
| CacheKeys.KeysCollideExactly | policies/policies.go:82-87 | for any types and tool ids: applicability keys are equal if and only if the pieces between all dashes are, spaces removed |
| CacheKeys.ApplicabilityKeyExactly | policies/policies.go:82-87 | without dashes, keys are equal if and only if types and tool agree up to spaces |
| CacheKeys.SpacesThroughJoin | policies/policies.go:82-87 | removing spaces after joining is joining the parts without spaces |
| CacheKeys.SpacesVanish | policies/policies.go:82-87 | exactly the spaces are removed: none is left, a text without any is untouched, and taking one out beforehand makes no difference |
| CacheKeys.DashesCollide | policies/policies.go:82-87 | concrete collision: tool "b-c" on type "a", and tool "c" on types "a" and "b" |
| StreamConservation.MessagesAreConserved | api/streams.go:117-283 | in every state any interleaving can reach, overlapping calls included, each message submitted to a channel object is in exactly one place (delivered, queued, in a loop's hand, waiting to be put back, held by a blocked sender) and nothing else is anywhere |
| StreamConservation.OpConserves | api/streams.go:218-254 | every step of a send loop, sender or put-back goroutine changes the number of copies of a message only by submitting it |
| StreamQueue.QueueIsFifo | api/streams.go:218-283 | in every state any interleaving can reach, what was received from the queue followed by what is in it is exactly what entered it, by Send or put back, in that order; it holds at most 1000 messages, and a blocked sender or put-back can go on exactly while it holds fewer; what was delivered is what the successful SendMsg calls sent, in their order, and a message counts as failed exactly if a call for it failed |
| StreamQueue.PutBackWaits | api/streams.go:245-248 | in any interleaving, a failed message that is put back is received again only after everything that was queued at that moment |
| StreamQueue.SentInTurn | api/streams.go:218-254 | without overlapping GetStream calls, SendMsg is called once for every message received, in the order of receipt, failed and repeated ones included |
| StreamCalls.FirstCallExactly | api/streams.go:152-186 | a call for a target without a channel registers one that is empty and live, with a stream of its own and one send loop; if the stream cannot be opened, nothing is registered |
| StreamCalls.LiveCallExactly | api/streams.go:117-142 | a call for a target with a live channel changes nothing |
| StreamCalls.RestartExactly | api/streams.go:189-215 | a call for a dead channel gives it a new stream and one more send loop and makes it live, with its queue and every message in it, being put back or waiting kept; if the stream cannot be opened, the process panics, with the stream gone if the attempt failed |
| StreamCalls.NextStreamIsNew | api/streams.go:152-215 | in every reachable state the next stream is one that no channel has |
| StreamSerial.SingleSender | api/streams.go:189-254 | without overlapping GetStream calls: one channel object; exactly one loop that may call SendMsg if it is live (none only while a loop is about to set `dead` or a caller is about to start one), none if it is dead |
| StreamSerial.StreamIsNotReplacedUnderSender | api/streams.go:189-206 | the stream is replaced, by a successful or failed restart, only when no loop may still send on it |
| StreamSerial.DeliveryInOrder | api/streams.go:218-254 | across any failures and restarts, messages whose sending never failed are delivered, in hand and queued in exactly the order of their acceptance, and the delivered ones are a gapless prefix |
| StreamDrain.OpDoesWork | api/streams.go:218-254 | without new sends and failures every step strictly decreases the weighted number of undelivered messages and keeps the sending loops |
| StreamDrain.SomeStepEnabled | api/streams.go:169-170 | while a loop may send and something is undelivered, some such step is enabled, full queue or not |
| StreamDrain.EveryDrainDelivers | api/streams.go:218-254 | every such run is finite, bounded by that measure, and ends with everything submitted delivered exactly once |
| StreamDrain.NothingIsStrandedExactly | api/streams.go:117-254 | in a state reached without overlapping calls, whatever SendMsg and first calls have failed: a state with every submitted message delivered exactly once can still be reached, without new messages, if and only if no restart has failed (or all was delivered before) |
| StreamPanics.GetStreamPanicsExactly | api/streams.go:133-139 | in any run, overlapping or not, the process panics if and only if some call found its channel dead and its init then was nil or failed |
| StreamPanics.FailedRestartStrandsMessage | api/streams.go:133-139 | concrete case without overlap: a message fails, the next call cannot restart the stream, and the message can no longer be delivered |
| StreamOverlap.StrandedExactly | api/streams.go:117-254 | with overlapping calls: a channel object with undelivered messages never delivers again, in any continuation, if and only if the process has panicked or the object is lost |
| StreamOverlap.DeliverableExactly | api/streams.go:117-254 | everything submitted on a channel object can still be delivered exactly once, without new messages, if and only if it already is, or the process lives and the object is not lost |
| StreamOverlap.LostNeverDelivers | api/streams.go:152-186 | a channel object without a sending loop, which the map does not point to and no GetStream call refers to, stays so and never delivers another message |
| StreamOverlap.OneSenderExactly | api/streams.go:117-142 | every reachable state has at most one sending loop on every channel object if and only if GetStream calls do not overlap |
| StreamSenders.OneSenderInRunExactly | api/streams.go:189-215 | in any given run, every channel object has at most one sending or breaking loop or call about to start one, in every state, if and only if every call that revives a channel finds it still dead |
| StreamOverlap.OverlapCanStrandMessage | api/streams.go:123-129 | two overlapping first calls can reach a state in which a submitted message will never be delivered |
| StreamOverlap.OverlapCanStartTwoSenders | api/streams.go:133-139 | from any state of a live process with a dead registered channel, two overlapping calls can add two sending loops to it |
| ListAll.SliceListingIsComplete | api/pagination.go:91-123 | following tokens over PaginateSlice with any positive page sizes, the values reordered before each call, ends and gives exactly the unique sorted arrangement, cut into consecutive pages of the requested sizes |
| ListAll.CompleteWithoutTiesExactly | service/paginate.go:55-78 | every value is listed exactly as often as it occurs, under every reordering and all positive sizes, if and only if no two distinct values tie |
| ListAll.TieLosesValue | service/paginate.go:55-78 | in any sorted list with two tied places, exchanging them between two calls serves the first value twice and the second never |
| ListAll.TiesCanLoseValues | service/paginate.go:55-78 | concrete case: two tied values listed one at a time |
| ListAll.CompleteExactly | service/paginate.go:111-118 | over an unchanging list, complete if and only if the effective size is positive or zero on an empty list; a zero size gives nothing, a negative one panics |
| ListAll.FailureLosesWholeList | api/pagination.go:107-112 | the client gets no list at all if and only if one of the calls the listing needs fails |
| ListAll.ListAllPaginated | api/pagination.go:91-123 | over any service, watched for any number of calls: if the service ends by then, the loop has returned all pages in order, or nothing if a page failed; otherwise it holds everything received so far and goes on with the last token |
| ListAll.ClientEndsExactly | api/pagination.go:101-120 | the loop returns at all if and only if some call along the tokens fails or returns the empty token |
| ListAll.GatheredIsCollected | api/pagination.go:101-120 | a complete list is what the pages held, one after the other |
| ListAll.GatheredFromSlice | api/pagination.go:101-120 | after k calls over a slice the client holds its first k pages, and its token continues there |
| ListAll.StorageErrorLosesList | api/pagination.go:107-112 | if the database reports an error in any of the calls that a listing needs the client gets no list, and otherwise the whole one |
| ListAll.FollowSlice | service/paginate.go:60-78 | from any issued token, the rest of the list is delivered as a partition |
| ListAll.SliceListing | service/paginate.go:60-78 | a slice of n values takes max(1, ceil(n/s)) calls |
| ListAll.FollowStorage | service/paginate.go:83-98 | from any issued token, storage delivers the remaining records in floor(m/s) + 1 calls |
| ListAll.StorageAgreesWithSlice | service/paginate.go:60-97 | both ways list the same sequence; storage needs one call more if and only if s divides n > 0 |
| Pagination.PaginateSlice | service/paginate.go:55-78 | the caller's slice ends as a sorted arrangement of what it was, and the reply is the requested page of it, which `FirstPageExactly`, `NextPageExactly` and `PanicsExactly` describe |
| Pagination.FirstPageExactly | service/paginate.go:104-154 | in terms of the options: a first request gets the first n values, n being the default size for page size 0, the maximum for anything above it and else the requested size, all if there are fewer; the token is empty exactly at the end (or for size 0), and else names that position and size; a negative size panics |
| Pagination.NextPageExactly | service/paginate.go:104-154 | a later request takes its start from the token and its size from the request, and the next token differs from the presented one only in its start |
| Pagination.FailsExactly | service/paginate.go:83-140 | a request to a storage fails exactly if the database reports an error or the token does not decode, and never panics |
| Pagination.StoragePageExactly | service/paginate.go:83-98 | a storage page of any size in terms of the options: whatever the token's start: the records from there on (all for a negative start, none beyond the end), at most that many, all for a negative size; the end is an empty or short page |
| Pagination.PanicsExactly | service/paginate.go:60-77 | a request fails if and only if its token does not decode, and panics if and only if the token points outside the slice or the size is negative |
| Pagination.BoundsExactly | service/paginate.go:65-77 | 64-bit clamping serves exactly the values from start on, at most size of them, and reports the end exactly when they are exhausted |
| Pagination.SlicePageStep | service/paginate.go:104-154 | the next token is empty if and only if the slice is exhausted, and otherwise points inside it |
| Pagination.StoragePageStep | service/paginate.go:83-98 | one storage page; the next token is empty if and only if the page came back short |
| Pagination.IssueToken | service/paginate.go:142-149 | a token that moved forward is never the empty text and leads to its own start |
| PageTokens.TokenRoundTrip | api/pagination.go:56-85 | every int64 start and int32 size round-trips, negatives and omitted zeros included; the text is empty if and only if both are zero |
| PageTokens.UnmarshalMarshal | api/page_token.pb.go:53-54 | the wire format of the two fields round-trips |
| PageTokens.ReadVarintVarint | api/page_token.pb.go:53-54 | reading a base 128 varint undoes writing it, whatever follows |
| TokenLaws.ReencodeIsStable | api/pagination.go:56-85 | for every text that decodes at all: encoding the token and decoding that again gives the same token, unknown fields of all wire types, groups included, and superfluous bytes of any kind in the text notwithstanding |
| TokenLaws.LastOneWins | api/page_token.pb.go:53-54 | of repeated fields the last one counts, and numbers are cut to 64 and 32 bits in two's complement |
| TokenLaws.UnknownIsKept | api/page_token.pb.go:53-54 | a well-formed field that the schema does not know, groups nested up to 10001 levels included, only adds itself to the unknown fields, whatever stands before and after it |
| TokenLaws.Written | api/page_token.pb.go:53-54 | the bytes of some tokens: field tags 8 and 16, low groups first, zeros omitted |
| TokenLaws.MinusOneWritten | api/page_token.pb.go:53-54 | minus one of either width is written as ten bytes |
| TokenLaws.TagRefused | api/pagination.go:76-81 | field number 0, a stray end of a group, the wire types 6 and 7, and fixed-size values that are cut off are refused, whatever was read before |
| TokenLaws.NumberRefused | api/pagination.go:76-81 | a field number that is 0 or has more than 29 bits is refused, whatever follows |
| TokenLaws.CutOffRefused | api/pagination.go:76-81 | a number that is cut off is refused |
| TokenLaws.TooLarge | api/pagination.go:76-81 | a number of more than 64 bits is refused, one with superfluous bytes is read |
| TokenLaws.EmptyTextIsZero | api/pagination.go:69-85 | the empty text decodes to the token with both fields zero |
| Base64Url.RoundTrip | api/pagination.go:64-73 | padded base64url decodes to the bytes it encodes, and is empty only for no bytes |
| Base64Url.DecodesExactly | api/pagination.go:70-73 | a text without line breaks decodes if and only if its length is a multiple of four and it consists of characters of the alphabet followed by at most two padding characters |
| Base64Url.LineBreaksSkipped | api/pagination.go:70-73 | a line break anywhere in the text makes no difference |
| Base64Url.LettersInOrder | api/pagination.go:64 | the first 36 characters of the alphabet, in order |
| Base64Url.RestInOrder | api/pagination.go:64 | the other 28, in order |
| Base64Url.SextetExactly | api/pagination.go:70-73 | exactly the 64 characters have a value, and each its own |
| Base64Url.EncodeRawInjective | api/assessment/metric.go:143-145 | unpadded base64url is injective |
| Sorting.SortSlice | service/paginate.go:56-58 | the array ends as a sorted arrangement of its old contents |
| Sorting.ArrangementUnique | service/paginate.go:56-58 | without ties there is only one sorted arrangement, whatever order one starts from |
| Sorting.ExchangeTied | service/paginate.go:56-58 | exchanging two tied elements of a sorted list gives another sorted arrangement of it |
| RangeJson.RoundTripExactly | api/assessment/metric.go:48-133 | a range is stored if and only if it is set and JSON can express its values; reading back never fails and never picks another variant, and restores the range if and only if the message is present and holds no null value |
| RangeJson.UnmarshalExactly | api/assessment/metric.go:48-72 | for every document and receiver: allowed values are taken if present and well-formed, else an order, else bounds; otherwise the receiver keeps its range, and an error is reported exactly if the document is no object (and not null) or its bounds are malformed |
| RangeJson.MarshalExactly | api/assessment/metric.go:79-102 | the document of a stored range has exactly one key, that of its variant; `values` is in it if and only if the list is not empty, with its values in order, and each bound if and only if it is not zero |
| RangeJson.Range.UnmarshalJSON | api/assessment/metric.go:48-72 | the receiver's new range and the reported error for any document, as `UnmarshalExactly` describes them |
| RangeJson.Range.Scan | api/assessment/metric.go:121-133 | a column that is not JSON text is an error and leaves the receiver unchanged; any other is read as `UnmarshalExactly` describes |

## Left out

- ListAll.CompleteWithoutTiesExactly: supposes a positive maximal page size, and that `less` is a strict weak order, without which sorting promises nothing.
- PolicyRuns.CachesInvisibleExactly: metric ids are dash-free and service ids have 36 characters (section 4 of RFC 9562), as for all results that rely on query keys.
- Sorting.SortSlice: an insertion sort with the contract of `sort.Slice`; which order tied elements get is left open.
- Slices longer than 2^63 - 2^31 elements, for which `start + size` would overflow.
- PolicyResting.InterleavedEvalIsRight: for evaluations during which the source changes nothing is said beyond `QueryCacheIsCoherent` and `FreshExactly`, since there is no one state of the source to compare them with.
- PolicyChanges.CachedEvalStaysWithinPlain: up to metadata, it supposes policies that do not read metadata, operators of the schema, and target values in use that print differently; so do `EvalWithin`, `InterleavedEvalIsRight` and the lemmas they rest on.
- Streams are a step system instead of mutable objects: a send loop is not a method with a loop. Steps are sequentially consistent, so the unsynchronised reads and writes of `dead` and `stream` are not treated as data races.
- A panic is the end of the process; a caller that recovers from it is not modelled, and the repository has none.
- `recvLoop` and `CloseAll` in `api/streams.go`: they discard data or call into gRPC.
- Rego compilation and execution, the ontology's resource conversion, type assertions on query results, and the wording of errors; a NotFound about an implementation or a configuration is one error value, everything else another.
- Encoding JSON as text, and matching of field names regardless of case, in `RangeJson`. Documents are values, so a bound written as 5.0 is the number 5, which encoding/json refuses for an integer field.
- The database behind `Storage.List` beyond order, offset and limit; request validation and filters.
- `RPCConnection` in `api/connection.go`: a lazily filled field, which would only add easy members.
- Authorization, servers, command line, logging and generated code.
