# evald, modelled and proved in Dafny

evald takes in telemetry of coding agents and LLM applications over OTLP, stores it, and scores it in
evaluations that gate a build. This project models the parts of it where a wrong branch loses data,
counts a call twice, charges a judge call twice or passes a gate that should fail, and proves what
those parts are for. One module stands for one component; every name below is in the system's own
terms.

**Taking in.** `OtlpJson` is the pair of tree rewrites that make OTLP-JSON readable: they commute, each
is a fixed point after one run, and what they leave behind is stated for the whole tree. `Otlp` holds
log records and attributes. `SessionMemory` is the memory of log dialects, a request-local map over a
bounded node-wide one; `Codex`, `CodexRuns` and `CodexSplits` are the Codex session machine on top of it.
The main result is that cuts of a log stream into export requests cannot be seen, with the exact
condition; then that a turn is one trace and a refusal marks its own result. `CodexCalls` says of every record of a
stream whether it is a span, and of a model or tool call which one. `GeminiCli` and `GeminiCalls` are the same for the
second dialect with a memory, and `LogsDoor` is the loop over records, on both memories, with the account of what became
of each and of what either policy keeps.

**One call, once.** `CallLedger` is the bounded memory of stored calls as a class. `CallDelivery` is the
transition system of concurrent requests that filter, append and remember, with no loss under every
interleaving and one copy per window when requests do not overlap; `ClaudeCode` ties both signals of
Claude Code to it.

**Payloads.** `BlobStore` is the content-addressed store with an arbitrary hash, so collisions are real,
and a disk that may fail. `Offload` is the pass over spans and the resolver that undoes it.

**Judging.** `JudgeCanon` is the canonical encoding and its reader, `JudgeCache` the memoised loop,
`JudgeRuns` its agreement with the cache-free run and `JudgeCosts` the estimate and the rerun. The hash, the
backend and the reading of a reply are parameters; where a result needs the hashes not to collide, the
exact condition is proved to be necessary as well.

**Evaluating.** `EditDistance` proves the two-row loop against the shortest edit script. `Calibration` and
`CalibrationPairs` are the judge-versus-human regression over the reals. `Scores`, `Dataset`, `EvalRun`, `EvalReadBack` and
`EvalCompare` follow a run from its outcomes to stored scores, back to aggregates and into the comparison of
two runs. `Xml` and `XmlTree` are an XML 1.0 printer and reader, `Junit` and `JunitReport` the report and what
an XML reader finds in it, `JunitGates` ties it to the gates, and `EvalCommands` is `eval run` and `eval compare`
from the configuration to the written report.

**Storing.** `Durability` is the storage engine as a state machine: the writer's group commit, the compactor's
flushes and merges, queries over memory and blocks, and a node that may be killed between any two steps.
`DurabilityProof` shows that nothing acknowledged is lost and nothing is answered twice in any run, and
`DurabilityLimits` where that ends; `MergePlan` is the grouping of blocks that decides the name of a merge,
and `MergeRuns` what it means for runs.
Below it, `WalFile` is the framing of the log and what is read of a torn file, and `SpanKey` what a span is told
apart by; above it, `RecentSpans` and `SpanQuery` show that a query which holds only a bounded selection of memory
and of the blocks answers as one that collects and sorts everything.

`Wrappers` and `Numerals` are shared vocabulary.

Where the source loops or updates in place, the model does: methods with loops and classes with fields,
each proved equal to a specification function or against a property, and the theorems are about those
functions. `f64` is `real`, square roots are characterised by their squares, integers have the source's
bounds where a bound decides a branch, and SHA-256, SipHash, FNV, the student quantile, Welch's test,
number formatting, the wire form of a span and sorted iteration are function parameters.

Code and documentation disagree in three places, and the model follows the code. The verdict of a
calibration is documented as either of two conditions, but the second implies the first
(`Calibration.SignificanceNeverDecides`). The cache key of a judge is documented as ruling out a wrong
hit; it rules it out exactly when the hashes do (`JudgeRuns.InvisibleIff`). The engine is documented as
never losing a span; it may, in the two cases below (`DurabilityLimits.SafeIff`).

Five properties one would expect are false of the code, each with a witness and its condition:

- an inline payload that begins like a reference is not restored (`Offload.OffloadThenResolve`);
- a judge named `agg` can take away the stored aggregate of another evaluator (`EvalReadBack.ReadBackIff`,
  `EvalReadBack.AggJudgeShadows`);
- the estimate of judges is exceeded when two cases, of one judge or of two, share a key alone
  (`JudgeCosts.EstimatesHoldIff`);
- a write to the log that fails part of the way leaves bytes at which recovery stops reading, and the
  segment goes on taking acknowledged spans behind them (`DurabilityLimits.TornWriteLosesTheNext`,
  `WalFile.BehindTornWriteIsLost`);
- a merged block is named by its day and segment numbers alone, so two merges of one day over the same
  numbers overwrite each other (`DurabilityLimits.ReusedNameLosesTheFirst`).

## Model

| member | source | states |
|---|---|---|
| `EditDistance.Levenshtein` | src/eval.rs:645-659 | the two-row loop, rows overwritten and swapped, returns the edit distance of the two strings |
| `EditDistance.DistIsShortestScript` | src/eval.rs:645-659 | a number is that distance exactly when some script of so many single-character edits turns one string into the other and no shorter one does |
| `EditDistance.TriangleInequality` | src/eval.rs:645-659 | the distance of two strings is at most the way over any third |
| `EditDistance.DistSymmetric` | src/eval.rs:645-659 | the distance is the same both ways |
| `EditDistance.DistZeroIffEqual` | src/eval.rs:645-659 | it is zero for equal strings and no others |
| `EditDistance.DistBounds` | src/eval.rs:645-659 | it lies between the difference of the lengths and the larger length |
| `EditDistance.LevenshteinSimilarity` | src/eval.rs:636-643 | the similarity is in [0, 1], is 1 for equal strings and no others, and is what the distance leaves of the larger length |
| `Calibration.Calibrate` | src/calibrate.rs:86-162 | nothing below two pairs; otherwise the affine fit, bias, errors, correlation, interval and verdict, each against its definition over all pairs |
| `Calibration.Accumulate` | src/calibrate.rs:102-117 | the six running sums of the loop are the sums over all pairs |
| `Calibration.Pearson` | src/calibrate.rs:124-131 | where both sides have spread, the correlation whose square is the covariance squared over both spreads, which the clamp leaves alone; zero and flagged otherwise |
| `Calibration.LeastSquares` | src/calibrate.rs:132-133 | no affine map of the judge's scores has a smaller sum of squared residuals than the reported one |
| `Calibration.FitIsUniqueIffSpread` | src/calibrate.rs:132-133 | another map does as well exactly when the judge has no spread |
| `Calibration.CauchySchwarz` | src/calibrate.rs:124-131 | the covariance squared never exceeds the product of the spreads |
| `Calibration.CorrelationInRange` | src/calibrate.rs:126 | so the quotient the code clamps is in [-1, 1] already |
| `Calibration.CorrelationIsExplainedShare` | src/calibrate.rs:124-133 | the squared correlation is the share of the human spread the fit explains |
| `Calibration.BiasWithinMae` | src/calibrate.rs:97-119 | the bias is at most the mean absolute error |
| `Calibration.MaeWithinRms` | src/calibrate.rs:119-120 | which is at most the root mean square error |
| `Calibration.ErrorsAreOrdered` | src/calibrate.rs:97-120 | in every reported calibration \|bias\| <= mae <= rmse |
| `Calibration.SquaredErrorSplits` | src/calibrate.rs:97-120 | the mean squared error is the squared bias plus the spread of the differences |
| `Calibration.CorrectionNeverHurts` | src/calibrate.rs:132-133 | applying the correction never increases the squared error |
| `Calibration.SignificanceNeverDecides` | src/calibrate.rs:142-146 | the verdict is the threshold on the mean absolute error alone: the significance clause can never change it |
| `Calibration.BiasInterval` | src/calibrate.rs:135-140 | the interval is centred on the bias and its half-width squared is the quantile squared times the variance of the mean difference |
| `CalibrationPairs.CollectPairs` | src/calibrate.rs:170-202 | from the scores the store lists: the pairs of the targets the judge scored, in their order, made of the newest score of each side |
| `CalibrationPairs.NewestIsNewest` | src/calibrate.rs:175-193 | the first score a rater gave a target in a list that is newest first is none older than any other it gave |
| `CalibrationPairs.PairedIffBothRated` | src/calibrate.rs:170-202 | what is paired are exactly the newest scores of a target both have rated, and each such target gives one pair |
| `CallLedger.Ledger.constructor` | src/calls.rs:53-67 | a ledger begins empty with room for at least one key |
| `CallLedger.Ledger.Filter` | src/calls.rs:76-104 | the batch is filtered against the remembered keys, the drop counter grows by the spans removed, and the memory stays as it was |
| `CallLedger.Ledger.Remember` | src/calls.rs:107-122 | the set and the queue go on holding the same distinct keys, at most the capacity: the newest ones |
| `CallLedger.FilterKeepsExactly` | src/calls.rs:76-99 | the spans kept, in order, are all but the droppable copies of a remembered call or of one earlier in the batch |
| `CallLedger.FilterKeys` | src/calls.rs:76-99 | the keys handed back are those the kept spans carry, each once, and none is remembered already |
| `CallLedger.AddKeysAppends` | src/calls.rs:107-122 | remembering appends the new keys and disturbs no older one |
| `CallDelivery.NothingIsLost` | src/calls.rs:16-23 | under every interleaving of requests, once an append has succeeded every span the request brought is durable or is a copy of a call that is, and every remembered key is on a durable span |
| `CallDelivery.StepKeepsInv` | src/store/mod.rs:551-571 | every step of every request keeps that |
| `CallDelivery.RetryPassesTheSameSpans` | src/calls.rs:16-23 | a failed append leaves the key memory alone, so a retry with no remembering in between passes the same spans |
| `CallDelivery.CopiesInFlightBothPass` | src/calls.rs:16-23 | two copies whose requests overlap are both stored: what holds under overlap stops at no loss |
| `CallDelivery.StoredOncePerWindow` | src/calls.rs:76-122 | with requests one at a time, two stored droppable copies of a call are more than the capacity of keys apart |
| `CallDelivery.AnchorsAreNeverDropped` | src/calls.rs:76-99 | a span that is not a droppable copy is stored whatever the ledger remembers |
| `ClaudeCode.TwoSignalsOneCall` | src/claude_code.rs:186-241 | the event and the traced span of one model call get the same span id and are the same droppable copy |
| `ClaudeCode.CallStoredOnce` | src/claude_code.rs:351-421 | so a call with a request id is stored once within the ledger's window, whichever signal comes first |
| `ClaudeCode.KeysNameCalls` | src/claude_code.rs:186-241 | two events share a call key exactly when they give the same identity, and no tool call shares one with a model call |
| `ClaudeCode.IdentityIs` | src/claude_code.rs:162-193 | an event's call is named by its request id, else by the client's, else by session, number and time |
| `ClaudeCode.ToolSignalsOfOneCall` | src/claude_code.rs:391-421 | the traced span of a tool call anchors the very key its event carries |
| `ClaudeCode.AnchorIsStored` | src/calls.rs:76-99 | among any spans of any request, the anchor is stored whatever is remembered |
| `ClaudeCode.NewKeyIsRemembered` | src/calls.rs:107-122 | a key a stored batch brings for the first time is remembered behind it, when the batch brings no more than fit |
| `ClaudeCode.LastKeysAreRemembered` | src/calls.rs:107-122 | requests served one after another remember the `capacity` keys taken in last |
| `ClaudeCode.ToolEventIsDropped` | src/calls.rs:76-99 | as long as the key is remembered, the event is not stored, in whatever request it comes and whatever else that brings |
| `ClaudeCode.EmptyRequestIdsCollide` | src/claude_code.rs:186-241 | request ids that are present but empty make different calls one call |
| `SessionMemory.Recall.constructor` | src/logs.rs:315-323 | the node-wide layer begins empty |
| `SessionMemory.Recall.Get` | src/logs.rs:327-337 | a session is looked up in its request first, then on the node |
| `SessionMemory.Recall.Update` | src/logs.rs:339-359 | a change reaches both layers, except for records without a session, and the oldest session goes when there is no room |
| `SessionMemory.SplittingChangesNothing` | src/logs.rs:287-359 | for any dialect that remembers per session: with named sessions and room for all, export requests cut anywhere give what one uncut stream gives |
| `SessionMemory.HandleAgrees` | src/logs.rs:327-359 | one record through the two layers gives what a plain map of sessions gives |
| `SessionMemory.RunKeeps` | src/logs.rs:339-359 | what every change keeps holds of every session remembered in any run, with evictions |
| `Codex.MapLog` | src/codex.rs:121-206 | one record is mapped, and remembered, as the session machine says |
| `CodexRuns.ExportedAsOneStream` | src/codex.rs:121-206 | however a stream of Codex records is cut into requests, each record becomes what it becomes in the uncut stream |
| `CodexRuns.TurnIsOneTrace` | src/codex.rs:133-206 | from a prompt to the next, every other span of the conversation is in the prompt's trace under its marker |
| `CodexRuns.SpansRunForward` | src/codex.rs:226-245 | no span ends before it starts, whatever is remembered |
| `CodexRuns.EveryRun` | src/codex.rs:394-414 | in every run, evictions included, at most sixteen refusals are held and every span runs forward |
| `CodexRuns.RefusalMarksItsResult` | src/codex.rs:366-426 | a refusal marks its own call's result, with its decision and source, when fewer than sixteen others come between |
| `CodexRuns.LaterResultsAreTheirOwn` | src/codex.rs:394-414 | after the first result of a call refused once, every later one keeps its own status, whatever comes between |
| `CodexRuns.RefusalsMarkOnceEach` | src/codex.rs:366-426 | refusals change no more results of a call than there are refusals of it, in any stream whose conversations have ids and fit |
| `CodexRuns.UnrefusedKeepsItsStatus` | src/codex.rs:366-426 | a call nobody refused keeps the status of its own record: the tool failed, or its command left with a code, or neither |
| `CodexCalls.EventIs` | src/codex.rs:107-132 | a record is an event of Codex exactly when it is named `codex.` and that event and comes under its scopes or from its services |
| `CodexCalls.CompletedCallIsASpan` | src/codex.rs:176-185 | however a stream is cut, the end of an answer with its usage is one span `codex.llm_request` without error: it ends at the record's time, starts by its own duration or with the conversation's last request that came through, and carries the tokens, model, provider and context under their `gen_ai` keys unless the record has those itself |
| `CodexCalls.FailedCallIsASpan` | src/codex.rs:153-182 | a request that failed, by its message, its status outside 200 to 299 or none, or an answer that broke off, is such a span with that reason as its error |
| `CodexCalls.ToolResultIsASpan` | src/codex.rs:366-426 | a tool's result is one span of the duration it reports, under the name the model calls the tool by |
| `CodexCalls.PromptIsAMarker` | src/codex.rs:140-149 | a prompt is one span without a duration, and begins a trace that is named by it |
| `CodexCalls.SpansAreTheseRecords` | src/codex.rs:121-206 | those records are spans, and no other record is; what is not read is left to the policy |
| `CodexCalls.BeforeAnyPrompt` | src/codex.rs:240-245 | before its first prompt the spans of a conversation share a trace of its own and have no parent |
| `CodexSplits.CutsUnseenIff` | src/logs.rs:327-359 | the cuts of a stream cannot be seen exactly when no conversation lacks an id and the node has room for all of them |
| `CodexSplits.UnnamedCutShows` | src/logs.rs:339-345 | a conversation without an id shows where its stream was cut |
| `CodexSplits.FirstIsForgotten` | src/logs.rs:346-359 | one conversation more than there is room for pushes the first one out |
| `CodexSplits.CrowdedCutShows` | src/logs.rs:346-359 | and then the cut shows |
| `GeminiCli.MapLog` | src/gemini_cli.rs:113-166 | each event becomes what its session makes of it, and the session remembers the turn and the last request |
| `GeminiCli.TurnIsOneTrace` | src/gemini_cli.rs:33-43 | however a stream is cut, every other span of a turn sits in its prompt's trace under the marker, and none ends before it starts |
| `GeminiCalls.EventIs` | src/gemini_cli.rs:103-124 | a record is an event of Gemini CLI exactly when it comes from its service or under its scope and has that name |
| `GeminiCalls.ResponseIsASpan` | src/gemini_cli.rs:227-302 | however a stream is cut, a response is one span of a model call without error, with its duration, its tokens, those of tools counted as input, and the context of the session's last request |
| `GeminiCalls.ErrorIsASpan` | src/gemini_cli.rs:155-161 | an API error is such a span with the first reason the record gives |
| `GeminiCalls.ToolCallIsASpan` | src/gemini_cli.rs:306-380 | a tool call is one span of its duration, under the name the other dialects would give the tool, rejected, failed or neither |
| `GeminiCalls.PromptIsAMarker` | src/gemini_cli.rs:128-151 | a prompt is one span without a duration, and begins a trace that is named by it |
| `GeminiCalls.SpansAreTheseRecords` | src/gemini_cli.rs:113-173 | which events are spans, which are covered by others, and which are left to the policy |
| `LogsDoor.Node.constructor` | src/logs.rs:311-322 | a node begins with both memories empty, each with room for 4096 sessions |
| `LogsDoor.NormalizeLogs` | src/logs.rs:184-259 | the nested loops map the records of a request in order, each with one fate, and leave both memories as mapping them one by one does; under `all` no record is unmapped, under `genai` just the records no dialect has a use for, under `off` every record is off |
| `LogsDoor.RecordAt` | src/logs.rs:190-206 | every record is taken, in the order of resources, scopes and records, with the service and the scope it came under |
| `LogsDoor.AllRecords` | src/logs.rs:190-206 | and nothing else is |
| `LogsDoor.MapRecord` | src/logs.rs:202-283 | one record is mapped as the policy says, by Claude Code, else Codex, else Gemini CLI |
| `LogsDoor.OutcomesAddUp` | src/logs.rs:90-163 | the outcome counts sum to the records, and the span and score counts are the spans and scores there are |
| `LogsDoor.CountsAreRight` | src/logs.rs:159-163 | each of the six counts is the number of records with that outcome |
| `LogsDoor.EveryFate` | src/logs.rs:207-283 | whatever is remembered, what the first dialect with a use for a record makes of it is passed on; an evaluation result is a score or malformed; a record without a use is unmapped under `genai` and its plain span under `all` |
| `LogsDoor.UnmappedArePlain` | src/logs.rs:240-246 | so the unmapped and the off records of a request are counted by its policy and its records alone |
| `LogsDoor.AllAddsThePlain` | src/logs.rs:240-246 | from the same memory, the spans under `all` are as many as those under `genai` and its unmapped records together, the added ones are the plain spans of these records, and of every other record the outcome is the same |
| `LogsDoor.GenaiWithinAll` | src/logs.rs:217-254 | from the same memory, what is kept under `genai` is a subsequence of what is kept under `all`, with the same scores and the same memory afterwards |
| `LogsDoor.CutsChangeNothing` | src/logs.rs:184-259 | two cuts of one stream come to the same spans, scores and counts, when its Codex conversations and its Gemini CLI sessions have ids and fit |
| `BlobStore.Store.constructor` | src/blob.rs:45-49 | the store is the directory it is opened on |
| `BlobStore.Store.Put` | src/blob.rs:66-86 | the probe loop ends, at the first name that is free or holds the bytes; a failed put leaves the directory alone |
| `BlobStore.Store.Get` | src/blob.rs:91-103 | a safe name or reference yields the file under it or the disk's error, and nothing else is ever read |
| `BlobStore.ProbesFit` | src/blob.rs:66-86 | no more probes are taken than there are files, which is why the loop ends |
| `BlobStore.NamesTellSizes` | src/blob.rs:56-64 | two payloads share their first name exactly when both their sizes and their 64-bit hashes agree |
| `BlobStore.PutsAreFaithful` | src/blob.rs:61-103 | for any hash and any puts: each reference is safe and keeps resolving to exactly its bytes, and two puts share a reference exactly when they put the same bytes |
| `BlobStore.ReferenceResolves` | src/blob.rs:91-103 | a reference resolves to its bytes in every later directory |
| `BlobStore.ProbesAreSafe` | src/blob.rs:127-131 | every name a put can make passes the check that guards reading |
| `Offload.OffloadLargePayloads` | src/blob.rs:138-168 | the spans are rewritten in place as the pass says and counted, not at all at a cap of zero; with a failing disk each field and attribute is left alone or becomes a reference to what it was |
| `Offload.OffloadField` | src/blob.rs:204-236 | an oversized field becomes a reference with a note of its size and beginning, or all is left alone |
| `Offload.FieldsLeaveNotes` | src/blob.rs:204-236 | an oversized input or output leaves, under its own key, the reference the field now holds, its size in bytes and its first 256 characters; any other is left with what was there |
| `Offload.OffloadRawAttributes` | src/blob.rs:175-200 | the same for each string attribute that is not the pass's own nor a reference already |
| `Offload.OffloadThenResolve` | src/dataset.rs:120-130 | offloading and resolving, at any cap and in any later directory, gives back every input and output unless it stayed inline and begins like a reference, and every offloaded attribute; one that stayed inline and begins so is not given back, unless a stored payload spells its own reference |
| `Offload.FieldComesBackIff` | src/dataset.rs:120-130 | the same for one field |
| `Offload.NothingMoves` | src/blob.rs:138-145 | with a cap of zero a span is left as it is and nothing is counted |
| `Offload.CopiesShareTheReference` | src/blob.rs:162-166 | an oversized attribute that repeats an offloaded field ends with the reference that field got |
| `Offload.AttributeComesBack` | src/blob.rs:175-200 | an attribute that is not a note is changed exactly when it is a string longer than the cap, under no key of the pass and no reference already, and then into a reference to its text |
| `Offload.OffloadCounts` | src/blob.rs:143-168 | the count is the oversized fields and the oversized attributes a span came with |
| `JudgeCanon.BuildCanon` | src/judge.rs:335-357 | the loop writes the fields each behind its length |
| `JudgeCanon.DecodeEncode` | src/judge.rs:329-357 | a reader gets the fields back whatever characters they hold |
| `JudgeCanon.CanonSettlesTheFields` | src/judge.rs:335-357 | equal canonical strings mean equal fields, passage boundaries of the context included |
| `JudgeCanon.SameCanonSameQuestion` | src/judge.rs:141-232 | and hence the same question to the backend, or none |
| `JudgeCanon.PromptShows` | src/judge.rs:141-232 | a question is asked exactly when the output and all else its rail is about are there and not blank, and shows just that, each part under its heading |
| `JudgeCanon.TrimIs` | src/judge.rs:142-147 | trimming takes the white space at both ends and nothing else |
| `JudgeCache.JudgeCache.constructor` | src/judge.rs:388-399 | the cache is the table it is opened on |
| `JudgeCache.JudgeCache.Get` | src/judge.rs:401-410 | an entry is served only when its verification hash matches |
| `JudgeCache.JudgeCache.Put` | src/judge.rs:412-420 | an entry replaces what its key held, unless the write fails |
| `JudgeCache.ScoreItems` | src/judge.rs:428-492 | an invalid judge asks nothing; otherwise the loop scores each item from the cache or the backend, counts what it asked, and stops at the first backend failure |
| `JudgeRuns.CacheIsInvisible` | src/judge.rs:428-492 | whatever reads and writes of the cache fail, a run over cases that share hashes only when scored alike gives what asking afresh gives, and leaves the cache sound |
| `JudgeRuns.ItemsAreScoredAsReplied` | src/judge.rs:276-294 | so with a sound cache every item of a run is scored the value its own reply holds, brought into [0, 1], passed exactly when that reaches the threshold, with the comment cut to 500 characters; a reply without a score is a failed zero |
| `JudgeRuns.InvisibleIff` | src/judge.rs:428-492 | over every sequence of runs of valid and refused judges from an empty cache, the cache cannot be seen exactly when cases of valid judges that share both hashes are scored alike |
| `JudgeRuns.CollisionFreeAgrees` | src/judge.rs:359-368 | which holds when different canonical strings never share both hashes |
| `JudgeCosts.EstimateJudges` | src/judge.rs:546-587 | one estimate for each judge, or the first invalid judge |
| `JudgeCosts.EstimateIs` | src/judge.rs:495-575 | it counts a call for each item that is asked about and misses the cache, as cached the others that are asked about, and a token for every begun four characters of the prompts to be sent |
| `JudgeCosts.RunAllJudges` | src/judge.rs:597-641 | the judges run one after another on one cache, and the first invalid judge or failing call ends them |
| `JudgeCosts.CallsWithinEstimates` | src/judge.rs:546-587 | of any number of judges run one after another on one changing cache, none asks the backend more often than was estimated for it on the cache as it was, even when writes to the cache fail |
| `JudgeCosts.JudgesWithinEstimates` | src/judge.rs:597-641 | the same of one configuration over its dataset, when no two of its cases share their key alone |
| `JudgeCosts.EstimatesHoldIff` | src/judge.rs:546-587 | the estimates bound every sequence of jobs over some cases, from any cache, exactly when no case that gets stored shares its key alone with another, of its own judge or of a different one |
| `JudgeCosts.RerunAsksOnlyUnparseable` | src/judge.rs:453-489 | running all judges a second time asks exactly what misses the filled cache, which is only items whose reply held no score, and stores nothing |
| `Xml.Text` | src/junit.rs:91-103 | the loop escapes text character by character |
| `Xml.Attr` | src/junit.rs:107-124 | the loop escapes attribute values character by character |
| `Xml.TextRead` | src/junit.rs:91-103 | escaped text reads as itself with forbidden characters replaced (sections 2.2 and 4.6 of XML 1.0) |
| `Xml.AttrRead` | src/junit.rs:107-124 | so does an escaped attribute value, line breaks and tabs included (section 3.3.3) |
| `Xml.LinesOfEscaped` | src/junit.rs:91-103 | escaping and the handling of line ends (section 2.11) can be exchanged |
| `XmlTree.ReadUndoesPrint` | src/junit.rs:127-195 | for all well-formed markup, the reader gives back the printed tree |
| `Junit.Tally` | src/junit.rs:69-82 | the counts are those of the outcomes, and tests are passes, failures, errors and skips together |
| `Junit.CountsAddUp` | src/junit.rs:19 | counts add up for any cases |
| `Junit.Render` | src/junit.rs:127-195 | the loops write exactly the document of the suite |
| `JunitReport.ReportRoundTrip` | src/junit.rs:127-195 | an XML reader finds in the document the suite: names, properties, classes, verdicts, messages, texts and counts, up to forbidden characters and line ends |
| `JunitGates.RunReportFailsIffGateFails` | src/junit.rs:260-307 | the report of `eval run` has a failed case exactly when the gate fails |
| `JunitGates.CompareReportFailsIffGateFails` | src/junit.rs:309-405 | the report of `eval compare` has one exactly when the gate fails, in both modes |
| `JunitGates.RunReportSays` | src/junit.rs:260-307 | it has a case for each evaluator: skipped exactly when nothing was scored, failed with the mean and the threshold, or passed |
| `JunitGates.CompareReportSays` | src/junit.rs:309-405 | it has a case for each row: skipped with the run's letter when only one run has the evaluator, failed with both means when it gates, or passed |
| `OtlpJson.CoerceInts` | src/ingest.rs:1376-1400 | the recursive rewrite makes numbers of the integers under integer keys and leaves the rest alone |
| `OtlpJson.DropEmptyAnyValues` | src/ingest.rs:1348-1369 | the recursive rewrite drops empty values and empty elements |
| `OtlpJson.Prepare` | src/ingest.rs:1335-1342 | a body is decoded after both |
| `OtlpJson.CoercedObject` | src/ingest.rs:1376-1400 | under `intValue` and `asInt` a string that spells an integer of 64 bits, with its minus or an optional plus, becomes that number; every other string stays; all else is dealt with in its turn |
| `OtlpJson.CoercedOther` | src/ingest.rs:1376-1400 | arrays element by element, and scalars stay |
| `OtlpJson.PrintedIsSpelled` | src/ingest.rs:1376-1390 | a printed number is spelled so, with a minus when it is negative |
| `OtlpJson.DroppedObject` | src/ingest.rs:1348-1369 | just the empty `value` of an object with a `key` goes, and of the array under `values` the empty elements; the rest stays in its order |
| `OtlpJson.CoercedFixesIff` | src/ingest.rs:1376-1400 | a value is left alone exactly when no integer under an integer key is spelled as a string |
| `OtlpJson.CoerceIsIdempotent` | src/ingest.rs:1376-1400 | coercing twice is coercing once |
| `OtlpJson.DroppedShape` | src/ingest.rs:1348-1369 | dropping never empties an object that was not empty |
| `OtlpJson.DroppedSaysSomething` | src/ingest.rs:1343-1369 | afterwards no object with a key has an empty value and no `values` array an empty element, at any depth |
| `OtlpJson.DroppedFixesIff` | src/ingest.rs:1348-1369 | a value is left alone exactly when that holds of it |
| `OtlpJson.DropIsIdempotent` | src/ingest.rs:1348-1369 | dropping twice is dropping once |
| `OtlpJson.PassesCommute` | src/ingest.rs:1335-1342 | the two passes can run in either order |
| `OtlpJson.DecodedIsReady` | src/ingest.rs:1335-1342 | what reaches the deserializer has both properties, is a fixed point of both passes, and is the body itself exactly when that had them |
| `Scores.ScoreStore.constructor` | src/store/scores.rs:29-40 | a new score store is empty |
| `Scores.ScoreStore.PutBatch` | src/store/scores.rs:46-81 | the last score of an id wins, and the index goes on listing each score under its own target and no other; a transaction that fails anywhere leaves both as they were |
| `Scores.ScoreStore.ForTarget` | src/store/scores.rs:94-109 | every score of the target once, newest first, and no other |
| `Scores.ScoreStore.List` | src/store/scores.rs:112-123 | the newest scores of all targets, each once, newest first, and none left out that is newer than one listed |
| `Scores.LastOneWins` | src/store/scores.rs:42-45 | of the scores of a batch with one id the last is stored |
| `EvalRun.RunEval` | src/eval.rs:692-743 | fails exactly when two evaluators share a name; otherwise one aggregate each and all their scores |
| `EvalRun.FinalizeEvaluator` | src/eval.rs:753-845 | the loop's values, passes and scores, and the mean, variance, pass rate and threshold made of them |
| `EvalRun.ThresholdMetIff` | src/eval.rs:791-811 | a threshold is missed exactly when something was scored and the sum of the scores is below their number times the threshold |
| `EvalRun.AggregateIs` | src/eval.rs:791-844 | a reported aggregate is its evaluator's name and threshold, how many items were scored and how many not, the mean of the scores and the share that passed |
| `EvalRun.StatsAre` | src/eval.rs:791-839 | the kept statistics are the number scored and passed, the mean, and the squares about it over one less |
| `EvalRun.ItemScoresStand` | src/eval.rs:63-84 | each kept score is an item's, at its span where it names one and else at its trace |
| `EvalRun.ItemScoresAreAll` | src/eval.rs:773-789 | and each scored item that names either has one, under the run's, the evaluator's and its own number |
| `EvalRun.VarianceSign` | src/eval.rs:783-789 | the variance is never negative and is zero exactly when the values do not differ |
| `EvalRun.MeanBounds` | src/eval.rs:778-782 | the mean lies between the values |
| `EvalRun.AggregateAddsUp` | src/eval.rs:776-811 | scored and skipped items are all items, and the pass rate is a share |
| `EvalReadBack.RunAggregates` | src/eval.rs:1153-1179 | the names of the run's aggregates, each with the mean and statistics of a stored one |
| `EvalReadBack.ReadBackIff` | src/eval.rs:1153-1179 | what a run stored is read back, every name with its own mean, count and variance and nothing else, exactly for the evaluators whose aggregate no later item score takes the id of |
| `EvalReadBack.OnlyAggMeets` | src/eval.rs:772-774 | only an evaluator named `agg`, or `agg:` and something, can take such an id |
| `EvalReadBack.PlainNamesAreReadBack` | src/eval.rs:892-907 | so with no such name everything is read back |
| `EvalReadBack.AggJudgeShadows` | src/eval.rs:892-907 | a judge named `agg` behind an evaluator named `0` does take it |
| `EvalCompare.CompareRuns` | src/eval.rs:1180-1240 | each evaluator of either run has one row, in the order of names, with the mean and count each run keeps of it, their difference when both do, and the test on both; a run without aggregates is an error |
| `EvalCompare.GateFailsIff` | src/eval.rs:1300-1337 | the gate fails exactly when it is asked for and an evaluator of both runs fell by more than the tolerance, in the significance mode one that was not shown to be within noise |
| `EvalCompare.SwappedGate` | src/eval.rs:1186-1240 | with the runs swapped the raw gate fails exactly on what rose by more than the tolerance |
| `EvalCompare.SelfComparison` | src/eval.rs:1186-1240 | a run compared with itself moves nothing, and a gate that is asked for fails exactly for a negative tolerance, unless the significance mode forgives every evaluator |
| `EvalCommands.RunReport` | src/eval.rs:876-938 | refused without items or with a name used twice before any judge is asked; else evaluators and judges over every item, one report, and all scores in one transaction |
| `EvalCommands.PassedIff` | src/eval.rs:684-686 | its gate is shut exactly when an evaluator or a judge with a threshold scored something and the scores fall short of it on average |
| `EvalCommands.NamesDifferIff` | src/eval.rs:886-902 | a run is refused for a name exactly when two evaluators, two judges, or an evaluator and a judge have it |
| `EvalCommands.AddJudges` | src/judge.rs:625-639 | the judges' aggregates and scores stand behind those of the evaluators |
| `EvalCommands.RunCommand` | src/eval.rs:857-873 | from end to end, the verdict of `eval run` is false exactly when an evaluator or a judge with a threshold scored something and too low on average; an XML reader finds a failed case in the report exactly then, and an errored one exactly when there is no verdict |
| `EvalCommands.CompareCommand` | src/eval.rs:1277-1337 | from end to end, the verdict of `eval compare` is about the aggregates read back for the two runs, and an XML reader finds the same in its report |
| `WalFile.SpellOut` | src/store/wal.rs:69-72 | a batch is spelled out record by record, or refused whole when one record exceeds the frame |
| `WalFile.FrameLayout` | src/store/wal.rs:187-197 | on disk a record is its payload behind the length and the checksum, four bytes each and the lowest first |
| `WalFile.DecodeRecords` | src/store/wal.rs:201-226 | the cursor loop reads exactly the records up to the first that is incomplete or corrupt |
| `WalFile.WrittenIsRead` | src/store/wal.rs:186-226 | records that were written whole are read whatever bytes follow them |
| `WalFile.TornIsNotRead` | src/store/wal.rs:201-213 | a record cut short anywhere is not read |
| `WalFile.CutAnywhere` | src/store/wal.rs:199-226 | a file cut at any byte reads as the records that are whole in it, and recovery keeps just those bytes |
| `WalFile.TruncatedReadsTheSame` | src/store/wal.rs:163-174 | cutting off what does not read changes nothing of what is read |
| `WalFile.BehindTornWriteIsLost` | src/store/wal.rs:67-77 | behind a record written only in part, its header included, what is appended is not read back, exactly unless the bytes there make a record that passes its checksum |
| `WalFile.TornHeaderRules` | src/store/wal.rs:201-213 | such a record has the torn one's length and checksum as far as its header got there, so it is another payload with that checksum or the missing bytes themselves |
| `WalFile.Segment.constructor` | src/store/wal.rs:103-110 | a new segment is empty |
| `WalFile.Segment.AppendNosync` | src/store/wal.rs:67-77 | a batch is appended whole and counted; an empty one writes nothing; one that cannot be spelled changes nothing; a write that fails leaves the part that got there and counts nothing |
| `WalFile.Segment.Read` | src/store/wal.rs:156-175 | reading gives the good records and truncates the file to them, and reading again gives the same |
| `SpanKey.DecodeHex` | src/store/mod.rs:1222-1240 | the loop gives the bytes of exactly 2n lower-case hex digits, and nothing for anything else |
| `SpanKey.DecodedSettles` | src/store/mod.rs:1195-1206 | the decoding is injective |
| `SpanKey.EncodedDecodes` | src/store/mod.rs:1195-1206 | ids as they are stored decode to the bytes they came as |
| `SpanKey.KeysNameSpans` | src/store/mod.rs:1180-1206 | two spans have one key exactly when both ids are the same |
| `DurabilityProof.FirstCopiesKeep` | src/store/mod.rs:1852-1859 | keeping first copies keeps every key, each once, and adds nothing |
| `DurabilityProof.CommitFlushKeeps` | src/store/mod.rs:1868-1899 | the watermark moves only when every span of the segment is in a block, so the commit keeps the invariant |
| `DurabilityProof.CommitHeld` | src/store/index.rs:65-92 | at a flush's commit everything acknowledged is in a named block or in memory above the new watermark |
| `DurabilityProof.SwappedCold` | src/store/index.rs:99-130 | a merge's commit takes no key out of the named blocks and changes no block under its name |
| `DurabilityProof.QueryStays` | src/store/mod.rs:790-900 | what a query has read and what it has still to read go on covering all that was acknowledged when it began, whatever the engine does meanwhile |
| `DurabilityProof.KillKeeps` | src/store/wal.rs:156-175 | a kill between any two steps, with any part of the unsynced writes surviving, leaves everything acknowledged durable |
| `DurabilityProof.OpenKeeps` | src/store/mod.rs:370-403 | recovery brings the log above the watermark into memory and re-establishes the invariant |
| `DurabilityProof.StepKeepsInv` | src/store/mod.rs:1-25 | every step of the writer, the compactor, a query, a kill and recovery keeps the engine's invariant |
| `DurabilityProof.NothingIsLostOrCountedTwice` | src/store/mod.rs:1-25 | in every run, with kills and failures anywhere, in which no failed write leaves part of a record and no merge gets a used name, nothing acknowledged is lost and every answer holds all that was acknowledged when it began, no span twice |
| `DurabilityLimits.TornWriteLosesTheNext` | src/store/mod.rs:1442-1485 | a failed write that leaves part of a record costs the acknowledged span behind it at the next kill |
| `DurabilityLimits.ReusedNameLosesTheFirst` | src/store/merge.rs:403-411 | two merges of one day over the same segment numbers get one name, and the second takes the place of the first, without any failure |
| `DurabilityLimits.SafeIff` | src/store/mod.rs:20-25 | the promise holds in every run, for every partitioning, exactly when no failed write leaves a part behind and no merge gets a name that was in use |
| `MergePlan.Chunks` | src/store/merge.rs:266-284 | the greedy loop keeps every block in order, in chunks within the cap that are begun only when the next block does not fit |
| `MergePlan.SameNameIff` | src/store/merge.rs:403-406 | two chunks of a plan over flushed blocks get one name exactly when everything from the one to the other is of one log segment, and then that does not fit under the cap |
| `MergePlan.HoursNeverCollide` | src/store/merge.rs:312-356 | so in a directory with at most one block of each segment, as an hour's, no two chunks get one name |
| `MergeRuns.DifferentNamesAreCareful` | src/store/merge.rs:403-411 | a run whose merges all have names of their own, and in which no write tears, never gives a merge a used name, whatever flushes, failures and kills come between |
| `MergeRuns.PlannedNamesDifferIff` | src/store/merge.rs:334-411 | the merges of a plan over a directory's flushed blocks, or any of them in order, have names of their own exactly when the blocks of no log segment spill over from one into another |
| `MergeRuns.PlannedRunIsSafe` | src/store/mod.rs:20-25 | so a run of the engine whose merges are such keeps its promise |
| `RecentSpans.RankedIffStable` | src/store/mod.rs:1271-1281 | the ranking is the one list that is newest first with each start's spans in their order, which is what a stable sort gives |
| `RecentSpans.TopOfOneMore` | src/store/mod.rs:1311-1321 | what falls out of a bounded selection never comes back |
| `RecentSpans.HalvesSuffice` | src/store/mod.rs:809-812 | selecting from the first part and from a bounded selection of the second selects what one over both does |
| `RecentSpans.NewestAreKept` | src/store/mod.rs:1283-1293 | each span is kept or left out, and none left out is newer than one kept |
| `SpanQuery.TopN.Push` | src/store/mod.rs:1311-1321 | with the order of losers and the eviction, the heap holds the newest `limit` of all that was pushed |
| `SpanQuery.TopN.IntoVec` | src/store/mod.rs:1323-1333 | they come newest first, ties in the order they were pushed |
| `SpanQuery.Rows.Push` | src/store/mod.rs:1264-1269 | bounded or not, one more row is in |
| `SpanQuery.Rows.IntoVec` | src/store/mod.rs:1271-1281 | all rows ranked, or the newest of them |
| `SpanQuery.ReadListed` | src/store/mod.rs:865-886 | of the listed blocks the first copies of what memory does not hold, or the first error |
| `SpanQuery.ReadCold` | src/store/mod.rs:843-889 | only a block gone at the first listing is forgiven, by listing once more |
| `SpanQuery.Query` | src/store/mod.rs:790-900 | from memory and the blocks listed, or those listed again when the first that cannot be read is gone: newest first, each key once, memory's copy before a block's, every matching key or as many rows as asked for with none left out that is newer; any other first error is returned, and so is one of the second listing |
| `SpanQuery.AnswerAnswers` | src/store/mod.rs:790-900 | collecting everything, keeping first copies, sorting stably and cutting off gives such an answer, which is how the bounded query is proved to give one |
| `SpanQuery.FewerRowsAreAPrefix` | src/store/mod.rs:1282-1292 | a bounded query gives exactly the first rows of any larger one |
| `SpanQuery.AnswerHolds` | src/store/mod.rs:790-900 | an unbounded answer holds every matching key once, newest first, and from memory where memory has it |
| `Numerals.DecimalReads` | src/judge.rs:352-353 | a decimal numeral reads as its number |
| `Numerals.NumeralsArePrinted` | src/judge.rs:352-353 | and a numeral without a zero in front is how its number is printed |
| `Otlp.LookupIsFirst` | src/normalize.rs:320-325 | an attribute is the first of its key |
| `Otlp.TextIsRead` | src/normalize.rs:333-345 | a text is read from a string as it is and from a number as it is printed |
| `Otlp.CountIsRead` | src/normalize.rs:347-356 | a count is read from a number that is not negative and from its numeral, and from nothing past 64 bits |
| `Otlp.AsI64Is` | src/logs.rs:541-549 | kept as a signed number it is the one congruent to it modulo 2^64 |
| `Otlp.EventIsNamed` | src/logs.rs:368-379 | a record's event is its `event.name`, else its own name, else its text |
| `Otlp.ContextIs` | src/logs.rs:382-388 | a trace or span id counts exactly when it has its length and is not all zero |
| `Otlp.TimeIs` | src/logs.rs:391-397 | its time is when it happened, or when it was seen if that is not known |

## Left out

- Floating point: rounding, NaN and infinities; every `f64` is a `real`.
- The insides of SHA-256, SipHash, FNV-1a, `student_t_quantile`, Welch's test and the price table: parameters, or not read.
- HTTP and gRPC routing, authentication, MCP, the command line, SQL, metrics, sessions, rollups, cost and latency queries, the demo and the frontend.
- The generated protobuf deserializer, JSON text itself, regular expressions and JSON Schema: library calls.
- Span normalisation behind the log dialects, prices, and what an evaluation-result record becomes: parameters of the door.
- Claude Code attributes that only copy a record's attribute under another name, and the time to the first token in every dialect.
- A record with one attribute key twice: the model reads the first, as the code does, and adds no second.
- Locks: a method of the ledger and of the session memory is one atomic step, which is what its mutex makes it.
- CodexCalls.CompletedCallIsASpan: the time of a record is taken to fit into 64 bits (`TimesFit`), as its field does; the same of the other lemmas on when a span starts.
- A restart of the node, which empties the ledger and the session memory.
- Blob files: `put` runs one at a time, temporary names, fsync and rename are one step, and files are never deleted by retention.
- BlobStore.Store.Put: requires that fewer than 2^32 files hold other payloads under names of the payload's own length and hash, because the probe counter is 32 bits wide; what a counter past that does is not modelled.
- BlobStore.PutsAreFaithful: for directories of fewer than 2^32 files, where no counter gets that far.
- Offload.OffloadLargePayloads: the disk fails for the same names throughout one pass.
- Calibration.BiasInterval: the quantile is any number, so nothing is claimed of the coverage of the interval.
- JudgeCache.ScoreItems: the backend gives one question one answer; a cache entry is a value, not the JSON text it is stored as.
- JudgeCanon.SameCanonSameQuestion: the wording of the grading instructions is left open, one text per rail.
- JudgeCosts.EstimatesHoldIff: the jobs of a sequence may have datasets of their own; of the judges of one configuration over one dataset the bound is stated, because a failing backend may end that run before the call in excess.
- JudgeCosts.EstimateJudges: tokens are counted, dollars are not.
- XmlTree.ReadUndoesPrint: the reader knows no comments, processing instructions, sections of character data, document types, single quotes, hexadecimal references or names beyond ASCII, none of which the printer writes.
- JunitGates.ReportKeepsTheVerdict: creating the parent directory and the printed warnings.
- The report of `suite run`.
- Scores.ScoreStore.PutBatch: of a score only the fields something here reads are kept, and scores equally new come in any order.
- Offload.OffloadField: the private helpers are called with a cap above zero only, behind the early return of the pass.
- EvalCommands.RunCommand: printing the report, and what an error message says; writing the file is `JunitGates.ReportKeepsTheVerdict`.
- GeminiCli.MapLog: the fix of Gemini CLI's own traced spans.
- EvalRun.RunEval: evaluators are functions of an item; compiling them, and loading the configuration and the dataset.
- EvalReadBack.ReadBackIff: the run id is new, as a random one is.
- OtlpJson.Prepare: an object is a map, so a duplicate key has been settled by the JSON parser.
- Durability.Next: of the engine, retention, the usage counters, backpressure and the disk floor, the plan of which blocks merge (any two or more of the index may), the grace before a retired block is unlinked (it may go at once), and what Parquet and redb do with a block and with a transaction, which here happen or do not.
- DurabilityProof.NothingIsLostOrCountedTwice: a span answered under a key that was stored twice is one of its copies, without saying which; fsync and rename hold what they promise, and an fsync that failed is not followed by bytes that were lost from the middle of the segment.
- DurabilityLimits.SafeIff: the condition is on what may happen at all, since a single run with such a write or such a name need not lose anything; of a single run `DurabilityProof.NothingIsLostOrCountedTwice` speaks, and of runs whose merges follow a plan `MergeRuns.PlannedRunIsSafe`.
- MergePlan.SameNameIff: for blocks that flushes wrote; a merged block among the candidates covers several segments. Which blocks are candidates at all (size tiers, closed days, quiet times) is left out.
- MergeRuns.PlannedRunIsSafe: for the merges of one plan of one directory; a second plan whose merges cover the same segment numbers would give their names again, and then `MergeRuns.DifferentNamesAreCareful` is what applies.
- SpanQuery.TopN.Push: the binary heap is a sequence in the order of its elements, so its layout is not modelled; the clone of the survivors and the capacity reserved up front are left out.
- SpanQuery.Query: the index lists the blocks of one trace or all of them; which, is in what reading them gives. The order of `trace` and the count of spans build on it.
- DurabilityLimits.TornWriteLosesTheNext: reading always stops at a partly written record; when the bytes behind it make a record of it after all is `WalFile.BehindTornWriteIsLost`.
