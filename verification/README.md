# Verification of llm-code's engine, streams, schedules and limits

A Dafny model of the parts of llm-code where one piece of code has to agree with a simpler or
older twin, or where many tasks share state, with proofs of what they promise. Everything is
stated about models of the code, in Dafny's terms; nothing of the program itself is executed.

`dafny verify dfyconfig.toml` checks the whole project.

Code that works on fields or local variables is modelled as classes and methods with loops,
each proved against a specification function; the functions are then related to definitions
that know nothing of the algorithm, and tasks that interleave are state machines whose
theorems range over every run.

| files | subject |
|---|---|
| `Names`, `Digraphs`, `Graph` | walks and cycles; the wiring graph's sort and cycle finder |
| `Dataflow`, `Pipeline`, `Levels`, `GroupResults`, `AsyncPipeline` | wiring, the dataflow equations, the sequential and the concurrent executor |
| `Calendar`, `NextFire`, `CronParser`, `CronFields`, `FirePromises`, `CronStorage`, `CronScheduler`, `CronHistory`, `CronLifetimes` | schedules, from the calendar up to whole histories |
| `LspDemux`, `LspFraming`, `LspHeaders` | the response demultiplexer and the Content-Length framing of the LSP 3.17 base protocol |
| `Sse`, `SseLines`, `SseBlockEnds`, `SseAgreement`, `SseHarm`, `SseRoundTrip` | the two server-sent-event parsers |
| `OpenAiStream`, `OpenAiIterator`, `OpenAiAgreement`, `OpenAiContent` | the buffered and the lazy OpenAI-compatible decoder |
| `AnthropicStream`, `AnthropicIterator`, `AnthropicBlockEnds`, `AnthropicAgreement`, `AnthropicContent` | the batch and the live Anthropic decoder |
| `SlidingWindow`, `SessionRate`, `RetryPolicy`, `RetryBounds`, `RetryLaws` | rate limits and retry budgets |
| `AgentBudget` | the agent's retry/fallback stack and its shared budget |
| `Conversion`, `OpenAiWire`, `OpenAiConversion`, `ToolPairing`, `WireContent` | history compression, splitting, wire conversion, tool-call pairing |
| `TagFilter` | the debug REPL's filter for tagged sections |
| `Wrappers`, `SeqFacts`, `Text` | shared helpers |

Places where the code does not do what one would expect of it, each with its exact condition:

- The graph's error text and class comment say that leftover nodes lie on a cycle; they are the
  nodes reachable from one (`Digraphs.LeftoverIsOnCycleWhen`).
- A JSON `null` event reaches the consumer of one SSE parser and not of the other
  (`SseAgreement.ParsersAgree`).
- One SSE parser strips whole blocks and the other reads lines as they are, so whitespace in
  front of a block's first line or behind its last one can make them differ
  (`SseBlockEnds.HarmlessExactly` for one block, `SseAgreement.AgreeExactly` and
  `SseHarm.HarmlessIsNeeded` for a text).
- The live Anthropic decoder drops a last block that no blank line ends
  (`AnthropicAgreement.LiveAgreesWithBatch`), and the batch decoder strips its blocks too
  (`AnthropicBlockEnds.KeptExactly`, `AnthropicAgreement.IndentedTextIsLost`).
- A response that is already stashed can wait behind another caller's read of an empty wire,
  because the lock is handed out in arrival order (`LspDemux.QuietMeansDeliveredOrBehindReader`).
- The session's Retry-After hint is too short for times left with a fraction below a
  millisecond (`SessionRate.HintIsEnoughWhen`).
- A schedule whose dates do not exist in every year can raise (`FirePromises.NeverRaisesWhen`).
- A `tool` message that does not begin with a result makes the OpenAI conversion raise, and
  results mixed with other blocks are dropped (`OpenAiConversion.ToolEntriesAreResults`).
- Compression can lengthen a body (`Conversion.CompressionGrowsWhen`).
- A tag that comes while the filter holds pending characters of another is shown
  (`TagFilter.SectionsAreHiddenWhen`).
- The sliding window bounds half-open windows; a closed one can hold up to twice as many grants
  (`SlidingWindow.ClosedWindowHolds`).

## Model

| member | source | states |
|---|---|---|
| `Graph.Graph.AddNode` | llm_code/engine/graph.py:57-59 | adds one node and nothing else; adding it again changes nothing |
| `Graph.Graph.AddEdge` | llm_code/engine/graph.py:61-76 | adds the edge, or reports the unknown endpoint (source first) and leaves the graph as it was |
| `Graph.Graph.TopologicalSort` | llm_code/engine/graph.py:82-107 | succeeds exactly for an acyclic graph and then returns the drain order; otherwise reports, sorted, exactly the nodes reachable from a cycle |
| `Graph.Release` | llm_code/engine/graph.py:97-103 | one round of the drain: every successor loses one from its count, and exactly those that reach zero join the queue, alphabetically |
| `Graph.DrainStep` | llm_code/engine/graph.py:94-103 | what every round of the drain keeps: the order is settled, the queue holds exactly the ready nodes in drain order, and no node is queued twice |
| `Digraphs.DrainOrderIsUnique` | llm_code/engine/graph.py:82-103 | the order the sort promises (dependency order, ties by the round a node became free and then alphabetically) is the only one of its kind |
| `Digraphs.LeftoverIsFromCycle` | llm_code/engine/graph.py:104-106 | what a stuck drain leaves out is exactly what some cycle reaches |
| `Digraphs.LeftoverIsOnCycleWhen` | llm_code/engine/graph.py:31-37 | the documented claim that leftover nodes lie on a cycle holds exactly for graphs where no edge leads off the cycles |
| `Digraphs.LeftoverNeedNotBeOnCycle` | llm_code/engine/graph.py:31-37 | a two-node graph with a leftover node on no cycle |
| `Digraphs.TopologicalImpliesAcyclic` | llm_code/engine/graph.py:82-107 | a graph with a dependency order has no cycle |
| `Digraphs.AcyclicIffNothingDownstream` | llm_code/engine/graph.py:104-107 | no cycle exactly when no node is reachable from one, so success and an empty leftover set coincide |
| `Graph.Graph.DetectCycles` | llm_code/engine/graph.py:109-140 | every returned list is a closed walk along edges without a repeated inner node; every cycle of the graph uses the closing edge of one of them; and the result is empty exactly for an acyclic graph |
| `Graph.Graph.Visit` | llm_code/engine/graph.py:122-135 | the search below a node restores the stack, finishes the node, and keeps the invariant of the whole search |
| `Graph.BackEdge` | llm_code/engine/graph.py:129-133 | an edge back to the stack always adds a genuine cycle |
| `Graph.ClosingTheStack` | llm_code/engine/graph.py:129-133 | the stack from the hit node on, closed by that node, is a simple cycle |
| `Graph.FinishedFirstIsTopological` | llm_code/engine/graph.py:122-140 | if every edge leads to a node that finished earlier, the reverse finishing order is a dependency order |
| `Graph.AllCyclesAreCut` | llm_code/engine/graph.py:122-140 | without the closing edges of the recorded cycles the finishing order proves the graph acyclic, so no cycle avoids them all |
| `Pipelines.ParseInvertsAddress` | llm_code/engine/pipeline.py:315-325 | an address reads back as written exactly when the socket name has no dot, whatever the component name holds |
| `Pipelines.Pipeline.AddComponent` | llm_code/engine/pipeline.py:69-84 | registers a decorated component under a new name, or refuses and changes nothing |
| `Pipelines.Verdict` | llm_code/engine/pipeline.py:86-125 | which check of `connect` answers: each error is returned exactly when its check fails and the earlier ones pass, and success means that both sockets exist and their types fit |
| `Pipelines.TypesFit` | llm_code/engine/pipeline.py:327-345 | equal types fit, and so does anything with `Any` on either side or a side that is no class; two other classes fit exactly when the source is a subclass |
| `Pipelines.Pipeline.Connect` | llm_code/engine/pipeline.py:86-125 | appends exactly the connection asked for and keeps the graph equal to the wiring, or changes nothing |
| `Pipelines.Pipeline.Run` | llm_code/engine/pipeline.py:131-172 | refuses exactly cyclic pipelines, naming the nodes downstream of a cycle; otherwise every component has run on its entry inputs overlaid, socket by socket, with the outputs of the components wired to it |
| `Pipelines.Pipeline.RunInner` | llm_code/engine/pipeline.py:174-190 | running any dependency order solves the dataflow equations; a missing upstream value means some component broke its promise |
| `Pipelines.Pipeline.ResolveInputs` | llm_code/engine/pipeline.py:192-209 | succeeds exactly when every upstream value is there, and then gives each socket the output of the last connection into it, or else the value that the caller passed for it, if any |
| `Pipelines.UpstreamHasRun` | llm_code/engine/pipeline.py:192-209 | in a dependency order no lookup meets an upstream that has not run |
| `Dataflow.ResolveBySocket` | llm_code/engine/pipeline.py:192-209 | socket by socket: the last connection into it wins, otherwise the entry value stays |
| `Dataflow.SolvesMeans` | llm_code/engine/pipeline.py:174-209 | outputs solve the equations exactly when each component's output is what it returns on inputs that hold, for each socket, the value of the last connection into it or else the caller's own |
| `Dataflow.SolvedRuns` | llm_code/engine/pipeline.py:174-209 | so each component of a run got exactly the caller's values for its unconnected sockets and the upstream values for the others |
| `Dataflow.SolutionIsUnique` | llm_code/engine/pipeline.py:174-190 | acyclic wiring has at most one solution, so the outputs do not depend on the execution order |
| `Levels.Depths` | llm_code/engine/async_pipeline.py:164-167 | the depths computed along the order satisfy the depth equations |
| `Levels.NoWalkIsLonger` | llm_code/engine/async_pipeline.py:149-174 | no walk into a node is longer than its depth |
| `Levels.SomeWalkIsAsLong` | llm_code/engine/async_pipeline.py:149-174 | some walk into a node is as long as its depth |
| `Levels.LevelIsLongestWalk` | llm_code/engine/async_pipeline.py:149-174 | a node sits in level d exactly when its longest incoming walk has d edges |
| `Levels.SameLevelIsIndependent` | llm_code/engine/async_pipeline.py:149-174 | no member of a level reaches another, so a level may run concurrently |
| `Levels.ComputeLevels` | llm_code/engine/async_pipeline.py:149-174 | the levels partition the nodes by depth, without gaps |
| `GroupResults.RestoredInInputOrder` | llm_code/engine/concurrency.py:79-86 | whatever order the members of a group finish in, the sorted results are the input order |
| `AsyncPipelines.StepKeeps` | llm_code/engine/async_pipeline.py:91-143 | every step of the concurrent executor keeps: finished levels solved, tasks hold their resolved inputs, each component started at most once, groups within their bound |
| `AsyncPipelines.UpstreamIsReady` | llm_code/engine/async_pipeline.py:123-143 | when a component of a level starts, all its upstream outputs are there |
| `AsyncPipelines.AsyncEqualsSequential` | llm_code/engine/async_pipeline.py:91-121 | confluence: every complete interleaving ends with the outputs of the sequential executor, each component run once and no lookup failed |
| `AsyncPipelines.GroupBoundHolds` | llm_code/engine/concurrency.py:63-86 | at no point of any run has a group more members in flight than its bound |
| `AsyncPipelines.SomeStepIsEnabled` | llm_code/engine/async_pipeline.py:91-121 | no run is stuck before the last level |
| `AsyncPipelines.RunLength` | llm_code/engine/async_pipeline.py:91-121 | every run ends, after exactly two steps per component and one per level |
| `Calendar.OrderIsLexicographic` | llm_code/cron/parser.py:115-145 | counting minutes through leap years and month lengths orders dates as year, month, day, hour, minute do |
| `Calendar.NextDayIsOneLater` | llm_code/cron/parser.py:135-137 | the next day, across month and year ends, is one day further in the count that weekdays are taken from |
| `Calendar.MonthLength` | llm_code/cron/parser.py:120-137 | the length of every month, by its usual closed form |
| `CronParser.ParsedFieldIsGood` | llm_code/cron/parser.py:31-76 | every accepted field is non-empty, in ascending order and within its bounds |
| `CronParser.SteppedFieldMeans` | llm_code/cron/parser.py:38-51 | `a-b/n` is accepted exactly for a positive step and a range within bounds, and means exactly a, a+n, ... up to b |
| `CronFields.StarMeans` | llm_code/cron/parser.py:35-36 | `*` means every value |
| `CronFields.StepMeans` | llm_code/cron/parser.py:38-51 | `*/n`, `a/n`: which are accepted and which values each means |
| `CronFields.SteppedRangeMeans` | llm_code/cron/parser.py:38-51 | `a-b/n` for any three integers: rejected unless the step is positive and the range within bounds |
| `CronFields.PlainRangeMeans` | llm_code/cron/parser.py:61-65 | `a-b` means the values from a to b, if that range is within bounds |
| `CronFields.ListMeans` | llm_code/cron/parser.py:53-59 | a list means the listed values, and any bad one rejects it |
| `CronFields.ListSplits` | llm_code/cron/parser.py:54-55 | what a comma separates in a list |
| `CronFields.ValueMeans` | llm_code/cron/parser.py:67-71 | a single value within bounds means itself |
| `CronFields.BadNumbers` | llm_code/cron/parser.py:39-51 | a step or range end that is no integer is an error |
| `CronFields.WordsMean` | llm_code/cron/parser.py:81-82 | the words of an expression are what whitespace separates, however much of it there is |
| `CronFields.FieldsInOrder` | llm_code/cron/parser.py:79-94 | minute, hour, day, month and weekday come from the five words in this order, each within its own bounds; anything else is an error |
| `CronParser.ParsedCronIsGood` | llm_code/cron/parser.py:79-94 | every accepted expression has five good fields |
| `NextFire.NextFireTime` | llm_code/cron/parser.py:102-145 | returns the least matching minute strictly after the argument, on a listed weekday; raises exactly when no minute of the following 366 days matches (near year 9999 the calendar can run out instead) |
| `NextFire.WeekdayIsTheNumbering` | llm_code/cron/parser.py:97-99 | the cron weekday is the one numbering of the days from Sunday as 0 in which 1 January 1970 was a Thursday and every day is followed by the next of seven |
| `NextFire.SomeNumbering` | llm_code/cron/parser.py:97-99 | there is such a numbering |
| `NextFire.MatchesByWeekday` | llm_code/cron/parser.py:114-123 | a minute matches exactly when month, day, hour and minute are listed and so is its weekday in that numbering |
| `NextFire.SkippedDoesNotMatch` | llm_code/cron/parser.py:120-144 | no minute that the month, day, hour or minute jump passes over matches, so the jumps equal a minute-by-minute scan |
| `NextFire.SkipAdvances` | llm_code/cron/parser.py:120-144 | every jump goes strictly forward |
| `FirePromises.FirstIsUnique` | llm_code/cron/parser.py:102-145 | there is only one first match |
| `FirePromises.EverydayScheduleFires` | llm_code/cron/parser.py:102-145 | with any weekday allowed and a date that exists every year, the search never raises |
| `FirePromises.NeverRaisesWhen` | llm_code/cron/parser.py:102-145 | with any weekday and some time of day allowed, the search never raises exactly when some month and day of the schedule exist in every year |
| `FirePromises.LeapDayScheduleCanRaise` | llm_code/cron/parser.py:102-145 | an instance: a schedule for 29 February can raise |
| `FirePromises.FractionDoesNotMatter` | llm_code/cron/parser.py:110-112 | seconds and microseconds of the argument do not change the result |
| `CronStorage.SavedFormIsStable` | llm_code/cron/storage.py:11-71 | saving cuts times to whole seconds once; saving again changes nothing |
| `CronStorage.CronStorage.constructor` | llm_code/cron/storage.py:28-53 | loading a saved file gives its tasks, records being read as they were written |
| `CronStorage.CronStorage.Add` | llm_code/cron/storage.py:73-93 | refuses exactly at 50 tasks; otherwise appends the new task, and the file follows |
| `CronStorage.CronStorage.Remove` | llm_code/cron/storage.py:95-102 | removes every task with the id and no other, and says whether there was one |
| `CronStorage.CronStorage.UpdateLastFired` | llm_code/cron/storage.py:108-126 | stamps the tasks with the id and no other, and returns the stamped one |
| `CronScheduler.CronScheduler.CheckMissed` | llm_code/cron/scheduler.py:47-63 | lists exactly the due tasks, in order |
| `CronScheduler.CronScheduler.ProcessOne` | llm_code/cron/scheduler.py:79-107 | fires and stamps a task exactly when it is due and neither expired nor unreadable; says whether it leaves |
| `CronScheduler.CronScheduler.ProcessTasks` | llm_code/cron/scheduler.py:75-110 | a whole cycle: every task expires, fires or stays on its own terms, although the loop works on a snapshot and removes at the end |
| `CronScheduler.RemovalFinishesTick` | llm_code/cron/scheduler.py:109-110 | the deferred removals take away exactly the expired tasks and the one-shots that fired |
| `CronLifetimes.DueMeans` | llm_code/cron/scheduler.py:50-62 | a task is due exactly when a minute of its expression, after its last firing or else its creation and within 366 days, has come |
| `CronLifetimes.MissedHavePassed` | llm_code/cron/scheduler.py:47-63 | the missed tasks are those, each once and in list order |
| `CronLifetimes.ExpiredMeans` | llm_code/cron/scheduler.py:80-85 | exactly the recurring tasks that are not permanent expire, from 31 whole days on |
| `CronLifetimes.TickMeans` | llm_code/cron/scheduler.py:75-110 | what a cycle makes of each task: fired when due and not expired, dropped when expired or a one-shot that fires, stamped otherwise when fired, else untouched |
| `CronLifetimes.PromptsOfFiring` | llm_code/cron/scheduler.py:101-103 | the callback gets the prompts of the tasks that fire, each task once and in list order |
| `CronLifetimes.EventKeepsTask` | llm_code/cron/scheduler.py:75-110 | a task leaves the list exactly when it is removed by id, is too old at a cycle, or is a one-shot that fires |
| `CronLifetimes.TaskStaysUnlessEnded` | llm_code/cron/scheduler.py:75-110 | over any history a task is listed until such an event |
| `CronLifetimes.PermanentTaskStays` | llm_code/cron/scheduler.py:80-110 | over any history a permanent recurring task leaves only by removal |
| `CronLifetimes.SavedTaskIsSame` | llm_code/cron/storage.py:32-71 | saving and loading keeps a task, and the time of its last firing to the second |
| `CronHistory.EventKeepsGood` | llm_code/cron/scheduler.py:75-110 | every tick, addition, removal and reload keeps ids distinct and recorded, and all times at least 366 days before the end of the calendar |
| `CronHistory.NothingDueAfterTick` | llm_code/cron/scheduler.py:47-110 | right after a tick nothing is missed |
| `CronHistory.ReloadKeepsDue` | llm_code/cron/storage.py:32-71 | saving and reloading never changes whether a task is due |
| `CronHistory.FiredEverSince` | llm_code/cron/scheduler.py:101-107 | once fired, a task stays stamped at least that late through any later events, or is gone |
| `CronHistory.FiringsAreSeparated` | llm_code/cron/scheduler.py:95-107 | over any history two firings of a task are separated by a matching minute, and only a recurring task fires twice |
| `LspDemux.StepKeeps` | llm_code/lsp/client.py:501-520 | every step keeps: each response is in exactly one of wire, stash and its caller; lock and queue are consistent; no caller reads while its own response is stashed |
| `LspDemux.RunKeeps` | llm_code/lsp/client.py:501-520 | the same at every point of every interleaving |
| `LspDemux.QuietMeansDeliveredOrBehindReader` | llm_code/lsp/client.py:501-520 | when nothing can move, an answered caller is still waiting exactly when its response is stashed and it queues for the lock behind a reader of an empty wire |
| `LspDemux.StashedResponseCanWait` | llm_code/lsp/client.py:501-520 | a run that ends so: a stashed response waits behind a reader |
| `LspDemux.AllAnsweredMeansAllReturned` | llm_code/lsp/client.py:483-520 | once every request is answered and nothing can move, every caller has returned its own response |
| `LspDemux.ClientStepBurnsFuel` | llm_code/lsp/client.py:501-520 | the client cannot go on forever without new messages |
| `LspFraming.SendMessage` | llm_code/lsp/client.py:143-149 | writes exactly one frame behind what is there |
| `LspFraming.ReceiveHeaders` | llm_code/lsp/client.py:155-165 | reads the header lines up to and including the blank one and leaves the rest of the stream, or fails on a non-ASCII line |
| `LspFraming.ReceiveMessage` | llm_code/lsp/client.py:151-172 | receives the body that the headers announce and leaves the rest of the stream |
| `LspFraming.DecimalReadsBack` | llm_code/lsp/client.py:147-167 | a length written in decimal reads back |
| `LspFraming.FrameIsSelfDelimiting` | llm_code/lsp/client.py:143-172 | a sent frame is received whole from any stream it starts, whatever its body holds and whatever follows |
| `LspHeaders.FrameWithHeaders` | llm_code/lsp/client.py:151-172 | a frame with any header lines, in any order and case, is received whole: the last Content-Length decides, and without one the body is empty |
| `LspFraming.ConversationRoundTrips` | llm_code/lsp/client.py:143-172 | any number of sent bodies are received in order and consume every byte |
| `Sse.ParseSseEvents` | llm_code/api/sse.py:12-52 | the loops over blocks and lines yield exactly the reference events `Batch`, ending at `[DONE]` |
| `Sse.ParseSseLines` | llm_code/api/sse.py:55-115 | the accumulate-and-reset loop yields exactly the reference events `Live`, the unterminated last block included |
| `SseLines.BlocksAreLineBlocks` | llm_code/api/sse.py:9-24 | cutting the text at `\r?\n\r?\n` gives, block by block, the line list cut at its blank lines |
| `SseLines.StripOnLines` | llm_code/api/sse.py:25-30 | stripping a block, for every text, is dropping its blank lines at both ends and stripping the first and the last line that remain |
| `SseBlockEnds.HarmlessExactly` | llm_code/api/sse.py:25-46 | stripping leaves the data of a block unchanged exactly when it has no visible line, or holds the end marker, or its first visible line reads the same without indentation and its last without trailing whitespace |
| `SseAgreement.ParsersAgree` | llm_code/api/sse.py:12-115 | if stripping changes no block up to the end marker, which the ends of each block decide, the two parsers agree except for JSON `null`, and agree fully exactly when nothing before the marker decodes to `null`; this covers whitespace inside blocks, multi-line data, runs of blank lines, `[DONE]` and an unterminated last block |
| `SseAgreement.AgreeExactly` | llm_code/api/sse.py:12-115 | for every text, the parsers agree under every decoder exactly when the lists of texts they hand to it are equal |
| `SseHarm.HarmlessIsNeeded` | llm_code/api/sse.py:12-115 | if stripping uncovers no end marker, or no block is indented, the parsers agree under every decoder exactly when stripping changes no block up to the marker |
| `SseHarm.HarmCanCancel` | llm_code/api/sse.py:12-115 | with both at once two changed blocks can cancel out: a text whose blocks are changed and on which the parsers agree |
| `SseAgreement.FinalBlankLineIsOptional` | llm_code/api/sse.py:109-115 | a blank line at the end changes nothing |
| `SseAgreement.NullIsLost` | llm_code/api/sse.py:81-97 | a `null` payload is an event for one parser and nothing for the other |
| `SseAgreement.IndentedDataIsLost` | llm_code/api/sse.py:25-35 | an instance: an indented `data` line alone in its text is an event for the whole-text parser only |
| `SseRoundTrip.FieldLine` | llm_code/api/sse.py:30-42 | how a field line is read: one space after the colon is optional, comments and other fields carry no data |
| `SseRoundTrip.SentEventsArrive` | llm_code/api/sse.py:55-115 | events sent as `data` fields, however many lines each has, arrive in order and once each; nothing after the end marker does |
| `SseRoundTrip.SentTextArrives` | llm_code/api/sse.py:12-52 | the whole-text parser hands on the same events for any text with those lines, if the last line of each payload has no whitespace at its end |
| `OpenAiStream.BuildEvents` | llm_code/api/openai_compat.py:742-824 | the buffered decoder computes `Buffered`: the stateless event list with the stop right after the first finish reason and its usage patched |
| `OpenAiStream.AddTool` | llm_code/api/openai_compat.py:775-801 | appends the delta's events, and the table of pending calls answers for every index who opened it and what arguments arrived |
| `OpenAiStream.PatchLastStop` | llm_code/api/openai_compat.py:812-822 | the backward loop patches the last stop and nothing else |
| `OpenAiStream.HeldStopIsFinal` | llm_code/api/openai_compat.py:803-810 | the first finish reason decides the stop, whatever follows |
| `OpenAiIterator.AsyncStreamIterator.constructor` | llm_code/api/openai_compat.py:857-870 | a new iterator still has to yield exactly `Lazy` of its chunks |
| `OpenAiIterator.AsyncStreamIterator.ProcessChunk` | llm_code/api/openai_compat.py:911-968 | one chunk appends exactly its events to the buffer and holds the first stop back |
| `OpenAiIterator.AsyncStreamIterator.Next` | llm_code/api/openai_compat.py:875-909 | each call yields the next event of what remains, and stops exactly when nothing remains |
| `OpenAiIterator.Drain` | llm_code/api/openai_compat.py:837-968 | draining the iterator gives `Lazy` |
| `OpenAiAgreement.LazyMovesStopLast` | llm_code/api/openai_compat.py:742-968 | the lazy iterator yields the buffered events with the same stop, same patch, moved last; there is one stop exactly when some choice carried a finish reason |
| `OpenAiAgreement.FragmentsArrive` | llm_code/api/openai_compat.py:775-801 | for every id, shared or not, both decoders emit under it exactly the argument fragments received for the indices opened with it, in order |
| `OpenAiAgreement.OwnFragmentsArrive` | llm_code/api/openai_compat.py:775-801 | a tool index whose id no other index has gets exactly its own fragments |
| `OpenAiContent.StartsAreOpenings` | llm_code/api/openai_compat.py:775-801 | both decoders announce each tool call once, with the id and name of its first delta, in the order in which the calls begin; a call without a name is not announced |
| `OpenAiContent.SaidIsHeard` | llm_code/api/openai_compat.py:757-773 | both decoders hand on all reasoning and all text, in order and each as what it is, a choice's reasoning before its text |
| `OpenAiContent.ReasoningIsFirst` | llm_code/api/openai_compat.py:118-124 | the reasoning of a choice is its first candidate field that is not empty |
| `OpenAiContent.OneMoreDelta` | llm_code/api/openai_compat.py:775-801 | one more tool delta hands on its start, if it is the first of its index and named, and then its fragment under the id of that first delta |
| `OpenAiContent.SaidComesFirst` | llm_code/api/openai_compat.py:757-801 | within a choice reasoning and text come before the tool deltas, which go out as they would alone |
| `OpenAiContent.DeltasInOrder` | llm_code/api/openai_compat.py:775-801 | the tool deltas of a choice go out one after the other |
| `OpenAiContent.StopReports` | llm_code/api/openai_compat.py:803-822 | the one stop of both decoders gives the first finish reason, and the counts of the latest usage then, or of the latest at all if those had no input and output tokens |
| `OpenAiContent.UsageCounts` | llm_code/api/openai_compat.py:97-115 | each count is the first non-zero of its own entries, or 0 |
| `OpenAiContent.StopFollowsItsChoice` | llm_code/api/openai_compat.py:803-810 | in the buffered list the stop comes right after the events of the choice that finishes first |
| `AnthropicStream.StepTracks` | llm_code/api/anthropic_provider.py:551-645 | the decoder tables answer every question about the messages so far: block kind, tool id, open server block, pending signature, usage, stop reason |
| `AnthropicStream.Parse` | llm_code/api/anthropic_provider.py:511-655 | the batch decoder computes the reference events of its blocks |
| `AnthropicIterator.AnthropicLiveStreamIterator.constructor` | llm_code/api/anthropic_provider.py:678-707 | a new iterator still has to yield exactly `LiveEvents` of its lines |
| `AnthropicIterator.AnthropicLiveStreamIterator.ProcessSseEvent` | llm_code/api/anthropic_provider.py:830-926 | one payload yields its reference events and keeps the tables |
| `AnthropicIterator.AnthropicLiveStreamIterator.ReadBlock` | llm_code/api/anthropic_provider.py:784-802 | reads the next block that a blank line ends, or nothing |
| `AnthropicIterator.AnthropicLiveStreamIterator.Next` | llm_code/api/anthropic_provider.py:772-827 | each call yields the next event of what remains, and ends exactly when nothing remains |
| `AnthropicIterator.Drain` | llm_code/api/anthropic_provider.py:668-926 | draining the iterator gives `LiveEvents` |
| `AnthropicBlockEnds.KeptExactly` | llm_code/api/anthropic_provider.py:524-545 | stripping leaves what a block hands on unchanged exactly when its last visible line reads the same without trailing whitespace, and its first one without indentation or as an event name that makes no difference |
| `AnthropicAgreement.KeptMeansSameRead` | llm_code/api/anthropic_provider.py:524-545 | over a whole text, stripping changes nothing that is read exactly when it changes no block; it never makes a block with data disappear |
| `AnthropicAgreement.BatchReadsOneMoreBlock` | llm_code/api/anthropic_provider.py:524-545 | if stripping changes no block, the batch decoder sees the live one's messages and then the message of an unterminated last block |
| `AnthropicAgreement.OneMoreMessage` | llm_code/api/anthropic_provider.py:551-655 | one more message at the end leaves the events unchanged exactly when it is silent, by its kind: a start other than a tool call's, an empty delta, a stop with nothing open or signed, usage and reason already known, or another payload type |
| `AnthropicAgreement.LiveAgreesWithBatch` | llm_code/api/anthropic_provider.py:511-827 | if stripping changes no block, the decoders yield the same events exactly when nothing is dropped, or the dropped message is silent |
| `AnthropicAgreement.TerminatedStreamsAgree` | llm_code/api/anthropic_provider.py:772-827 | they agree on every stream that a blank line ends and in which stripping changes no block |
| `AnthropicAgreement.UnterminatedTextIsLost` | llm_code/api/anthropic_provider.py:802-812 | an unterminated last text delta is lost by the live decoder |
| `AnthropicAgreement.IndentedTextIsLost` | llm_code/api/anthropic_provider.py:524-545 | an indented text delta is lost by the live decoder although a blank line ends it |
| `AnthropicAgreement.OneStopAtTheEnd` | llm_code/api/anthropic_provider.py:647-655 | no event before the final one is a stop |
| `AnthropicAgreement.SignatureSinceLastStop` | llm_code/api/anthropic_provider.py:588-599 | an emitted signature is the parts of its index since that index last stopped, joined in order |
| `AnthropicAgreement.InterleavingIsIrrelevant` | llm_code/api/anthropic_provider.py:551-645 | a block's events depend on its own messages only, however the indices interleave |
| `AnthropicContent.OneMorePayload` | llm_code/api/anthropic_provider.py:551-645 | one more payload hands on just its own output, given by its literal types: a tool start by id and name, a thinking or text delta as what it is, an argument fragment under the id of the last call at its index, and at a stop the signature or the server block with the fields of its start |
| `AnthropicContent.SaidIsHeard` | llm_code/api/anthropic_provider.py:551-585 | all thinking and all text arrives, in order and each as what it is, and every tool call is announced by its id and name |
| `AnthropicContent.StopReports` | llm_code/api/anthropic_provider.py:637-655 | the closing event gives each of the four counts as last reported under its own key, and the last stop reason |
| `AnthropicContent.BothHandOn` | llm_code/api/anthropic_provider.py:511-926 | both decoders hand on this, of what they received: the batch one from a text, the live one from lines |
| `AnthropicContent.FieldLine` | llm_code/api/anthropic_provider.py:529-540 | how a field line is read: an event name is stripped, one space before data is optional, other fields carry nothing |
| `SlidingWindow.SlidingWindowLimiter.TryAcquire` | llm_code/api/rate_limiter.py:635-647 | the critical section: expired stamps leave, then a grant is recorded or the wait is computed |
| `SlidingWindow.StepKeeps` | llm_code/api/rate_limiter.py:613-675 | every step of every interleaving, cancellation included, keeps: grants spaced by the window, the deque being the recent end of all grants, permits adding up, sleepers waiting for the right stamp |
| `SlidingWindow.RateHolds` | llm_code/api/rate_limiter.py:613-675 | in every run every half-open window holds at most `max_requests` grants, and permits plus holders stay equal to `concurrency` |
| `SlidingWindow.ClosedWindowHolds` | llm_code/api/rate_limiter.py:637-644 | in every run a closed window of the same length holds at most twice `max_requests` grants, and more than `max_requests` exactly when more lie at its open end than the half-open window leaves room for |
| `SlidingWindow.ClosedWindowCanHoldTwice` | llm_code/api/rate_limiter.py:637-644 | for every limit, a run of two bursts one window apart that reaches twice the limit |
| `SlidingWindow.WaitIsShort` | llm_code/api/rate_limiter.py:646-647 | a computed wait is positive and at most one window |
| `SlidingWindow.SleeperFindsRoom` | llm_code/api/rate_limiter.py:646-656 | a waiter that slept its wait finds its stamp expired, and is granted if nobody else was |
| `RetryPolicy.RateLimitHandler.OnException` | llm_code/api/rate_limiter.py:316-361 | retries exactly while the track of the failure has seen fewer failures than its kind allows, and then sleeps its hint or its schedule; exactly one track's counter moves |
| `RetryPolicy.DecisionMeans` | llm_code/api/rate_limiter.py:182-262 | the same for both policies, as a table of allowances and sleeps; a permanent failure is never retried and a hint is slept exactly |
| `RetryPolicy.RunWithRateLimit` | llm_code/api/rate_limiter.py:481-530 | makes exactly the calls and sleeps of `Loop`, from whatever counters the handler has; success resets them, giving up leaves them spent |
| `RetryPolicy.PostWithRetry` | llm_code/api/openai_compat.py:375-448 | both providers' loop makes exactly the posts and sleeps of `Loop`, leaving only by a return or a raise inside it; a negative limit posts nothing and ends by raising `None` |
| `RetryPolicy.RetryIsPaidFor` | llm_code/api/rate_limiter.py:157-262 | every retry, on either track and in either policy, uses up one of a fixed number |
| `RetryBounds.ReachesCall` | llm_code/api/rate_limiter.py:513-530 | the loop reaches a call exactly when every earlier one failed within budget, and succeeds exactly when its last call does |
| `RetryLaws.FollowedWhen` | llm_code/api/rate_limiter.py:182-262 | over any run, a failed call is followed by another exactly when its track has seen fewer failures than its kind allows |
| `RetryLaws.PermanentIsFinal` | llm_code/api/rate_limiter.py:188-192 | nothing comes after a permanent failure, and the run does not succeed |
| `RetryLaws.SleepsBetweenCalls` | llm_code/api/rate_limiter.py:513-530 | the loop sleeps after every call but its last, for the time that the call's failure asks for |
| `RetryLaws.AfterFailure` | llm_code/api/rate_limiter.py:481-530 | what one failure leads to from any counters, such as those of a handler that gave up before |
| `RetryBounds.ForegroundBudget` | llm_code/api/rate_limiter.py:157-262 | a foreground request makes at most 31 calls and, without hints, sleeps at most 5825 seconds; one failure sequence reaches both |
| `RetryBounds.BackgroundBudget` | llm_code/api/rate_limiter.py:157-262 | a background request makes at most 3 calls and, without hints, sleeps at most 31 seconds; both are reached |
| `RetryBounds.ProviderBudget` | llm_code/api/anthropic_provider.py:299-356 | the providers' loop posts at most `max_retries + 4` times and, without hints, sleeps at most 2^max_retries + 209 seconds; both are reached |
| `SessionRate.HayhooksSession.CheckRateLimit` | llm_code/hayhooks/session.py:112-136 | lets a request through exactly when fewer than the limit are in the window, otherwise returns the hint; a non-positive limit checks nothing |
| `SessionRate.SessionRateHolds` | llm_code/hayhooks/session.py:112-136 | over a session's life every half-open minute holds at most the limit of accepted requests |
| `SessionRate.HintIsEnoughWhen` | llm_code/hayhooks/session.py:126-130 | the hint covers the time left exactly when that is at most a second, or has no fraction, or a fraction of at least a millisecond; it is never a second too long |
| `SessionRate.HintIsEnoughForMilliseconds` | llm_code/hayhooks/session.py:126-130 | at millisecond granularity the hint is always enough |
| `SessionRate.HintCanBeTooShort` | llm_code/hayhooks/session.py:126-130 | with exact times it can be too short |
| `SessionRate.RetryAfterHint` | llm_code/hayhooks/session.py:123-136 | a client that waits for the hint gets through, if alone, exactly when the hint covers the time left |
| `AgentBudget.RetryBudget.Consume` | llm_code/engine/policies/budget.py:43-61 | spends one unit exactly when there is one, and otherwise changes nothing and says so |
| `AgentBudget.ExecuteWithPolicies` | llm_code/engine/agent.py:399-462 | tries, retries and falls back as `Execute` does, and spends one unit of budget per extra invocation, never more than is left |
| `AgentBudget.AfterInvocation` | llm_code/engine/agent.py:399-462 | what follows an invocation: a retry under the same name with the modified arguments, if any; otherwise the fallback tool with the arguments as they are and attempts counted afresh; otherwise, or without budget, the error |
| `AgentBudget.FailureInTurn` | llm_code/engine/agent.py:352-397 | the same for one step of a concurrent turn |
| `AgentBudget.AloneIsSequential` | llm_code/engine/agent.py:330-462 | a concurrent task that has the budget to itself does exactly what the sequential form does |
| `AgentBudget.StepBalance` | llm_code/engine/agent.py:330-397 | every step keeps invocations, waiting tasks and retries in balance and uses up one unit of remaining work |
| `AgentBudget.BudgetHolds` | llm_code/engine/agent.py:287-397 | for any calls, answers and interleaving: invocations are at most calls plus remaining budget, and every run ends |
| `AgentBudget.StuckMeansDone` | llm_code/engine/agent.py:287-397 | a run that cannot go on has one result per call, and one invocation per call and per retry |
| `AgentBudget.ResultsStay` | llm_code/engine/agent.py:291-294 | a result once returned never changes |
| `AgentBudget.RunBudgetHolds` | llm_code/engine/agent.py:217-309 | the bound holds over all turns of a run, which share the budget |
| `AgentBudget.RecordResults` | llm_code/engine/agent.py:295-307 | one tool message per call, in call order, with the result's content and error flag under the id and name asked for; denials collected in order |
| `AgentBudget.DeniedAre` | llm_code/engine/agent.py:306-307 | the denial history grows by exactly the calls whose result is a denial, each once and in order |
| `Conversion.TruncateIsIdempotent` | llm_code/api/conversion.py:585-636 | truncating a truncated body changes nothing |
| `Conversion.CompressionGrowsWhen` | llm_code/api/conversion.py:585-636 | for every trailer stripper, truncating lengthens a body exactly when it is unmarked, over the limit, and marker plus stripped preview are longer than it |
| `Conversion.CompressionCanGrow` | llm_code/api/conversion.py:622-636 | with nothing stripped these are exactly the unmarked bodies of 251 to 459 characters |
| `Conversion.CompressOldToolResults` | llm_code/api/conversion.py:652-707 | compresses exactly the result-only messages before the trailing run |
| `Conversion.CompressKeepsShape` | llm_code/api/conversion.py:652-707 | keeps messages, roles, blocks, tool ids and error flags; the trailing run and all other messages are unchanged |
| `Conversion.CompressOnceIsEnough` | llm_code/api/conversion.py:652-707 | compressing, growing the history and compressing again is the same as compressing once |
| `Conversion.CompressIsIdempotent` | llm_code/api/conversion.py:652-707 | compressing twice is compressing once |
| `WireContent.OldResultsAreCut` | llm_code/api/conversion.py:652-707 | the results of a result-only message before a later message of another kind go out truncated, and no other block changes |
| `WireContent.CutShowsPreview` | llm_code/api/conversion.py:585-636 | a body that is cut keeps its first 250 characters, stripped, behind a heading with its length; any other body goes out as it is |
| `WireContent.ItemsInOrder` | llm_code/api/conversion.py:127-136 | the text of a list of items is theirs, with a line break between each and the next |
| `WireContent.OneItem` | llm_code/api/conversion.py:112-139 | the text of any other result, and of a single item |
| `OpenAiWire.SplitBundledToolResults` | llm_code/api/conversion.py:437-472 | one message per bundled result, in order; everything else unchanged |
| `OpenAiWire.SplitAndCompressCommute` | llm_code/api/conversion.py:437-707 | splitting and compressing commute |
| `WireContent.SplitKeepsBlocks` | llm_code/api/conversion.py:437-472 | splitting loses, adds and reorders no block, takes apart every bundle of results and leaves every other message |
| `OpenAiConversion.OpenAiConvertMessage` | llm_code/api/conversion.py:295-386 | one message becomes one entry: a tool entry, an assistant entry with its calls and joined text, a parts array or a text; or it raises |
| `OpenAiConversion.SerializeOpenAiMessages` | llm_code/api/conversion.py:710-754 | the loop gives the system entry and the converted split history, or raises if some conversion does |
| `OpenAiConversion.RaisesExactlyWhen` | llm_code/api/conversion.py:305-315 | conversion raises exactly for a `tool` message that does not begin with a result |
| `OpenAiConversion.ToolEntriesAreResults` | llm_code/api/conversion.py:305-386 | the `role: tool` entries are exactly the history's results in order, when and only when no message mixes a result with other blocks in a way that loses it |
| `WireContent.EntryCarries` | llm_code/api/conversion.py:295-386 | what an entry carries of its message: the first result, or the joined text and the calls with their ids, names and arguments, or texts and images in order |
| `WireContent.SerializedInOrder` | llm_code/api/conversion.py:710-754 | the wire is the system text, if any, and one such entry for every message of the split history, in order |
| `ToolPairing.PairingSurvives` | llm_code/api/conversion.py:305-754 | if every result was called for earlier, then after compressing, splitting and converting every `role: tool` entry follows a `tool_calls` entry with its id |
| `ToolPairing.WirePairedMeans` | llm_code/api/conversion.py:317-353 | spells that out with positions |
| `TagFilter.OutputIsMeaning` | llm_code/hayhooks/debug_repl.py:169-201 | from any reachable state the character loop shows exactly what that state still stands for |
| `TagFilter.FilterText` | llm_code/hayhooks/debug_repl.py:178-201 | the loop over one delta continues the filter exactly where the last delta left it |
| `TagFilter.RunTurn` | llm_code/hayhooks/debug_repl.py:150-243 | all text sent in a turn joins to the visible part of all text streamed, however it was cut and wherever tool calls flushed it |
| `TagFilter.SectionsAreHiddenWhen` | llm_code/hayhooks/debug_repl.py:178-201 | after a text that leaves the filter outside any section, every complete section is hidden, whatever it holds and whatever follows, exactly when the filter holds no pending characters of a tag |
| `TagFilter.PendingShowsTag` | llm_code/hayhooks/debug_repl.py:189-199 | when it does hold some, an opening tag that follows is shown, and the text behind it is read as if no section had begun |
| `TagFilter.SectionIsHidden` | llm_code/hayhooks/debug_repl.py:178-201 | at the start of a text: the section up to its first closing tag goes, and the rest is filtered on |
| `TagFilter.PlainTextIsVisible` | llm_code/hayhooks/debug_repl.py:178-201 | text without `<` passes unchanged |
| `TagFilter.DoubledBracketShowsTag` | llm_code/hayhooks/debug_repl.py:189-199 | an instance: a second `<` right before a tag keeps it from being recognised |
| `TagFilter.VisibleIsSubsequence` | llm_code/hayhooks/debug_repl.py:178-201 | the filter only leaves characters out |

## Left out

- Components are total functions from resolved inputs to an output dict; a component that raises, and cancelled tasks, are not modelled. Lookup of a missing upstream socket is, as a failed run.
- `state_writes` conflict checks, `validate`, `inputs`, `outputs` and `to_dot` of the pipeline: read-only listings. That a defaultdict grows when it is read is invisible in the model.
- The tracing spans, logging and metrics around every operation.
- `int()` and `str.split` on non-ASCII digits and whitespace: reading an integer is a parameter of the cron parser, and whitespace is ASCII throughout.
- CronScheduler.CronScheduler.CheckMissed: asks that times lie more than 366 days before the end of year 9999, because the search there can raise an OverflowError that the source does not catch.
- CronScheduler.CronScheduler.ProcessTasks: the same bound on times, and distinct task ids, which the random ids give; firing a prompt is an atomic step that does not raise or change the storage.
- CronHistory.FiringsAreSeparated: histories have non-decreasing tick times.
- CronStorage.CronStorage.constructor: reading a record, with its defaults and its time parsing, is taken as the inverse of writing it.
- The lock file of the scheduler, the JSON file format and file errors of the storage.
- LSP timeouts, cancelled requests, requests from the server, duplicate ids and error responses; closing the transport.
- LspHeaders.FrameWithHeaders: header names and values are ASCII, without line feeds and without whitespace at their ends.
- LspFraming.ReceiveMessage: after a malformed header the position in the stream is not described, since the exception ends the conversation.
- JSON decoding and encoding, UUIDs and clocks are parameters. Payloads that decode to something other than an object, on which the decoders raise, are not modelled.
- Line splitting by the HTTP client at characters other than `\r\n` and `\n`.
- SseAgreement.ParsersAgree: the condition on block ends is the one for every decoder; that a JSON reader skips spaces behind a value is not used.
- SseHarm.HarmlessIsNeeded: leaves out texts in which stripping uncovers an end marker and some block is indented; there `HarmCanCancel` shows that changed blocks do not decide, and `SseAgreement.AgreeExactly` still does.
- SseRoundTrip.SentTextArrives: payloads whose last line ends in whitespace are left out, because the whole-text parser strips it.
- AnthropicAgreement.BatchReadsOneMoreBlock: asks that stripping keeps the message of every block, and so do the two theorems built on it; `KeptMeansSameRead` shows when that is so, and `IndentedTextIsLost` what happens otherwise.
- OpenAiAgreement.OwnFragmentsArrive: asks that no other tool index was opened with the same id, since events carry ids and not indices; `FragmentsArrive` says what calls that share an id get.
- HTTP status handling, opening and closing of streams, and the outer `_stream_with_retry` loop.
- SlidingWindow.RateHolds: the clock is a non-decreasing real number; rounding of floating-point time is not modelled. The order in which the semaphore and the lock wake waiters is left open.
- `classify_exception`, heartbeats and `acquire_async`: failures come classified. Retry-After header parsing and its cap.
- RetryBounds.ForegroundBudget: the sleep bound is for failures without a Retry-After hint; the call bound holds with hints too.
- The ValueErrors of constructors given a non-positive window, limit or budget: the model's constructors ask for valid arguments.
- Degraded mode, exit conditions, reminders and final-answer selection of the agent loop; policies that raise.
- `_strip_url_list_trailer` is an arbitrary function of the preview. The Anthropic wire shape, cache breakpoints, `deferred_post_tool_blocks`, and `strip_prior_reasoning`, which removes keys that the conversion never sets.
- A turn of the debug REPL that ends in an exception sends no final text and is not modelled.
