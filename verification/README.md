# Agent data plane: a verified model

A Dafny model of the data plane that records agent runs and turns them into training data, with proofs about it. It
covers the evidence pipeline from producers to assembled episodes, the model proxy as a concurrent protocol, the recovery
of tool calls from generated text and their replay as a stream, batch packing and group-relative advantages, the closure of
training conversations, the stage supervisor and the verifier's case loop.

Check the project with `dafny verify dfyconfig.toml`.

## What the modules say

| module | subject |
|---|---|
| `Options`, `Ordering` | options, results, total orders, the stable sort, lists without repeats |
| `Json` | JSON values, the printer and the parser, and that parsing undoes printing |
| `BraceScan`, `ToolCalls`, `RecoverCalls` | brace spans of a text, tool calls found in it, and their way back into a response |
| `SseReplay`, `SseClient`, `SseRoundTrip` | a finished response replayed as server-sent events, the client that folds the stream, and the round trip |
| `Instants` | instants and the order of their ISO texts |
| `Trace`, `LogHistories`, `EventLog`, `EvidenceLog` | the event contract and redaction; what a history of operations does to an append-only log; the event log with its recorder, the model-evidence log |
| `Episodes`, `EpisodeFacts`, `Assembler` | one episode from its accepted events, and what its lists hold; the whole assembly of a raw stream |
| `PiAdapter`, `SpanSets`, `PiEpisodes`, `Pipeline` | the Pi adapter, and producers composed with the assembler |
| `ModelProxy`, `ModelProxyRuns` | the proxy's three locked sections, and what every interleaving of request threads keeps |
| `ProxyEpisodes`, `ProxyReplies` | proxy runs composed with the assembler; a generated text that makes the recovery raise, followed to the episode |
| `Batching`, `Advantages` | greedy packing under a padded-token budget; advantages inside a group of trajectories |
| `Closure`, `TrainingSteps`, `PiTraining` | tool observations inserted after their calls; the canonical steps of an episode; both composed with the Pi adapter |
| `Supervisor`, `VerifierLoop` | the restart-safe stage supervisor; the early-stopping case loop |

Where the source updates state in place, the model is a class or a loop proved against a function of the old state
(`EventWriter`, `TraceRecorder`, `EvidenceWriter`, `ModelProxyService`, the state file of the supervisor, and the
accumulating loops of the packer, the scanner, the assembler, the adapter and the exporters). The main theorems are lemmas
about those functions.

## Where code and documentation differ

The model follows the code.

- `_balanced_json_objects` speaks of top-level spans (src/capture/tool_calls.py:57) but scans from every opening brace,
  nested ones and those inside strings included. `BraceScan.BalancedJsonObjects` states what it lists, and
  `BraceScan.SpansCrossInsideAString` shows two spans that cross.
- `extract_tool_calls` promises that malformed calls yield nothing (src/capture/tool_calls.py:100-106), but a `name` that
  is a list or an object cannot be looked up in a set and raises. `ToolCalls.ExtractToolCalls` says exactly when;
  `ToolCalls.PrintedObjectNameRaises` gives the texts, and `ProxyReplies.ObjectNameSpoilsTheEpisode` what becomes of them:
  the call ends after its recorded request and the episode is never COMPLETE.
- The supervisor reads a stage's JSON gate only when it finds the artifact at the start of the stage
  (scripts/watch_learning_loop.py:70-96), not after running the stage's command (scripts/watch_learning_loop.py:109-116).
  `Supervisor.GatesHoldIff` says exactly when the artifacts behind a started command, as the pass last saw them, satisfy
  their gates,
  `Supervisor.GateIsNotCheckedAfterTheCommand` is a pass in which one does not, and
  `Supervisor.RefusedArtifactEndsThePass` says what a later pass does with it.
- The index of an append-only log is meant to mirror its file, but an append that raises after its line is on disk, as a
  failing sync does (src/capture/event_writer.py:111-118), leaves index and sequence number behind.
  `EventLog.EveryHistoryAgrees` and `EventLog.RecorderNumbersIff` say exactly when they agree, and
  `EventLog.RaisingAppendDisagrees` gives the shortest histories that do not.
- An episode starts and ends at the first and the last timestamp as texts (src/assembly/episode_assembler.py:276-277), but
  its contract compares them as instants (src/contracts/agent_episode.py:318-321), and the text of a whole second sorts
  after the others of that second. `EpisodeFacts.EndsBeforeStartIff` says exactly which events the contract refuses for it,
  `PiEpisodes.ConvertedEpisode` exactly which converted streams, and `PiEpisodes.EmptyStreamIsRefusedIff` shows that the
  empty one is refused whenever its base time is a whole second.
- The assembler means to replace a terminal declaration it cannot read, but an integer score beyond the doubles raises an
  error that no handler catches (src/contracts/agent_episode.py:96, src/assembly/episode_assembler.py:342). It ends the whole
  assembly: `Assembler.Assemble` says exactly when, `EpisodeFacts.HugeScoreOverflows` gives such a score.
- Every executed call of a run should find its place in the conversation that is closed, but that conversation is the
  history of the last model request (scripts/export_teacher_sft.py:180-194), so a run whose last response announces a call
  never closes: `PiTraining.LastResponseNeverCloses`.
- A task without test cases is resolved (scripts/verify_apps.py:99); `VerifierLoop.Verify` covers it.
- `sse_body` drops the content whenever `tool_calls` is present and not null, even when it is empty
  (src/capture/model_proxy_http.py:367-384): `SseRoundTrip.ContentSurvivesIff`, `SseRoundTrip.EmptyToolCallsDropContent`.

## Model

| member | source | states |
|---|---|---|
| `Batching.LoadExamples` | scripts/train_apps_lora_sft_fast.py:49-68 | The rows kept are exactly those with prompt and completion whose completion leaves room for a prompt token; each keeps the longest suffix of its prompt that fits, its whole completion and the matching labels; the rest are counted as dropped. |
| `Batching.MakeBatches` | scripts/train_apps_lora_sft_fast.py:71-89 | The batches concatenate to the length order, each is a singleton or fits the padded budget, each next row would not have fitted; and no partition of the rows into allowed parts, contiguous or not, has fewer parts. |
| `Batching.GreedyStaysAhead` | scripts/train_apps_lora_sft_fast.py:71-89 | For every packing into m parts, the first m greedy batches reach at least as far in the length order: the exchange argument behind optimality. |
| `Batching.GreedyIsOptimal` | scripts/train_apps_lora_sft_fast.py:71-89 | Greedy batches are no more than the parts of any partition into parts that are singletons or fit the budget. |
| `Batching.GreedyIsAPartition` | scripts/train_apps_lora_sft_fast.py:71-89 | The greedy batches themselves are such a partition: disjoint, covering every row once, each part allowed; so the minimum is reached. |
| `BraceScan.ScanFrom` | src/capture/tool_calls.py:65-88 | The inner loop over depth, string and escape flags ends where the specification of the scan says, or nowhere. |
| `BraceScan.CloseAtBrace` | src/capture/tool_calls.py:65-88 | The scan stops at an offset exactly when the text up to it is the shortest that brings the automaton back to its start. |
| `BraceScan.BalancedJsonObjects` | src/capture/tool_calls.py:56-89 | The result lists, in start order, exactly the shortest balanced span of every opening brace that has one. |
| `BraceScan.ParsedObjectIsTheSpan` | src/capture/tool_calls.py:56-89 | Wherever a JSON parser accepts an object, the span is exactly the text the parser read, whatever its strings hold. |
| `BraceScan.PrintedObjectIsTheSpan` | src/capture/tool_calls.py:56-89 | A printed object inside any text is its own span: quotes, backslashes and braces in its strings do not mislead the scan. |
| `BraceScan.InnerSpanClosesFirst` | src/capture/tool_calls.py:64-89 | A brace that the outer scan meets outside a string has a span, and it closes strictly before the outer one: no crossing. |
| `BraceScan.SpansCrossInsideAString` | src/capture/tool_calls.py:64-89 | A concrete text in which a brace inside a string starts a span that crosses the outer one. |
| `ToolCalls.CallsIn` | src/capture/tool_calls.py:119-147 | The loop over candidates yields a call for exactly the accepted ones, in order, with fresh ids and compactly printed arguments; the lookup of a name raises exactly when some candidate is an object whose name is a list or an object. |
| `ToolCalls.ExtractToolCalls` | src/capture/tool_calls.py:100-147 | No declared tool means no call; otherwise the calls are those of the tagged blocks and then of the spans no block covers. |
| `ToolCalls.NoCallIsFabricated` | src/capture/tool_calls.py:100-106 | Every returned call comes from a candidate that parses to an object with a declared name and non-empty object arguments. |
| `ToolCalls.ObjectNameRaises` | src/capture/tool_calls.py:126-130 | A candidate that prints an object whose name is a list or an object makes the extraction raise. |
| `ToolCalls.PrintedObjectNameRaises` | src/capture/tool_calls.py:100-130 | So does every text without tags in which such an object is printed after text without braces, whatever follows it. |
| `ToolCalls.OneBlock` | src/capture/tool_calls.py:29-30 | In a text with one tagged block the non-greedy block pattern matches that block and no other. |
| `ToolCalls.TaggedRoundTrip` | src/capture/tool_calls.py:92-147 | An allowed call printed inside one block is extracted as exactly one call with that name and those arguments, even if the arguments hold call-shaped objects. |
| `ToolCalls.BareRoundTrip` | src/capture/tool_calls.py:100-147 | The same call printed bare, with no tag in the text, is the first call accepted. |
| `RecoverCalls.RecoverToolCalls` | src/capture/model_proxy_http.py:67-96 | Calls of the engine win; otherwise exactly the extracted calls are filled in with finish reason tool_calls, none found leaves the response untouched, and a raising candidate is an error. |
| `RecoverCalls.HandleReply` | src/capture/model_proxy_http.py:257-266 | Recovery is applied to a 2xx reply that no injected transport answered; any other reply is passed on unchanged. |
| `RecoverCalls.RecoveredCallsReachTheClient` | src/capture/model_proxy_http.py:67-96 | The filled-in response can be replayed, and the client that reads the stream sees exactly the recovered calls. |
| `RecoverCalls.BareCallReachesTheClient` | src/capture/model_proxy_http.py:257-266 | End to end: a bare call printed in the content of a handled 2xx reply is the first call the streaming client sees, with its name and arguments. |
| `RecoverCalls.TaggedCallReachesTheClient` | src/capture/model_proxy_http.py:257-266 | End to end: a call printed inside the one block of such a reply is the only call the streaming client sees, whatever its arguments hold. |
| `SseReplay.Normalize` | src/capture/model_proxy_http.py:367-381 | The loop keeps the object entries, each with its position in the whole list as its index and its other keys unchanged. |
| `SseReplay.ReplayCalls` | src/capture/model_proxy_http.py:401-420 | Every call becomes a declaration frame and an argument frame in order; a call whose function is no object is an error. |
| `SseReplay.SseBody` | src/capture/model_proxy_http.py:355-429 | Succeeds exactly on replayable responses and then yields the framed chunks and the closing mark; each of the four errors is returned exactly in its case. |
| `SseClient.PrintIsOneLine` | src/capture/model_proxy_http.py:391-429 | Printed JSON holds no line break, so a frame holds it on one data line. |
| `SseClient.FramesRoundTrip` | src/capture/model_proxy_http.py:391-429 | The client reads back exactly the payloads that were framed. |
| `SseRoundTrip.CallIsRebuilt` | src/capture/model_proxy_http.py:401-420 | Folding a call's two deltas onto calls of other indexes adds exactly that call: the declaration opens it, the arguments complete it. |
| `SseRoundTrip.ReplayIsRebuilt` | src/capture/model_proxy_http.py:355-429 | Folding the stream rebuilds every call's index, id, type, name and argument text, the content when there are no calls, and the finish reason. |
| `SseRoundTrip.ContentSurvivesIff` | src/capture/model_proxy_http.py:365-384 | The content survives exactly when tool_calls is absent or null. |
| `SseRoundTrip.EmptyToolCallsDropContent` | src/capture/model_proxy_http.py:365-384 | A response with content and an empty tool_calls list reaches the client without its content. |
| `Trace.RedactionHidesExactlySecrets` | src/capture/recorder.py:42-54 | Two values redact to the same value exactly when they differ only under credential keys. |
| `EventLog.AppendAgrees` | src/capture/event_writer.py:100-119 | An append keeps the index equal to the rebuilt one and ids unique, reports the position of the event among the logged ones, and on a conflict changes nothing. |
| `EventLog.EveryHistoryAgrees` | src/capture/event_writer.py:81-119 | After any mix of appends, rejected appends, restarts, crashes and appends that raise after writing, the index is the rebuilt one and ids are unique exactly when no first append of an id raised after writing since the last restart, and none that ever did was followed by another append of its id before a restart. |
| `EventLog.RaisingAppendDisagrees` | src/capture/event_writer.py:100-119 | One append that raises after writing leaves the index behind; tried again, it leaves the event on disk twice, and a restart does not help. |
| `LogHistories.CompleteIff` | src/capture/event_writer.py:81-119 | For ids alone, in either log: disk and index hold the same ids, each once on disk, exactly when no first append of an id raised after writing since the last restart or was followed by another before one. |
| `EventLog.EventWriter.Append` | src/capture/event_writer.py:100-119 | File, index and result change as the specification of an append says. |
| `EventLog.Read` | src/capture/event_writer.py:40-70 | Good lines are parsed whatever their neighbours are, blank lines are skipped, and exactly the malformed lines are reported, by ascending number. |
| `EventLog.IndexEvents` | src/capture/event_writer.py:91-98 | The indexing loop yields the index of a consistent log and refuses exactly a log in which an id has two contents. |
| `EventLog.Open` | src/capture/event_writer.py:81-98 | Opening fails exactly on a malformed line or on two contents for an id, and otherwise yields the rebuilt index. |
| `EventLog.TraceRecorder.Emit` | src/capture/recorder.py:89-125 | The cursor advances exactly when the writer accepted the event, new or replayed. |
| `EventLog.RecorderNumbersItsLog` | src/capture/recorder.py:103-125 | A single recorder's k-th logged event has sequence k, even when some emits were refused. |
| `EventLog.RecorderNumbersIff` | src/capture/recorder.py:103-125 | When emits may also raise after writing: numbering and index are right exactly when none did, and two events share a sequence number exactly when a line was written after such a raise. |
| `EventLog.EmitResumes` | src/capture/recorder.py:103-125 | In a rerun, an already logged event is replayed in place and the next missing one is appended. |
| `EventLog.ResumeCompletesTheLog` | src/capture/recorder.py:119-125 | After any crashes, one complete rerun from sequence 0 leaves the log of an uninterrupted run. |
| `EvidenceLog.Capture` | src/capture/model_proxy.py:297-330 | Each training capability is backed by what the backend returned or named as an issue, never both; a call usable for training has aligned token ids and log-probabilities. |
| `EvidenceLog.EvidenceWriter.Append` | src/capture/model_proxy.py:359-376 | File, index and result change as the specification of an append by request id says. |
| `EvidenceLog.AppendAgrees` | src/capture/model_proxy.py:359-376 | An append keeps the index equal to the rebuilt one and request ids unique; a replay with other content is refused and changes nothing. |
| `EvidenceLog.EveryHistoryAgrees` | src/capture/model_proxy.py:336-376 | After any history the index is the one rebuilt from the file and each request id has one row, exactly when no first append of an id raised after writing since the last restart, and none that ever did was followed by another append of its id before a restart. |
| `EvidenceLog.IndexLines` | src/capture/model_proxy.py:341-357 | Opening succeeds exactly on readable lines that agree on every request id, and then yields the rebuilt index. |
| `Episodes.OrderedIsCanonical` | src/assembly/episode_assembler.py:177-179 | Events with distinct ids have one canonical order, whatever their order of arrival. |
| `Episodes.CountSequences` | src/assembly/episode_assembler.py:185-187 | The counting loop yields how many events carry each sequence number. |
| `Episodes.ReadCounts` | src/assembly/episode_assembler.py:188-196 | Gaps and collisions read off the counts are exactly the numbers no event, or several events, carry. |
| `Episodes.TypesMissingIff` | src/assembly/episode_assembler.py:289-305 | No type is missing exactly when the terminal event occurs and every opened model, tool, sandbox and verification span is closed. |
| `Episodes.AssembleEpisode` | src/assembly/episode_assembler.py:168-286 | The method computes the specified episode or its error: several runs, an end before the start, unknown evidence, or a score that no double can hold. |
| `Episodes.NumberedIff` | src/assembly/episode_assembler.py:185-196 | Sorted events have no gap and no collision exactly when their sequence numbers are their positions. |
| `Episodes.CompleteIff` | src/assembly/episode_assembler.py:229-234 | COMPLETE holds exactly when no id conflict touched the episode and its events are a whole record. |
| `Episodes.CorruptIff` | src/assembly/episode_assembler.py:229-234 | CORRUPT holds exactly on an id conflict, a shared sequence number or two terminal events. |
| `EpisodeFacts.OrphansAre` | src/assembly/episode_assembler.py:198-208 | The orphan list holds, in order and once each, exactly the spans of events whose parent does not occur. |
| `EpisodeFacts.ArtifactsAre` | src/assembly/episode_assembler.py:211-220 | The artifact lists hold, in order and once each, exactly the referenced ids the index lacks and the artifacts of those it has. |
| `EpisodeFacts.OrphansAreDetermined` | src/assembly/episode_assembler.py:198-208 | No other ordered list without repeats holds exactly the orphaned spans. |
| `EpisodeFacts.ArtifactsAreDetermined` | src/assembly/episode_assembler.py:211-220 | The ordered lists of missing and of found ids determine both artifact lists. |
| `EpisodeFacts.TimesAre` | src/assembly/episode_assembler.py:276-277 | The episode starts at the timestamp whose text comes first and ends at the one whose text comes last. |
| `EpisodeFacts.EndsBeforeStartIff` | src/contracts/agent_episode.py:318-321 | The end is an earlier instant than the start exactly when all events lie in one second, one of them on it and another inside it. |
| `EpisodeFacts.AssembledIff` | src/assembly/episode_assembler.py:168-286 | Each outcome of a group of events exactly in its case: several runs, a score beyond the doubles, events that split one second, unknown evidence; else the episode. |
| `EpisodeFacts.HugeScoreOverflows` | src/assembly/episode_assembler.py:323-349 | A terminal event that declares the integer 10^320 as its score raises past the handler of invalid declarations. |
| `Instants.TextsAreOrdered` | src/capture/pi_adapter.py:227 | The ISO texts of two instants sort by second and, within a second, by microsecond with the whole second last. |
| `Assembler.ArtifactIndex` | src/assembly/episode_assembler.py:155-166 | Succeeds exactly when no artifact id has two contents, and then maps each id to its artifact. |
| `Assembler.Intake` | src/assembly/episode_assembler.py:78-111 | The intake loop accepts, quarantines, counts and marks conflicts as specified by the first carrier of each id. |
| `Assembler.GroupEvents` | src/assembly/episode_assembler.py:113-115 | The grouping loop yields each episode's accepted events in order of arrival. |
| `Assembler.AssembleGroups` | src/assembly/episode_assembler.py:117-141 | The loop over the sorted episode ids yields the episodes, the failed ids and the events of failed groups in quarantine, unless a group ends it: exactly when one's score overflows. |
| `Assembler.Assemble` | src/assembly/episode_assembler.py:66-152 | The whole assembly is the specified one; it fails exactly when two artifacts share an id but not their content, or else when the score of some group overflows. |
| `Assembler.NoEventIsLost` | src/assembly/episode_assembler.py:84-143 | Conservation: every raw event is, as often as it arrived, in an episode, in quarantine, or an exact repeat. |
| `Assembler.UnambiguousIntake` | src/assembly/episode_assembler.py:84-111 | When no event of a known episode shares its id with another content, exactly the events of known episodes are accepted, each once. |
| `Assembler.ConflictIffAmbiguous` | src/assembly/episode_assembler.py:84-100 | A known episode is marked as conflicting exactly when the stream is ambiguous in that way. |
| `Assembler.ArrivalOrderIsIrrelevant` | src/assembly/episode_assembler.py:84-143 | Unambiguous streams with the same events in any order and with any repeats give the same episodes up to duplicate count and lineage, and the same failures. |
| `Assembler.OrderMattersIff` | src/assembly/episode_assembler.py:84-111 | The accepted events are the same for every order of arrival exactly when no event of a known episode shares its id with another content. |
| `Assembler.ConflictKeepsTheFirst` | src/assembly/episode_assembler.py:84-100 | Two contents under one id in known episodes, anywhere in a stream: whichever arrives first is accepted, the other is not, and both episodes are marked. |
| `PiAdapter.Convert` | src/capture/pi_adapter.py:237-475 | The record loop and the closing events compute the specified conversion. |
| `PiEpisodes.RecordsKeep` | src/capture/pi_adapter.py:237-403 | After any records: events are numbered and rise in time, parents occur, requests are answered, tool spans are those of the announced and ended ids. |
| `PiEpisodes.VerdictIsRead` | src/capture/pi_adapter.py:404-475 | What the terminal event declares is what the assembler reads back as outcome and termination. |
| `PiEpisodes.ConvertedEpisode` | src/capture/pi_adapter.py:237-475 | The converted events are refused exactly when the first is on a whole second and the last still inside it; otherwise the episode has no gap and no orphan, is never CORRUPT, is COMPLETE exactly when every announced tool call id has ended, else PARTIAL, and carries the declared outcome unless the backend failed for good. |
| `PiEpisodes.EmptyStreamIsRefusedIff` | src/capture/pi_adapter.py:237-475 | Without records there is no episode exactly when the base time is a whole second, as the epoch is. |
| `Pipeline.EpisodeFromStream` | src/assembly/episode_assembler.py:84-141 | An episode comes out of any unambiguous raw stream as it comes out of its own events alone, and fails as it does, with its events in quarantine. |
| `Pipeline.PiEpisodeInAnyStream` | src/capture/pi_adapter.py:163-475 | In the assembly of any unambiguous raw stream that carries the converted events, permuted, repeated or mixed with others, there is that episode; or, exactly when the contract refuses them, they are named as failed and are in quarantine. |
| `Pipeline.ConvertedEventsAreValid` | src/contracts/trace_event.py:84-155 | Every event the adapter emits passes the event contract. |
| `Pipeline.RecordedEpisode` | src/capture/recorder.py:89-125 | A single recorder's episode has no gap and no collision, is CORRUPT only through a second terminal event, and COMPLETE exactly when its events are a whole record; there is one exactly when the events do not split one second, the evidence is known and the score is a double. |
| `Pipeline.CrashesLeaveNoTrace` | src/capture/recorder.py:119-125 | A producer that crashed anywhere and then reran leaves, in any unambiguous raw stream, the episode or the failure of a run that never crashed. |
| `ModelProxy.ModelProxyService.Admit` | src/capture/model_proxy_http.py:188-196 | The first locked section: the closeout reason decides, and only an admitted call changes the count and the first-request flag. |
| `ModelProxy.ModelProxyService.RecordRequest` | src/capture/model_proxy_http.py:215-223 | The second locked section emits the request event of the call's span. |
| `ModelProxy.ModelProxyService.RecordResponse` | src/capture/model_proxy_http.py:282-304 | The third locked section appends the evidence row first and then emits the response event. |
| `ModelProxy.ModelProxyService.Forward` | src/capture/model_proxy_http.py:175-305 | A whole call that nothing interrupts is a run of its own atomic steps. |
| `ModelProxy.AloneIsForward` | src/capture/model_proxy_http.py:175-305 | The steps of one call and its straight-line code compute the same state and end. |
| `ModelProxyRuns.StepKeeps` | src/capture/model_proxy_http.py:175-305 | Every atomic step of every thread keeps the protocol invariant. |
| `ModelProxyRuns.EveryInterleaving` | src/capture/model_proxy_http.py:175-305 | Under every interleaving and with failures anywhere: responses at most evidence rows, at most requests, at most admitted calls, at most the budget; the hook runs at most once. |
| `ModelProxyRuns.ResponsesAreGrounded` | src/capture/model_proxy_http.py:215-304 | Every response event has one earlier request event on its span, no other response, and its evidence row. |
| `ModelProxyRuns.ClosedIffAllAnswered` | src/capture/model_proxy_http.py:215-304 | The model spans are closed, as the assembler asks, exactly when no call stopped between request and response. |
| `ModelProxyRuns.SpentStaysSpent` | src/capture/model_proxy_http.py:307-323 | Once the budget is spent, no continuation admits a further call. |
| `ModelProxyRuns.ClosedOutLeavesNoTrace` | src/capture/model_proxy_http.py:188-352 | In every run and every continuation, a call answered by a closeout has no request, no response and no evidence row. |
| `ModelProxyRuns.StoppedCallStaysOpen` | src/capture/model_proxy_http.py:215-305 | A call that stopped after its request keeps it and never gets a response or a row, and the model spans stay unclosed. |
| `ProxyEpisodes.ProxyEpisode` | src/assembly/episode_assembler.py:168-286 | The log of every run has no gap and no collision; its episode is CORRUPT exactly when it was finished twice, and COMPLETE exactly when every recorded request was answered and parents, other spans, terminal event and artifacts are whole. |
| `ProxyEpisodes.ProxyEpisodeInAnyStream` | src/assembly/episode_assembler.py:84-141 | The same in any unambiguous raw stream that carries the run's events. |
| `ProxyReplies.ObjectNameSpoilsTheEpisode` | src/capture/model_proxy_http.py:256-305 | A 2xx reply whose content prints an object with a list or an object as its name ends its call: the request stays unanswered, without a row, and the episode is not COMPLETE, however the run goes on. |
| `Advantages.GroupStats` | scripts/train_grpo_lora.py:57-68 | The loop over one group fills in the specified mean, deviation and advantages. |
| `Advantages.ComputeGroupAdvantages` | scripts/train_grpo_lora.py:42-70 | Exactly the groups that occur get statistics, each those of its own rollouts. |
| `Advantages.GroupSumsToZero` | scripts/train_grpo_lora.py:56-68 | With distinct trajectory ids the recorded advantages of a group sum to zero. |
| `Advantages.OrderIsKept` | scripts/train_grpo_lora.py:63-67 | Above the threshold advantages order rollouts exactly as rewards do and are positive exactly above the mean; at or below it all are zero. |
| `Advantages.ShiftChangesNothing` | scripts/train_grpo_lora.py:56-68 | Adding a constant to every reward changes no advantage. |
| `Advantages.AdvantageIsBounded` | scripts/train_grpo_lora.py:56-68 | Every squared advantage in a group of n is at most n-1, and less than n-1 when the group has two rollouts or more. |
| `Advantages.AdvantageBoundIsLeast` | scripts/train_grpo_lora.py:56-68 | No smaller bound holds: below n-1, some group of n with one rewarded rollout exceeds it. |
| `Advantages.DeviationBoundIsSharp` | scripts/train_grpo_lora.py:56-60 | The deviation bound behind it is reached: one rewarded rollout among n deviates by exactly n-1 variances, squared. |
| `Closure.ObserveCalls` | scripts/export_teacher_sft.py:156-173 | The loop over one message's calls closes them in order or stops at the first error. |
| `Closure.AssembleMessages` | scripts/export_teacher_sft.py:121-177 | The method computes the specified closure, with every error case. |
| `Closure.ClosesIff` | scripts/export_teacher_sft.py:121-177 | The closure succeeds exactly when steps have distinct ids, every call is good, no id is called twice and every step is called; the result is then the expansion of the kept messages. |
| `Closure.CallsMatchSteps` | scripts/export_teacher_sft.py:124-177 | On success the ids of the calls are the ids of the steps, each once. |
| `Closure.ObservationsFollowTheirCalls` | scripts/export_teacher_sft.py:126-129 | On success every message is directly followed by the observations of its calls in call order. |
| `Closure.OutputErasesToInput` | scripts/export_teacher_sft.py:142-150 | Erasing canonical tool messages from the output gives the input with its own erased. |
| `Closure.ClosureIsIdempotent` | scripts/export_teacher_sft.py:121-177 | Closing a closed conversation changes nothing. |
| `Closure.OnlyOtherMessagesCount` | scripts/export_teacher_sft.py:142-150 | Canonical tool messages already present, missing or misplaced make no difference. |
| `TrainingSteps.CollectSteps` | scripts/export_teacher_sft.py:206-224 | The loop over events yields a step for every call event, with the result its later result event carries. |
| `TrainingSteps.CalledOnce` | scripts/export_teacher_sft.py:206-224 | Steps can be indexed only if every call event has its own id. |
| `TrainingSteps.TrainedCallsWereExecuted` | scripts/export_teacher_sft.py:121-224 | Behind every call of the closed messages stand a call event and its later result event. |
| `PiTraining.ConvertedSteps` | scripts/export_teacher_sft.py:206-224 | The steps of a converted Pi run, for every record stream: one per announced call, in order, each with the redacted result of the latest execution end of its id since its latest announcement. |
| `PiTraining.StepsIndexedIff` | scripts/export_teacher_sft.py:132-140 | They can be indexed exactly when every announced id is announced once. |
| `PiTraining.ClosingNeedsExecution` | scripts/export_teacher_sft.py:121-177 | A conversation closes over a converted run only if every announced id is announced once, has a result from an execution end after it, and is called in the conversation, which calls no other id. |
| `PiTraining.LastResponseNeverCloses` | scripts/export_teacher_sft.py:180-194 | A converted run whose last response announces a call, executed or not, never closes over the history before that response. |
| `Supervisor.GateOpensIff` | scripts/watch_learning_loop.py:31-51 | The gate opens exactly when nothing is required, or the artifact is an object with every required value, whatever the order of the keys inside. |
| `Supervisor.SameObjectIff` | scripts/watch_learning_loop.py:44-50 | Two objects are taken for equal exactly when they have the same keys and equal values under each, at every depth. |
| `Supervisor.RunStage` | scripts/watch_learning_loop.py:63-116 | The loop body: what one stage does to the persisted state, whether the pass ends and whether a command ran. |
| `Supervisor.Supervise` | scripts/watch_learning_loop.py:54-118 | A whole pass leaves the specified state in the file, at every possible end and crash. |
| `Supervisor.CommandsAreGuarded` | scripts/watch_learning_loop.py:63-118 | A command starts only when every earlier stage is completed and fulfilled in that pass, and never while its own stage is completed. |
| `Supervisor.GateSeenIff` | scripts/watch_learning_loop.py:70-116 | When a command starts, the gates of the earlier stages whose artifact was found were open, and exactly the other earlier stages ran their commands. |
| `Supervisor.GatesHoldIff` | scripts/watch_learning_loop.py:70-116 | When a command starts, the artifacts of all earlier stages, as the pass last saw them, satisfy their gates exactly when every earlier command of the pass left an acceptable artifact. |
| `Supervisor.RefusedArtifactEndsThePass` | scripts/watch_learning_loop.py:70-87 | A pass that finds a refused artifact starts no later command, and ends there, rejected for that reason, if it gets there. |
| `Supervisor.HistoryTellsTheEnd` | scripts/watch_learning_loop.py:70-114 | Whenever a pass ends at a stage, the persisted latest entry of that stage says why, and at most one entry is new. |
| `Supervisor.DoneMeansFulfilled` | scripts/watch_learning_loop.py:117-118 | A pass that ends with everything done found or made every artifact; as it last saw them, they satisfy their gates exactly when the pass's commands left acceptable ones. |
| `Supervisor.EveryHistoryIsRestartable` | scripts/watch_learning_loop.py:54-118 | Over any number of passes and crashes, a started entry never directly follows a COMPLETED one of its stage, and no COMPLETED entry is lost. |
| `Supervisor.GateIsNotCheckedAfterTheCommand` | scripts/watch_learning_loop.py:109-116 | A pass over two stages in which the first command leaves an artifact that its gate refuses, the second command starts all the same, and the pass ends as done. |
| `VerifierLoop.RunCases` | scripts/verify_apps.py:58-96 | The loop runs all cases when none fails; else up to the tenth or the first failure, whichever is later, or just to the first failure when not evaluating all. |
| `VerifierLoop.Verify` | scripts/verify_apps.py:49-111 | A task is resolved exactly when it can be run and every case passes, none included; reported passes are a lower bound with the stated slack. |
| `VerifierLoop.EarlyStopKeepsVerdict` | scripts/verify_apps.py:92-99 | Stopping early never changes the verdict, and some tested case shows the failure. |

## Assumptions

- Checksums and digests are injective: equal checksums stand for equal contents, and the adapter's digest function is a
  parameter with that property (`PiEpisodes.Injective`).
- Generated ids are distinct: the request ids of the proxy's threads (`ModelProxyRuns.DistinctIds`) and the ids given to
  recovered calls, which are a parameter.
- An upstream reply, a transport's answer, a hook's end, a file error, a test case's result, a command's exit code, an
  artifact on disk and the moment of a crash are arbitrary inputs.
- A line of a log is written as a whole or not at all. An append that raises after its line is on disk is an operation of
  the histories of `EventLog` and `EvidenceLog` and of the emissions of `EventLog.RecorderNumbersIff`; everywhere else an
  append that raises has written nothing.
- Runs of the proxy start from empty logs; events that other producers record, before or between, are steps of the run.

## Left out

- HTTP servers, sockets, authorization, subprocesses, and the bytes and canonical key order behind checksums.
- JSON numbers are kept as their literals, so numerically equal literals differ, and an event holds no infinite float, as its contract demands; surrogate escapes and `NaN` are not read.
- Timestamps are instants in microseconds, ordered as `isoformat` texts ending in `Z` are; other spellings that the event contract admits, years outside 1 to 9999 and the rounding of fractional milliseconds are not modelled.
- Torn writes, and logs that held exact repeats before the writer opened them; line numbers count events, as the source counts them, and are physical only in a log without blank lines.
- Episode fields that no modelled decision reads: trace ids, components, attempts, manifests (one value per context), capabilities and warning texts; the contract checks on their values.
- ToolCalls.CallsIn: nesting too deep for the JSON parser, which raises an error the loop does not catch, is not modelled.
- Trace.ValidEvent: an identifier is blank when it holds only space, tab, newline or return; the source strips further white space.
- ToolCalls.AllowedNames: declared names that are not text contribute nothing here, while the source would take their string form.
- Batching.MakeBatches: takes the lengths of the examples, which is all the packing reads; collating the batches is not modelled.
- PiAdapter.Convert: event attributes other than the tool's name, id, arguments and result and the terminal declaration, capabilities, usage, error normalization and the session lookup are not modelled.
- RecoverCalls.RecoverToolCalls: the response is a value here, so that the source fills in the caller's own dictionary in place is not captured.
- SseClient.FramesRoundTrip: the client reads streams whose events are one data line each, which is what the replay writes; comments, other fields and continuation lines are not modelled.
- EvidenceLog.Capture: reading token ids and log-probabilities out of a response, and the extension issue added after it, are not modelled.
- ModelProxy.ModelProxyService.Forward: request and response payloads are opaque attributes; a failing event write is a stamp that the recorder refuses.
- Advantages.ComputeGroupAdvantages: arithmetic is over the reals with the square root given by its defining equation, so rounding is not modelled.
- Closure.AssembleMessages: rendering a result as text is a parameter, values are compared as JSON literals, and turning native messages into chat messages is not modelled.
- TrainingSteps.TrainedCallsWereExecuted: the message of the last response, which `_conversation` appends after closing (scripts/export_teacher_sft.py:180-203), is not among the closed messages, so calls it may hold are not covered here; for a Pi run that closes, `PiTraining.LastResponseNeverCloses` rules them out.
- TrainingSteps.CollectSteps: the result status that a step also carries is not modelled.
- Supervisor.GatesHoldIff: an artifact that a later command overwrites or deletes after the pass went past its stage is not covered.
- Supervisor.GateOpensIff: numbers are compared as literals, while the source also takes 1, 1.0 and true for equal.
- Supervisor.Supervise: times, artifact paths, commands' texts and return codes inside entries are not modelled.
- VerifierLoop.Verify: running a case, comparing its trimmed output and rounding the pass rate are not modelled.
- `make_batches` and `load_examples` of scripts/train_apps_lora_sft_v2.py are the same code and are modelled once.
- Certification, execution bundles, run finalization, training, tokenizers, dashboards and reports, which check and pass on what the modelled parts produce.
