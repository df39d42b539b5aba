# Verified model of the agent server's core

This project models, in Dafny, the parts of the agent server whose correctness is decided by
their own code: rate limiting, the tool-call history protocol, the checkpoint undo log, and
natural-language schedules up to the job that fires. `dafny verify dfyconfig.toml` checks it.

Objects that the server updates in place (buckets, the Redis key, message dicts, stream buffers,
checkpoint tables, the wizard's state, the schedule row) are classes; each method is proved
against a function on values, and the properties are lemmas about those functions over all
inputs and all runs.

- `TokenBucket.dfy`, `RateLimits.dfy`: the lazy-refill bucket and the cascades of buckets a user's
  actions draw from. Times and tokens are reals, and clocks do not go back.
- `SlidingWindow.dfy`, `AuthLog.dfy`, `FiniteSets.dfy`: the sorted-set limiter as a protocol of
  atomic steps between replicas, and the in-memory log it agrees with.
- `Messages.dfy`, `Repair.dfy`, `RepairProperties.dfy`, `Compression.dfy`, `Streaming.dfy`,
  `AgentLoop.dfy`, `AgentHandler.dfy`, `AgentTranscripts.dfy`: histories, the repair over shared
  messages, compression, the streamed response with retries, the loop, the exits of the message
  handler, and what all of them put into a history.
- `Checkpoints.dfy`, `CheckpointProperties.dfy`: the undo log and the file tools that write through it.
- `Text.dfy`, `NlCron.dfy`, `NlCronProperties.dfy`, `SpokenTimes.dfy`, `CronMeaning.dfy`,
  `EchoMeaning.dfy`: the schedule parser, its echo, how it reads times and days in words, what the
  emitted cron means, and that an echo does not name other moments.
- `Wizard.dfy`, `WizardWords.dfy`, `WizardReplies.dfy`, `WizardProperties.dfy`, `Dispatch.dfy`,
  `Scheduler.dfy`: the schedule wizard, the words it takes, what its replies alone describe, the
  resolution of a stored prompt, and the firing loop.
- `RecentFiles.dfy`: the bounded list of recently touched files.

What comes from outside is a parameter: call times, streamed events and how an attempt ends, tool
results and exceptions, token counts, summaries, whether a commit succeeds, the cron and time zone
checks, and the cron's next-instant function.

Where the code and its own words differ, the model follows the code:

- Checkpoints promise a file's content before it was changed; they log what it reads in text mode, so
  carriage returns are lost (`CarriageReturnIsLost`, with the exact condition in `UndoIsExact`).
- `revert_file` is documented to use the most recent checkpoint when no turn is given; it uses the
  earliest (`FileRevertMissesTheLatest`, with the exact condition in `FileRevertIsLatestIff`).
- The scheduler comment calls advancing and enqueueing atomic; a commit that fails after the job has
  been handed over fires the instant twice (`FailedCommitFiresTwice`). A finished job reschedules from
  a clock reading older than its commit, which can fire an instant twice with every commit
  successful (`LateCommitFiresTwice`), and a pass enqueues a row as it queried it, even if the row has
  been put right since (`QueriedRowFiresTwice`). The exact conditions are in `OneJobPerInstant`, for
  instants in order and once each, and `SameInstantTwiceIff`, for one instant twice.
- The weekday pattern looks as if it took plurals such as "mondays"; its greedy word match keeps the
  "s", so it takes only plurals that are listed themselves (`PluralDayIffListed`).
- The wizard promises deterministic dispatch, and the general-purpose agent for freeform prompts. The
  first holds exactly for targets that are agent names, or skill names without white space; the
  second exactly for prompts that neither start with a slash nor mention an agent. Otherwise another
  agent or skill may run (`TwoWordAgentIsAnother`, `SlashedFreeformIsSkill`; all cases in
  `EveryScheduleIsFaithful`).
- The wizard's name question shows a fresh default, while `skip` takes the one stored when the
  question was first asked (`SkipTakesTheFirstName`, with the exact condition in
  `SkipTakesShownNameIff`).

## Model

| member | source | states |
|---|---|---|
| `TokenBucket.Bucket.constructor` | core/rate_limit.py:19-27 | A new bucket is full and dated at its creation. |
| `TokenBucket.Bucket.Consume` | core/rate_limit.py:29-39 | One call refills, caps at the capacity, and takes a token exactly when at least one is there. |
| `TokenBucket.Bucket.Retry` | core/rate_limit.py:41-46 | The hint is the time in which the missing part of a token flows in. |
| `TokenBucket.AfterIsSound` | core/rate_limit.py:29-39 | A call keeps the tokens between zero and the capacity. |
| `TokenBucket.BucketBound` | core/rate_limit.py:29-39 | In any run of calls at nondecreasing times, no interval [s, t] holds more than capacity + rate * (t - s) grants. |
| `TokenBucket.BurstIsGranted` | core/rate_limit.py:26-38 | The bound is reached: a full bucket grants its capacity in one instant. |
| `TokenBucket.FreshGrantsCapacity` | core/rate_limit.py:26-38 | A new bucket grants exactly its capacity in one instant, and refuses every call after that. |
| `TokenBucket.DrainedIsFullAgain` | core/rate_limit.py:29-34 | A drained bucket is full again once its capacity has flowed in, and no sooner. |
| `TokenBucket.RefusalIsFree` | core/rate_limit.py:29-39 | After a refusal no later call can tell that it took place. |
| `TokenBucket.RefusedCallsCanGo` | core/rate_limit.py:29-39 | Deleting any choice of refused calls from a run leaves every grant as it was. |
| `TokenBucket.RetryHintIsExact` | core/rate_limit.py:41-46 | After a refusal, whatever is tried before the hinted moment is refused, and a call is granted if and only if that moment has come. |
| `RateLimits.UserLimits.constructor` | core/rate_limit.py:114-121 | A user's buckets start full. |
| `RateLimits.UserLimits.Take` | core/rate_limit.py:144-146 | One bucket is consumed from; the others keep their state. |
| `RateLimits.UserLimits.TakeTool` | core/rate_limit.py:154-163 | A tool's own bucket is created full by the first call that needs it. |
| `RateLimits.UserLimits.CheckRateLimit` | core/rate_limit.py:124-193 | An action asks the buckets of its chain in order; the first refusal ends it, gives the hint of that bucket, and what earlier buckets gave stays taken. |
| `RateLimits.CascadeEffect` | core/rate_limit.py:140-191 | A call does to each bucket nothing or exactly one consume, and is granted only if every bucket of its chain granted it. |
| `RateLimits.CascadeIsExact` | core/rate_limit.py:140-191 | A call is granted if and only if every bucket of its chain grants it; a refusal gives the hint of the first bucket that refused, and that bucket has a token again from then on and not before. |
| `RateLimits.CallsRefineBucket` | core/rate_limit.py:140-191 | Over any mix of actions, the granted calls that draw from a bucket are among that bucket's own grants. |
| `RateLimits.EveryBucketBound` | core/rate_limit.py:53-72 | For any mix of actions by a user, the bound of every bucket in every cascade holds at once. |
| `RateLimits.MessagesObeyBothLimits` | core/rate_limit.py:140-152 | Granted messages obey the minute bound and the hour bound together. |
| `RateLimits.LimitsAreAsPublished` | core/rate_limit.py:53-72 | Every bucket holds the published number of calls, and as many flow in during its published window. |
| `RateLimits.ActionsAreLimited` | core/rate_limit.py:140-193 | Which buckets each action is under, and no others. |
| `RateLimits.NeededBucketsAreFull` | core/rate_limit.py:155-160 | A bucket created by the call that first needs it grants exactly its capacity. |
| `SlidingWindow.SortedSet.PruneCountAdd` | core/rate_limit.py:88-98 | The pipeline is one step of the protocol; its count decides admission. |
| `SlidingWindow.SortedSet.Remove` | core/rate_limit.py:100-101 | Taking the entry back is a separate step. |
| `SlidingWindow.SortedSet.Oldest` | core/rate_limit.py:102-104 | The lowest score is found exactly when the set is not empty. |
| `SlidingWindow.SortedSet.Check` | core/rate_limit.py:82-108 | A whole check: admission by the count, the entry kept or taken back, and the hint from the oldest entry, at least one second. |
| `SlidingWindow.CountIsExact` | core/rate_limit.py:88-98 | What the pipeline counts is the admitted requests and the phantoms of the last window, no more and no less. |
| `SlidingWindow.StepKeepsInv` | core/rate_limit.py:82-108 | Every check, removal and expiry keeps the protocol invariant. |
| `SlidingWindow.WindowIsSafe` | core/rate_limit.py:82-108 | Under every interleaving of checks at distinct, nondecreasing times with late or missing removals and expiries, no window holds more than capacity admitted requests. |
| `SlidingWindow.PhantomsOnlyRefuse` | core/rate_limit.py:98-101 | A request is admitted if and only if admitted requests and phantoms together leave room, so phantoms cause refusals only. |
| `SlidingWindow.ExpiryDropsNothingLive` | core/rate_limit.py:95 | When the key may expire, every entry is more than a window old. |
| `SlidingWindow.ExpiryIsInvisible` | core/rate_limit.py:95 | Expiry empties the key, and no later check decides differently for it. |
| `SlidingWindow.AdmissionsAreDistinct` | core/rate_limit.py:88-98 | With both conditions on the times, the admissions of a run are distinct and rise, so the set of them loses none. |
| `SlidingWindow.EqualTimesBreakTheWindow` | core/rate_limit.py:94-101 | For every limit and every number n there is a run that admits n requests in one instant: requests of one instant share a member, so distinct times are needed. |
| `SlidingWindow.LaggingClockBreaksTheWindow` | core/rate_limit.py:88-92 | For every limit there is a run, with all times distinct but a lagging replica clock, that puts more than the capacity into one window: nondecreasing times are needed. |
| `AuthLog.AttemptLog.Check` | core/rate_limit.py:301-326 | The in-memory log prunes, refuses at capacity with a hint from the oldest entry, or records the attempt. |
| `AuthLog.CheckRequest` | core/rate_limit.py:82-108 | A whole request on the server's key, its expiry included, leaves the state and gives the answer that the agreement below speaks of. |
| `AuthLog.RequestAgrees` | core/rate_limit.py:82-108 | One whole request on the sorted set gets the answer and hint of the list. |
| `AuthLog.RedisAgreesWithLog` | core/rate_limit.py:312-326 | With each removal done before the next request, the sorted set and the list give the same decisions and hints on every sequence of distinct times. |
| `AuthLog.PruningIsInvisible` | core/rate_limit.py:317-326 | Both answer as counting over the whole unpruned log does. |
| `AuthLog.HistoryIsSound` | core/rate_limit.py:317-326 | In every run from an empty log the history rises and never holds more than the capacity. |
| `AuthLog.HintSuffices` | core/rate_limit.py:319-323 | After any requests from an empty log, a request at or after the hinted moment, with only refusals since, is admitted; a hint above one second is also necessary. |
| `AuthLog.HintIs` | core/rate_limit.py:319-323 | A hint is the time until the oldest attempt in the window leaves it, or one second if that is less. |
| `AuthLog.SignInsAreLimited` | core/rate_limit.py:290-326 | Of any eleven admitted attempts the last comes fifteen minutes or more after the first, and an attempt is admitted whenever fewer than ten lie within fifteen minutes. |
| `Repair.PrependResults` | core/agent.py:78-85 | The shared user message is rewritten in place, old content last. |
| `Repair.AnswerCalls` | core/agent.py:55-87 | One round of the walk answers the calls of a message in the next user message or in a new one. |
| `Repair.RepairToolUsePairs` | core/agent.py:34-89 | The returned list and the caller's rewritten list, both given exactly; only the caller's own messages and new ones are returned. |
| `RepairProperties.RepairAnswersAll` | core/agent.py:34-42 | Afterwards every call with an id is answered in the very next message, whatever the history was. |
| `RepairProperties.RepairKeepsAnswered` | core/agent.py:64-66 | A history with nothing unanswered is returned and left unchanged. |
| `RepairProperties.RepairIsIdempotent` | core/agent.py:34-89 | Repairing twice is repairing once. |
| `RepairProperties.RepairAgain` | handlers/agent_handler.py:690-701 | Repairing the caller's own list after the run has rewritten its shared messages gives what the first repair gave. |
| `RepairProperties.RepairPreserves` | core/agent.py:34-89 | All messages survive in order, each unchanged or with error results before its old content; anything else is made of error results only. |
| `RepairProperties.RepairPairs` | core/agent.py:34-89 | From a history without orphan results, results first, the repair makes one paired in both directions. |
| `RepairProperties.SyntheticResults` | core/agent.py:68-76 | One error result with the fixed text for each id, in order. |
| `RepairProperties.MissingIsExact` | core/agent.py:51-64 | What is missing is every open call with an id, once for each time it is made and in call order, and nothing else. |
| `RepairProperties.RepairAddsNoDuplicate` | core/agent.py:64-87 | Where no call is made twice and no result given twice, none is given twice afterwards. |
| `RepairProperties.RepairIsMending` | core/agent.py:43-89 | The repair in place, which meets messages it has rewritten, gives what mending each message by its original neighbours gives. |
| `Compression.CompressIfNeeded` | core/context.py:72-163 | The summary and the messages from the found boundary on, or the history as it is on every other path. |
| `Compression.BoundaryTestIsExact` | core/context.py:208-217 | Where results come first, the boundary test finds exactly the messages that hold results. |
| `Compression.BoundaryTestIs` | core/context.py:208-217 | The boundary test, for any message: a user message whose first dict is a tool result. |
| `Compression.CompressedExactly` | core/context.py:93-163 | A compression goes ahead if and only if the threshold is reached, there is more than is kept, a summary was made and a place to cut exists; it gives the summary, its acknowledgement and everything from that place on, and otherwise nothing changes. |
| `Compression.CompressionLosesAtMostOne` | core/context.py:111-124 | The boundary moves by at most one, never to the end, and 2 * keep_recent messages or one fewer are kept. |
| `Compression.CompressionKeepsPairing` | core/context.py:107-159 | Every compression keeps a paired history paired. |
| `Streaming.Assembler.Feed` | core/agent.py:178-229 | One event changes the buffers as its kind and index say. |
| `Streaming.Assembler.Stream` | core/agent.py:167-291 | The retry loop ends with the first attempt that is not retryable, at most the third, and holds what that attempt alone assembles. |
| `Streaming.RetriesAreTransparent` | core/agent.py:242-255 | Failed attempts, whatever they streamed, leave no trace in the assembled turn. |
| `Streaming.EndsAtFirstSettled` | core/agent.py:167-291 | The retry loop goes on after retryable errors only and ends with the third request at the latest. |
| `Streaming.FeedingStaysInStep` | core/agent.py:203-229 | For any event stream, the calls to run are the calls in the content, in order. |
| `Streaming.WellFormedStream` | core/agent.py:155-229 | After failed attempts a well-formed stream is assembled block for block, other kinds left out: each text is its pieces in order, each tool block and each call has the id, name and parsed input of its stream (empty if there is nothing to parse), and the buffered text is the text of the blocks. |
| `AgentLoop.RunTools` | core/agent.py:420 | Results come in the order of the calls, or one exception ends the turn. |
| `AgentLoop.TakeTurn` | core/agent.py:154-430 | One turn appends the assistant message and, if it calls tools, the results; or it fails. |
| `AgentLoop.Run` | core/agent.py:92-432 | Everything sent and the returned history, turn by turn, wherever an exception or cancellation ends it; the caller's messages are changed by the repair only. |
| `AgentLoop.TurnAnswersInOrder` | core/agent.py:316-427 | After a turn with calls the i-th result answers the i-th call. |
| `AgentLoop.LoopKeepsPairing` | core/agent.py:146-432 | Through any turns, compressions and retries every request and the final history are paired in both directions. |
| `AgentLoop.RunKeepsPairing` | core/agent.py:141-152 | From a history whose results are no orphans and come first, every list sent or returned is paired in both directions. |
| `AgentLoop.RunAnswersAll` | core/agent.py:141-144 | From any history whatever, no list sent or returned holds an unanswered call. |
| `AgentTranscripts.TurnAdds` | core/agent.py:315-427 | A turn adds exactly what it streamed and, if it called tools, one result per call with the id of that call and what that tool returned; it fails if and only if something raises or nothing is streamed. |
| `AgentTranscripts.LoopAdds` | core/agent.py:146-432 | A run that completes without a compression returns its history and what its turns added; its requests grow from that history, and the last one holds all before the last reply. |
| `AgentTranscripts.LoopEndsWithReply` | core/agent.py:318-323 | Compressions or not, a run that ends with a reply returns a history ending with it. |
| `AgentTranscripts.LoopFails` | core/agent.py:146-291 | A run raises when a turn it reaches does not come to an end. |
| `AgentTranscripts.TurnSendsCompressed` | core/agent.py:151-177 | Every request of a turn holds the history compressed to its last four exchanges. |
| `AgentHandler.HandleTurn` | handlers/agent_handler.py:660-702 | Success stores the run's history; cancellation and error store the repaired old one, or the run's own list repaired if they come after it has returned. No message object is in the stored list twice. |
| `AgentHandler.LateRepairChangesNothing` | handlers/agent_handler.py:672-701 | An exception after the run has returned, as when saving fails, still stores the history of the run as it was. |
| `AgentHandler.StoredIsAnswered` | handlers/agent_handler.py:690-702 | Every exit stores a history without an unanswered call. |
| `AgentHandler.ConversationStaysPaired` | handlers/agent_handler.py:660-702 | Over any sequence of exchanges, however each ends, the stored history stays paired in both directions. |
| `AgentTranscripts.ExchangeIsStored` | handlers/agent_handler.py:660-689 | A completed exchange stores the old history, the user's message and what the turns added, also if saving raises afterwards. |
| `AgentTranscripts.ReplyIsStored` | handlers/agent_handler.py:660-689 | Compressions or not, an exchange that ends with a reply stores a history that ends with it. |
| `AgentTranscripts.FailureKeepsHistory` | handlers/agent_handler.py:690-702 | A failed exchange stores the old history and the user's message, and nothing of the run. |
| `RecentFiles.Recent.Touch` | handlers/agent_handler.py:600-610 | A touched file moves to the end, and the list keeps its last fifty entries. |
| `RecentFiles.ByLastTouchSpec` | handlers/agent_handler.py:602-605 | The unbounded order holds each touched file once. |
| `RecentFiles.OrderedByLastTouch` | handlers/agent_handler.py:601-604 | Of two files the one touched last later comes later. |
| `RecentFiles.FiftyAreKept` | handlers/agent_handler.py:605-610 | The list holds all touched files while they are fifty at most, and fifty from then on. |
| `RecentFiles.RecentFilesAreExact` | handlers/agent_handler.py:600-610 | After any touches the list is the last fifty of the unbounded order by last touch, without duplicates. |
| `Checkpoints.Workspace.IncrementTurn` | core/checkpoints.py:48-52 | The session's counter goes up by one; files, logs and other sessions stay. |
| `Checkpoints.Workspace.SnapshotFile` | core/checkpoints.py:55-92 | What a file reads in text mode, or its absence, is logged once per turn. |
| `Checkpoints.FilesToRevert` | core/checkpoints.py:119-124 | The first entry of each path at or after the turn, in order. |
| `Checkpoints.Workspace.RevertToTurn` | core/checkpoints.py:114-134 | Each such entry is applied, the log is cut at the turn, and the paths are returned in order of first change. |
| `Checkpoints.Workspace.RevertLast` | core/checkpoints.py:137-144 | The latest turn in the log is reverted; an empty log changes nothing. |
| `Checkpoints.Workspace.RevertFile` | core/checkpoints.py:95-111 | The earliest matching entry is applied and the log is kept. |
| `Checkpoints.Workspace.HandleWrite` | tools/write.py:12-33 | The file is logged before it is overwritten. |
| `Checkpoints.Workspace.HandleEdit` | tools/edit.py:12-52 | The file is logged, then, if the text occurs in what it reads, rewritten with what it reads after the replacement; an absent file or empty text changes nothing. |
| `CheckpointProperties.AsReadKeepsIff` | core/checkpoints.py:74 | Reading in text mode keeps a text if and only if it holds no carriage return. |
| `CheckpointProperties.LineEndsAreTranslated` | core/checkpoints.py:74 | Text mode turns each line end into one newline and leaves the text between alone. |
| `CheckpointProperties.WrittenReadsBack` | tools/write.py:23-32 | A file written holds exactly what was written, and no other file changes. |
| `CheckpointProperties.ReplacedExactly` | tools/edit.py:41-49 | Replacing takes the first place where the text is found, or all from left to right, and leaves a text without it alone. |
| `CheckpointProperties.EditedReadsBack` | tools/edit.py:38-51 | An edit changes its file to what it read with the text replaced if the text is in it, and no file otherwise. |
| `CheckpointProperties.RevertedPathsAre` | core/checkpoints.py:119-129 | A revert reports each path logged at or after the turn, once. |
| `CheckpointProperties.LastTurnIsLatest` | core/checkpoints.py:143 | The turn that is reverted last is in the log, and none there is later. |
| `CheckpointProperties.RestoringReads` | core/checkpoints.py:119-129 | A revert makes of each path the content of its first entry since the turn, and leaves paths without one alone. |
| `CheckpointProperties.StepKeepsInv` | core/checkpoints.py:48-144 | Every operation keeps the log in turn order and able to take every path back to the start of every turn, to what it read then if a tool has opened it since. |
| `CheckpointProperties.BackIsExactIff` | core/checkpoints.py:167-181 | Going back to a start gives its very files if and only if no file opened since held a carriage return then. |
| `CheckpointProperties.UndoIsExact` | core/checkpoints.py:114-134 | After any writes, edits, turns and reverts, reverting to a turn restores the files it started with, deleting those that did not exist, with files opened since coming back as they read; the result is exact if and only if none of those held a carriage return. A later turn changes nothing. |
| `CheckpointProperties.TurnCanBeUndone` | core/checkpoints.py:114-134 | Begin a turn anywhere, do anything that does not go back past it: reverting to it brings back the files it began with, those opened meanwhile as they read, and exactly if and only if none of those held a carriage return. |
| `CheckpointProperties.CarriageReturnIsLost` | core/checkpoints.py:72-80 | A session whose Write tool made a Windows line end and whose revert gives another content. |
| `CheckpointProperties.RevertsCompose` | core/checkpoints.py:114-134 | Reverting to a and then to an earlier b gives the files and log of reverting to b at once. |
| `CheckpointProperties.RevertLastShrinks` | core/checkpoints.py:137-144 | A revert of the last turn shrinks a non-empty log. |
| `CheckpointProperties.DrainRestoresOriginals` | core/checkpoints.py:137-144 | Repeating it until the log is empty restores the session's original files, those opened as they read; exactly if and only if none of those held a carriage return. |
| `CheckpointProperties.FileRevertGoesToTheStart` | core/checkpoints.py:95-111 | Reverting one file applies what it read at the start of the session, and acts if and only if the path was logged no later than the named turn. |
| `CheckpointProperties.FileRevertIsLatestIff` | core/checkpoints.py:95-111 | It goes to the most recent checkpoint, as documented, if and only if the file read the same when the session began as when the turn of that checkpoint began. |
| `CheckpointProperties.FileRevertMissesTheLatest` | core/checkpoints.py:98-110 | A session in which it goes back past the most recent checkpoint. |
| `Text.WordsOfJoin` | core/nl_cron.py:187-188 | Splitting undoes joining. |
| `Text.WordsAre` | core/nl_cron.py:187-188 | Splitting parts a text at each of its white spaces and nowhere else. |
| `Text.StrippedIsInside` | handlers/schedule_wizard.py:410 | Stripping takes the white space around a text and nothing of the text. |
| `NlCronProperties.ParsedTimesAreValid` | core/nl_cron.py:65-108 | A time that is read lies within the day. |
| `NlCronProperties.TimeRoundTrip` | core/nl_cron.py:111-112 | Reading the echo of a time gives the time back. |
| `SpokenTimes.ClockTimeIsRead` | core/nl_cron.py:53-108 | A clock time - hour, minutes or none, mark or none, any space before the mark - is read as the time it stands for, and refused if and only if its hour does not go with its mark or its minutes exceed 59. |
| `SpokenTimes.TwelveHourClock` | core/nl_cron.py:88-99 | At every hour and minute, with or without the minutes and the space, am and pm stand for the hours before and from noon. |
| `SpokenTimes.OnlyClockTimes` | core/nl_cron.py:75-82 | Nothing but noon, midnight and clock times is read as a time. |
| `SpokenTimes.NamedTimes` | core/nl_cron.py:75-78 | Noon is 12:00 and midnight 00:00. |
| `SpokenTimes.NineByDefault` | core/nl_cron.py:217-294 | A sentence of any form that names no time means nine in the morning. |
| `SpokenTimes.PartsOfTheDay` | core/nl_cron.py:243-252 | Morning, afternoon, evening and night after a day stand for 9, 14, 18 and 21 hours. |
| `SpokenTimes.GivenTime` | core/nl_cron.py:217-294 | In every form the time after "at" is the time its words read as. |
| `SpokenTimes.PartAt` | core/nl_cron.py:240-259 | A time given after a part of the day counts, and the part does not. |
| `SpokenTimes.DayNamesAreShort` | core/nl_cron.py:37-50 | Every name of a day is the start of that day's full name. |
| `SpokenTimes.IntervalUnits` | core/nl_cron.py:193-211 | Every unit of minutes and hours is read, next to its number or apart from it. |
| `SpokenTimes.IntervalsOutOfRange` | core/nl_cron.py:196-210 | Intervals out of range are refused. |
| `SpokenTimes.RawCronIsKept` | core/nl_cron.py:183-185 | Raw cron is passed through as it is. |
| `NlCronProperties.PlansAreValid` | core/nl_cron.py:193-295 | Every accepted sentence has its interval, day and time in range. |
| `NlCronProperties.PluralDayIffListed` | core/nl_cron.py:236-241 | A sentence with the plural of a day is read as with the day itself if and only if the plural is listed as a name, which it is for "tue" and "thur" alone; otherwise it is not read. |
| `NlCronProperties.HeardIsUnderstood` | core/nl_cron.py:193-295 | Each echo, lower-cased, is read as the sentence form it came from. |
| `NlCronProperties.EchoRoundTrip` | core/nl_cron.py:5-7 | For every plain-English text that is accepted, parsing its echo gives the same cron and the same echo. |
| `NlCronProperties.CronDescribesEcho` | core/nl_cron.py:123-161 | Describing the emitted cron gives the echo if and only if the form is not a weekend, nor weekdays at another time than nine. |
| `CronMeaning.CronMeansPlan` | core/nl_cron.py:193-295 | The emitted cron fires exactly at the moments of the plan, where an interval of N is counted from the full hour or from midnight; SteadyIffDivides says when that is every N units. |
| `CronMeaning.AcceptedTextIsMeant` | core/nl_cron.py:164-295 | So the cron and the echo of any accepted text stand for the same moments. |
| `EchoMeaning.ReadableTimeIsValid` | core/nl_cron.py:65-112 | An echoed time, taken from any two numbers of a raw cron, can be read back only if it is on the clock. |
| `EchoMeaning.DescriptionIsFaithful` | core/nl_cron.py:123-161 | For any cron of five fields: if its description can be read back as a sentence, that sentence names exactly the moments at which the cron fires. |
| `EchoMeaning.EchoNeverMisleads` | core/nl_cron.py:164-185 | For every accepted text, plain English or cron: whatever plan its echo reads as, the stored cron fires exactly at the moments of that plan. |
| `CronMeaning.MinutesHit` | core/nl_cron.py:194-201 | Over unbounded time "every N minutes" fires where the minute of the hour is a multiple of N. |
| `CronMeaning.HoursHit` | core/nl_cron.py:203-211 | Over unbounded time "every N hours" fires where the hour of the day is a multiple of N. |
| `CronMeaning.GapIsBounded` | core/nl_cron.py:194-211 | Firings are never more than N units apart. |
| `CronMeaning.SteadyIffDivides` | core/nl_cron.py:194-211 | They are always exactly N apart if and only if N divides 60, or 24. |
| `Wizard.Session.Ask` | handlers/schedule_wizard.py:161-303 | A question quotes only entries that are there, the review also a target left from another kind; the name question shows a fresh suggestion and stores it once. |
| `Wizard.Session.Consume` | handlers/schedule_wizard.py:95-279 | A step takes a reply into the data and moves on, or asks again and changes nothing. |
| `Wizard.Session.HandleInput` | handlers/schedule_wizard.py:400-504 | Cancel, back, rename, confirm and ordinary replies, with the state left on the connection and the schedule asked for. |
| `Wizard.ConsumedKeepsInv` | handlers/schedule_wizard.py:95-279 | Every step keeps the invariant. |
| `Wizard.RepliedKeepsInv` | handlers/schedule_wizard.py:400-491 | Every reply keeps the invariant, also after going back and changing the kind. |
| `WizardWords.KindWords` | handlers/schedule_wizard.py:95-107 | The words taken for each kind of schedule, and no others. |
| `WizardWords.AnswerWords` | handlers/schedule_wizard.py:415-436 | The words that skip, agree, disagree and cancel. |
| `WizardWords.TargetMarksAreDropped` | handlers/schedule_wizard.py:148-156 | A target may be given as it is or with the marks it is written with elsewhere. |
| `WizardProperties.EveryStateIsSound` | handlers/schedule_wizard.py:410-460 | In every reachable state the step exists, the target step is not open for freeform, the prompt fits kind and target, and no later read misses an entry. |
| `WizardProperties.HeardInStep` | handlers/schedule_wizard.py:400-491 | One reply moves the wizard and a record of replies alone in step: it is accepted, confirmed or dropped by both, and what the wizard stores is what the accepted replies say. |
| `WizardProperties.ReviewShowsTheReplies` | handlers/schedule_wizard.py:282-303 | The review shows exactly what the last accepted replies say, the echo of the schedule included. |
| `WizardProperties.PromptQuestionNames` | handlers/schedule_wizard.py:162-181 | The prompt question names the kind, and the target unless the schedule is freeform. |
| `WizardProperties.EveryScheduleIsFaithful` | handlers/schedule_wizard.py:183-203 | Every conversation asks for exactly the schedules its replies confirm, with the prompt composed from the last kind, target and body accepted, the cron parsed from the last accepted "when", and that zone and name. The prompt fires the chosen agent with that body, or the chosen skill, if and only if the name is one that dispatch can read, else the agent or skill of its first word, or the general-purpose agent; a freeform prompt runs on the general-purpose agent if and only if it reads as no command and no mention. |
| `WizardProperties.SkipTakesShownNameIff` | handlers/schedule_wizard.py:257-277 | Skipping the name stores the one the question shows if and only if none was suggested before, or the first suggestion is the same. |
| `WizardProperties.SkipTakesTheFirstName` | handlers/schedule_wizard.py:259-277 | A conversation in which the question shows "bar" and skipping stores "foo". |
| `Dispatch.AgentRoundTrip` | core/scheduler.py:142-155 | The composed agent prompt resolves to that agent and body if and only if the target is an agent name; otherwise to the agent of its first word with the rest as body, or to the general-purpose agent. |
| `Dispatch.SkillRoundTrip` | core/scheduler.py:156-168 | The composed slash prompt resolves to that skill and arguments if and only if the target has no white space; otherwise to the skill of its first word. |
| `Dispatch.FreeformRoundTrip` | core/scheduler.py:142-168 | A freeform prompt runs on the general-purpose agent if and only if it does not start with a slash and is no mention; what takes it otherwise. |
| `Dispatch.TwoWordAgentIsAnother` | core/scheduler.py:147-151 | For the target "foo bar" the agent "foo" is told the rest. |
| `Dispatch.CapitalAgentIsNone` | core/scheduler.py:147-153 | For the target "Foo" the general-purpose agent runs. |
| `Dispatch.SlashedFreeformIsSkill` | core/scheduler.py:156-168 | The freeform prompt "/deploy now" runs a skill. |
| `Dispatch.PrefixIsName` | handlers/agent_handler.py:21-24 | What the mention pattern captures is always an agent name. |
| `Dispatch.MentionIff` | handlers/agent_handler.py:21-24 | The pattern matches exactly the mentions of an agent name followed by nothing or by white space, and captures that name and what follows. |
| `Dispatch.AgentNameIff` | handlers/agent_handler.py:21-24 | An agent name is one word of small letters, digits and hyphens not beginning with a hyphen, or two with a colon between them. |
| `Scheduler.Row.Start` | core/scheduler.py:387-397 | A row without a next run gets one. |
| `Scheduler.Row.Wake` | core/scheduler.py:339 | A pass begins by reading the clock. |
| `Scheduler.Row.Query` | core/scheduler.py:340-345 | A row due at that reading is found, with the instant it shows. |
| `Scheduler.Row.HandOver` | core/scheduler.py:347-367 | When the queried row's turn comes its job is handed over for the instant the query saw, whatever the row shows by then; if enqueueing raises nothing changes. |
| `Scheduler.Row.Commit` | core/scheduler.py:368-376 | The advanced row becomes visible only now; a commit that fails leaves what the row shows. |
| `Scheduler.Row.JobEnds` | core/scheduler.py:271 | A job that ends reads the clock, some time before it commits. |
| `Scheduler.Row.JobCommits` | core/scheduler.py:317-325 | Its commit overwrites the row with what that reading gave. |
| `Scheduler.OneJobPerInstant` | core/scheduler.py:338-376 | Under every interleaving of passes and jobs, and whatever their clocks read, all jobs are for cron instants that had come, and their instants strictly rise if and only if, at the query of every hand-over, the row had last been written from a reading not before the instant fired before. |
| `Scheduler.SameInstantTwiceIff` | core/scheduler.py:338-376 | Two hand-overs fire the same instant if and only if, at the query of the second, the row had last been written from a reading before that instant with no other instant in between. |
| `Scheduler.MissedInstantsCoalesce` | core/scheduler.py:356 | One job covers all instants missed before its pass began, if and only if every query whose row is handed over sees an instant that had not passed when the job before was fired. |
| `Scheduler.NextRunGoesBackIff` | core/scheduler.py:317-322 | A write sets a next run after its own reading, and takes the row back if and only if an instant lies after that reading and not after the one the row was last written from. |
| `Scheduler.AtMostOncePerInstant` | core/scheduler.py:338-376 | If the commits of the loop succeed and no job commits a reading from before the instant last fired, every instant is fired at most once. |
| `Scheduler.FailedCommitFiresTwice` | core/scheduler.py:350-354 | A commit that fails after the job was handed over fires the same instant of a cron twice. |
| `Scheduler.LateCommitFiresTwice` | core/scheduler.py:271-323 | So does a job that reads the clock just before an instant and commits after the loop has fired it, with every commit successful. |
| `Scheduler.QueriedRowFiresTwice` | core/scheduler.py:344-367 | The instant is fired again even where another job has put the row right between the query and the hand-over. |
| `Scheduler.LateCommitFiresOutOfOrder` | core/scheduler.py:271-323 | A late commit can also bring up an older instant that had been skipped, so that instants are fired out of order and yet only once each. |

## Left out

- Redis failures and the missing pool, where the limiter lets requests through; `check_rate_limit_async`, which asks one sorted set after another; per-address connection buckets; resetting a user's limits.
- SlidingWindow.WindowIsSafe: assumes distinct, nondecreasing request times, as both `EqualTimesBreakTheWindow` and `LaggingClockBreaksTheWindow` show it must; the text of a time is taken to be unique to it.
- The dictionary from users to their buckets and the exempt user "default": a `UserLimits` object is one user's entry. Bucket names and tool names are constructors instead of strings.
- Rounding of floating-point times and tokens.
- Repair.RepairToolUsePairs: asks that the caller's list does not hold one message object twice, which no code path of the server creates.
- Compression.CompressionLosesAtMostOne: asks for keep_recent of at least one; the server uses four.
- Role alternation after a compression, which does not hold: the kept part may start with an assistant message.
- The manual summarize command in handlers/ws_router.py, which cuts the history without looking for a boundary.
- Compression snapshots, token counting, usage records, metrics, hooks and permission prompts, whose outcomes reach the model as tool results.
- AgentLoop.RunTools: takes the results in call order, as `gather` returns them; the interleaving of the tools themselves is not modelled.
- Streaming.WellFormedStream: blocks come one after another, as the API sends them; for interleaved ones only `FeedingStaysInStep` speaks. JSON parsing is a parameter, and an input is its accepted text.
- Unreadable files, failed reverts, directories, explicit turn numbers for snapshots, entry sizes, clearing a session, and other sessions writing the same files. `revert_file` is outside the runs of the undo theorems, because it changes a file without touching the log.
- Sandbox path checks and calls without a session key, which write without a snapshot.
- NlCronProperties.EchoRoundTrip: the cron library is a parameter; it must reject the text "every hour on the hour". Text is ASCII, and error messages are not modelled.
- EchoMeaning.EchoNeverMisleads: speaks of echoes that can be read back; ranges and lists other than `1-5` and `0,6`, which the parser passes through but never emits, are given no meaning here.
- Line ends other than "\n" when a file is written, which depend on the operating system.
- A commit that is reported as failed but took effect. A job that dies is one that never commits.
- Scheduler.OneJobPerInstant: counts hand-overs. A queue that retries, or the in-process fallback of core/job_queue.py when an enqueue raises although it took effect, can run one hand-over more than once; the model then lets the job end and commit more than once, but does not count its runs.
- The days of daylight-saving changes, the cron library's search itself, edits to a schedule while it runs, manual triggering, and several scheduler processes.
- The lookup of agents and skills by name after a prompt is resolved, and the texts of the wizard's questions beyond the entries they quote.
- The agent and skill wizards, which have the same shape with fewer branches.
- The task registry, conversation storage, the web interface, authentication, plugins and telemetry.
