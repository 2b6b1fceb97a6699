# Verification of xyncra-server

A Dafny model of the parts of xyncra-server in which concurrency, time or
bookkeeping decide whether it is right, with proofs about them. Each module
follows one component of the Go code; code that changes state step by step is a
class or a method over arrays, proved equal to a specification function, and the
main results are lemmas about those functions over all inputs, runs and
interleavings. `dafny verify dfyconfig.toml` checks the whole project.

| module | component |
|---|---|
| `RedisIndex`, `RedisRuns`, `RedisAlone`, `RedisStore`, `ConnectionListing` | the Redis connection index: info keys, per-user sets, their deadlines, the connection limit, and when listings are exact |
| `MemoryIndex` | the in-memory connection store and its agreement with the Redis one |
| `RemoteCalling`, `HitlProtocol`, `HandlersAlone` | the remote callings of a paused agent: answers, cancels and expiry running beside each other |
| `ResumeWorker` | the worker that resumes the agent, with all its exits |
| `ResumeHandoff`, `WorkerAlone`, `AnswerErasure` | handlers, sweeps, queue and resume workers in one machine: when an answer is read for an agent run, and when it is deleted unread |
| `TaskLock` | the conversation lock and the two-phase idempotency of agent deliveries |
| `ConversationPages`, `ListConversations` | merged top-k pagination of conversations and the walk over its pages |
| `UpdateLog` | seq allocation, retention, gap-filling sync and the client's paging loop |
| `ConversationLifecycle` | sends, individual and cascade deletes, restores, read cursors |
| `StreamBridge` | cumulative snapshots of a streamed answer |
| `ContextWindow` | the bounded, trimmed, cached history an agent is given |
| `ToolInjection`, `FunctionRegistry` | client functions as agent tools |
| `Semaphore` | the execution semaphore and its counters |
| `LikeEscape` | escaping a search text for LIKE |

How things are modelled: a Lua script, a single SQL statement and a database
transaction are one step each; everything else interleaves where a component is
treated as concurrent. A handler, sweep, store call or worker of such a machine that is left
alone does what the uninterrupted one does: the lemmas named `Uninterrupted...`. Times are whole milliseconds in the Redis, task and
resume models and nanoseconds in `ConversationLifecycle`. 32-bit counters wrap
where they do in Go. Rows get fresh keys, as UUIDs are. What a database may
choose (the order of equal timestamps) and what Go may choose (map iteration
order, the branch of a select) is left open, and the results hold for every
choice. An agent run is an arbitrary sequence of texts, failures, interrupts and
ends; without its checkpoint it can only fail to resume.

Scopes that are part of a statement: `RedisRuns.LimitHolds` asks that each Add is
safe, which `RedisRuns.StepKeepsInvIff` shows to be exactly what keeps its
invariant; `RedisRuns.LimitHoldsForConsiderateCallers` and `LimitHoldsForNewIds` derive
that from what callers control. Update and Patch are not part of its runs;
`RedisIndex.UpdateKeepsIndexIff` gives the exact condition for them. `TaskLock` is about
process tasks, and asks that every holder finishes within its 130 seconds;
`OverrunBreaksExclusionIff` shows why. Resume tasks work under the same lock without
owning it and release it: `ResumeWorker.ResumeFreesTheLockIff` and
`ResumeBreaksExclusionIff` say when that lets a second process task in. `HitlProtocol` is
about a fixed set of calls; `ResumeHandoff` adds the workers and the calls they create.
`AnswerErasure` starts where an agent has just paused: nothing answered, no key set.
`ConversationPages.PagesFitIff` is about users without conversations with themselves,
which create_conversation refuses.

Where the code and what is written about it differ, the model follows the code:

- The comment at internal/store/conversation.go:85-91 doubts that merging two
  limited queries gives the right page. It does, exactly when neither column holds
  equal timestamps: `ConversationPages.PagesFitIff`.
- A transient failure is returned to the queue to be retried, but the
  in-progress key is left behind, so a retry within 130 seconds is acknowledged
  without running: `TaskLock.TransientRetryExecutesIff`. The same holds for the
  error that a resume returns for a deleted conversation:
  `ResumeWorker.RedeliveryRunsIff`.
- A client's error message never reaches the agent, because the resumed run is
  given the result column, which stays empty: `ResumeWorker.AgentSeesTheAnswerIff`.
- Cleanup of a user's newest update makes the next one reuse a seq:
  `UpdateLog.CleanupReusesASeqIff`.
- A resume worker that pauses again lets its call be answered before it deletes its
  in-progress key, and the resume for such an answer is skipped and acknowledged:
  `ResumeHandoff.AnswerWhilePausingIsNeverReadIff`.
- Finishing a resume deletes all the calls of its checkpoint, also one that was answered after
  its own reading: `ResumeHandoff.StepErasesIff`, and for when that can happen
  `AnswerErasure.CanEraseUnsweptIff` and `CanEraseIff`.
- A resume releases the conversation lock although a process task of the same process may
  hold it: `ResumeWorker.ResumeBreaksExclusionIff`.
- A call that reads the history before an invalidation may cache it afterwards:
  `ContextWindow.InvalidationHoldsIff`.
- A cancelled stream can leave its forwarding goroutine blocked for ever:
  `StreamBridge.CanBlockForEverIff`.
- A cancelled stream may end with the finished signal: `StreamBridge.CancelledRunCanLookFinishedIff`.
- With more callers than slots the semaphore's peak may exceed its capacity:
  `Semaphore.PeakCanExceedCapacityIff`.
- sync_updates never returns when its window ends at the largest seq, and a client cannot
  sync past that point: `UpdateLog.NeverReturnsIff`, `UpdateLog.FullSyncEndsIff`.

## Model

| member | source | states |
|---|---|---|
| RedisRuns.LimitHolds | internal/server/redis_connection_store.go:69-179 | In every interleaving of the round trips of Add, Refresh, Remove, ListByUser and RemoveByUser with clock ticks, in which each Add is safe: a live connection is in its owner's set, the set outlives it, and a user never has more live connections than the limit. Ids may be used again and may change users. |
| RedisRuns.LimitHoldsForConsiderateCallers | internal/server/redis_connection_store.go:69-179 | The same over every run in which each Add uses an id that was never used before for a user no RemoveByUser is at work on, or overwrites a live connection of the user: such runs consist of safe Adds. |
| RedisRuns.LimitHoldsForNewIds | internal/server/redis_connection_store.go:69-179 | The same, with nothing asked about the state, when every Add has an id of its own and no RemoveByUser begins. |
| RedisRuns.ConsiderateRunsAreSafe | internal/server/redis_connection_store.go:365-492 | From every state that keeps the invariant and holds used ids only, a run of considerate Adds is a run of safe Adds. |
| RedisRuns.StepKeepsInvIff | internal/server/redis_connection_store.go:365-492 | An Add keeps the whole invariant if and only if it is safe: not a refused move, and welcome to every call in flight; every other round trip keeps it. |
| RedisRuns.RunKeepsInv | internal/server/redis_connection_store.go:365-492 | Every such run keeps the invariant: live keys indexed, sets bounded, and what calls in flight remember still safe to act on. |
| RedisRuns.UnmentionedAddIsSafe | internal/server/redis_connection_store.go:365-410 | An id that no call in flight remembers is safe for a user who is not being removed, new or used before. |
| RedisRuns.OverwritingIsSafe | internal/server/redis_connection_store.go:365-410 | Adding a live connection again for its own user is safe whatever is in flight. |
| RedisRuns.CallOkAfterAddIff | internal/server/redis_connection_store.go:676-769 | What a call in flight has read stays safe to act on after an Add if and only if the call can live with the new connection. |
| RedisAlone.AddIs | internal/server/redis_connection_store.go:69-114 | In terms of liveness, members and deadlines: an accepted Add makes the connection live as described, puts it into its user's set, extends that set and takes the id out of a previous owner's; a refused one may have done the last of these; everybody else's connections and sets are as they were. |
| RedisAlone.UninterruptedRemove | internal/server/redis_connection_store.go:461-492 | The round trips of Remove in a row: exactly this connection is gone, from its owner's set too, and nothing happens for one that is not live. |
| RedisAlone.UninterruptedRefresh | internal/server/redis_connection_store.go:630-673 | The round trips of Refresh in a row: the connection lives for its TTL again, its owner's set at least as long, and nothing else changes. |
| RedisAlone.UninterruptedRemoveByUser | internal/server/redis_connection_store.go:830-878 | The round trips of RemoveByUser in a row, however the members are cut into batches: exactly the members' connections and the set are gone. |
| RedisAlone.UninterruptedList | internal/server/redis_connection_store.go:676-769 | The round trips of ListByUser in a row, for any scan: exactly the stale ids that were read are gone from the user's set. |
| RedisAlone.TimePasses | internal/server/redis_connection_store.go:69-114 | A set that holds something lasts exactly until its deadline, or for ever without one, and a connection until its own. |
| RedisAlone.BusyCallsGoOn | internal/server/redis_connection_store.go:830-845 | RemoveByUser does nothing to a user without connections, and a call under way is not begun again. |
| RedisIndex.CleanupIsNoop | internal/server/redis_connection_store.go:173-179 | On any database the empty-set script changes nobody's members and keeps the index. |
| RedisIndex.UpdateKeepsIndexIff | internal/server/redis_connection_store.go:132-142 | Update renews the info key alone: the set still outlives its members if and only if the new deadline is not past the set's. |
| RedisIndex.AddKeepsIndexIff | internal/server/redis_connection_store.go:69-114 | Add keeps the index if and only if it is not a move to a full user, which is refused after the SREM. |
| RedisIndex.RefreshKeepsIndexIff | internal/server/redis_connection_store.go:150-166 | Refresh with the user it read earlier keeps the index if and only if that is still the owner or the owner's set lasts long enough. |
| RedisIndex.SRemKeepsIndexIff | internal/server/redis_connection_store.go:757-763 | Taking ids out of a set keeps the index if and only if none is a live connection of that user. |
| RedisIndex.DelSetKeepsIndexIff | internal/server/redis_connection_store.go:871-875 | Deleting a user's set keeps the index if and only if the user has no live connection. |
| RedisIndex.ReuseIsSafeIff | internal/server/redis_connection_store.go:757-763 | Using a dead id again before a late SREM is safe if and only if the id is not in that list. |
| RedisIndex.AddDuringRemoveByUserIsSafeIff | internal/server/redis_connection_store.go:830-878 | A connection accepted between the SMEMBERS and the UNLINK keeps the index if and only if SMEMBERS had listed its id, and then it is dropped with the others. |
| ConnectionListing.FullScanListsTheLiveIff | internal/server/redis_connection_store.go:676-769 | A scan that covers the set lists exactly the user's live connections if and only if the set holds no live connection of somebody else. |
| ConnectionListing.AddKeepsExclusiveIff | internal/server/redis_connection_store.go:69-114 | An accepted Add keeps live connections out of other users' sets if and only if the id is not left over, dead, in one of them. |
| ConnectionListing.ListingIsExact | internal/server/redis_connection_store.go:676-769 | Over every run of safe Adds without left-over ids such a scan is exact. |
| RedisStore.RedisConnectionStore.Add | internal/server/redis_connection_store.go:365-410 | The script run command by command equals the specification of Add: the limit for new ids, SREM before the limit for moved ones, MAX semantics for the set's TTL. A connection that is accepted lives for its own TTL when that is positive and for the default TTL when not, to the millisecond. |
| RedisStore.RedisConnectionStore.Refresh | internal/server/redis_connection_store.go:630-673 | Refresh run step by step: read the owner, then renew the key, for the connection's own TTL or the default one, and, if longer, the set. |
| RedisIndex.AddIsAcceptedIff | internal/server/redis_connection_store.go:69-114 | Add accepts a connection if and only if there is no limit, it is live already for the same user, or the user's set is below the limit. |
| RedisIndex.AddedLivesFor | internal/server/redis_connection_store.go:909-914 | After an accepted Add the connection is live exactly as long as its own TTL says, or the default when that is not positive. |
| RedisIndex.RefreshedLivesFor | internal/server/redis_connection_store.go:630-673 | The same after a refresh of a live connection, counted from the refresh. |
| RedisStore.RedisConnectionStore.Remove | internal/server/redis_connection_store.go:461-492 | Remove run step by step, with the trailing empty-set cleanup. |
| RedisStore.RedisConnectionStore.ListByUser | internal/server/redis_connection_store.go:676-769 | The cursor loop returns the live members of the batches read, in order, up to the limit, and removes exactly the stale ids of those batches. |
| RedisStore.RedisConnectionStore.RemoveByUser | internal/server/redis_connection_store.go:830-878 | The batched loop removes every member key and the set, and counts the members. |
| MemoryIndex.AddedKeepsInverse | internal/server/memory_connection_store.go:38-93 | Add keeps the two maps exact inverses, also when a connection changes its user. |
| MemoryIndex.RemovedKeepsInverse | internal/server/memory_connection_store.go:112-134 | Remove keeps the maps inverse and takes the connection out of every set. |
| MemoryIndex.RemovedUserKeepsInverse | internal/server/memory_connection_store.go:255-270 | RemoveByUser keeps the maps inverse and empties that user only. |
| MemoryIndex.StepsLeaveNoEmptyEntry | internal/server/memory_connection_store.go:38-134 | No operation leaves a user entry with an empty set. |
| MemoryIndex.MemoryConnectionStore.Add | internal/server/memory_connection_store.go:38-93 | The in-place method equals the specification and keeps the store valid. |
| MemoryIndex.MemoryConnectionStore.Remove | internal/server/memory_connection_store.go:112-134 | The in-place method equals the specification and keeps the store valid. |
| MemoryIndex.MemoryConnectionStore.ListByUser | internal/server/memory_connection_store.go:206-232 | Distinct connections of the user, all of them or as many as the limit, in any order. |
| MemoryIndex.MemoryConnectionStore.RemoveByUser | internal/server/memory_connection_store.go:255-270 | The loop over the set equals the specification and returns the number removed. |
| MemoryIndex.StoresAgree | internal/server/redis_connection_store.go:365-492 | For every run with fixed owners and no expiry both stores accept and reject the same Adds and list the same connections. |
| MemoryIndex.StoresAgreeFromEmpty | internal/server/memory_connection_store.go:38-134 | The same, started from two empty stores. |
| MemoryIndex.MovedOwnerDisagrees | internal/server/memory_connection_store.go:52-93 | For a moving owner they disagree exactly when the new user is full in Redis: the memory store then accepts, Redis rejects. |
| RemoteCalling.ClaimsSettle | internal/store/remote_calling.go:124-159 | A conditional update moves only pending rows: rows persist, and settled rows keep status and answer. |
| RemoteCalling.SweepsSettle | internal/store/remote_calling.go:201-243 | Cancelling or expiring a checkpoint settles its pending rows and changes no other. |
| RemoteCalling.DeletionSettles | internal/store/remote_calling.go:280-291 | Soft deletion changes no status and no answer. |
| RemoteCalling.RemoteCallingHandlers.AgentResume | internal/handler/agent_resume.go:103-218 | Uninterrupted agent_resume: every reply, every row it changes, and a resume enqueued exactly when nothing is left pending. |
| RemoteCalling.RemoteCallingHandlers.CancelRemoteCalls | internal/handler/cancel_remote_calls.go:82-160 | Uninterrupted cancel_remote_calls: a member's cancel cancels exactly the pending rows of the checkpoint, reports their number and enqueues one resume; anybody else's is refused and changes nothing. |
| HitlProtocol.NoLostWakeUp | internal/handler/agent_resume.go:117-218 | In every interleaving with cancels and sweeps: once all handlers have finished and nothing of a checkpoint is pending, a resume was enqueued or a sweep saw that nothing was answered, unless the last row left through the single-row expiry. |
| HitlProtocol.SettledCheckpointIsWoken | internal/handler/agent_resume.go:117-218 | Without reference to any history: when calls were waiting, no row was expired alone, and everything came to rest with none waiting, a resume was enqueued, or a sweep saw that every call was cancelled or expired. |
| HitlProtocol.NoLostWakeUpWithoutSweeps | internal/handler/cancel_remote_calls.go:107-155 | With the two handlers alone at least one resume was enqueued. |
| HitlProtocol.AnswerIsNotLost | internal/handler/agent_resume.go:136-218 | If one of the rows was answered, a resume was enqueued. |
| HitlProtocol.WokenAtRestIff | internal/handler/agent_resume.go:171-218 | Once nothing of a checkpoint is pending, every run that comes to rest has enqueued a resume or seen that nothing was answered if and only if that had happened or a handler owed it. |
| HitlProtocol.CanComeToRest | internal/handler/agent_resume.go:76-254 | Every state of the machine can come to rest: no handler or sweep can be stuck. |
| HitlProtocol.SingleRowExpiryLosesTheWakeUpIff | internal/handler/agent_resume.go:126-134 | The exception: when the branch that expires its own overdue row takes the last pending one, the wake-up is lost for ever if and only if no other handler owes the checkpoint a count, no resume was enqueued and no sweep has noticed. |
| HitlProtocol.UninterruptedResume | internal/handler/agent_resume.go:117-218 | Left alone, the step machine does what the uninterrupted handler does. |
| HitlProtocol.UninterruptedCancel | internal/handler/cancel_remote_calls.go:82-160 | Left alone, a member's cancel of the machine cancels exactly the pending rows of the checkpoint, leaves every other row as it was and enqueues one resume. |
| HitlProtocol.RefusedCancelDoesNothing | internal/handler/cancel_remote_calls.go:98-108 | A cancel by somebody who is no member, or with nothing pending, changes no row and enqueues nothing after any number of its steps. |
| HandlersAlone.RefusedResumeDoesNothing | internal/handler/agent_resume.go:76-135 | An answer to an unknown or settled call changes no row and enqueues nothing after any number of its steps. |
| HandlersAlone.OverdueResumeExpires | internal/handler/agent_resume.go:117-134 | An answer after the deadline expires its own row, leaves every other row as it was and enqueues nothing. |
| HandlersAlone.UninterruptedSweep | internal/agent/remote_calling_cleanup.go:198-338 | Left alone, a sweep expires all overdue calls it listed, and then, in whatever order it ranges over their checkpoints: each that has nothing pending and some answer gets one resume and a guard of five minutes, unless a guard is alive; each with neither has its calls deleted if its conversation is waiting for them; nothing else changes. |
| HitlProtocol.StepSettles | internal/agent/remote_calling_cleanup.go:198-254 | Whatever runs beside whatever, a row leaves pending once and its answer never changes afterwards. |
| HitlProtocol.SweepNeverWipesAnAnswer | internal/agent/remote_calling_cleanup.go:257-338 | A checkpoint wiped by the expiry layer holds cancelled or expired rows only, for ever. |
| HitlProtocol.WipedRowsHadNoAnswer | internal/agent/remote_calling_cleanup.go:257-338 | In every run a call is deleted only when each call of its checkpoint was cancelled or expired. |
| HitlProtocol.NothingExpiresEarly | internal/store/remote_calling.go:332-370 | In every run no call expires before its deadline has passed, whoever expires it, and one without a deadline never does. |
| HitlProtocol.AnswersAreFinalOnceNothingIsPending | internal/agent/remote_calling_cleanup.go:257-300 | The resolved set read after counting zero pending rows is final. |
| HitlProtocol.RunKeepsInv | internal/agent/remote_calling_cleanup.go:198-338 | The invariant behind these results: handlers that owe a count, guards that lead to a queued resume, and what the sweeps have seen. |
| TaskLock.OneExecutorPerConversation | internal/agent/task_handler.go:134-229 | For any deliveries of process tasks, crashes, pauses and clock ticks with every holder inside its 130 seconds: at most one process task executes per conversation. |
| TaskLock.PausedConversationIsLeftAlone | internal/agent/task_handler.go:134-201 | While the lock of a paused agent lives, no process task works on its conversation. |
| TaskLock.CompletesOncePerDay | internal/agent/task_handler.go:162-229 | Completion marks of one message are more than 24 hours apart. |
| TaskLock.EndedIsFinal | internal/agent/task_handler.go:134-229 | A delivery that is done, paused or crashed never moves again, whatever else runs. |
| TaskLock.OverrunBreaksExclusionIff | internal/agent/task_handler.go:134-195 | While a message of the conversation executes, another delivery left undisturbed starts beside it if and only if the lock has run out and the message is not marked. |
| TaskLock.AgentTaskHandler.Handle | internal/agent/task_handler.go:134-229 | One delivery run without interruption leaves the keys and gives the reply that the specification says, for each executor outcome. |
| TaskLock.UninterruptedTask | internal/agent/task_handler.go:134-229 | Left alone, a worker of the machine leaves the keys that the handler leaves, and marks a completion exactly when the task executed and completed. |
| TaskLock.TaskExecutesIff | internal/agent/task_handler.go:134-182 | A delivery executes if and only if the conversation is not locked and the message bears no living mark; otherwise it leaves marks, locks and clock as they were. |
| TaskLock.NextMessageRunsIff | internal/agent/task_handler.go:190-229 | After an executed task another unmarked message of the conversation executes, however soon, if and only if the agent did not pause or the lock of 130 seconds has run out. |
| TaskLock.TransientRetryExecutesIff | internal/agent/task_handler.go:162-229 | After a transient failure a retry executes if and only if it comes later than 130 seconds after the failed attempt began; an earlier one is acknowledged without doing anything. |
| TaskLock.InterruptedTaskRunsAgainIff | internal/agent/task_handler.go:196-201 | A redelivery during a pause is sent back until the lock has run out, and then executes from the start. |
| TaskLock.CompletedTaskIsNotRepeated | internal/agent/task_handler.go:203-229 | After a completion a redelivery executes exactly when more than 24 hours have passed. |
| ResumeWorker.EveryResumeEndsOneWay | internal/agent/resume_handler.go:85-637 | A resume that executes ends finished, waiting or failed with conversation, calls and checkpoint untouched, each if and only if its stated reason holds. |
| ResumeWorker.ProcessedNeverWaitsAgain | internal/agent/resume_handler.go:560-674 | Over every run of deliveries, answers, sweeps, cancels, deletions and clock ticks, a processed checkpoint gets no pending call, no conversation starts waiting on it, and its checkpoint stays gone. |
| ResumeWorker.RedeliveryRunsIff | internal/agent/resume_handler.go:85-113 | When a redelivered resume executes, exactly: at once after a pause or a transient failure, after 130 seconds after any other failure, after 24 hours once finished. |
| ResumeWorker.OnlyPausingKeepsTheLock | internal/agent/resume_handler.go:119-153 | After every end but a pause the process does not hold the conversation's lock. |
| ResumeWorker.PausingKeepsTheLock | internal/agent/resume_handler.go:115-141 | A resume that pauses again leaves the conversation locked, by the lock that was there or by its own. |
| ResumeWorker.ResumeFreesTheLockIff | internal/agent/resume_handler.go:119-153 | A resume that finds the conversation locked works there all the same; when it ends other than by pausing, the conversation is free if and only if the lock carried its process's token or has run out meanwhile. |
| ResumeWorker.ResumeBreaksExclusionIff | cmd/xyncra-server/main.go:395-445 | While a process task executes, a resume of the same conversation lets another unmarked message start beside it if and only if the executing task's lock carries the resuming process's token, as both handlers share one lock object, or has run out. |
| ResumeWorker.FinishClearsOtherWaitsIff | internal/store/conversation.go:358-380 | Finishing clears the conversation's status whatever checkpoint it waits on, and no other conversation's, while the calls of that other checkpoint stay pending. |
| ResumeWorker.CallsAreListed | internal/store/remote_calling.go:90-105 | A resume reads exactly the undeleted calls of its checkpoint, each once, in the order of their creation. |
| ResumeWorker.TargetsAreLatest | internal/agent/resume_handler.go:243-261 | For each interrupt id the targets hold the text of the newest resolved call that carries it, and hold nothing else. |
| ResumeWorker.AgentIsTold | internal/agent/resume_handler.go:228-300 | In terms of the rows: the agent is resumed if and only if it is known, can be built and not all calls of the checkpoint were given up; and it is told, for each interrupt, the newest undeleted resolved answer of its own checkpoint, and nothing else. |
| ResumeWorker.EveryResolvedCallIsTold | internal/agent/resume_handler.go:243-261 | Every undeleted resolved call of the checkpoint with an interrupt id has that id in what the agent is told. |
| ResumeWorker.FirstPauseWaits | internal/agent/executor.go:466-600 | The first interrupt of a run leaves the conversation asking the user or calling a client's function, as the call says, with exactly one pending call. |
| ResumeWorker.SideEventsAre | internal/store/remote_calling.go:124-370 | What answers, cancels and sweeps beside the worker do to the rows: pending undeleted rows only, each in its own way. |
| ResumeWorker.TargetsAreResolved | internal/agent/resume_handler.go:243-261 | Targets come from resolved calls, and every resolved call with an interrupt id is among them. |
| ResumeWorker.AgentSeesTheAnswerIff | internal/agent/resume_handler.go:243-261 | A resolved call's answer reaches the agent if and only if the call succeeded or its message was empty: only the result column is read. |
| ResumeWorker.AgentResumeHandler.HandleResume | internal/agent/resume_handler.go:85-141 | Skip a marked checkpoint; otherwise mark it in progress, take the lock and take one of the exits, as the specification says, having told the agent what AgentIsTold says. |
| ResumeWorker.AgentResumeHandler.ExecuteResume | internal/agent/resume_handler.go:155-300 | The exits before the agent run: unknown agent, failed build, calls all given up; otherwise the agent is told what the rows of the checkpoint say. |
| ResumeWorker.AgentResumeHandler.RunAgent | internal/agent/resume_handler.go:301-636 | The exits after the agent run: resume error, stream error, another interrupt, completion. |
| ResumeWorker.AgentResumeHandler.BuildTargets | internal/agent/resume_handler.go:243-261 | The loop builds the map of the specification; later calls replace earlier ones with the same interrupt id. |
| ResumeWorker.AgentResumeHandler.AllExpired | internal/agent/resume_handler.go:273-279 | True exactly for a non-empty list of expired or cancelled calls. |
| ResumeWorker.AgentResumeHandler.CleanupAfterResumeFailure | internal/agent/resume_handler.go:639-656 | Status idle in a live conversation, calls soft-deleted, checkpoint deleted. |
| ResumeWorker.AgentResumeHandler.MarkResumeFailed | internal/agent/resume_handler.go:660-674 | In-progress key deleted, processed key set, lock released if it carries this process's token. |
| ResumeHandoff.StepLosesIff | internal/handler/agent_resume.go:136-218 | Handlers, sweeps, the queue and any number of resume workers step by step: a step puts an answer that was safe out of reach if and only if it loses the wake-up (a worker skips a marked checkpoint, a sweep defers to an earlier sweep's guard, or the single-row expiry takes the last call, with nobody else on the way) or erases (a worker that is done deletes the calls, or a sweep wipes them, with an answer unread). |
| ResumeHandoff.EveryAnswerIsReadIff | internal/agent/resume_handler.go:243-261 | Over every run that loses no wake-up, from a start with nothing answered: when nothing of the checkpoint is pending and nobody is on the way, every answer it ever got, deleted or not, was read for an agent run if and only if no step of the run erased one. |
| WorkerAlone.UninterruptedWorker | internal/agent/resume_handler.go:85-636 | Whatever way it ends, a worker of the joint machine that nothing comes between leaves the keys and the calls that the delivery handled in one go leaves, and has read the answers of its checkpoint unless it was turned away. |
| ResumeHandoff.StepErasesIff | internal/agent/resume_handler.go:617-623 | A deletion erases if and only if it deletes the calls of the checkpoint, by a worker that is done with it or a sweep's wipe, with an answer unread; what is erased stays erased. |
| ResumeHandoff.RunErasesIff | internal/agent/resume_handler.go:617-645 | Over a run an answer is erased if and only if some step of it erases. |
| ResumeHandoff.ErasedAnswerIsNeverRead | internal/agent/resume_handler.go:243-261 | No later run ever reads an erased answer. |
| AnswerErasure.CanEraseUnsweptIff | internal/handler/agent_resume.go:171-218 | While no sweep begins, some run that loses no wake-up erases an unread answer if and only if the agent paused with at least two calls pending: two handlers count zero, two resumes are queued, and the second one deletes what was answered after the first paused again. |
| AnswerErasure.CanEraseIff | internal/agent/remote_calling_cleanup.go:198-338 | With sweeps too, some such run exists if and only if there is a pending call at all: agent_resume and a sweep can both count zero for a call with a deadline. |
| AnswerErasure.OneCallIsNeverErased | internal/agent/resume_handler.go:401-515 | From one call at a time on, with any keys and any run without sweeps, nothing is erased: pending calls, handlers that owe a count, queued resumes and workers of the checkpoint never add up to more than one. |
| ResumeHandoff.LostAnswerIsNeverRead | internal/agent/resume_handler.go:85-113 | Once a wake-up is lost and no worker of the checkpoint may pause again, no run ever reads an unread answer. |
| ResumeHandoff.AnswerWhilePausingIsNeverReadIff | internal/agent/resume_handler.go:401-515 | A worker that pauses again creates its call before it deletes its in-progress key: an answer to that call is never read for an agent run, whatever happens afterwards, if and only if it came before the deletion and its resume was checked while the key lived. |
| ResumeHandoff.SettledStepLosesIff | internal/agent/remote_calling_cleanup.go:291-316 | The step of a handler or sweep once nothing is pending: it loses the wake-up if and only if it defers to a live guard with nobody else on the way. |
| ResumeHandoff.ExpiryLosesIff | internal/handler/agent_resume.go:126-134 | The single-row expiry with other calls of the checkpoint answered loses their wake-up if and only if it took the last pending one and nobody else is on the way. |
| ResumeHandoff.WorkLosesIff | internal/agent/resume_handler.go:85-113 | A step of a worker puts an answer out of reach if and only if it skips a marked checkpoint with an answer unread and nobody else on the way, or deletes the calls with an answer unread. |
| ConversationPages.MergeOfTopKsIsTopK | internal/store/conversation.go:106-156 | Merging two top-k results, removing duplicates, sorting and cutting gives a top-k result of the union, ties included. |
| ConversationPages.PagesFitIff | internal/store/conversation.go:92-156 | The pages GetByUser can return, for all offsets and limits, are slices of one list if and only if neither of the two columns holds equal timestamps. |
| ConversationPages.ReturnedIsSlice | internal/store/conversation.go:92-156 | With distinct timestamps in each column GetByUser returns exactly the slice [offset, offset + limit) of the merged list. |
| ConversationPages.ReturnedIsPage | internal/store/conversation.go:106-156 | With equal timestamps too, its result is a page of some top-(offset + limit) result of both columns together. |
| ConversationPages.PagesAreSlicesIff | internal/store/conversation.go:92-156 | Pages of one top-k query are slices of the full list if and only if its rows have distinct timestamps. |
| ConversationPages.SortedIsMerge | internal/store/conversation.go:143-144 | Sorting one query's result followed by the other's merges them, the first before the second among equal timestamps. |
| ConversationPages.ColumnsAreDisjoint | internal/handler/create_conversation.go:103-107 | Nobody is in both columns of a conversation. |
| ConversationPages.TopKIsPrefix | internal/store/conversation.go:106-125 | With distinct timestamps a top-k query result is the first k of the full list. |
| ConversationPages.SortIsStable | internal/store/conversation.go:159-165 | The insertion sort keeps the order of equal timestamps. |
| ConversationPages.SortedOrders | internal/store/conversation.go:159-165 | The insertion sort orders newest first and keeps the elements. |
| ConversationPages.SortByLastMessageAt | internal/store/conversation.go:159-165 | The in-place sort of the array equals the functional insertion sort of its old contents. |
| ConversationPages.ConversationStore.GetByUser | internal/store/conversation.go:92-156 | Two queries, the join without duplicates, the sort and the slice, whichever rows the database picks among equal timestamps; undeleted conversations with the user in a column only, each once, newest first. A limit outside 1..101 counts as 20, a negative offset as 0. |
| ConversationPages.PageIsOfUser | internal/store/conversation.go:92-156 | In terms of the rows, ties included: a page holds undeleted conversations of the user only, each once, newest first, and is as long as the exact list of them allows. |
| ConversationPages.ConversationStore.MergeUnseen | internal/store/conversation.go:127-141 | The seen-set loops give the first list followed by what is new in the second. |
| ListConversations.HasMoreIff | internal/handler/list_conversations.go:79-103 | has_more if and only if conversations follow the page, and the page has as many as there are, equal timestamps included. |
| ListConversations.ReplyIs | internal/handler/list_conversations.go:67-103 | With distinct timestamps in each column the reply is exactly the slice that was asked for. |
| ListConversations.ListConversationsHandler.HandleRequest | internal/handler/list_conversations.go:67-103 | The handler asks GetByUser for one conversation more than the page and cuts it off. A limit outside 1..100 counts as 20, a negative offset as 0. |
| ListConversations.WalkListsTheUser | internal/handler/list_conversations.go:67-103 | In terms of the rows: a finished walk over unchanged rows lists exactly the undeleted conversations that have the user in a column, each once, newest first, when no column holds equal timestamps of the user's. |
| ListConversations.ReplyToUser | internal/handler/list_conversations.go:86-103 | In terms of the rows, ties included: has_more says whether the user's exact list goes on behind the page, and the page is as long as it must be; without ties it is the stretch of that list. |
| ListConversations.WalkReadsAsMany | internal/handler/list_conversations.go:79-103 | Equal timestamps included, a walk over the pages reads as many conversations as there are. |
| ListConversations.WalkListsAll | internal/handler/list_conversations.go:67-103 | Walking the pages of an unchanged store until has_more is false lists every conversation of the user once, newest first, for every limit. |
| ListConversations.WalkCanFinish | internal/handler/list_conversations.go:67-103 | Whatever replies a walk has had so far, it can be finished: there is always a next reply, and has_more does not stay true for ever. |
| ListConversations.WalkHasPages | internal/handler/list_conversations.go:79-103 | Every finished walk has had exactly as many pages as the conversations fill, one when there are none, equal timestamps included. |
| UpdateLog.SyncIsCompleteIff | internal/handler/sync_updates.go:67-139 | sync_updates returns exactly after+1 .. min(after+limit, latest), rows in place and gaps elsewhere, has_more and latest right, where a limit up to 0 counts as 100 and one above 500 as 500, if and only if the window stays inside the 32-bit range. |
| UpdateLog.WrappedWindowMakesNoProgress | internal/handler/sync_updates.go:93-132 | A window that wraps gives an empty page with has_more, which repeats. |
| UpdateLog.UserUpdateStore.SyncUpdates | internal/handler/sync_updates.go:67-139 | The handler's loops, watched for any number of iterations, give what the specification says is observed by then. |
| UpdateLog.SyncIsWhatIsObserved | internal/handler/sync_updates.go:111-139 | The handler answers if and only if some number of iterations suffices, and with that answer. |
| UpdateLog.LoopNeverEndsIff | internal/handler/sync_updates.go:113-129 | The uint32 loop is still running after n iterations for every n if and only if its bound is the largest uint32. |
| UpdateLog.NeverReturnsIff | internal/handler/sync_updates.go:93-129 | The handler never returns if and only if the window ends at the largest seq and that seq was issued. |
| UpdateLog.UserUpdateStore.ListByUserRange | internal/store/user_update.go:67-86 | Exactly the user's rows with after < seq <= max, in ascending order. |
| UpdateLog.UserUpdateStore.BroadcastToMembers | internal/handler/broadcast_conversation_update.go:95-144 | The transaction reads every member's MAX before it inserts the batch. |
| UpdateLog.UserUpdateStore.CleanupExpiredBefore | internal/store/user_update.go:111-123 | Exactly the rows created before the cutoff are deleted and counted. |
| UpdateLog.LatestIsMax | internal/store/user_update.go:88-102 | GetLatestSeq is an upper bound of the user's seqs and one of them, or 0. |
| UpdateLog.BroadcastKeepsWellFormedIff | internal/handler/broadcast_conversation_update.go:100-144 | A broadcast keeps seqs positive and unique per user if and only if no member is named twice and no counter wraps. |
| UpdateLog.SeqsAreNeverReused | internal/handler/broadcast_conversation_update.go:100-144 | Over every run of broadcasts and retention cleanups that keep each newest row, each user has been issued exactly 1, 2, .., latest in that order. |
| UpdateLog.CleanupKeepsLatestIff | internal/store/user_update.go:108-123 | A cleanup leaves MAX(seq) alone if and only if the user's newest row is inside the retention period. |
| UpdateLog.CleanupReusesASeqIff | internal/store/user_update.go:108-123 | After a cleanup the next broadcast reuses an issued seq if and only if the newest row was deleted. |
| UpdateLog.SurvivorsAreListed | internal/handler/sync_updates.go:99-129 | Despite holes every surviving row above the cursor is listed with its content, and whatever carries a payload was issued. |
| UpdateLog.DispatchIsContiguous | pkg/client/sync.go:219-292 | Whatever arrives, doubled, lost or reordered, the client dispatches the seqs after its cursor once each, in order. |
| UpdateLog.AcceptedIff | pkg/client/sync.go:219-292 | A batch is accepted if and only if each seq in it is at most one above the cursor and everything before it in the batch, and then the cursor is the largest of them. |
| UpdateLog.StopsAtTheGap | pkg/client/sync.go:219-292 | A batch with a gap is taken up to the first gap, and nothing of the rest. |
| UpdateLog.SyncManager.FullSync | pkg/client/sync.go:879-930 | Where the last page is in range, the paging loop terminates having dispatched cursor+1 .. latest once each, in order. |
| UpdateLog.FullSyncEndsIff | pkg/client/sync.go:885-927 | The paging comes to an end after some number of pages if and only if the window of the last page stays in the 32-bit range; otherwise it asks for the same page for ever or waits for an answer that never comes. |
| UpdateLog.LastAskedIs | pkg/client/sync.go:889-925 | The cursor of that last page: the largest cursor + k * limit below the newest seq. |
| UpdateLog.SyncManager.Apply | pkg/client/sync.go:219-292 | Skip, gap error, duplicate, or dispatch and advance, as the specification says. |
| UpdateLog.SyncManager.ApplyAll | pkg/client/sync.go:774-786 | The batch loop equals the fold of the single update and stops at the first gap. |
| UpdateLog.PageAdvances | pkg/client/sync.go:879-930 | One page is taken whole, moves the cursor to min(cursor + limit, latest), and says has_more exactly when the cursor is still behind. |
| ConversationLifecycle.VisibilityRefinesTheSpec | internal/handler/restore_conversation.go:104-166 | Over every run a message is visible if and only if its conversation is live and it was never individually deleted, provided that no cascade reuses the stamp of a message of its conversation. |
| ConversationLifecycle.RunsFromEmpty | internal/handler/restore_conversation.go:104-166 | Every run from an empty database, in that scope, keeps this and the cursor invariant. |
| ConversationLifecycle.RestoreCountsTheDelete | internal/handler/restore_conversation.go:118-142 | A restore recovers exactly the messages, and the count, that the matching delete reported. |
| ConversationLifecycle.RestoreUndoesDeleteIff | internal/handler/delete_conversation.go:108-138 | Deleting and restoring gives back the same message rows if and only if no message of the conversation already carried the stamp. |
| ConversationLifecycle.StaleRestoreIsExactIff | internal/handler/restore_conversation.go:88-142 | With the deleted_at that the handler reads before its transaction, the restore is exact if and only if that stamp is still the current one, or neither stamp would bring anything back. |
| ConversationLifecycle.OthersAreUntouched | internal/handler/delete_conversation.go:108-138 | Conversations do not interfere: every run of operations on other conversations leaves the columns, cursors and messages of this one as they were. |
| ConversationLifecycle.OnlyMembersChangeVisibility | internal/handler/delete_message.go:106-121 | A message disappears only when its sender deletes it or a member deletes its conversation, and comes back only when a member restores the conversation; nothing else of it ever changes. |
| ConversationLifecycle.DeleteMessageKeepsInv | internal/handler/delete_message.go:88-121 | An individual delete hides that message and survives every later restore. |
| ConversationLifecycle.RestoreKeepsMetadata | internal/handler/restore_conversation.go:144-161 | The recomputed last message id and time are the ones already stored. |
| ConversationLifecycle.CursorsNeverPassTheLastMessage | internal/handler/mark_as_read.go:111-140 | Over every run of sends, overlapping marks, deletes and restores no read cursor passes the last message id, which is the largest id ever sent. |
| ConversationLifecycle.CursorConvergesToTheMaximum | internal/store/conversation.go:290-324 | A cursor only moves forward and ends at the maximum of its start and the committed targets, in any commit order. |
| ConversationLifecycle.CommitReportsOwnCursor | internal/handler/mark_as_read.go:129-140 | A mark reports the caller's own cursor, the maximum of the old one and the target. |
| ConversationLifecycle.MarkAsReadIs | internal/handler/mark_as_read.go:95-140 | An uninterrupted mark moves the caller's own cursor, and no other column, to the message asked for, to the last one when none is named or it lies beyond, and never back; it reports that cursor. |
| ConversationLifecycle.MessageIdsAreConsecutive | internal/store/store.go:151-249 | Over every run from an empty database whose ids do not wrap, the messages of a conversation are numbered 1, 2, 3 and so on in the order sent, whatever is deleted and restored in between. |
| ConversationLifecycle.Refusals | internal/handler/delete_message.go:88-121 | For every operation: when it is refused as not found, denied or invalid, and that a refused request changes no conversation and no message. |
| ConversationLifecycle.SendIs | internal/store/store.go:151-249 | A new message has the next id of its conversation, 0 after the largest, and is noted there with its time; nothing else changes. |
| ConversationLifecycle.CreateIs | internal/handler/create_conversation.go:92-160 | A new conversation of two different users is live, without messages and unread. |
| ConversationLifecycle.DeleteStamps | internal/handler/delete_conversation.go:108-145 | A delete puts one stamp, the time cut to the millisecond, on the conversation and on exactly its visible messages, and reports their number. |
| ConversationLifecycle.RestoreIs | internal/handler/restore_conversation.go:86-172 | A restore clears the stamp of the conversation and of exactly the messages that carry the same one, reports their number and reads the metadata from the newest message; on a live conversation it does nothing. |
| ConversationLifecycle.CommitsOnce | internal/handler/mark_as_read.go:129-140 | A mark is used up by its commit. |
| ConversationLifecycle.Handlers.SendMessage | internal/store/store.go:151-249 | Allocates the next message id of a live conversation and updates its metadata. |
| ConversationLifecycle.Handlers.HandleDeleteMessage | internal/handler/delete_message.go:88-121 | Sender-only soft delete with its own timestamp, with the handler's refusals. |
| ConversationLifecycle.Handlers.HandleDeleteConversation | internal/handler/delete_conversation.go:88-145 | One timestamp, cut to the millisecond, on the conversation and its undeleted messages, and their count. |
| ConversationLifecycle.Handlers.HandleRestoreConversation | internal/handler/restore_conversation.go:86-172 | Idempotent on a live conversation; otherwise restore by matching timestamp and recompute the metadata. |
| ConversationLifecycle.Handlers.HandleMarkAsRead | internal/handler/mark_as_read.go:95-140 | Uninterrupted, the handler is the clamp step followed by the MAX update. |
| StreamBridge.SnapshotsAreCumulative | internal/agent/stream_bridge.go:135-173 | Under every schedule of forwarding, ticks, receiving and cancelling, each snapshot is a non-empty prefix of the next and of the full text. |
| StreamBridge.UnnoticedRunIsComplete | internal/agent/stream_bridge.go:305-348 | A run that stopped without either goroutine noticing a cancellation has emitted the full text and then exactly the one terminal signal of its last event. |
| StreamBridge.UncancelledRunIsComplete | internal/agent/stream_bridge.go:77-133 | A schedule without a cancellation, whatever the order of its steps, shows the full text and then the terminal signal. |
| StreamBridge.FromOutside | internal/agent/stream_bridge.go:305-348 | A cancellation can come at any time and does nothing by itself; a tick shows everything received, and moves no event. |
| StreamBridge.ReceiverEndsWithTheFullText | internal/agent/executor.go:372-441 | A receiver that keeps only the newest frame sees text that only grows, and ends with the full text whichever earlier frames were lost. |
| StreamBridge.BridgesAgreeIff | internal/agent/stream_bridge.go:176-187 | The two forwarding goroutines send the same events if and only if no interrupt is reached before a failure ends the stream. |
| StreamBridge.NeverStuck | internal/agent/stream_bridge.go:61-173 | Until an uncancelled loop has stopped one of the two goroutines can move, and each move brings the end nearer. |
| StreamBridge.CanBlockForEverIff | internal/agent/stream_bridge.go:77-142 | Some schedule leaves the forwarding goroutine blocked on its channel for ever, the channel never closed, if and only if there is more to forward than the channel holds. |
| StreamBridge.BlockedForEverIff | internal/agent/stream_bridge.go:77-142 | A goroutine about to send stays blocked under every schedule if and only if the channel is full and the loop that reads it has left. |
| StreamBridge.CancelledRunCanLookFinishedIff | internal/agent/stream_bridge.go:136-152 | Some schedule ends a stream with the finished signal although it was not the whole or did not finish, if and only if there is text to lose or another end. |
| StreamBridge.LookingFinishedNeedsGiveUp | internal/agent/stream_bridge.go:80-95 | Only the forwarding goroutine's giving up does that; a cancellation the loop notices ends with snapshots alone. |
| StreamBridge.ForwardIsWellFormed | internal/agent/stream_bridge.go:77-133 | The forwarding goroutine sends non-empty deltas and then one terminal event, and the deltas join to the visible text. |
| StreamBridge.ForwardEndsWith | internal/agent/stream_bridge.go:77-133 | The terminal event is that of the first failure, or of the first interrupt where interrupts are forwarded, whichever comes first, and otherwise the finished one. |
| StreamBridge.OnlyTicksShow | internal/agent/stream_bridge.go:305-348 | Received text is shown at ticks and at the end only, and a tick shows all of it. |
| StreamBridge.ForwardEvents | internal/agent/stream_bridge.go:77-133 | The nested forwarding loops of Bridge equal its specification. |
| StreamBridge.ForwardEventsOrInterrupt | internal/agent/stream_bridge.go:203-303 | The nested forwarding loops of BridgeWithInterrupt equal its own specification. |
| StreamBridge.Bridge.Consume | internal/agent/stream_bridge.go:305-348 | The select loop equals the fold of its reaction to single signals and stops at the first terminal one. |
| StreamBridge.ConsumeChunks | internal/agent/executor.go:372-441 | The executor's loop broadcasts each snapshot and closes with one frame that repeats the newest. |
| StreamBridge.FramesShowTheNewest | internal/agent/executor.go:372-441 | No frame before the closing one is empty or marked done, and the newest text is that of the newest of them. |
| ContextWindow.TrimByTokensIsLongest | internal/agent/db_context_manager.go:175-199 | The longest suffix whose tokens fit, or the last message alone, for every token counter. |
| ContextWindow.CutoffIsLongest | internal/agent/db_context_manager.go:175-199 | A suffix fits if and only if it starts at the cutoff or later. |
| ContextWindow.TokenWindowIsExactIff | internal/agent/db_context_manager.go:75-109 | Trimming the fetched window equals trimming the whole history if and only if the history fits in the fetch or one message more than the fetch would not fit the budget. |
| ContextWindow.DroppingWindowIsExact | internal/agent/db_context_manager.go:75-109 | Whenever trimming the window drops a message the answer is that of the whole history. |
| ContextWindow.MessageWindowIsExactIff | internal/agent/db_context_manager.go:203-208 | Trimming by count is exact if and only if the limit or the history is at most 500. |
| ContextWindow.UnlimitedWindowIsExactIff | internal/agent/db_context_manager.go:75-109 | Without limits the answer is exact if and only if the history has at most 100 messages. |
| ContextWindow.HistoryIs | internal/store/message.go:353-372 | The history is exactly the undeleted messages that are not summarized or are a summary, each once, in order. |
| ContextWindow.FetchLimitIs | internal/agent/db_context_manager.go:75-90 | At most 500 messages are fetched, and otherwise the largest of 100, twice the message limit and two for every 200 tokens. |
| ContextWindow.NextAnswerIs | internal/agent/db_context_manager.go:66-123 | A computed window answers the next call for the conversation, whatever limits that has, exactly while less than the TTL has passed, and no call for another conversation. |
| ContextWindow.AnswersAreRecentWindows | internal/agent/db_context_manager.go:66-123 | Every answer, over any run of calls one after the other and invalidations, is the window some call for the conversation computed less than the TTL ago, possibly with that call's limits. |
| ContextWindow.InvalidationHoldsIff | internal/agent/db_context_manager.go:66-123 | With calls running beside each other: whatever is cached for a conversation after an invalidation was read after it, in every run, if and only if no call for the conversation was between its read and its store. |
| ContextWindow.HeuristicBounds | internal/agent/token_counter.go:11-16 | The default counter counts b bytes in n messages as at least (b - 3n) / 4 and at most b / 4 tokens. |
| ContextWindow.DefaultAnswerBytes | internal/agent/db_context_manager.go:175-199 | With the default counter an answer of more than one message within a token limit t has at most 4t bytes and 3 more per message. |
| ContextWindow.DBContextManager.GetContext | internal/agent/db_context_manager.go:66-118 | Cached answer while younger than the TTL, otherwise fetch, reverse, trim and store. |
| ContextWindow.DBContextManager.InvalidateCache | internal/agent/db_context_manager.go:120-123 | Drops exactly that conversation's entry, which is the step of the concurrent calls whatever they have read so far. |
| ContextWindow.ReadThenStoreIsAnswer | internal/agent/db_context_manager.go:66-118 | The read and the store of the concurrent machine in a row are the uninterrupted call. |
| ContextWindow.DBContextManager.TrimMessagesByTokens | internal/agent/db_context_manager.go:175-199 | The loop from the newest message equals the specification. |
| ContextWindow.DBContextManager.ListRecentByConversation | internal/store/message.go:353-372 | The newest eligible messages first, with the limit reset to 50 outside 1..500. |
| ContextWindow.ReverseMessages | internal/agent/db_context_manager.go:217-221 | The in-place reversal equals the reversed old contents. |
| ToolInjection.ClientTools | internal/agent/dynamic_tool_provider.go:88-140 | The client tools are exactly those of the first entry of each name on the lexicographically smallest device registering it, if it passes the filters and can be built, each once. |
| ToolInjection.SeeAll | internal/agent/dynamic_tool_provider.go:96-109 | After the loop over the sorted devices every registered name is held with its smallest device and its first entry there. |
| ToolInjection.ApplyFilters | internal/agent/dynamic_tool_provider.go:207-245 | Exactly the functions that are not excluded and carry one of the wanted tags, or any when no tag is wanted. |
| ToolInjection.MapOrderDoesNotMatter | internal/agent/dynamic_tool_provider.go:111-194 | The outcome is the same for every map iteration order, up to the order of the client tools. |
| ToolInjection.MergedShape | internal/agent/dynamic_tool_provider.go:155-194 | What an injection leaves: existing tools not overridden, the client tools, then registry tools with new names. |
| ToolInjection.InjectedNamesAreUnique | internal/agent/dynamic_tool_provider.go:157-194 | Injected names are unique, and existing tools stay, in order, exactly when not overridden. |
| ToolInjection.FilterSeesSmallestDeviceOnly | internal/agent/dynamic_tool_provider.go:103-139 | A name reaches the agent if and only if the entry on its smallest device passes: filtering comes after the choice of device. |
| ToolInjection.RunContext.BeforeAgent | internal/agent/dynamic_tool_provider.go:69-197 | The context's tools become the merge of the old ones with the client and registry tools. |
| ToolInjection.DedupMerged | internal/agent/dynamic_tool_provider.go:179-191 | The loop keeps the first tool of each name and every tool whose Info fails. |
| FunctionRegistry.AcceptedIff | internal/server/function_registry.go:169-188 | A registration is accepted if and only if it is small enough and its names are non-empty, short enough in bytes and distinct. |
| FunctionRegistry.RefusalIs | internal/server/function_registry.go:169-223 | A refused registration gets the error that there are too many functions, and otherwise what is wrong with the first function that is; limits that are not positive stand for 500 functions and names of 255 bytes. |
| FunctionRegistry.RegistryKeepsLast | internal/server/function_registry.go:169-223 | Over every run a device has its last accepted registration until it disconnects, and no user entry is empty. |
| FunctionRegistry.DisconnectUndoesRegister | internal/server/function_registry.go:304-326 | Disconnecting undoes a first registration exactly. |
| FunctionRegistry.DynamicToolProvider.BeforeAgent | internal/agent/dynamic_tool_provider.go:69-197 | The devices of the agent's base user, read from the registry, give the client tools; without an agent id only registry tools are injected. |
| FunctionRegistry.BaseUser | internal/agent/dynamic_tool_provider.go:76-83 | The base user is what stands before the first slash, unless that is nothing or there is none. |
| FunctionRegistry.MemoryFunctionRegistry.RegisterFunctions | internal/server/function_registry.go:169-223 | Reports the first error in the order of the checks, otherwise replaces the device's list. |
| FunctionRegistry.MemoryFunctionRegistry.OnDeviceDisconnect | internal/server/function_registry.go:304-326 | Returns what it removed, and drops the user with its last device. |
| Semaphore.HoldersNeverExceedCapacity | internal/agent/semaphore.go:34-62 | In every interleaving holders never exceed capacity, and active is the tokens minus acquirers not yet counted plus releasers not yet uncounted. |
| Semaphore.ExactAtRest | internal/agent/semaphore.go:34-62 | With nobody between a channel operation and its counters, all counters are exact. |
| Semaphore.ReleaseNeverBlocks | internal/agent/semaphore.go:54-62 | A holder's release finds a token. |
| Semaphore.UnlimitedNeverWaits | internal/agent/semaphore.go:20-62 | A semaphore without a capacity lets everybody through at once and counts nobody. |
| Semaphore.PeakCanExceedCapacityIff | internal/agent/semaphore.go:34-62 | Some run shows a peak above the capacity if and only if there are more callers than slots. |
| Semaphore.PeakIsAtMostCallers | internal/agent/semaphore.go:34-62 | The peak never exceeds the number of callers. |
| Semaphore.PeakStaysAbove | internal/agent/semaphore.go:34-62 | A peak above the capacity stays above it for ever. |
| Semaphore.Semaphore.Acquire | internal/agent/semaphore.go:34-51 | Uncontended, the three steps in a row; waiting or cancelled calls change nothing; unlimited semaphores count nothing. |
| Semaphore.Semaphore.Release | internal/agent/semaphore.go:54-62 | Uncontended, the two steps in a row; it waits when there is no token. |
| LikeEscape.ThreeReplacementsAreOnePass | internal/store/conversation.go:408-413 | The three sequential replacements equal one pass over the characters. |
| LikeEscape.SearchFindsSubstrings | internal/store/conversation.go:253-257 | The search pattern matches a text, under case-sensitive LIKE with the escape character, if and only if the text contains the search text. |
| LikeEscape.EscapeRoundTrip | pkg/store/helpers.go:10-15 | The pattern is a valid one, and unescaping gives back the text. |
| LikeEscape.BrokenEscapeIsInvalid | pkg/store/helpers.go:10-15 | Behind any escaped text, a pattern with an escape character before anything but %, _ or itself, or at its end, is invalid; otherwise the rest decides. |
| LikeEscape.UnescapedSearchIsRightIff | internal/store/conversation.go:253-257 | Without escaping the search finds exactly the containing texts if and only if the search text holds none of the three special characters. |

## Left out

- Redis and database errors, and the fail-open branches they lead to: the statements are about error-free stores.
- Go-level crashes of the resume and cancel handlers and of the resume worker: only agent deliveries crash in the model.
- The conversation lock, statuses and agent runs beside the protocol: `ResumeHandoff` has the idempotency keys, the calls and the queue; `ResumeWorker` has the rest, one delivery at a time.
- A resume worker that ends before it reads the answers (unknown agent, failed build, a repeated call id), a queue that delivers a task twice, and a transient stream error after part of the answer was used: not in `ResumeHandoff`.
- A stream whose chunks are cut off in the middle by a cancellation: the code looks at the context between iterator events only, the machine of `StreamBridge` between any two sends, so its runs include those of the code.
- The stale-conversation layer of the cleanup loop, which resets conversations by age.
- Deployments without a RemoteCalling store, idempotency store or lock: the model has all three.
- Redis values that do not decode, sub-millisecond TTLs, and metadata updates through Patch.
- The pending-update paths that allocate a seq outside a transaction (delete, restore, mark and message deletion handlers): their seqs can collide, and only the transactional path is modelled.
- The client's push channel beside FullSync, its unknown-update-type error and its local conversation tables.
- SQL collation and case folding in LIKE: matching is case-sensitive. An escape character before an ordinary character, an error in section 8.5 of SQL-92, takes that character literally.
- Physical deletion of message rows, conversations with a single member, and find-or-create of conversations.
- 64-bit overflow of the agent configuration's integers, and aliasing of cached message slices.
- Tool-calling message updates, broadcasts, typing indicators and streamed-message persistence around a resume.
- How the database finds rows: queries are functions of the table, and only loops of the Go code are loops here.
- WebSocket pumps, Pub/Sub, HTTP, tracing, metrics, the CLI and the demo: input and output.
- Simple validators, option setters and payload builders: they would only add easy members.
- ResumeWorker.EveryResumeEndsOneWay: stated for deliveries that are handled one at a time; two deliveries of one checkpoint that check the keys before either marks them may both execute, as `ResumeHandoff` allows.
- ConversationLifecycle.VisibilityRefinesTheSpec: stated for handlers that run one at a time, because the delete and restore handlers check outside their transactions; `ConversationLifecycle.StaleRestoreIsExactIff` gives the condition for one such overlap.
- UpdateLog.SyncManager.FullSync: stated for a sync that ends (`UpdateLog.FullSyncEndsIff` says when), and for a log that does not change between two pages.
