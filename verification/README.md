# Proofs about the WebChat gateway

A chat gateway built on asyncio: one process answers chat requests by streaming a reply, keeps
the reply in a buffer that other devices can attach to, stores the finished turn in an external
conversation store, and tells the token's other devices about it through a numbered event log.
Beside the chat there is Drop, a file drop between a token's own devices, with its own files,
messages and clean-up passes.

The project models that core as Dafny and proves what it promises over whole runs. Code between
two `await`s is one step; storage, Redis, the conversation store and the object store are atomic
calls, each of which may fail. Where the source updates objects in place there is a class whose
methods are proved against functions on values, and the theorems about runs are proved about
those functions.

| file | subject |
|---|---|
| `StreamBuffer.dfy`, `InMemoryBuffer.dfy` | the in-memory stream buffer: chunks, states, eviction and its two caps |
| `StreamProtocol.dfy`, `StreamLiveness.dfy` | one driver, any number of subscribers, sweeper, caps and evictions in every interleaving: what is delivered, and that it can be |
| `StreamResume.dfy`, `ChatStream.dfy` | the resume handler and the POST handler, and that the one completes the other |
| `StreamRegistry.dfy`, `RateLimit.dfy`, `Quota.dfy` | the close pipeline, the single-flight limiter, quota reservations |
| `RedisStream.dfy` | the atomic append script against the close pipeline's separate commands |
| `History.dfy`, `Conversations.dfy`, `ConversationService.dfy` | the rendered history, and replicas that follow it by events |
| `SessionMarks.dfy` | what peers are told besides: the session created, its deletion mark, its running stream |
| `Overlay.dfy` | recovering flags and attachments by walking history and events together |
| `EventCursor.dfy` | the event log, its retention, and clients that page through it |
| `DropStore.dfy`, `DropTrace.dfy`, `DropObjects.dfy` | Drop: rows, objects and messages; every block call by call, with a failure possible at each; which rows and which objects may go |
| `DropRuns.dfy`, `DropService.dfy`, `DropPeers.dfy` | whole Drop runs, the process dying after any call; the handlers as they run; what other devices show |
| `DataPrune.dfy` | the retention pass over chat sessions |
| `AsyncLock.dfy`, `KeyLocks.dfy`, `UploadGate.dfy` | asyncio's lock, the counted per-key locks, the upload gate |
| `LogBuffer.dfy`, `CacheTrim.dfy`, `PreviewCache.dfy` | the log ring, the cache trimmer, the preview cache |
| `Lists.dfy` | sequence vocabulary |

`dafny verify dfyconfig.toml` checks everything.

## Where the code does less than it says

Each of these is a lemma with the failing case and, beside it, the exact condition under which
the code does keep the promise.

- Three exits of the streaming handler leave the session lock taken with nobody to close the
  stream: a cancellation while the registry is creating the entry or auditing the opening; a quota
  reservation that raises, which is awaited outside any guard; and a refund that raises while the
  handshake is being cleaned up. On the last two the entry stays pending and the driver registered.
  In every other exit that the model covers the lock is given back (`StreamRegistry.Registry.Open`, `ChatStream.Handle`,
  `ChatStream.LockFreedUnless`). A refund that raises also leaves the day charged, though the
  stream is closed as failed.
- A cancellation that reaches the awaiter of the shielded lock release skips
  `unregister_driver`; the lock is released, the driver entry stays (`StreamRegistry.Registry.Close`).
- The upload gate's idle test looks at `locked()`, which is false between a release and the woken
  waiter's turn. If anybody alive is queued when a task leaves, a newcomer gets a second lock and
  both end up inside (`UploadGate.NoisyLeaveBreaks`, `UploadGate.ThreeUploads`); if nobody is, the
  gate excludes (`UploadGate.QuietRunsExclude`). The Drop modules take the gate's exclusion as given.
- `README.md:305` of the gateway says a client whose cursor was passed by a pruned marker gets
  `tooFar`. If the marker is the last row and at most 1000 ahead, it gets an empty answer that
  moves it past events it never saw (`EventCursor.MarkerSkipsEvents`, `EventCursor.PrunedThenPolled`,
  `EventCursor.ExactIffNoticed`).
  An append between an empty page and the second maximum is skipped in the same way, and a prune
  during the wait can hide rows before the page that is then answered. With anything happening
  between the four reads a response is right exactly if it says `tooFar`, or nothing that was new
  when the page was read had been pruned, or nothing was new then and nothing was appended until
  the closing read (`EventCursor.ExactAcrossReads`, `EventCursor.FirstGap`).
- Regenerating cuts the stored history before it calls the model and announces the cut only
  afterwards, so any failure in between leaves peers with entries the server no longer has; an
  image whose file does not resolve is announced and not stored; a failed stream leaves the user's
  bubble on every peer and nothing in the history (`Conversations.FailedGenerationDiverges`,
  `Conversations.FailedStreamLeavesGhost`, `Conversations.StepInSync`).
- A deletion mark whose event is not written stays unknown to peers, and a lost `stream_ended`
  leaves them showing a stream that is over; each exactly then (`SessionMarks.MarkStepAgrees`,
  `SessionMarks.StreamStepAgrees`).
- Clearing a history swallows a conversation look-up that raises: the history stays, but the count
  is set to 0 and peers are told it is empty. They differ from then on exactly if anything in it is
  rendered (`Conversations.UnfoundClearDiverges`, `Conversations.ClearInSync`).
- The overlay justifies a flag by role and content only, so a deleted message can lend its flag to
  a later one with the same text: a stream stopped half way, regenerated with the same words, is
  still shown as incomplete (`Overlay.StoppedThenSameRuns`, `Overlay.TwinLendsItsFlag`). Messages
  find their own events exactly if none has a twin between its predecessor's event and its own
  (`Overlay.FindsOwnEvents`), and then nothing is lent (`Overlay.NothingLent`).
- A Drop send whose commit fails releases its attachments without asking who else uses them; a
  file shown by an earlier message then loses its object, and its row with its last call
  (`DropTrace.Hazard`, `DropTrace.ResendHazard`, `DropObjects.ResendErases`,
  `DropRuns.ResendLeavesHollow`). A clear deletes objects before it knows that it can finish: one
  that cannot leaves every message in place, the others without bytes (`DropObjects.ClearErases`,
  `DropRuns.ClearLeavesHollow`). Over whole runs, visible messages keep their files' rows exactly
  if no send met the first state (`DropRuns.RunKeepsVisible`), and files in use keep their objects
  exactly if no such send and no clear erased one (`DropRuns.RunSparesObjects`).
- A Drop send that breaks off takes its rows back one by one; a row that cannot be taken back stays
  visible, and nobody is told of it (`DropPeers.BlockTold`, `DropPeers.TextStaysUntold`).
- The retention pass lists at most 500 sessions to clear but deletes all expired session rows;
  beyond 500, a session without files loses its row with its history uncleared
  (`DataPrune.BeyondTheLimit`, `DataPrune.ClearedBeforePurged`).

## Model

| member | source | states |
|---|---|---|
| StreamBuffer.SinceFromCursor | core/stream_buffer.py:523-541 | a reader that goes on from the sequence number it reached gets exactly the chunks it is still owed: no gap, no repeat |
| StreamBuffer.SinceRest | core/stream_buffer.py:523-541 | what was received followed by what a fresh read from the cursor yields is everything owed, and both leave the same cursor |
| StreamBuffer.TokenCap | core/stream_buffer.py:329-412 | the per-token cap removes only that token's closed entries, and afterwards there is room for one more or nothing but live streams |
| StreamBuffer.CreateKeepsCaps | core/stream_buffer.py:329-412 | a successful create keeps the table within the global cap, drops closed entries only, oldest first, at most one for the global cap and none if the token cap already made room |
| StreamBuffer.CreateKeepsLive | core/stream_buffer.py:329-412 | no live stream is touched by a create, whatever the caps |
| StreamBuffer.FullMeansAllLive | core/stream_buffer.py:75-86 | creation is refused exactly when the table is full of live streams, and then nothing has been evicted |
| InMemoryStreams.InMemoryBuffer.ScanOwned | core/stream_buffer.py:359-373 | the scan finds the token's entries and, oldest first, its closed ones |
| InMemoryStreams.InMemoryBuffer.OldestClosed | core/stream_buffer.py:381-391 | the global victim is the oldest closed entry of any token, if there is one |
| InMemoryStreams.InMemoryBuffer.Create | core/stream_buffer.py:329-412 | the loops compute the value-level create; a refused create changes nothing; each eviction is audited once, with its reason |
| InMemoryStreams.InMemoryBuffer.AppendChunk | core/stream_buffer.py:428-447 | appends to a live entry, swaps its wake event and sets the old one; anything else is a no-op |
| InMemoryStreams.InMemoryBuffer.Close | core/stream_buffer.py:449-465 | state, final frame and wake are set together; a missing entry is a no-op |
| InMemoryStreams.InMemoryBuffer.FetchSince | core/stream_buffer.py:208-231 | a snapshot holds the chunks past the cursor with the state they belong to |
| InMemoryStreams.InMemoryBuffer.PollOnce | core/stream_buffer.py:525-537 | one turn of the subscribe loop reads pending chunks, wake event and terminal flag from one state |
| InMemoryStreams.InMemoryBuffer.SweepCollect | core/stream_buffer.py:316-327 | the sweep names exactly the entries closed before the cutoff |
| InMemoryStreams.InMemoryBuffer.DoEvict | core/stream_buffer.py:479-484 | an eviction happens, and is audited, only if the entry is still there |
| StreamProtocol.RunInvariant | core/stream_buffer.py:234-547 | every interleaving of create, append, close, wake, evict, sweep and subscriber turns keeps table, wakeups and subscribers consistent |
| StreamProtocol.DeliveredExactlyOnce | core/stream_buffer.py:511-547 | what a subscriber has yielded is always a prefix, in order and without repeats, of the stream's chunks past its start; a subscriber that saw the end has them all |
| StreamProtocol.NoLostWakeup | core/stream_buffer.py:428-465 | a sleeping subscriber's event is set, or about to be set by an append or close in flight, exactly when there is work for it |
| StreamProtocol.QuietMeansDelivered | core/stream_buffer.py:511-547 | when nothing can move, every subscriber has finished or has everything a live stream holds |
| StreamLiveness.EverybodyGetsOn | core/stream_buffer.py:511-547 | from every state of every run each subscriber can get on, by its own turns and the waking that is due, in a bounded number of steps, until it has finished or has everything a live stream holds; one whose stream is listed then has all of it |
| StreamLiveness.CreatedUnlessFull | core/stream_buffer.py:329-412 | in every run a new stream is listed, and live, exactly unless the table is full of live streams |
| StreamProtocol.LiveStreamSurvives | core/stream_buffer.py:316-412 | in no state of any run does anything but a manual eviction remove a live stream, and nothing but a close ends it |
| StreamProtocol.CapsAndAudits | core/stream_buffer.py:329-484 | in every run the table stays within its cap, no eviction is audited twice, and every stream that left the table was audited or its audit, written after the lock is released, is still owed |
| StreamProtocol.HistoryOnlyGrows | core/stream_buffer.py:428-465 | a stream's chunks only ever grow, and an ended stream is never extended or reopened |
| StreamProtocol.HistoryIsAccepted | core/stream_buffer.py:428-447 | in every run a stream's chunks are exactly the appends that found it live and in sequence, in order |
| StreamProtocol.PendingUntilFirstChunk | core/stream_buffer.py:428-447 | in every run a live stream is pending until its first chunk and streaming from then on |
| StreamProtocol.ClosedByTheLast | core/stream_buffer.py:449-465 | in every run a listed stream has the state, final frame and closing time of the last close that found it, and is live if none did |
| StreamProtocol.SweepListsExpired | core/stream_buffer.py:316-327 | a sweep lists exactly the streams whose last close was before its cutoff |
| StreamProtocol.SweptWasExpired | core/stream_buffer.py:316-327 | over every run: the sweeper holds no stream whose last close, when it was listed, was not before that sweep's cutoff |
| StreamLiveness.SweptGoes | core/stream_buffer.py:316-327 | what the sweeper listed and then takes is gone, its audit due if it was there |
| StreamProtocol.CreatorKeepsIt | core/stream_buffer.py:329-412 | over every run a stream belongs to the token and session it was created for, for as long as it is listed |
| StreamResume.Connection.Resume | handlers/chat_stream.py:965-1155 | the handler writes the replay, the tail, the late chunks and the closing frame, or a prefix of that if the peer leaves |
| StreamResume.ReplayThenTail | handlers/chat_stream.py:965-1064 | a replay of an early snapshot followed by the subscription from where it ended is, chunk for chunk, everything past the client's cursor |
| StreamResume.FramesOfLive | handlers/chat_stream.py:965-1140 | attached while live: the chunks past the cursor and the terminal frame of the final state, nothing twice |
| StreamResume.FramesOfEnded | handlers/chat_stream.py:985-1012 | attached after the end: one snapshot gives the same answer |
| StreamResume.ResumeEqualsOriginal | handlers/chat_stream.py:965-1155 | over every run, a client that attaches to a live stream with its own token and follows it gets everything past its cursor and a real terminal frame; the branch called unreachable is never taken, and an evicted entry reads as missing |
| StreamResume.ResumeOfEvicted | handlers/chat_stream.py:1064-1088 | if the entry is evicted before the closing read, the client has received a prefix of what was past its cursor and is told stream_not_found with the next number |
| StreamResume.OnlyTheOwnerReads | core/stream_registry.py:235-254 | over every run that follows a stream's creation: any other token is told exactly what it would be told of a stream that never was, and the creating token reads all of it exactly while the entry is there |
| StreamResume.NothingLostAtTheCursor | handlers/chat_stream.py:965-983 | chunks up to a cursor followed by chunks past it are the whole reply |
| StreamResume.ClosingNumberMatches | handlers/chat_stream.py:1112-1140 | the resumed terminal frame carries the original's number exactly for cursors below the chunk count |
| StreamRegistry.ObserverOrder | core/stream_registry.py:618-724 | whoever looks between two awaits of a close: told of the end, finds the turn stored; buffer closed, everybody was told; lock free, the buffer is closed; driver gone or audited, the lock is free; each can fail only with its own step |
| StreamRegistry.FreeWhileLive | core/stream_registry.py:662-700 | the session's lock is ever free while its stream is still live, if and only if closing the buffer failed or was cut off |
| StreamRegistry.CloseFreesLock | core/stream_registry.py:688-710 | whatever fails or is cancelled, the lock ends up free and no other is touched |
| StreamRegistry.FailuresAreIsolated | core/stream_registry.py:645-724 | without cancellation a failing step costs the stored turn, the event, the closed buffer or the audit row alone, and those that are there agree on how the stream ended |
| StreamRegistry.Registry.Open | core/stream_registry.py:282-404 | a handle exists only with lock and entry both held; any failure gives the lock back and leaves the buffer alone; a cancellation after the lock was taken leaves it taken, with the entry if it got that far |
| StreamRegistry.Registry.Fetch | core/stream_registry.py:235-254 | a snapshot of the whole entry for the token that owns it, nothing for anybody else |
| StreamRegistry.Registry.Append | core/stream_registry.py:406-421 | numbers are consecutive from 0 and a closed handle refuses |
| StreamRegistry.Registry.CloseSteps | core/stream_registry.py:645-686 | the first three steps up to the first cancellation, each failure swallowed, with what others see in between |
| StreamRegistry.Registry.Close | core/stream_registry.py:618-724 | for every outcome of every step others see exactly the scenes the lemmas above are about; the lock is given back once, under the stream's own id; a second close does nothing |
| RateLimit.RunInvariant | core/ratelimit.py:25-126 | every interleaving of both acquire forms, release and clean-up keeps table, holders and lock owners consistent |
| RateLimit.SingleFlight | core/ratelimit.py:50-126 | each name has at most one holder, every locked lock is the one in the table, a recorded holder holds it |
| RateLimit.RefusedIffHeld | core/ratelimit.py:51-97 | acquiring is refused exactly when somebody holds the name, and a refusal changes nothing |
| RateLimit.ReleaseFreesOwnOnly | core/ratelimit.py:108-126 | the holder's release frees the name and nothing else; anyone else's is a no-op |
| RateLimit.LeavingFrees | core/ratelimit.py:69-76 | leaving the context that holds a lock frees its name and no other, the next one to come gets in, and the clean-up later changes nobody's holding |
| RateLimit.ContextGivesBack | core/ratelimit.py:50-76 | in every run: whoever enters a free name holds it, and once it has left the name can be taken, cleaned up or not |
| RateLimit.ContextRoundTrip | core/ratelimit.py:50-76 | enter, leave and clean-up leave no trace |
| RateLimit.AcquireReleaseRoundTrip | core/ratelimit.py:78-126 | acquire then release leaves no trace |
| RateLimit.NoIdleLocks | core/ratelimit.py:51-76 | once context exits have cleaned up, the table holds exactly the names in use |
| RateLimit.SessionKeyInjective | core/ratelimit.py:10-22 | two (token, session) pairs never share a lock |
| RateLimit.PerTokenConcurrency.AcquireWithId | core/ratelimit.py:78-97 | a non-blocking acquire recorded under the stream id |
| RateLimit.PerTokenConcurrency.Release | core/ratelimit.py:108-126 | the release is a no-op unless the id still holds the name |
| Quota.Conservation | core/quota.py:57-77 | over every run of concurrent reservations the day's count equals committed plus open ones |
| Quota.RefundIsNeverLost | core/quota.py:72-77 | a refund always takes exactly one off: the floor at zero is never what stops it |
| Quota.NeverOverQuota | core/quota.py:57-66 | the count never passes the largest quota asked for that day |
| Quota.SettledForGood | core/quota.py:68-77 | a reservation is charged once or refunded once, whatever is called on it later |
| Quota.CommitSticks | core/quota.py:68-77 | a reservation committed while open is never refunded later in the run |
| Quota.OneUnitEach | core/quota.py:57-77 | reserving below the quota takes one unit of that day and quotes what is left, at the quota none; closing an open reservation gives its own unit back and no other |
| Quota.QuotaReservation.Open | core/quota.py:57-66 | a reservation is refused exactly at the quota and otherwise takes one unit; a storage call that raises takes none and reaches the caller |
| Quota.QuotaReservation.Close | core/quota.py:72-77 | refunds at most once, and never after a commit |
| ChatStream.CloseFailed | core/stream_registry.py:519-616 | the refund comes first, and if it raises nothing else of the close happens |
| ChatStream.Drive | handlers/chat_stream.py:511-562 | the buffer gets every piece of the provider's stream, numbered from 0, whether or not the client is still there; the client gets a prefix, or all |
| ChatStream.PiecesUpToStop | handlers/chat_stream.py:511-562 | the pieces of the provider's stream are those before its first stop, in order, heartbeats left out, and its ending is that stop |
| ChatStream.Decide | handlers/chat_stream.py:562-817 | complete exactly if the provider finished and said something; incomplete exactly if anything but an empty reply stopped it after a chunk; each failure code for its own endings |
| ChatStream.OneOutcome | handlers/chat_stream.py:562-817 | the outcome table gives every ending one outcome |
| ChatStream.TerminalBranch | handlers/chat_stream.py:562-817 | each ending leads to the outcome of that table, committing before a delivering close and refunding on a failed one |
| ChatStream.Conclude | handlers/chat_stream.py:562-854 | the terminal frame is written once, numbered with the chunk count, and a close that raised is retried by the safety net |
| ChatStream.Admit | handlers/chat_stream.py:68-111 | quota and handshake: a stream that does not run is closed under its own code, its driver gone, its unit refunded, its attachments and its lock given back, unless reserving or that refund raised; then entry, driver and lock stay |
| ChatStream.Handle | handlers/chat_stream.py:227-854 | the whole request: which exit when, who holds the session lock afterwards, how the closed entry and the terminal frame read for each outcome, that the day is charged exactly for runs that delivered something (or a refund that failed), that a stream that never ran gives its attachments back and one that ran keeps them |
| ChatStream.LockFreedUnless | handlers/chat_stream.py:85-157 | a request that found its session free leaves it free, exactly unless opening was cancelled, reserving raised, or the handshake was aborted and the refund raised |
| ChatStream.ResumedClosingFrame | handlers/chat_stream.py:985-1012 | reading the closed entry back gives the original terminal frame |
| ChatStream.ResumeCompletesReply | handlers/chat_stream.py:542-561 | a client that has the first k frames of the POST reply and resumes from there ends up with the POST reply, terminal frame included |
| RedisStream.RunInvariant | core/stream_buffer.py:588-598 | in every interleaving of append scripts, close commands, broken pipelines and vanishing keys no chunk follows a tombstone |
| RedisStream.ScriptAnswers | core/stream_buffer.py:588-598 | the script says yes exactly on an open stream, which then holds the chunk; a refusal changes nothing |
| RedisStream.HoldsAcknowledged | core/stream_buffer.py:588-598 | in every run the stream holds exactly the acknowledged chunks, in order, since its key last went |
| RedisStream.EndsAsAsked | core/stream_buffer.py:937-969 | in every run a terminal state, and each tombstone, is one that some close of the run asked for |
| RedisStream.CloseRunsThrough | core/stream_buffer.py:937-969 | a close whose commands all run sets the state and adds the tombstone it was asked for |
| RedisStream.BrokenOff | core/stream_buffer.py:937-969 | a pipeline that broke off sends nothing more and what it sent stays; without its meta hash a stream takes no chunk |
| RedisStream.NeverRevertsToStreaming | core/stream_buffer.py:937-969 | once a terminal state was set the stream is never live again |
| RedisStream.TombstoneHidesNothing | core/stream_buffer.py:895-935 | a reader that stops at the first tombstone has seen every chunk the stream holds |
| RedisStream.SplitAppendBreaks | core/stream_buffer.py:575-587 | reading the state and writing later, as two calls, puts a chunk behind the tombstone |
| History.SplitAtRendered | handlers/conversations_service.py:273-297 | a rendered index splits the stored list so that what renders on either side is the rest of the rendered list |
| History.KeptExactly | handlers/conversations_service.py:273-297 | the index map hits exactly the entries that render, once each, in order |
| History.DeleteCommutes | handlers/conversations_service.py:1248-1252 | deleting through the map commutes with rendering and touches no hidden entry |
| History.TruncateCommutes | handlers/conversations_service.py:1927-1928 | cutting at a rendered entry commutes with rendering and keeps the hidden entries before the cut |
| History.NormalizeConcat | handlers/conversations_overlay.py:140-176 | rendering distributes over appending |
| History.RenderableEntry | handlers/conversations_overlay.py:102-137 | the loops render an entry: role trimmed and lower-cased, text and file ids flattened, everything else dropped |
| History.RenderedRoles | handlers/conversations_overlay.py:102-137 | rendered are exactly the entries whose role is "user" or "assistant" in any capitalisation, with any blanks around it |
| History.PlainContents | handlers/conversations_overlay.py:49-67 | a content that is a string is rendered as it is, just like a single text part; one that is neither string nor list as empty |
| History.MixedContents | handlers/conversations_overlay.py:49-100 | in a list each part adds its own text, whatever its kind, and an image part its file's id unless empty, in place |
| History.NormalizeHistory | handlers/conversations_overlay.py:140-176 | the loop computes the rendered list |
| History.RenderToRawIndices | handlers/conversations_service.py:273-297 | the loop computes the position of every rendered entry |
| Conversations.StoredRenders | handlers/conversations_service.py:378-443 | what is stored for a message renders back as that message, less the files that no longer resolve |
| Conversations.PartsAre | handlers/conversations_service.py:378-436 | stored are the text as a text part, unless it is empty and there is an image, then one image part for each file that resolves, in order |
| Conversations.GenerationMeans | handlers/conversations_service.py:1613-1890 | regenerating announces the generated text without the blanks around it, or the image; a blank text counts as nothing; the stored message is the announced one, or none if the image does not resolve |
| Conversations.RegenerableIff | handlers/conversations_service.py:1750-1784 | regenerating is possible exactly for an answer of the rendered history whose last user message before it has a text or an attachment |
| Conversations.CleanDelete | handlers/conversations_service.py:1232-1324 | without failures a delete takes exactly that rendered entry away, and an index out of range changes nothing |
| Conversations.CleanRegenerate | handlers/conversations_service.py:1738-1948 | without failures a regenerate puts the reply in place of its target and all behind it |
| Conversations.PairInSync | handlers/conversations_service.py:2077-2279 | a turn recorded in one go keeps peers in sync exactly if both halves work and every attachment resolves, or neither did anything |
| Conversations.StreamStartInSync | handlers/conversations_service.py:2318-2452 | announcing the user's message at stream start keeps peers one message ahead exactly if the announcement was written |
| Conversations.StreamCloseInSync | handlers/conversations_service.py:2077-2279 | a stream's close stores the pair and announces only the reply; in sync exactly if both work and attachments resolve |
| Conversations.FailedStreamLeavesGhost | core/stream_registry.py:519-553 | a failed stream leaves the user's message on every peer and not in the history |
| Conversations.DeleteInSync | handlers/conversations_service.py:1232-1324 | deleting by rendered index keeps peers in sync exactly if no write after the first fails |
| Conversations.DeletesDownTruncate | handlers/conversations_service.py:1399-1456 | deletions announced from the last index downwards truncate a peer's list |
| Conversations.FailedGenerationDiverges | handlers/conversations_service.py:1797-1807 | once the history is cut, a generation that fails leaves peers ahead of the server |
| Conversations.CutInSync | handlers/conversations_service.py:1613-1735 | after the cut: in sync exactly if the new message is stored and announced, or missing announcements happen not to matter |
| Conversations.RegenerateInSync | handlers/conversations_service.py:1738-1948 | the exact condition for a regenerate to keep peers in sync |
| Conversations.ClearInSync | handlers/conversations_service.py:1001-1089 | exact condition for a clear, a look-up that raises included |
| Conversations.UnfoundClearDiverges | handlers/conversations_service.py:1021-1028 | a swallowed look-up failure leaves the history and empties every peer |
| Conversations.StepInSync | handlers/conversations_service.py:1001-2452 | for every operation, fault and outcome: in sync afterwards if and only if the operation is on the stated side of the boundary |
| Conversations.Convergence | handlers/conversations_service.py:1001-2452 | over any sequence of such operations, folding the emitted events gives the server's rendered history and the cached count is its length |
| Conversations.FirstBreak | handlers/conversations_service.py:1001-2452 | the first operation outside the boundary does break it |
| Conversations.CatchUp | handlers/conversations_service.py:2507-2596 | a peer that got the log in two parts is where a peer that got it whole is |
| Conversations.HiddenSurvive | handlers/conversations_service.py:1248-1252 | entries clients never see survive every turn and every delete, in order |
| Conversations.RegenerateHides | handlers/conversations_service.py:1903-1948 | regenerating drops the hidden entries behind its target and no others |
| ConversationService.Service.BuildParts | handlers/conversations_service.py:378-436 | text part unless empty, one image part per file that resolves, never nothing |
| ConversationService.Service.RecordChatPair | handlers/conversations_service.py:2077-2137 | the stored half and the announced half run in order and fail independently |
| ConversationService.Service.SyncChatPairEvents | handlers/conversations_service.py:2139-2279 | the row is created or bumped and undeleted, then one batch of events |
| ConversationService.Service.EmitStreamStarted | handlers/conversations_service.py:2318-2452 | row, user message and stream start, never raising |
| ConversationService.Service.EndStream | handlers/conversations_service.py:2454-2505 | the persist and the stream_ended step of a close, under the id the stream started with |
| ConversationService.Service.UpdateMetadata | handlers/conversations_service.py:908-965 | setting or taking off the deletion mark as it runs is the step the theorems are about |
| ConversationService.Service.ResolveTargetRawIndex | handlers/conversations_service.py:1091-1125 | a rendered index is refused exactly when it is out of range |
| ConversationService.Service.DeleteMessageInner | handlers/conversations_service.py:1232-1324 | the deletion as it runs is the step the theorems are about |
| ConversationService.Service.TruncateEvents | handlers/conversations_service.py:1420-1440 | the descending loop names every dropped rendered entry with its own role |
| ConversationService.Service.FindCut | handlers/conversations_service.py:1750-1784 | a regenerate goes ahead exactly for an assistant message with a non-empty user message before it |
| ConversationService.Service.RegenerateStreamInner | handlers/conversations_service.py:1738-1948 | cut, generate, write back, announce, in that order |
| ConversationService.Service.ClearHistoryInner | handlers/conversations_service.py:1001-1089 | the clearing as it runs, with or without a conversation found, is the step the theorems are about |
| SessionMarks.TurnsOpen | handlers/conversations_service.py:2139-2279 | a turn that gets as far as the row creates or undeletes it and counts its messages, and opens with telling peers so |
| SessionMarks.CreationTold | handlers/conversations_service.py:2157-2190 | a session is announced by the turn that makes its row, ahead of its messages, and by nothing else |
| SessionMarks.CreatedOnce | handlers/conversations_service.py:2170-2205 | in no run are peers told twice that a session was created |
| SessionMarks.FlagsTold | handlers/conversations_service.py:2246-2272 | only an answer that was stopped is announced as incomplete |
| SessionMarks.MarkStepAgrees | handlers/conversations_service.py:2216-2245 | peers and server agree on the deletion mark after a step exactly unless its row was written and the event was not |
| SessionMarks.MarksConverge | handlers/conversations_service.py:2216-2245 | over every run in which no such change was hidden, deleting devices and turns on stale tabs included |
| SessionMarks.StreamStepAgrees | handlers/conversations_service.py:2318-2505 | peers show a stream as running only while it runs, and each is ended under its own id, exactly as long as the end of no announced stream is lost |
| SessionMarks.StreamsEndOnce | handlers/conversations_service.py:2318-2505 | the same over whole runs |
| Overlay.ScanLog | handlers/conversations_service.py:481-502 | paging by the last row's number reads the session's rows of the first 5000, none twice |
| Overlay.DropCleared | handlers/conversations_service.py:511-519 | only what follows the session's last clear is kept |
| Overlay.ReadMessages | handlers/conversations_service.py:521-556 | malformed payloads, roles and attachments are skipped one by one |
| Overlay.MalformedSkipped | handlers/conversations_service.py:520-553 | whatever stands around it, a row counts exactly if it announces a message whose payload names a role; any other is skipped alone |
| Overlay.UsableMeans | handlers/conversations_service.py:538-552 | an attachment counts exactly if it has a file id that is not empty |
| Overlay.GreedyMatches | handlers/conversations_service.py:564-596 | matched positions increase, each an event with its message's role and content |
| Overlay.GreedyIsBest | handlers/conversations_service.py:564-596 | no other matching is longer, or ahead anywhere |
| Overlay.GreedyIsLongest | handlers/conversations_service.py:564-596 | the first k messages are matched exactly if they occur among the events in order; so all are, exactly if the history does |
| Overlay.Walk | handlers/conversations_service.py:564-596 | a message is flagged, or given attachments, exactly if its matched event says so |
| Overlay.BuildHistoryOverlay | handlers/conversations_service.py:457-596 | the whole overlay, from the log: justified by this session's events since its last clear and by no others |
| Overlay.LogIsRead | handlers/conversations_service.py:481-556 | what the overlay reads back from the log's rows is what was logged since the last clear |
| Overlay.ReplayEmbeds | handlers/conversations_service.py:508-596 | what a peer shows always occurs in order among the messages logged since the last clear, at the places where it was logged |
| Overlay.OverlayIsComplete | handlers/conversations_service.py:508-596 | while nothing is pruned and peers are in sync, every stored message finds an event |
| Overlay.GreedyIs | handlers/conversations_service.py:564-596 | the walk finds a given matching exactly if no message has a twin between its predecessor's event and its own |
| Overlay.FindsOwnEvents | handlers/conversations_service.py:564-596 | so each shown message finds its own event, if and only if there is no such twin |
| Overlay.NothingLent | handlers/conversations_service.py:574-596 | and then every flag and attachment shown is the message's own |
| Overlay.OverlayIsOwn | handlers/conversations_service.py:574-596 | with twins, exactly if the events found agree with the messages' own |
| Overlay.StoppedThenSameRuns | handlers/conversations_service.py:1738-1948 | stopping a stream and regenerating the same text is a run that keeps peers in sync |
| Overlay.TwinLendsItsFlag | handlers/conversations_service.py:574-590 | after it the second answer, logged as complete, is shown as incomplete |
| EventCursor.PruneDropsPrefix | storage/base.py:496-512 | with times in order, retention drops a prefix, keeps the last row and at most blanks it |
| EventCursor.AppendKeeps | storage/base.py:392-404 | numbers continue without gap from the largest one ever used |
| EventCursor.HistoryIsAppended | storage/base.py:393-410 | in every run the history is what was appended, in order |
| EventCursor.ReadIsSlice | storage/base.py:406-423 | a page is a gap-free slice of the history, starting at the first event still readable |
| EventCursor.ExactIffNoticed | handlers/conversations_service.py:2507-2596 | with all reads from one state a response is too-far or exactly the events up to its cursor, if and only if no loss goes unnoticed |
| EventCursor.TooFarIsJustified | handlers/conversations_service.py:2525-2590 | a client is only told to start over if events are gone or the numbering went back |
| EventCursor.NoMoreMeansCaughtUp | handlers/conversations_service.py:2591-2596 | a page that announces no more leaves the client at the end of the log |
| EventCursor.AnswerShape | handlers/conversations_service.py:2507-2596 | from whichever states the reads are taken: more is announced exactly with a full page, starting over comes without rows and with the maximum just read, and a client is turned away exactly for want of a place to wait |
| EventCursor.MarkerSkipsEvents | storage/base.py:505-512 | whenever everything is pruned, any client behind by at most the threshold is moved past events it never saw |
| EventCursor.PrunedThenPolled | storage/base.py:505-512 | so in any run a prune followed by a poll leaves such a client at the end with nothing |
| EventCursor.ExactAcrossReads | handlers/conversations_service.py:2525-2596 | with any appends and prunes between the four reads a response is exact if and only if it is too-far, or nothing new had been pruned when the page was read, or nothing was new then and nothing was appended until the closing read |
| EventCursor.SeamlessIffNoticed | handlers/conversations_service.py:2525-2596 | read from one state that is the same as no loss going unnoticed |
| EventCursor.ResponsesConcatenate | handlers/conversations_service.py:2507-2596 | over every interleaving of appends, prunes and the single reads of polls, what a client received since it started over is the history between that point and its cursor |
| EventCursor.FirstGap | handlers/conversations_service.py:2507-2596 | and the first reply that is neither too-far nor seamless leaves it with something else |
| DropStore.DeleteRowsKeeps | core/file_lifecycle.py:200-219 | once the objects are gone rows may go; a visible message suffers exactly if one of the files is in visible use |
| DropStore.LastReferenceIsListed | core/prune_orchestrator.py:316-391 | however stale the listing: if the listed message's file has a row and one reference, that reference is the listed, soft-deleted message |
| DropTrace.ReleaseKeeps | core/file_lifecycle.py:128-219 | at every step of a release each object is named by a row; visible files keep their rows exactly unless a released one is in visible use, and then it is the last call that takes it |
| DropTrace.SendKeeps | handlers/drop.py:578-745 | the same for the rows of a whole send: one is lost exactly in the hazard, with the last call |
| DropTrace.FirstIdsLaws | handlers/drop.py:549-571 | attachments count once each, in the order first named |
| DropTrace.SentArrives | handlers/drop.py:624-686 | a send that goes through has added its text as one message, then one message for each file, showing that file; the files are committed, and nothing else has changed |
| DropTrace.SendArrives | handlers/drop.py:578-686 | the same of the states it passes through |
| DropTrace.PurgeKeeps | core/prune_orchestrator.py:316-391 | retention costs no visible message its file's row, however old its listing |
| DropTrace.StepsKeep | handlers/drop.py:486-1352 | every request and prune block, from any sound state: all its states are sound, and a visible message's file loses its row exactly in the hazard |
| DropTrace.ReferencedKeepRows | core/prune_orchestrator.py:224-391 | no file loses its row while another message, deleted or not, refers to it, unless everything is cleared or a commit fails |
| DropObjects.EraseSpares | core/file_lifecycle.py:176-199 | the first so many deletions of a release spare what is needed, exactly if none of them is of an object that is there and needed |
| DropObjects.StepsSpare | handlers/drop.py:486-1352 | every request and prune block, up to any of its calls: no object of a file leaves that any message, deleted or not, refers to (the one being purged apart), if and only if the block is not a send whose commit fails, or a clear, that has by then erased one |
| DropObjects.ResendErases | handlers/drop.py:601-621 | outside the hazard too: the shown file's bytes go, its row and the message stay |
| DropObjects.ClearErases | handlers/drop.py:1174-1242 | a clear that cannot finish keeps every message and row and has deleted the objects it could |
| DropRuns.RunIsAnchored | core/file_lifecycle.py:128-219 | over every run, with any call failing and the process dying after any call: at every moment each object is named by a row |
| DropRuns.DiesAfterAnyCall | core/prune_orchestrator.py:148-391 | a block cut off leaves exactly the calls made so far, whichever number, and forgets what was left of a pass |
| DropRuns.RunKeepsVisible | handlers/drop.py:601-621 | and every visible file message has its file's row at every moment, if and only if no send met the hazard in the state it found and got to its last call |
| DropRuns.RunSparesObjects | core/prune_orchestrator.py:224-391 | and at no moment an object leaves whose file a visible message shows or several messages refer to, if and only if no block was a send whose commit failed, or a clear, that erased one before it ended or was cut off |
| DropRuns.BlockSpares | core/prune_orchestrator.py:224-391 | in each block of a run, cut off or not, the same for every reference but that of the message being purged |
| DropRuns.ResendLeavesHollow | handlers/drop.py:601-621 | upload, send, and a second send whose commit fails: a message with a row and no bytes |
| DropRuns.ClearLeavesHollow | handlers/drop.py:1174-1242 | upload, send, and a clear whose transaction fails: the same |
| DropTrace.ClearEffect | handlers/drop.py:1174-1242 | a clear empties everything exactly if every object can be deleted and the transaction works; otherwise it costs no row and no message |
| DropTrace.UploadEffect | handlers/drop.py:917-985 | what an upload leaves, for each call that may fail |
| DropTrace.DeleteEffect | handlers/drop.py:1094-1160 | a deletion hides one visible message and does nothing else |
| DropTrace.DiscardEffect | handlers/drop.py:1272-1352 | a file goes exactly if it is known that no message, deleted or not, refers to it and both deletions work |
| DropTrace.RequestsDo | handlers/drop.py:486-1352 | each request, if its calls work, does what it is for |
| DropTrace.RollbackKeeps | handlers/drop.py:687-738 | only this send's rows are taken back, and a file, row or object, goes only if it is then known that nobody refers to it |
| DropTrace.PurgeEffect | core/prune_orchestrator.py:316-391 | one retention block: no visible message touched; a row or an object goes only with its file's last, listed reference, and not if the count is unknown; the message goes only after such a file; if every call works both are gone; a look-up that raises gives up the pass |
| DropTrace.ExpiredGoes | core/prune_orchestrator.py:316-391 | a deleted message that is listed and visited goes, and its file with it if nothing else refers to it |
| DropTrace.PruneEffect | core/prune_orchestrator.py:224-242 | one orphan block: a row or an object goes only if, re-counted under the gate, nothing refers to its file, and does if every call works |
| DropTrace.OrphanGoes | core/prune_orchestrator.py:208-242 | an orphan that is listed and visited goes, row and object, if every call works |
| DropTrace.ShownSurvivesPasses | core/prune_orchestrator.py:224-391 | no prune block takes a file that a visible message shows, nor its object |
| DropTrace.ResendHazard | handlers/drop.py:610-621 | sending an already shown file again with the commit failing takes its file away |
| DropTrace.FirstSendIsSafe | handlers/drop.py:610-621 | files only this send uses cannot meet the hazard |
| DropService.Drop.ReleaseFilesSafely | core/file_lifecycle.py:128-219 | objects first, rows only of those deleted, duplicates once; the count is of files entirely gone |
| DropService.Drop.UploadDrop | handlers/drop.py:917-985 | row before object, call by call; a failed save takes its row along |
| DropService.Drop.DeleteDrop | handlers/drop.py:1094-1160 | only a visible message is deleted, softly, and announced once |
| DropService.Drop.ClearDrop | handlers/drop.py:1174-1242 | all objects, then both tables at once; the answer says which of the two failed |
| DropService.Drop.DiscardDropFile | handlers/drop.py:1272-1352 | says discarded exactly if the file was unreferenced, known to be so, and went |
| DropService.Drop.CommitOrRelease | core/file_lifecycle.py:37-125 | marks all files committed, or releases them without asking who else uses them |
| DropService.Drop.AppendParts | handlers/drop.py:627-686 | rows appended up to the call that raised, their ids consecutive |
| DropService.Drop.SendDrop | handlers/drop.py:578-745 | when exactly a send goes through; that it then leaves its text as one message and each file as one message showing it, in the order first named, and announces them; nothing announced otherwise; earlier messages untouched by a rollback |
| DropService.Drop.PurgeNext | core/prune_orchestrator.py:316-391 | the retention block as it runs passes through the states its lemmas are about |
| DropService.Drop.PruneNext | core/prune_orchestrator.py:224-242 | the orphan block as it runs does too |
| DropService.Drop.Serve | handlers/drop.py:486-1352 | any request or block adds exactly its states to the history, and its events to the log |
| DropService.Run | core/prune_orchestrator.py:148-391 | a run of the object passes through exactly the states of its trace and announces exactly its events |
| DropPeers.BlockTold | handlers/drop.py:486-1352 | after each request and prune block a peer that heard every event shows what there is to see, if and only if the block is not a send that broke off and could not take back one of its rows |
| DropPeers.PeersConverge | handlers/drop.py:486-1352 | over every run without such a send a peer that heard every event shows exactly the visible messages |
| DropPeers.FirstUntold | handlers/drop.py:687-706 | the first such send leaves peers behind |
| DropPeers.TextStaysUntold | handlers/drop.py:687-706 | the shortest run: a text that is there and of which nobody was told |
| DataPrune.Store.RunDataPrune | core/prune_orchestrator.py:148-256 | a session whose history could not be cleared keeps row, files and objects; of any other, each candidate whose object can be deleted loses it, and its row with it, and nothing else goes; a session row goes exactly when old enough and nothing is left to retry; a history is cleared before its row goes if the listing reached it |
| DataPrune.Store.ReleaseFiles | core/prune_orchestrator.py:208-223 | every object left is still named by a row; whatever could be deleted is gone |
| DataPrune.ListingIsPrefix | storage/base.py:557-573 | the listing names the rows deleted before the cutoff, the first 500 of them |
| DataPrune.ClearedBeforePurged | storage/base.py:557-573 | with at most as many expired sessions as one query returns, every row that goes had its history cleared |
| DataPrune.BeyondTheLimit | storage/base.py:557-573 | with more, some session is out of reach and loses its row uncleared as soon as it has no files |
| AsyncLock.AcquireInv | core/file_store.py:376-381 | a lock is taken at once exactly if it is free and every waiter has given up; others queue in the order they came |
| AsyncLock.CancelInv | core/file_store.py:376-381 | a cancelled waiter will run and leaves without the lock; nobody else is touched |
| AsyncLock.ResumeInv | core/file_store.py:376-381 | a woken waiter takes a lock nobody holds; one that gave up passes the wakeup on |
| KeyLocks.RunInvariant | core/file_store.py:352-418 | every interleaving of enter, wait, cancel, leave, delayed decrement and prune keeps counts, table and locks consistent |
| KeyLocks.OneLockPerKey | core/file_store.py:352-381 | everybody using a key shares one lock object, the one a later comer will find |
| KeyLocks.MutualExclusion | core/file_store.py:352-381 | at most one task is inside per key |
| KeyLocks.CountIsUsers | core/file_store.py:383-396 | the count is the number of tasks waiting, inside or yet to decrement |
| KeyLocks.PruneDropsExactlyIdle | core/file_store.py:398-418 | a prune leaves exactly the keys in use |
| KeyLocks.WaitersAreWoken | core/file_store.py:352-381 | nobody waits on a lock nobody holds without somebody being about to run |
| KeyLocks.EntersAlone | core/file_store.py:352-381 | in every run whoever comes for a key nobody uses is inside at once |
| KeyLocks.WaiterRuns | core/file_store.py:352-381 | a woken waiter gets in when it runs; a cancelled one leaves without having been inside |
| KeyLocks.LeavesForGood | core/file_store.py:375-396 | whoever is inside leaves the lock free, and is gone with its decrement |
| KeyLocks.KeyLockTable.PruneIdleKeyLocks | core/file_store.py:398-418 | the loops drop the idle entries and count them |
| KeyLocks.KeyLockTable.ReleaseSerializeKey | core/file_store.py:383-396 | the last decrement removes the count, not the lock |
| UploadGate.QuietRunsExclude | core/ratelimit.py:154-181 | as long as nobody leaves with a live waiter behind, at most one upload per token is inside |
| UploadGate.NoisyLeaveBreaks | core/ratelimit.py:168-181 | whenever somebody does, a newcomer and a waiter end up inside together |
| UploadGate.ThreeUploads | core/ratelimit.py:154-181 | the shortest such run: enter, queue, leave, enter, resume |
| UploadGate.LeaveEvicts | core/ratelimit.py:168-181 | leaving frees the lock and drops it from the table if it is still the token's own, and touches no other entry |
| UploadGate.WaiterRuns | core/ratelimit.py:153-181 | a woken waiter is inside once it runs; a cancelled one is gone without having been inside |
| UploadGate.PerTokenUploadGate.EnterGate | core/ratelimit.py:153-168 | entry as it runs is the step the theorems are about |
| UploadGate.PerTokenUploadGate.LeaveGate | core/ratelimit.py:168-181 | exit as it runs, with the eviction test read from the lock just released, is that step too: the test never keeps an entry |
| LogRing.PageThenRest | core/log_buffer.py:128-172 | a page, then what is wanted from its cursor on, is everything wanted |
| LogRing.PageIsUpToCursor | core/log_buffer.py:150-172 | a page holds exactly the matching entries between the two cursors; the new cursor is the last id of a full page, else the newest id seen |
| LogRing.DrainIsComplete | core/log_buffer.py:128-172 | paging a ring that stands still ends, for every page size, with every matching entry once, in order |
| LogRing.PagingIsExact | core/log_buffer.py:107-172 | in every interleaving of emitted records and polls, for a reader coming with any cursor: received entries are in order, without repeats, all matching, and no matching entry the cursor passed is missing from them while the ring holds it |
| LogRing.RingIsNewest | core/log_buffer.py:82-112 | in every run the ring holds the last entries logged, as many as it can, each numbered by its place among all records emitted |
| LogRing.MatchMeans | core/log_buffer.py:128-172 | an entry matches if its level is at least the one asked for, should that be a level, and its message contains the text asked for in any capitalisation |
| LogRing.Levels | core/log_buffer.py:206-210 | the five levels in their order, written in any capitalisation; any other name has none |
| LogBuffer.Buffer.Append | core/log_buffer.py:107-112 | a full ring loses its oldest entry |
| LogBuffer.Buffer.Emit | core/log_buffer.py:264-304 | minting and appending is one step of the run, and an exception in between costs only the id |
| LogBuffer.Buffer.Snapshot | core/log_buffer.py:128-172 | the loop computes the page and the cursor: the last id of a full page, else the newest id seen |
| CacheTrim.Trim | core/file_store.py:598-646 | files are looked at oldest first, until the accounted total fits |
| CacheTrim.OldestGoFirst | core/file_store.py:625-646 | the protected file is never removed, and nothing removable that stays is older than anything removed |
| CacheTrim.NoneTooMany | core/file_store.py:631-641 | without the last file removed the total still did not fit |
| CacheTrim.FitsUnlessProtected | core/file_store.py:625-646 | if every unlink works, what is left fits or is nothing but the protected file |
| CacheTrim.AccountedTotal | core/file_store.py:639-646 | the accounted total exceeds what is left by exactly the files others removed meanwhile |
| PreviewCache.RunInvariant | core/image_preview.py:69-97 | however two readers interleave: the counter is the sum of what is cached, never above the cap, and every preview cached or served is that key's own |
| PreviewCache.ShrinkLaws | core/image_preview.py:91-93 | eviction ends with room enough, oldest first, not one more than needed |
| PreviewCache.TouchMeans | core/image_preview.py:71-74 | a look-up finds what is cached under the key and makes it the youngest, the others in their order; a miss changes nothing |
| PreviewCache.PutMeans | core/image_preview.py:86-96 | a preview that fits is cached as the youngest in place of its key's old one, and of the others just as many of the oldest go as it takes; one that does not fit changes nothing |
| PreviewCache.CachedIsServed | core/image_preview.py:69-97 | in every run a preview that fits is served from the cache to whoever asks next |
| PreviewCache.MissIsRendered | core/image_preview.py:69-97 | in every run a miss that finds a place is fetched, rendered and served; if the content is gone nothing is left of it |
| PreviewCache.ImagePreviewCache.Lookup | core/image_preview.py:71-74 | a hit is returned and becomes the youngest |
| PreviewCache.ImagePreviewCache.Store | core/image_preview.py:86-96 | replaces what another reader stored meanwhile, and keeps the counter right |

## Left out

- HTTP: requests, responses, headers, SSE byte framing, CORS, origin and bearer gates, audit texts, JSON and base64.
- The storage backends, Redis, R2, Pillow, the language and image providers and the conversation store are atomic calls that work or fail; their own code is not modelled. Outside the close pipeline a call that fails has had no effect.
- Entries of the in-memory buffer are values held by the buffer object: they never leave its lock, so aliasing of an entry is not modelled. An asyncio.Event is an identity and a set of those set.
- ChatStream.Handle: a request runs alone here, without cancellation inside the close pipeline; how its appends and its close interleave with others is the subject of StreamProtocol, and cancellations inside the close pipeline that of StreamRegistry. Cancellation at the two awaits outside the guarded blocks (handlers/chat_stream.py:297 and :484) is excluded, as is one that reaches `close_failed` before its pipeline, in its refund or its file release.
- Stream ids, file ids and message ids are taken to be fresh: they are random or auto-incremented.
- The Redis buffer's own subscribe loop, caps, indexes and sweeper: an empty range on a live stream ends that loop, so the subscriber theorem does not apply to it.
- Conversations.Step: one session at a time; sessions have separate locks and stored histories and their events name them.
- Peers' de-duplication of their own messages (a 60-second window over the last four entries in the browser client) and their sidebar, titles and previews.
- Import and export of conversations; titles and pins; of a session's metadata only the deletion mark and the message count are modelled.
- History.RenderableEntry: roles are folded and stripped over ASCII case and blanks only, here and in History.RenderedRoles; Python does so over all of Unicode. The same holds for the log's grep.
- Overlay.ScanLog: all pages come from one state of the log; an append or prune between two pages is not modelled.
- EventCursor.ResponsesConcatenate: takes event times to be non-decreasing, as a clock set back would let retention drop a row in the middle; a poll turned away by the waiter cap gets nothing and is not a step.
- The event bus's wakeups are a pause of arbitrary length, as their loss is allowed.
- Drop requests and prune blocks are taken to exclude each other, as the upload gate is meant to do; UploadGate says when it does. Quota of bytes, MIME and extension checks, the cap on attachments of one send, imported messages and serving of files are left out; so is the page query of old messages.
- DropService.Run: requests run to their end here; processes dying in the middle of one are in the runs of DropRuns. Lookups that fail before a Drop request has done anything are modelled for sends only; elsewhere they end the request unchanged, as does a query answer that could not be one.
- DataPrune.Store.RunDataPrune: chat files of a pass are released without interleaving requests, and objects are taken to be named by rows at its start, which a generated image being saved is not for a moment.
- ConversationService.Service.UpdateMetadata: the row and its event are one step, although setting a mark does not wait for the session's lock and a turn may come between the two.
- The registry's task table (`cancel`, `cancel_all_drivers`) is a map of ids; cancelling tasks is not modelled.
- The log ring is fed by one handler (main.py:151-152), whose own lock makes minting an id and appending its entry one step; its wait for new entries is a latency aid; logging levels an application defines itself count as 0 here.
- CacheTrim.Trim: the sort is a stable sort by age and the directory scan a list; resolving links in paths is not modelled.
- Image rendering is a function of the key's content; failures to decode are its None.
- Configuration clamping, admin pages, site settings, image sizes and the browser client: no protocol or lifecycle of their own.
