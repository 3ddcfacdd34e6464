# Choreographr protocols, modelled and proved in Dafny

The Choreographr daemon and its clients are built from small concurrent and
stateful protocols. This project models them and proves, for every input, every
interleaving or every run, what they are meant to keep. `dafny verify
dfyconfig.toml` checks all of it.

| files | what they model |
|---|---|
| `Broadcast.dfy`, `Writers.dfy`, `Overshoot.dfy`, `FanOut.dfy` | lossless broadcast with byte accounting: every atomic operation is one step, over any number of producers, clients and writer threads; when a writer stops and what its exit leaves; how far a counter can pass its cap; and the enqueue and fan-out calls as one thread runs them |
| `Acp.dfy`, `AcpLaws.dfy`, `AcpHistory.dfy`, `AcpStory.dfy`, `AcpTables.dfy`, `AcpLoop.dfy` | the ACP bridge event loop: editor requests, daemon messages, disconnect, and the output they produce |
| `Sse.dfy` | the SSE reader thread and its consumer over a bounded channel with abort, cancel and deadline |
| `Retry.dfy` | the provider retry loop, its backoff and its Retry-After gate |
| `CatalogPacing.dfy`, `CatalogCache.dfy`, `CatalogThread.dfy` | catalog refresh: pacing across crashes and two clocks, cache and etag on disk, and what the thread tells the daemon |
| `CappedText.dfy`, `TurnView.dfy` | the client's live view of a turn: the capped accumulator and events that arrive out of order |
| `KnownServers.dfy`, `AutoBind.dfy` | the trust store and the automatic bind of a fresh daemon's keystore |
| `Wire.dfy`, `Numerals.dfy`, `Item.dfy`, `ItemCodec.dfy` | the protobuf item format, digests and CIDs, and the item codec |
| `Mipmap.dfy` | the plan of the mipmap pyramid, f32 rounding included |
| `Sums.dfy`, `Counts.dfy`, `Options.dfy`, `Arithmetic.dfy`, `Sequences.dfy`, `Utf8.dfy` | shared vocabulary |

The shape is the same throughout: a step function on values, laws about every run
of it, and, where the source updates fields in place, a class whose methods are
proved to perform exactly that step.

## Findings

Where a documented property does not hold of the code, the code is modelled as it
is; a lemma gives a run or an input that breaks the property and another says
exactly when it holds.

- `choreo-daemon/src/broadcast.rs:27-31` bounds the overshoot of a cap by one
  message. Nothing in `enqueue` enforces it: for every cap and every excess a single
  producer passes the cap by more (`Overshoot.OvershootIsUnbounded`). If every
  producer stops after its own `ClientOverLag` until the counter is back under the
  cap, the excess is at most one message per producer
  (`Overshoot.OvershootIsOneMessagePerProducer`), and k messages are a bound if and
  only if there are at most k producers (`Overshoot.OvershootBoundIsProducerCount`).
- A second synchronous ACP request of the same kind overwrites the first
  (`choreo-acp/src/pending.rs:109-112`), which is then never answered:
  `AcpHistory.SecondListDisplacesTheFirst` is such a run, and
  `AcpHistory.DisconnectAnswersExactly` says from the events which ids it happens to.
- The attempt time is truncated to milliseconds, so a real gap can fall short of 25
  hours by less than a millisecond: `CatalogPacing.StartupCanFallShort`,
  `CatalogPacing.StartupTimerCanFallShort`. Of the background attempts, exactly those
  of a timer armed by a fetch in the same process always keep the full 25 hours:
  `CatalogPacing.FullGapExactly`.
- The comments on the catalog cache (`choreo-daemon/src/catalog.rs:201-203`,
  `choreo-daemon/src/daemon.rs:1787-1790`) say that a crash between its two writes
  leaves the old etag with the old file. The file is written first, so it leaves the
  old etag with the file just written (`CatalogCache.CrashLeavesOldEtagNewCache`);
  the pair is the old one if and only if that version was on disk already
  (`CatalogCache.CrashLeavesOldPairExactly`). The self-healing they promise holds: the
  next unforced fetch is answered 304 if and only if the old etag names the server's
  version (`CatalogCache.RestartRevalidatesExactly`), and either way file and etag end
  up together at the server's version (`CatalogCache.CrashHeals`).
- A start event that arrives before the first chunk of its tool call can read
  differently from one that arrives later (`TurnView.NamelessSeedShows`,
  `TurnView.StaleDescriptionShows`), exactly when the seeded call record has no name
  or an older description is still stashed: `TurnView.ArrivalOrderConverges`, and
  with other events in between `TurnView.InterleavedArrivalConverges`. An authoritative
  replacement of the turn in mid-call makes everything before it irrelevant:
  `TurnView.ReplacementIsFreshStart`.
- Re-recording the bind key when the `Bound` confirmation arrives truncates and
  rewrites a file that already holds the key, so a torn write there loses it:
  `AutoBind.ReRecordCanLoseTheKey`. Stopping right after a later table's header loses
  every entry before it too: `KnownServers.HeaderCutLosesEarlierKey`. A load that
  fails to read counts as an empty store, so the next successful write drops every
  other daemon's pin and key: `AutoBind.UnreadableLoadWipes`. For either field of any
  address, with any failures, `AutoBind.FieldKeptExactly` says exactly when a run
  leaves it alone.
- For sides of 2^24 and above, level 0 of the pyramid need not be the original size
  (`Mipmap.LevelZeroCanShrink`); `Mipmap.LevelZeroIsOriginal` says exactly when it is.

## Model

| member | source | states |
|---|---|---|
| Broadcast.CountersAreConserved | choreo-daemon/src/broadcast.rs:96-128 | In every interleaving the daemon-wide counter is the queued bytes plus what writers and producers hold mid-step plus the exit-window stragglers; each client's counter satisfies the same equation. |
| Broadcast.NoSubtractionUnderflows | choreo-daemon/src/broadcast.rs:112-128 | No `fetch_sub` of either counter, by a producer undoing a send or by a writer, ever takes it below zero. |
| Broadcast.QuiescentHoldsOnlyStragglers | choreo-daemon/src/broadcast.rs:33-53 | When nothing is in progress both kinds of counter hold straggler bytes and nothing else. |
| Broadcast.DeliveryIsFifoExactlyOnce | choreo-daemon/src/broadcast.rs:130-173 | Until a client's writer stops, what it wrote, what it holds and what is queued are together the accepted sends, in send order and once each; afterwards what it wrote is still a prefix of them. |
| Broadcast.AcceptedIsWhatWasSent | choreo-daemon/src/broadcast.rs:112-128 | The accepted history of a client is exactly the successful sends of the run, in order. |
| Broadcast.OverLagIsNeverSilent | choreo-daemon/src/broadcast.rs:136-158 | If all producers for a live client use `enqueue` and its counter is above the cap, an `enqueue` has returned `ClientOverLag` since it was last at or below the cap, or one has read the value above the cap and has only its send left to do. |
| Overshoot.OvershootIsUnbounded | choreo-daemon/src/broadcast.rs:27-31 | For every cap and every excess some run of one producer through `enqueue` alone, with messages of one byte and a live client, passes the cap by more than the excess. |
| Overshoot.OvershootIsOneMessagePerProducer | choreo-daemon/src/broadcast.rs:136-158 | In every interleaving, if no producer starts a message for a client after its own `ClientOverLag` while the counter is still above the cap, the counter passes the cap by at most the sum of one message per producer. |
| Overshoot.OvershootBoundIsProducerCount | choreo-daemon/src/broadcast.rs:27-31 | Among such runs with messages of at most a given size, k messages bound the overshoot if and only if there are at most k producers; the documented one message is the case of one producer. |
| Overshoot.ExcessIsAdded | choreo-daemon/src/broadcast.rs:112-128 | Above the cap, the excess is at most what the producers added, less what they undid, since the counter crossed it. |
| Overshoot.DisciplinedIsModest | choreo-daemon/src/broadcast.rs:136-158 | A producer that stops when told has, wherever it stands, at most one message of its own above the cap. |
| Broadcast.RunKeepsInv | choreo-daemon/src/broadcast.rs:33-53 | Every reachable state of every interleaving keeps byte conservation and FIFO order together. |
| Broadcast.ProducerStepBalanced | choreo-daemon/src/broadcast.rs:112-128 | Each atomic step of a producer, undo included, keeps both conservation equations. |
| Broadcast.WriterStepBalanced | choreo-daemon/src/server/connection.rs:106-159 | Each atomic step of a writer thread, its closing drain included, keeps both conservation equations. |
| Writers.NothingFollowsAStop | choreo-daemon/src/server/connection.rs:112-131 | In every run `Evicted` or `ShuttingDown` is the last message a client's writer puts on its socket, and it ends the writing. |
| Writers.StoppedWriterNeverWrites | choreo-daemon/src/server/connection.rs:112-159 | Once a writer has stopped it writes nothing more: what is queued behind is drained or stray. |
| Writers.WriterStopsForAReason | choreo-daemon/src/server/connection.rs:112-131 | A writer goes on unless it wrote a stopping message, a write failed or all its senders hung up: an ordinary message never stops it. |
| Writers.StragglersAreFromTheWindow | choreo-daemon/src/server/connection.rs:132-159 | What an exit leaves behind is exactly what was sent between the last drain pass and the drop of the receiver. |
| Writers.TotalIsAsAdded | choreo-daemon/src/broadcast.rs:112-128 | The total a producer compares with the budget is the daemon-wide counter as its own add left it. |
| Writers.EnqueueReturnsExactly | choreo-daemon/src/broadcast.rs:136-158 | Between interleaved steps too, each of the four results is returned exactly under its own condition. |
| FanOut.SubscriberSink.SendAccounted | choreo-daemon/src/broadcast.rs:112-128 | A send to a live receiver counts on both counters and queues; on a dead one both counters are restored exactly. |
| FanOut.SubscriberSink.Enqueue | choreo-daemon/src/broadcast.rs:136-158 | The message is queued whenever the receiver is alive, whatever the limits; each outcome is returned exactly under its own condition. |
| FanOut.SubscriberSink.SendUnchecked | choreo-daemon/src/broadcast.rs:170-173 | Delivers and counts like `enqueue` and never reports a limit. |
| FanOut.FanOutEvicting | choreo-daemon/src/broadcast.rs:193-220 | The retain loop leaves the sinks, the total, the kept map and the eviction results that the fan-out specification gives for its iteration order. |
| FanOut.FanOutDeliversToAll | choreo-daemon/src/broadcast.rs:193-220 | Every live subscriber not skipped gets the message and its bytes, no other changes, and the total grows by one size per receiver. |
| FanOut.FanOutDropsTheDead | choreo-daemon/src/broadcast.rs:193-220 | The map keeps exactly the skipped and the live. |
| FanOut.EvictListIsExact | choreo-daemon/src/broadcast.rs:193-220 | For every iteration order the evict list is duplicate-free and names exactly the delivered clients above their cap. |
| FanOut.OverBudgetIsNeverSilent | choreo-daemon/src/broadcast.rs:193-220 | A fan-out that delivers to someone and ends above the budget names a client or asks for the largest, and asks for the largest only above the budget. |
| FanOut.LargestIsExact | choreo-daemon/src/broadcast.rs:193-220 | The largest client is asked for exactly when some delivery within its own cap left the running total above the budget. |
| AcpLaws.RequestsAreConserved | choreo-acp/src/acp_handler.rs:28-126 | For every run and id: answered, waiting in a table or displaced, in all exactly as often as it was received; at most that often once a send to the daemon has failed. |
| AcpLaws.AnsweredAtMostOnce | choreo-acp/src/acp_handler.rs:28-126 | With distinct non-zero editor ids no id is answered twice, and none that was not received. |
| AcpLaws.EachIdInOnePlace | choreo-acp/src/pending.rs:87-164 | With distinct non-zero ids each received id is at every moment in exactly one of: answered, sync, prompts, models pending, displaced. |
| AcpLaws.DisconnectAnswersEveryone | choreo-acp/src/acp_handler.rs:91-119 | After a daemon disconnect each received id is answered exactly once, or not at all if it is recorded as displaced. |
| AcpHistory.DisplacedExactly | choreo-acp/src/pending.rs:109-112 | An id is displaced if and only if, at some point of the run, it waits under a kind and the next event parks another request under that kind; a model list filling the create-session slot counts. |
| AcpHistory.DisconnectAnswersExactly | choreo-acp/src/acp_handler.rs:91-119 | Told from the events alone: after a disconnect each received id is answered once, except exactly those displaced that way, which are never answered. |
| AcpHistory.SecondListDisplacesTheFirst | choreo-acp/src/acp_handler.rs:318-327 | Initialize, two session lists and a disconnect leave the first list unanswered. |
| AcpHistory.StepDisplaces | choreo-acp/src/pending.rs:109-112 | One turn of the loop displaces exactly the request whose slot it parks another in. |
| AcpStory.AnswersHaveReasons | choreo-acp/src/acp_handler.rs:142-558 | In every run an answer, with its code, is in the output if and only if some event gave it for its listed reason: refused at once, settled by the daemon's message, finished streaming, lost with the daemon, or a stray before initialization. |
| AcpStory.StepGives | choreo-acp/src/acp_handler.rs:142-931 | One turn adds exactly the answers its event gives. |
| AcpStory.UpdatesHaveReasons | choreo-acp/src/acp_handler.rs:623-722 | In every run an update is in the output if and only if a streaming message of a tracked prompt showed it. |
| AcpStory.StreamWrites | choreo-acp/src/streaming.rs:27-203 | A streaming message writes its event's updates in order to the prompt's session, then, if it is the last, the answer. |
| AcpStory.SessionLivesExactly | choreo-acp/src/acp_handler.rs:802-830 | In every run a session is in the manager if and only if a `SessionCreated` arrived for it while a session/new waited and no close or confirmed delete of it came since; its number is that creation's and its daemon id the message's. |
| AcpStory.ReverseMapExactly | choreo-acp/src/sessions.rs:67-127 | A living session is found under its daemon id if and only if, since it was created, no other was created under that id and none that carried it was removed. |
| AcpStory.StepMoves | choreo-acp/src/sessions.rs:67-127 | One turn adds and removes exactly the sessions its event creates and removes. |
| AcpTables.PromptIsAccepted | choreo-acp/src/acp_handler.rs:502-558 | A prompt on an idle known session with the daemon reachable is tracked under its own id and the next request id, and sets the guard. |
| AcpTables.PromptTrackedExactly | choreo-acp/src/pending.rs:126-159 | In every running run a prompt is tracked if and only if an event started it and it has not finished since. |
| AcpTables.WaitsExactly | choreo-acp/src/pending.rs:109-124 | In every running run a request waits under a kind if and only if an event parked it there and none has settled that kind or parked another since. |
| AcpTables.StepControl | choreo-acp/src/acp_handler.rs:28-126 | Initialization, the slot for the model list, and when the loop stops or breaks off, turn by turn. |
| AcpTables.StepConfig | choreo-acp/src/acp_handler.rs:396-486 | A parked setting remembers its session until it is settled. |
| AcpTables.StepSettings | choreo-acp/src/acp_handler.rs:760-931 | A session's model and effort are those last confirmed for it; a new one has neither. |
| AcpLaws.GuardMatchesPrompt | choreo-acp/src/acp_handler.rs:502-558 | For every session in the manager the active request is Some(r) exactly when its tracked prompt carries r. |
| AcpLaws.RequestIdsCollideExactlyOnWrap | choreo-acp/src/sessions.rs:129-133 | Two tracked prompts share a wrapping request id exactly when they were issued a multiple of 2^32 apart. |
| AcpLaws.StreamReachesItsPrompt | choreo-acp/src/pending.rs:146-150 | While no live prompt is 2^32 ids old, the lookup by request id finds the one prompt that carries it, in any map order. |
| AcpHistory.TrackedPromptWasStarted | choreo-acp/src/acp_handler.rs:502-558 | Every tracked prompt was started by an event of the run, under the editor id, session and request id it carries. |
| AcpHistory.StreamGoesToItsIssuer | choreo-acp/src/acp_handler.rs:623-722 | In every run each update and each answer a streaming message produces goes to the editor request and session that was last issued the message's request id, while no live prompt is 2^32 ids old. |
| AcpLaws.OutputIsUpdatesThenOneAnswer | choreo-acp/src/acp_handler.rs:623-754 | With distinct non-zero ids the output for each request is a run of updates, all for one session, then at most one answer, then nothing. |
| AcpLaws.TrackedPromptStreamsToItsSession | choreo-acp/src/acp_handler.rs:623-722 | Everything streamed under a tracked prompt's id went to its own session. |
| AcpLaws.RunCoherent | choreo-acp/src/sessions.rs:65-161 | Every run keeps sessions, prompts, the two-way map and the wrapping counter in agreement. |
| AcpLaws.StepAccounted | choreo-acp/src/acp_handler.rs:28-166 | One turn of the loop, whatever the event, keeps every request id accounted for. |
| AcpLoop.Bridge.RunEventLoop | choreo-acp/src/acp_handler.rs:28-126 | The loop over the mutable tables ends in the state of the specified run; with distinct non-zero ids its own output answers no id twice and none unasked, shows updates for one session and then nothing after the answer, and on a disconnect answers every received id but exactly the displaced ones. |
| AcpLoop.Bridge.OnRequest | choreo-acp/src/acp_handler.rs:142-166 | Dispatching a request performs exactly the specified step of its method, error answers included. |
| AcpLoop.Bridge.OnPrompt | choreo-acp/src/acp_handler.rs:502-558 | A prompt spends a request id, is refused on a busy or unknown session, and otherwise sets the guard and the table entry together. |
| AcpLoop.Bridge.SetConfigOption | choreo-acp/src/acp_handler.rs:396-500 | Each config option is answered at once or parked with its session, as specified. |
| AcpLoop.Bridge.OnStream | choreo-acp/src/acp_handler.rs:623-722 | A streaming message writes its updates and, when terminal, one answer and the cleanup. |
| AcpLoop.Bridge.OnDaemonMessage | choreo-acp/src/acp_handler.rs:595-621 | A daemon message resolves the request it belongs to, and no other. |
| AcpLoop.Bridge.OnDisconnect | choreo-acp/src/acp_handler.rs:91-119 | Disconnect drains prompts, sync requests and the models slot into error answers and stops. |
| Sse.ReceivesPrefixOfProduced | choreo-ai-protocols/src/stream.rs:106-166 | In every interleaving the items received are a prefix of those produced, the channel holds at most 64, and nothing follows an End or Err. |
| Sse.TerminalMeansComplete | choreo-ai-protocols/src/stream.rs:106-166 | A consumer that took End or Err has taken everything the reader produced. |
| Sse.SilentExitOnlyAfterAbort | choreo-ai-protocols/src/stream.rs:106-166 | A reader that exits without an abort posted has sent its End or Err. |
| Sse.AtMostOneNextAfterAbort | choreo-ai-protocols/src/stream.rs:106-166 | Once an abort is posted the reader begins at most one more call of `next`. |
| Sse.DroppedReaderIsNeverStuck | choreo-ai-protocols/src/stream.rs:56-76 | After the stream is dropped the reader is never stuck outside `next`, and each of its steps brings it closer to its exit. |
| Sse.DroppedReaderExitsSoon | choreo-ai-protocols/src/stream.rs:56-76 | After the drop the reader takes at most three more steps, whatever else happens. |
| Sse.ReceiveLosesNothing | choreo-ai-protocols/src/stream.rs:168-263 | A receive returns the next item sent or leaves the channel as it was; giving up on cancel or deadline leaves an abort for the reader. |
| Sse.ReceiveReturnsExactly | choreo-ai-protocols/src/stream.rs:168-263 | What a receive returns, from what it finds: a passed deadline, then a queued cancel, then the message at the head, then the timer. |
| Retry.BaseIsExact | choreo-ai-protocols/src/retry.rs:233-239 | The saturating u64 base is the exact integer min(initial * 2^(n-1), max) for every n >= 1 and every u64 pair. |
| Retry.BaseIsMonotone | choreo-ai-protocols/src/retry.rs:233-239 | The base never shrinks as the retry number grows. |
| Retry.WaitIsBounded | choreo-ai-protocols/src/retry.rs:401-421 | After jitter and the hard cap a wait is at most min(5/4 max, 3,600,000 ms). |
| Retry.WaitIsLongEnough | choreo-ai-protocols/src/retry.rs:233-239 | Jitter never cuts a wait below three quarters of the exact base, rounded down. |
| Retry.ClampIsProjection | choreo-ai-protocols/src/retry.rs:59-87 | The constructor yields initial <= max <= one hour, changes exactly the pairs that are not already so, is idempotent, and never collapses the first backoff. |
| Retry.ClampWarnings.NewConfig | choreo-ai-protocols/src/retry.rs:59-87 | Clamps, and warns exactly once per distinct pair that needed it. |
| Retry.RetriesExactlyTransient | choreo-ai-protocols/src/retry.rs:251-305 | Another attempt follows exactly a transient reply with attempts to spare; a Retry-After on 429 or 503 is honoured to the second or ends the loop. |
| Retry.ErrorsByStatus | choreo-ai-protocols/src/retry.rs:423-445 | The error of each status class, by its literal statuses, with the Retry-After it carried. |
| Retry.RunIsBounded | choreo-ai-protocols/src/retry.rs:459-573 | Every run sends at most max(1, max_attempts) times and, unless cancelled, sleeps at most (sends - 1) hours in total. |
| Retry.TraceIsRight | choreo-ai-protocols/src/retry.rs:459-573 | Each send comes straight after its deadline is re-armed and with no cancel queued at its check; each wait follows its send, is the one its reply calls for, and is slept in full unless the run ends in it. |
| Retry.OnlyTransientIsRetried | choreo-ai-protocols/src/retry.rs:459-573 | No send follows a non-retryable status or a 429 or 503 whose Retry-After exceeds the budget. |
| Retry.AtMostOneSendAfterCancel | choreo-ai-protocols/src/retry.rs:342-399 | Once a cancel is queued at most one further send starts. |
| Retry.EndsForAReason | choreo-ai-protocols/src/retry.rs:423-573 | The loop succeeds exactly on a 2xx reply and never gives up early: a failure after a transient reply means every attempt was used; the error is the one its status maps to. |
| Retry.RetryLoop | choreo-ai-protocols/src/retry.rs:459-573 | The loop produces exactly the specified trace and outcome, and leaves the deadline armed for the last attempt. |
| Retry.TryOnce | choreo-ai-protocols/src/retry.rs:469-548 | One turn of the loop: re-arm, check, send, judge, wait. |
| Retry.WaitBeforeRetry | choreo-ai-protocols/src/retry.rs:362-421 | A wait is capped at one hour, sleeps not at all when a cancel is already queued, and otherwise ends early only if the cancel wins the race. |
| CatalogPacing.BackgroundAttemptsArePaced | choreo-daemon/src/catalog.rs:432-516 | Across crashes and restarts every background attempt is recorded at least 25 hours after the one before it unless startup found no cache or no attempt time; the real gap exceeds 25 hours less one millisecond, and is a full 25 hours for a timer armed by a fetch in the same process. |
| CatalogPacing.FullGapExactly | choreo-daemon/src/catalog.rs:361-381 | Over all runs, a kind of background attempt always keeps a full 25 hours of real time if and only if it is the timer that a fetch armed. |
| CatalogPacing.StartupCanFallShort | choreo-daemon/src/catalog.rs:456-494 | A run whose startup attempt comes one nanosecond over 25 hours less a millisecond after the last. |
| CatalogPacing.StartupTimerCanFallShort | choreo-daemon/src/catalog.rs:479-494 | A run whose timer, armed at startup from the recorded milliseconds, fires as early. |
| CatalogPacing.NextAttemptIsAlwaysArmed | choreo-daemon/src/catalog.rs:361-381 | A started process is fetching, or has its next attempt armed at most 25 hours of its own clock away, always. |
| CatalogPacing.StartFetchesExactly | choreo-daemon/src/catalog.rs:456-488 | In every run a startup fetches at once if and only if its cache is not valid, the attempt time is unreadable or absent, or the last attempt is 25 recorded hours old; otherwise it waits for exactly the rest. |
| CatalogPacing.AttemptsAreExact | choreo-daemon/src/catalog.rs:383-446 | A running process attempts exactly when its armed time has come or when it is asked to. |
| CatalogPacing.AttemptsAreRecorded | choreo-daemon/src/catalog.rs:498-516 | Every attempt is in the database before its fetch, and the end of the fetch arms the next 25 hours on. |
| CatalogPacing.StartKeepsInv | choreo-daemon/src/catalog.rs:456-488 | The startup decision and the retry deadline it computes keep the pacing invariant. |
| CatalogCache.PersistedEtagIsNeverNewer | choreo-daemon/src/daemon.rs:1794-1818 | With crashes between the cache write and the etag write, the persisted etag never names a newer version than the persisted base. |
| CatalogCache.NotModifiedMeansCurrent | choreo-daemon/src/catalog.rs:565-631 | Whenever a conditional fetch returns 304 the base in memory is the server's current version. |
| CatalogCache.FetchBringsTheCurrent | choreo-daemon/src/catalog.rs:565-631 | In every run a fetch that succeeds leaves the server's version in memory, a body with its own etag and on its way to disk; a forced one is never answered 304; a failed one changes nothing. |
| CatalogCache.StartLoadsTheDisk | choreo-daemon/src/catalog.rs:281-312 | A start loads the cached version with its etag, or the embedded one without. |
| CatalogCache.NoCacheMeansPlainRequests | choreo-daemon/src/catalog.rs:281-312 | In every run, a process that started on a missing or corrupt cache sends only plain requests until one brings it a catalog, whatever etag the database holds. |
| CatalogCache.CrashLeavesOldPairExactly | choreo-daemon/src/daemon.rs:1787-1818 | In every run a crash between the two writes leaves the old etag beside the file just written; the pair on disk is unchanged if and only if that file's version was already there. |
| CatalogCache.RestartRevalidatesExactly | choreo-daemon/src/catalog.rs:281-312 | After that crash and a restart that reads the etag, an unforced fetch is answered 304 if and only if the old etag names the server's version. |
| CatalogCache.CrashHeals | choreo-daemon/src/daemon.rs:1787-1818 | After that crash and restart, one unforced fetch and its writes leave the server's version and its etag together on disk, 304 or not. |
| CatalogCache.CrashLeavesOldEtagNewCache | choreo-daemon/src/daemon.rs:1794-1818 | A run whose crash between the two writes leaves the old etag beside the new file. |
| CatalogThread.DaemonIsNeverBehind | choreo-daemon/src/catalog.rs:556-700 | After every step the last `CatalogBaseChanged` sent carries exactly the thread's base, etag and overlay. |
| CatalogThread.ThreadIsExact | choreo-daemon/src/catalog.rs:383-700 | In every run, told from the events alone: the thread holds the catalog and etag of the last fetch that brought a non-empty one and the last overlay it could read; it has sent exactly the commands those events call for, persisting fetched catalogs only, each to the requesters waiting at its take, and refused exactly those whose fetch failed. |
| CatalogThread.EveryRequesterGetsOneOutcome | choreo-daemon/src/catalog.rs:556-663 | Each requester, with its own force flag, is still queued or was handed to one outcome, exactly as often as it asked. |
| CatalogThread.FetchesAreExact | choreo-daemon/src/catalog.rs:392-418 | In every run the fetches are, one for one and in order, the timer firings and the takes that found a request waiting; one is forced exactly when some request that arrived since the previous take asked for it. |
| CatalogThread.FetchTimesAreExact | choreo-daemon/src/catalog.rs:392-418 | The listed fetch times are exactly the events that fetch. |
| CatalogThread.FetchTimesRise | choreo-daemon/src/catalog.rs:392-418 | Each fetch time is listed once, in order. |
| CatalogThread.QueueIsPending | choreo-daemon/src/catalog.rs:641-663 | The queue holds exactly the requests that no take has picked up. |
| CatalogThread.MaintenanceThread.FoldRefreshNows | choreo-daemon/src/catalog.rs:641-663 | Drains the whole queue in order and folds the force flags. |
| CatalogThread.MaintenanceThread.RunRefresh | choreo-daemon/src/catalog.rs:556-631 | Performs exactly the specified refresh for whatever the fetch returns. |
| CatalogThread.MaintenanceThread.ReloadUserOverlay | choreo-daemon/src/catalog.rs:665-700 | Sends a change exactly when the overlay really changed. |
| CatalogThread.MaintenanceThread.OnRefreshNow | choreo-daemon/src/catalog.rs:392-418 | Reload, fold and one refresh make one step of the specification. |
| CatalogThread.MaintenanceThread.OnTimer | choreo-daemon/src/catalog.rs:432-445 | A due timer makes one unforced refresh with nobody to answer. |
| CappedText.StreamingIsTruncation | choreo-client-core/src/history.rs:21-46 | For every text and every chunking of it, empty chunks included, streaming through `push_capped` equals one-shot truncation at the last character boundary within the cap plus one marker, for any cap and any marker longer than min(3, cap) bytes. |
| CappedText.PushKeepsTruncation | choreo-client-core/src/history.rs:21-46 | One chunk keeps the accumulator equal to the truncation of all text so far. |
| CappedText.ChunkingDoesNotShow | choreo-client-core/src/history.rs:12-46 | With the repository's cap and marker two chunkings of a text never read differently, and the result is bounded and valid UTF-8. |
| CappedText.MarkerSufficesExactly | choreo-client-core/src/history.rs:21-46 | For every cap and marker: streaming agrees with truncation on all chunkings of all texts if and only if the cap is zero or the marker is longer than min(3, cap) bytes. |
| CappedText.ShortMarkerFails | choreo-client-core/src/history.rs:21-46 | For every other cap and marker, two chunks whose stream differs from their truncation. |
| CappedText.AppendCapped | choreo-client-core/src/history.rs:21-46 | The buffer ends as the specification of a capped push says. |
| TurnView.ArrivalOrderConverges | choreo-client-core/src/history.rs:157-267 | Wherever after the first chunk the start event lands the whole view is the same; landing first gives that view too, if and only if the seeded call is not nameless and no other description is stashed. |
| TurnView.InterleavedArrivalConverges | choreo-client-core/src/history.rs:157-267 | The same with output, other calls' events, other turns' replacements and other requests' route changes anywhere in between, for all the view says of the call. |
| TurnView.ReplacementIsFreshStart | choreo-client-core/src/history.rs:77-85 | After an authoritative replacement that lists the call, the call reads as that turn and its later events alone make it, whatever came before. |
| TurnView.ReplacementConverges | choreo-client-core/src/history.rs:77-85 | Any two pasts, in any order, converge at the replacement. |
| TurnView.OnlyOwnEventsShow | choreo-client-core/src/history.rs:77-267 | What a view says of a call depends on what it said before and on that call's own events alone. |
| TurnView.NamelessSeedShows | choreo-client-core/src/history.rs:211-267 | A nameless seeded call record reads differently when the start event comes first. |
| TurnView.StaleDescriptionShows | choreo-client-core/src/history.rs:157-267 | Two descriptions of a call read differently by which comes first. |
| TurnView.ArrivalNeverDuplicates | choreo-client-core/src/history.rs:157-267 | The call ends with one call record and one result record, never an added duplicate; a new record holds the truncated text, is no error and has no image; an old one keeps both; other calls' results are untouched. |
| TurnView.StreamsDoNotMix | choreo-client-core/src/history.rs:123-154 | However events, replacements and route changes interleave, a turn's answer and reasoning are each the text of the last authoritative turn followed by exactly their own chunks since, in order. |
| TurnView.SessionView.ToolCallStarted | choreo-client-core/src/history.rs:157-207 | Stashes the description, backfills only empty fields of a stub, and adds the call unless it is there. |
| TurnView.SessionView.ToolResultChunk | choreo-client-core/src/history.rs:211-267 | Appends to the call's record or creates a stub named after the call, leaving everything else alone. |
| TurnView.SessionView.StreamChunk | choreo-client-core/src/history.rs:123-154 | Appends to the named stream of the routed turn, or changes nothing when the request or turn is unknown. |
| TurnView.SessionView.InsertOrReplace | choreo-client-core/src/history.rs:77-85 | The authoritative turn replaces the accumulated one and exactly its calls' stashed descriptions go. |
| TurnView.SessionView.ClearToolCallDescriptions | choreo-client-core/src/history.rs:96-102 | Drops exactly the stashes of the turn's calls. |
| KnownServers.SetIsIndependent | choreo-client-core/src/known_servers.rs:206-253 | Setting a pin or an unlock key changes that field of that address: not the other field, not another address. |
| KnownServers.RemoveIsExact | choreo-client-core/src/known_servers.rs:266-275 | Removing drops every entry of the address, duplicates included, and no other. |
| KnownServers.RemoveShortens | choreo-client-core/src/known_servers.rs:266-275 | The length comparison tells exactly whether anything was removed. |
| KnownServers.CleanRoundTrips | choreo-client-core/src/known_servers.rs:354-400 | A loaded store parses back from its own file unchanged. |
| KnownServers.ParsingIsPerEntry | choreo-client-core/src/known_servers.rs:354-400 | Each table is judged alone: one bad line costs no other server anything. |
| KnownServers.ParseEntryKeeps | choreo-client-core/src/known_servers.rs:362-399 | An entry is dropped exactly for a corrupt pin; a corrupt unlock key costs only that field. |
| KnownServers.CleanAlwaysDecodes | choreo-client-core/src/known_servers.rs:172-198 | A loaded store never surfaces a key that does not decode. |
| KnownServers.ParsedIsClean | choreo-client-core/src/known_servers.rs:354-400 | Whatever the file holds, everything that parses decodes and is canonical. |
| KnownServers.TornKeepsExactly | choreo-client-core/src/known_servers.rs:286-339 | A rewrite torn after truncation keeps a recorded pin or unlock key if and only if it stopped past that field's line, not inside a later line, and not between a later table's header and the end of its address line. |
| KnownServers.TornValue | choreo-client-core/src/known_servers.rs:286-339 | What any torn rewrite leaves in any field: the value written, or nothing. |
| KnownServers.HeaderCutEmptiesTheStore | choreo-client-core/src/known_servers.rs:354-361 | Stopping right after any table's header empties the reloaded store, earlier entries included. |
| KnownServers.HeaderCutLosesEarlierKey | choreo-client-core/src/known_servers.rs:354-361 | A two-entry store at that input: the cut one line earlier keeps the first key, this one loses it. |
| KnownServers.WholeTextReadsBack | choreo-client-core/src/known_servers.rs:321-341 | The whole text of a store reads back as the store that was written. |
| KnownServers.PrefixReads | choreo-client-core/src/known_servers.rs:354-361 | What the reader makes of any first lines of a store's text. |
| KnownServers.ParseEntries | choreo-client-core/src/known_servers.rs:354-400 | The filter loop yields exactly the parsed store. |
| KnownServers.Store.SetUnlockKey | choreo-client-core/src/known_servers.rs:206-228 | Updates the entry in place or appends a carrier, keeps a clean store clean, and rewrites the file. |
| KnownServers.Store.Pin | choreo-client-core/src/known_servers.rs:239-260 | Updates the entry in place or appends it, keeps a clean store clean, and rewrites the file. |
| KnownServers.Store.Lookup | choreo-client-core/src/known_servers.rs:172-181 | The first entry's pin decides; no entry and no pin read the same. |
| KnownServers.Store.Remove | choreo-client-core/src/known_servers.rs:266-275 | Removes, keeps a clean store clean, and rewrites the file only when something was removed. |
| AutoBind.AtMostOneBind | choreo-client-core/src/credentials.rs:351-370 | Under any sequence of reports, losses and store failures at most one bind key is sent on a connection, and what the daemon adopts from it is that key. |
| AutoBind.RecordedBeforeSend | choreo-client-core/src/credentials.rs:251-267 | In any state, a step that sends a bind key leaves it in the reloaded store. |
| AutoBind.AdoptedKeyIsHeld | README.md:757-775 | In every run whose store loads are readable and whose rewrites are not torn, a key the daemon adopted from this connection is in the reloaded store. |
| AutoBind.FieldKeptExactly | choreo-client-core/src/known_servers.rs:206-339 | With any failures at all, the pin or unlock key of any address reads the same throughout a run if and only if every step's rewrite spares it: it never started; or the field is absent, or was read and was written before any cut; or, for the field being set, it already held the value or was absent and not reached. |
| AutoBind.ReRecordCanLoseTheKey | choreo-client-core/src/credentials.rs:173-177 | A torn re-record on `Bound` leaves the client without the key its daemon adopted. |
| AutoBind.EditKeepsExactly | choreo-client-core/src/known_servers.rs:128-339 | One load, set and rewrite leaves a field of any address alone if and only if it spares it, unreadable loads and torn rewrites included. |
| AutoBind.UnreadableLoadWipes | choreo-client-core/src/known_servers.rs:128-160 | A failed load followed by a successful write drops every other address's pin and key. |
| AutoBind.FieldsAreIndependent | choreo-client-core/src/known_servers.rs:172-275 | Over any run with readable loads and untorn rewrites no bind, unlock record or re-pin changes the other field or another address; FieldKeptExactly has the condition for all other runs. |
| AutoBind.KeystoreAutoBind.OnUnbound | choreo-client-core/src/credentials.rs:351-370 | The first report records a fresh key and returns it, or is refused; every later one does nothing. |
| AutoBind.BindFreshDaemon | choreo-client-core/src/credentials.rs:251-267 | A bind message exists only if its key is already in the reloaded store. |
| AutoBind.StoredOrAdopted | choreo-client-core/src/credentials.rs:102-137 | The stored key wins; otherwise the legacy key is used and copied into the store. |
| AutoBind.StoredKeyWins | choreo-client-core/src/credentials.rs:102-137 | A stored key always wins and leaves the store alone; without one the legacy key is used, and copied. |
| AutoBind.AdoptedKeyIsUsed | choreo-client-core/src/credentials.rs:102-137 | In every undamaged run, once the daemon has adopted a key every resolve returns that key. |
| AutoBind.RecordsLand | choreo-client-core/src/credentials.rs:173-267 | What a step is to record is in the reloaded store once its write succeeds. |
| AutoBind.LaterReportsDoNothing | choreo-client-core/src/credentials.rs:351-370 | In every run only the first report does anything: even a refused bind is the connection's one attempt. |
| Wire.VarintRoundTrip | choreo-content/src/encode.rs:45-115 | Every 64-bit varint reads back, whatever follows it. |
| Wire.FieldsRoundTrip | choreo-content/src/encode.rs:45-115 | Every list of well-formed varint, fixed32, fixed64 and length-delimited fields reads back, in order. |
| Wire.IgnoredFieldChangesNothing | choreo-content/src/encode.rs:45-115 | A field a message does not know may stand anywhere in it. |
| Wire.I32RoundTrip | choreo-content/src/encode.rs:109-115 | A signed 32-bit value survives its sign extension to a 64-bit varint. |
| Wire.WireExamples | choreo-content/src/encode.rs:45-115 | The worked examples of the Protocol Buffers encoding guide, and a little-endian fixed32. |
| Wire.VarintFits | choreo-content/src/encode.rs:45-115 | What a varint reads as fits 64 bits and takes at most ten bytes. |
| Wire.BadKeyIsRefused | choreo-content/src/encode.rs:45-115 | A key beyond 32 bits, a zero field number and an unknown wire type are refused. |
| Wire.TruncatedIsRefused | choreo-content/src/encode.rs:45-115 | A length beyond the end of the input is refused. |
| Numerals.Base58TextRoundTrip | choreo-content/src/encode.rs:547-557 | Base58 text that decodes at all re-encodes to itself. |
| Numerals.Base58RoundTrip | choreo-content/src/encode.rs:582-588 | Every byte string survives Base58, leading zeros included. |
| Numerals.HexRoundTrip | choreo-content/src/encode.rs:523-533 | Every byte string survives lower-case hex. |
| Numerals.HexIsLowerCase | choreo-content/src/encode.rs:523-525 | Every character of an encoding is one of 0-9 and a-f. |
| Numerals.HexDecodesExactly | choreo-content/src/encode.rs:528-533 | Exactly an even number of hex digits, of either case, is read. |
| Numerals.HexIgnoresCase | choreo-content/src/encode.rs:528-533 | Reading does not depend on the case of the digits. |
| Numerals.Base58Alphabet | choreo-content/src/encode.rs:582-588 | The digits are those of the Bitcoin alphabet, in order. |
| Numerals.Base58DecodesExactly | choreo-content/src/encode.rs:547-557 | Text decodes exactly when all of it is written in the alphabet. |
| Item.MixinsRoundTrip | choreo-content/src/encode.rs:45-58 | Every list of mixins reads back: ids, payloads and order. |
| Item.ImageRoundTrip | choreo-content/src/encode.rs:83-105 | Every image message reads back, default values and repeated levels included. |
| Item.ProfileRoundTrip | choreo-content/src/encode.rs:109-115 | Every profile message reads back, negative account types included. |
| Item.TextRoundTrip | choreo-content/src/encode.rs:62-79 | Every one-string message reads back, the empty string included. |
| Item.BadTextIsRefused | choreo-content/src/encode.rs:62-79 | Text that is not UTF-8, or a string field of another wire type, is refused. |
| Item.ImageExample | choreo-content/src/encode.rs:83-105 | An image message byte by byte, each field under its own number. |
| Item.ProfileExample | choreo-content/src/encode.rs:109-115 | A profile byte by byte, a negative account type in ten bytes. |
| ItemCodec.ItemRoundTrip | choreo-content/src/encode.rs:283-394 | Every item that encodes reads back: title, body and profile exactly, the language or "en", the image with its digest in canonical hex and every CID unchanged, and the content type by precedence. |
| ItemCodec.UnknownMixinsChangeNothing | choreo-content/src/encode.rs:351-414 | An unknown mixin anywhere in an item's bytes changes nothing that is read from it. |
| ItemCodec.ReencodingIsIdentical | choreo-content/src/encode.rs:283-394 | What an encoded item decodes to encodes to the same bytes. |
| ItemCodec.TypeRoundTripsExactly | choreo-content/src/encode.rs:397-414 | The content type itself comes back exactly when the item carries what implies it. |
| ItemCodec.EncodeFailsExactly | choreo-content/src/encode.rs:429-455 | An item fails to encode exactly when its image names a bad digest or a bad CID. |
| ItemCodec.AcceptedCidsAreCanonical | choreo-content/src/encode.rs:547-596 | The CIDs accepted are exactly the Base58 forms of 32-byte sha2-256 digests. |
| ItemCodec.CidRoundTrip | choreo-content/src/encode.rs:572-596 | A CID the encoder accepts comes back from its stored bytes letter for letter. |
| ItemCodec.HexFormReadsBack | choreo-content/src/encode.rs:523-533 | A 32-byte digest survives its prefixed hex form, although every leading "0x" is stripped. |
| ItemCodec.ImageConverts | choreo-content/src/encode.rs:429-479 | An encoded image converts back with canonical digest and unchanged CIDs. |
| ItemCodec.EncodeItemBytes | choreo-content/src/encode.rs:283-343 | The pushes build exactly the specified mixins, or fail on a malformed image. |
| ItemCodec.DecodeItemBytes | choreo-content/src/encode.rs:351-394 | The loop reads exactly the specified content; a later mixin of an id replaces an earlier one and an ill-formed one clears the field. |
| ItemCodec.InferContentType | choreo-content/src/encode.rs:397-414 | The first marker or profile mixin decides, then the presence of an image. |
| ItemCodec.LastMixinDecides | choreo-content/src/encode.rs:351-394 | For any mixins in any order each field is what the last mixin of its id decodes to, absent if there is none or it is ill-formed. |
| ItemCodec.FirstDecisiveDecides | choreo-content/src/encode.rs:397-414 | The first feed marker, comment marker or profile decides the type, whichever comes first. |
| ItemCodec.OtherwiseImageOrDocument | choreo-content/src/encode.rs:397-414 | Without one, an image mixin makes an image and its absence a document. |
| ItemCodec.LegacyHashReadsTheSame | choreo-content/src/encode.rs:459-488 | A bare digest, the legacy form of a hash, reads as the reference form does. |
| ItemCodec.TextMixinExamples | choreo-content/src/encode.rs:25-58 | The default language and a title byte by byte. |
| ItemCodec.MarkerExample | choreo-content/src/encode.rs:35-58 | A feed marker byte by byte. |
| ItemCodec.MixinsAreFramed | choreo-content/src/encode.rs:45-58 | Each mixin is a length-delimited field 1, one after another. |
| Mipmap.PlanLevels | choreo-content/src/image.rs:35-50 | For all u32 sides the loop ends with the one pyramid, at most 27 levels, at most 19 when a side is below 2^24. |
| Mipmap.PyramidShrinks | choreo-content/src/image.rs:35-50 | Both sides strictly decrease, every level but the last exceeds 64 on both sides, the last is at most 64 on one. |
| Mipmap.PyramidIsUnique | choreo-content/src/image.rs:35-50 | Only one plan fits a pair of sides. |
| Mipmap.SmallDimensionIsNear | choreo-content/src/image.rs:27-30 | Below 2^24 a side is within one half of original / 2^k, or clamped to 1. |
| Mipmap.DimensionIsNear | choreo-content/src/image.rs:27-30 | For every u32 a side is within one half of the f32 value over 2^k, or clamped, or saturated. |
| Mipmap.LevelZeroIsOriginal | choreo-content/src/image.rs:27-30 | Level 0 is the original clamped to 1 exactly when f32 holds the original without rounding, or it is the largest u32. |
| Mipmap.LevelZeroCanShrink | choreo-content/src/image.rs:27-30 | A side of 2^24 + 1 is planned one pixel smaller. |
| Mipmap.F32IsNearest | choreo-content/src/image.rs:29-29 | The converted side is a nearest value with a 24-bit significand. |
| Mipmap.F32IsRepresentable | choreo-content/src/image.rs:29-29 | The converted side has a 24-bit significand, even after a tie. |
| Mipmap.F32Error | choreo-content/src/image.rs:29-29 | The conversion moves a side by at most one part in 2^24. |
| Mipmap.LevelBound | choreo-content/src/image.rs:28-28 | A level above the minimum bounds its number, so the u32 power never overflows. |

## Left out

- Sockets, stdin and stdout threads, Noise handshakes, TLS, HTTP bodies and JSON: only the messages they carry are modelled. A failing write to the editor's output, which ends the loop, is not.
- What the ACP bridge sends to the daemon: an event has a message for it or not, and the channel takes it or not.
- Wrap-around of the `usize` byte counters at 2^64; they are unbounded integers that are proved never to go below zero.
- The choice of the largest client on `evict_largest`, which another component makes.
- Floating-point rounding of a jittered backoff: jitter is a real number between 3/4 and 5/4. The f32 arithmetic of the pyramid is modelled exactly.
- Reading a Retry-After date, error texts and the retry callback; the number of seconds is an input. A cancel channel whose sender is dropped mid-wait.
- Database errors while an attempt time or etag is recorded for pacing; clock steps backwards. `CatalogPacing` takes a wall clock that never goes back, a monotonic clock no faster than it, and both read at one moment.
- The contents of a catalog, its overlay merge and its download; a catalog is a value and a version.
- The writer thread's socket; its loop is modelled from its documented behaviour, a message written or not.
- Base64 and general TOML: a stored key either decodes or is corrupt; the store's own text is modelled line by line, and a rewrite may stop between any two lines or inside one. An address that needs a multi-line string is not. The length check on a key handed to `record_unlock_key`: a `Key` is a key of the right length.
- Group wire types in protobuf input, which the original skips and the model refuses; they never occur in an encoded item.
- Item id derivation, indexing, publishing, image scaling and JPEG encoding, command lines, configuration and logging: separate from the protocols above, with one branch per case.
- Fields of a turn that no streaming event touches.
- Broadcast.OverLagIsNeverSilent: an `enqueue` that has read a counter above the cap but has not yet sent counts as about to report, because between its two atomic steps it has not returned.
- AutoBind.AdoptedKeyIsHeld: asks for readable loads and untorn rewrites, because without them the property is false (`AutoBind.ReRecordCanLoseTheKey`); `AutoBind.FieldKeptExactly` covers every failure.
- AcpLaws.RequestsAreConserved: once a send to the daemon has failed the loop returns an error and drops the request in hand, so from then on the count is an upper bound.
