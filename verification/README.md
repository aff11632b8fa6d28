# Verification of the chat's concurrent and stateful cores

This project models the parts of the chat application whose correctness is a matter of whole runs
rather than of single calls, and proves what they guarantee in Dafny 4.11. `dafny verify
dfyconfig.toml` checks all of it.

The style is the same throughout. What a component does to its state is a function on values
(`Limiter.Allow`, `Connection.Apply`, `MessageWindow.Merge`, `Hub.Step`, `OneTimeStore.Do`,
`Invites.Register`). Where the source updates objects, arrays or tables in place, a class does the
same and each of its methods is proved to be that function of the old state. The guarantees are then
lemmas about runs: sequences of calls, events or thread steps of any length and in any order.

* **Rate limiter** (`SlidingWindow`, `Limiter`, `RateLimiter`, `MessageLimiter`, `LimiterThreads`,
  `LimiterOrder`, `LimiterTheorems`). The per-IP limiter is modelled twice. As a class it compacts
  time stamps in place in one backing array and prunes lazily; it answers exactly like a limiter that
  keeps all history. As interleaved thread steps it runs the two-level lock protocol: every
  interleaving answers as the atomic limiter does in the order in which the global mutex was taken,
  no grant is recorded in an orphan entry, and somebody can always step. Because the clock is read
  before the lock, the bound on grants is proved with the skew between clocks, and a run shows that
  the skew term cannot be dropped.
* **WebSocket client** (`Connection`, `ConnectionTheorems`, `ConnectionOrder`,
  `ConnectionGuarantees`, `ConnectionOutcomes`, `ConnectionRecovery`, `ConnectionIdentity`,
  `ChatApi`). Generations, pending join, bounded queue, reconnection with backoff, kick and disconnect
  as a machine over caller, socket, timer and timeout events, and how each of them answers the
  promise of a `connect`. Socket states follow the WHATWG WebSockets standard: `close()` makes a socket CLOSING at once, and an
  error event means it is CLOSED.
* **Message window** (`MessageWindow`, `MergeTheorems`, `ChatStore`, `Paging`, `PagingRejoin`,
  `PagingWitnesses`). Echo replacement, the twin scan, dedup and the two-sided cap; the store actions over it; and paging,
  from the query on the messages table to the client's window.
* **Hub** (`Hub`, `HubTheorems`, `HubLoop`). Registration, kick, unregistration, fan-out and shutdown
  over clients with closable bounded channels, in any order.
* **Smaller cores** (`OneTimeStore`, `Invites`, `Snippet`, `Transcript`). The two stores of the OIDC
  login, invite accounting, the snippet parser, and the grouping of a transcript.

Where a hoped-for property is false of the code, the code is kept, the exact condition is proved, and
so is an input that fails it:

* A redelivered message whose twin is still optimistic doubles an id, since the twin scan comes
  before the dedup test (`MergeTheorems.BatchDistinctIff`, `MergeTheorems.SingleMergeDistinctIff`,
  `MergeTheorems.RedeliveryDuplicates`).
* A live message takes the place of the shown message whose id its sender gave as client id; the
  server hands that id on as it came (`MergeTheorems.NamedEntryIsOverwritten`,
  `Paging.LiveKeepsSuffixIff`).
* A message tied in time with the top of the window is never paged in, and a page that passes the
  cap of 1000 drops the newest messages (`Paging.LoadOlderKeepsSuffixIff`,
  `PagingWitnesses.PagingFailures`).
* After a reconnection the missed messages go in front of the older ones, and paging ends although
  older messages may be left: the greeting of a second join takes the branch of an older page
  (`PagingRejoin.RejoinKeepsSuffixIff`, `PagingRejoin.RejoinEndsPagingIff`,
  `PagingWitnesses.LiveFailures`, `PagingWitnesses.PagingFailures`).
* The end of paging is remembered although live messages then push loaded ones out of the window
  (`Paging.EndSurvivesTheCut`, `PagingWitnesses.LiveFailures`).
* `kicked` before `history` leaves an open socket on which later sends are written unjoined and ahead
  of earlier, queued ones (`ConnectionOrder.OvertakesIff`, `ConnectionOrder.OrderKeptIff`,
  `ConnectionOrder.EarlyKickBreaksOrder`).
* `disconnect` misses a timer whose handle was overwritten, and a kick once joined stops none, so
  that either can be followed by a new socket (`ConnectionRecovery.DisconnectIsFinalIff`,
  `ConnectionRecovery.LateKickIsFinalIff`, `ConnectionRecovery.ImpatienceSurvivesDisconnect`,
  `ConnectionRecovery.ImpatienceSurvivesKick`, `ConnectionRecovery.TimerGetsArmed`).
* A connection that was dropped and joins again puts a closed channel back into the registry
  (`HubTheorems.StaysOpenIff`, `HubTheorems.RejoinPanics`, `HubTheorems.RejoinHappens`).

Where the code and its own comments disagree, the model follows the code:

* `frontend/src/stores/mergeMessageWindow.ts:20` says a prepend keeps the newest; lines 102-105 keep
  the oldest. Line 22 promises chronological order; lines 91-95 only concatenate. Line 28 says the
  revision rises whenever the array changes; an echo in place (lines 86-88) does not raise it.
* `frontend/src/lib/api.ts:415-419` says the queue survives a reconnection; line 262 empties it.
* `frontend/src/lib/api.ts:348` says a failed first connection does not reconnect by itself; after an
  error event it does (`ConnectionRecovery.FailedFirstConnectionReconnects`).

Assumptions that stand for the outside world are hypotheses of the lemmas: clocks with a bounded skew
(`Limiter.SkewAtMost`) or in order (`OneTimeStore.InOrder`), a caller who does not connect while a
timer is armed (`ConnectionRecovery.Patient`), merges that do not clobber an id (`ChatStore.Safe`,
which is exact), and one join a connection (`Hub.JoinsOnce`). Clock readings, random numbers,
random codes, walking order of Go maps, and database failures are parameters.

## Model

| member | source | states |
|---|---|---|
| SlidingWindow.AfterIsFilter | backend/handler/ratelimit.go:89-95 | the compaction keeps exactly the stamps later than the cutoff, each as often as before and in order |
| SlidingWindow.AfterAfter | backend/handler/ratelimit.go:130-137 | filtering early and then late is filtering late, so an early prune loses nothing a later call needs |
| SlidingWindow.AdmitAgrees | backend/handler/ratelimit.go:86-101 | stored stamps and the full log that agree beyond a cutoff still do after any admission |
| Limiter.StoredAfterAllow | backend/handler/ratelimit.go:77-145 | what one call leaves stored for every IP, the prune of that call included |
| Limiter.PrunesAfterThirtySeconds | backend/handler/ratelimit.go:104-145 | a call tidies up behind the other IPs of its bucket iff thirty seconds have passed since the last prune: stamps out of the window go, and so do IPs left without any |
| Limiter.PruneThenDecide | backend/handler/ratelimit.go:80-81 | a prune within a call does not change the decision of that call |
| Limiter.PruningInvisible | backend/handler/ratelimit.go:104-145 | in every run, what is stored for an IP agrees with all its grants beyond the newest cutoff, whatever was pruned by whom |
| Limiter.RefinesFullHistory | backend/handler/ratelimit.go:77-102 | with clocks that never go back the limiter answers as one that keeps all history: yes iff fewer than max earlier grants of the IP lie in the last 10 s (WebSocket) or 60 s (the rest) |
| Limiter.WindowBound | backend/handler/ratelimit.go:31-102 | no interval of 10 s or 60 s less the skew holds more than max grants of an IP; skew 0 gives the exact window |
| Limiter.SkewBoundIsTight | backend/handler/ratelimit.go:78-80 | for every bucket and skew a run in which a longer interval holds one grant too many |
| RateLimiter.Entry.DropExpired | backend/handler/ratelimit.go:88-95 | reading and writing the same backing array yields the filtered sequence |
| RateLimiter.Entry.Append | backend/handler/ratelimit.go:100 | append in place or into a larger array adds exactly one stamp at the end |
| RateLimiter.RateLimiter.OnlyChanged | backend/handler/ratelimit.go:25-29 | changing one entry object changes the stamps of no other IP |
| RateLimiter.RateLimiter.PruneExpired | backend/handler/ratelimit.go:122-145 | the range over a bucket, in any order, filters all its entries, drops the empty ones, and leaves the other buckets alone |
| RateLimiter.RateLimiter.PruneExpiredIfDue | backend/handler/ratelimit.go:104-114 | prunes iff the bucket was never pruned or 30 seconds have passed, and records the time then only |
| RateLimiter.RateLimiter.GetOrCreate | backend/handler/ratelimit.go:147-154 | gives the entry mapped for the IP; an absent one is created empty |
| RateLimiter.RateLimiter.AllowRequest | backend/handler/ratelimit.go:77-102 | answer and whole new state are those of the atomic limiter |
| RateLimiter.RateLimiter.AllowWS | backend/handler/ratelimit.go:46-48 | a WebSocket handshake is a call with 50 in its window |
| RateLimiter.RateLimiter.AllowAuth | backend/handler/ratelimit.go:51-53 | a login or registration is a call with 5 in its window |
| RateLimiter.RateLimiter.AllowOIDC | backend/handler/ratelimit.go:56-58 | a request to the OIDC endpoints is a call with 20 in its window |
| RateLimiter.RateLimiter.AllowAPI | backend/handler/ratelimit.go:61-75 | an API request is a call with the configured number, or 30 if that is missing or not positive |
| MessageLimiter.MessageLimiter.CheckRateLimit | backend/hub/client.go:547-570 | yes iff fewer than 5 stored stamps are later than 1000 ms ago; those stay stored, with the new one if yes |
| MessageLimiter.PassesIffFewerThanFive | backend/hub/client.go:547-570 | in every run with clocks in order a message passes iff fewer than five earlier messages that passed are later than 1000 ms ago, although older ones are forgotten |
| MessageLimiter.AtMostFivePerSecond | backend/hub/client.go:547-570 | in every run no interval of one second less the skew lets more than five messages through |
| LimiterThreads.StepKeepsSound | backend/handler/ratelimit.go:77-145 | every step of every thread keeps the lock invariants: owners, mapped entries, one holder of the global mutex |
| LimiterOrder.StepKeepsPromise | backend/handler/ratelimit.go:79-101 | no step, of this or another thread, changes what a call that has taken the global mutex is going to answer, until it returns |
| LimiterOrder.LockGlobalTakesEffect | backend/handler/ratelimit.go:79-84 | a call takes effect when it takes the global mutex: the pending state becomes that of the atomic limiter |
| LimiterOrder.AlwaysOrdered | backend/handler/ratelimit.go:77-145 | in every reachable state the order of the global mutex explains all stored stamps and all answers |
| LimiterTheorems.NoOrphanEntries | backend/handler/ratelimit.go:79-84 | from fetching an entry until it returns, a call holds the entry mapped for its IP |
| LimiterTheorems.QuietIsAtomic | backend/handler/ratelimit.go:77-145 | once all calls have returned, answers and stored stamps are those of the atomic limiter in mutex order |
| LimiterTheorems.ConcurrentWindowBound | backend/handler/ratelimit.go:77-102 | the window bound, in seconds, at every point of every interleaving |
| LimiterTheorems.SomeoneCanStep | backend/handler/ratelimit.go:77-145 | no deadlock: while a call is unfinished, some unfinished call can step |
| ConnectionTheorems.EventKeepsSound | frontend/src/lib/api.ts:259-434 | every event keeps the invariant of sockets, promise, queue, timers and wires |
| ConnectionTheorems.AlwaysSound | frontend/src/lib/api.ts:226-434 | that invariant holds in every run |
| ConnectionOrder.JoinFirst | frontend/src/lib/api.ts:280-335 | on every socket the join is first, with the name and the non-empty token of that socket, and nothing else precedes its history, barring a kick during the join |
| ConnectionOrder.SentInOrder | frontend/src/lib/api.ts:410-434 | in every run the frames given to send in a generation are, in order, those shed as the oldest of a full queue, those held by an early kick, those written, those shed later, and the rest of the queue |
| ConnectionOrder.HistoryLayers | frontend/src/lib/api.ts:321-332 | confirming the join moves the whole queue to the wire, in order |
| ConnectionOrder.OrderKeptIff | frontend/src/lib/api.ts:410-426 | written frames followed by queued ones keep the given order iff nothing is written yet or no frame queued before an early kick is queued still |
| ConnectionOrder.OvertakesIff | frontend/src/lib/api.ts:306-312 | a send is written ahead of queued frames iff the socket was kicked during its join, is open, and something is queued |
| ConnectionOrder.OldWiresFrozen | frontend/src/lib/api.ts:259-264 | nothing is written on a socket of an older generation |
| ConnectionOrder.EarlyKickBreaksOrder | frontend/src/lib/api.ts:306-312 | an input for it: after a kick during the join a later frame is written before an earlier one that stays queued |
| ConnectionGuarantees.SettlesOnceByItsOwnEvents | frontend/src/lib/api.ts:259-367 | an event settles at most the current promise, never a settled one, and only if it is of that promise's generation |
| ConnectionGuarantees.PendingIsCurrent | frontend/src/lib/api.ts:264-267 | a pending join belongs to the current generation and is unsettled |
| ConnectionGuarantees.StaleEventsIgnored | frontend/src/lib/api.ts:270-358 | events of older sockets change no field of the client |
| ConnectionGuarantees.SupersededNeverSettles | frontend/src/lib/api.ts:259-267 | the promise of a generation that passed unsettled never settles |
| ConnectionOutcomes.AnswersIff | frontend/src/lib/api.ts:269-365 | an event answers a promise iff the promise is pending and the event is of its socket: history resolves, an error frame refuses with its text, a kick, the timeout, a failure and a close reject each in its own way; nothing else answers |
| ConnectionOutcomes.AnsweredIff | frontend/src/lib/api.ts:269-365 | in every run a promise has a given answer iff at some point of the run just that event occurred on its socket while it was pending |
| ConnectionOutcomes.PendingIff | frontend/src/lib/api.ts:264-267 | in every run a promise is pending iff it is that of the socket the client holds and has no answer |
| ConnectionOutcomes.NeverStuck | frontend/src/lib/api.ts:339-349 | a pending promise is never stuck: the close of its socket is still to come and would answer it |
| ConnectionOutcomes.SocketsFollow | frontend/src/lib/api.ts:269-365 | what every event does to every socket in every run: the client closes one only when its generation passes, its promise is refused or times out; timeouts are disarmed by opening, answer or firing; name and token stay |
| ConnectionOutcomes.OpenedAs | frontend/src/lib/api.ts:259-267 | a new socket is the current one and pending, with the name and token of the connect, or the name of the timer and the stored token |
| ConnectionOutcomes.ReconnectingAfter | frontend/src/lib/api.ts:321-332 | the client counts as reconnecting from arming a timer until a confirmed join, a disconnect or a late kick |
| ConnectionRecovery.DelayWithinAFifth | frontend/src/lib/api.ts:381-388 | each delay lies within a fifth of min(1000 * 2^k, 30000), rounding included |
| ConnectionRecovery.DelayIsRounded | frontend/src/lib/api.ts:381-388 | each delay is min(1000 * 2^k, 30000) times 0.8 to 1.2, as the random number says, to the nearest millisecond with halves up |
| ConnectionRecovery.AttemptAfter | frontend/src/lib/api.ts:283-284 | the attempts start again when a pending socket opens, and count the timers fired |
| ConnectionRecovery.ReconnectionIsBounded | frontend/src/lib/api.ts:369-404 | between two successful opens at most ten timer-driven sockets and at most 217200 ms of waiting |
| ConnectionRecovery.StaysOffline | frontend/src/lib/api.ts:369-371 | with no name and no timer nothing but the caller opens a socket, in any continuation |
| ConnectionRecovery.DisconnectOrKickIsFinal | frontend/src/lib/api.ts:313-318 | after disconnect, or a kick once joined, no socket is opened until the caller connects |
| ConnectionRecovery.DisconnectIsFinalIff | frontend/src/lib/api.ts:695-705 | after disconnect no continuation without a connect opens a socket iff every armed timer is the one whose handle is held |
| ConnectionRecovery.LateKickIsFinalIff | frontend/src/lib/api.ts:313-318 | after a kick once joined no continuation without a connect opens a socket iff no timer is armed |
| ConnectionRecovery.TimerGetsArmed | frontend/src/lib/api.ts:339-403 | a first connection that fails arms a timer in three events |
| ConnectionRecovery.ImpatienceSurvivesDisconnect | frontend/src/lib/api.ts:397-403 | connecting while a timer is armed leads to a timer that disconnect misses and that opens a socket |
| ConnectionRecovery.ImpatienceSurvivesKick | frontend/src/lib/api.ts:313-318 | connecting while a timer is armed, joining and being kicked leaves that timer, and it opens a socket |
| ConnectionRecovery.CloseArmsTimerIff | frontend/src/lib/api.ts:339-404 | a closing socket arms a timer iff it is current, nothing is pending, a name is known and fewer than ten attempts were made; which timer, with which name and delay, and under which handle |
| ConnectionRecovery.FailedFirstConnectionReconnects | frontend/src/lib/api.ts:342-365 | a first connection that fails with an error event rejects its promise and reconnects all the same |
| ConnectionIdentity.AlwaysRemembers | frontend/src/lib/api.ts:264-265 | in every run of a patient caller the stored name, token and timers are those of the last connect, and gone after disconnect or a late kick |
| ConnectionIdentity.IdentityAfter | frontend/src/lib/api.ts:264-318 | for any caller: connect sets name and token, disconnect and a late kick clear both, a timer brings back its own name but not its token |
| ConnectionIdentity.ReconnectsAsLastConnected | frontend/src/lib/api.ts:397-403 | a timer reconnects with the name and token of the caller's last connect |
| ChatApi.ChatApi.Connect | frontend/src/lib/api.ts:259-278 | the whole new state of connect |
| ChatApi.ChatApi.SendFrame | frontend/src/lib/api.ts:410-426 | writes or queues, sheds the oldest over 100, never queues a join |
| ChatApi.ChatApi.FlushOutboundQueue | frontend/src/lib/api.ts:428-434 | the loop appends the queue to the wire in order and empties it, if open and joined |
| ChatApi.ChatApi.FrameArrived | frontend/src/lib/api.ts:290-337 | the whole new state after error, kicked, history or any other frame; a pending promise of that socket is resolved by history, refused by an error with its text, rejected by a kick, and by nothing else |
| ChatApi.ChatApi.SocketClosed | frontend/src/lib/api.ts:339-354 | rejects the pending join, else tries to reconnect, for the current generation only |
| ChatApi.ChatApi.AttemptReconnect | frontend/src/lib/api.ts:369-404 | arms one timer with the jittered delay, unless no name or no attempts are left |
| ChatApi.ChatApi.Disconnect | frontend/src/lib/api.ts:695-712 | the whole new state of disconnect |
| ChatApi.ChatApi.Handle | frontend/src/lib/api.ts:259-434 | whatever event comes, the object follows the state machine and stays valid |
| MessageWindow.WindowMerger.MergeMessageWindow | frontend/src/stores/mergeMessageWindow.ts:30-115 | result and counter are those of the merge function |
| MessageWindow.WindowMerger.FindEcho | frontend/src/stores/mergeMessageWindow.ts:46-77 | finds an entry iff it is the first one named by client id, or, if none is, the last among the last five with an optimistic id, the same author and text and less than 5000 ms away, for a message that is not optimistic |
| MessageWindow.EchoIff | frontend/src/stores/mergeMessageWindow.ts:46-77 | the same of the function the merge is specified with |
| MergeTheorems.KnownIds | frontend/src/stores/mergeMessageWindow.ts:42-83 | the ids a batch is deduplicated against are those of the window and of the batch so far |
| MergeTheorems.AddedAreNew | frontend/src/stores/mergeMessageWindow.ts:45-84 | every message is echoed, skipped or added, these sum up to the batch, and the added ones keep its order |
| MergeTheorems.EntriesKeptOrEchoed | frontend/src/stores/mergeMessageWindow.ts:46-77 | every entry stays in its place, kept or replaced by an incoming message whose fate is to be an echo, with the old reactions |
| MergeTheorems.MergeIsExact | frontend/src/stores/mergeMessageWindow.ts:86-114 | the whole result: newest cap of patched ++ new or oldest cap of new ++ patched, dropped side, count, revision |
| MergeTheorems.NextMessageIs | frontend/src/stores/mergeMessageWindow.ts:45-84 | one more message of a batch: in place of the entry it echoes, with that entry's reactions; skipped if its id is in the window or the batch so far; else added behind |
| MergeTheorems.SingleMergeIs | frontend/src/stores/mergeMessageWindow.ts:30-115 | the whole result of merging one message, in all cases: messages, count, dropped side and revision |
| MergeTheorems.StepDistinctIff | frontend/src/stores/mergeMessageWindow.ts:45-84 | one message of a batch keeps all ids distinct iff it does not echo an entry while another entry or new message has its id |
| MergeTheorems.BatchDistinctIff | frontend/src/stores/mergeMessageWindow.ts:45-84 | ids are distinct after each message of a batch iff none of them clobbers in that way |
| MergeTheorems.SingleMergeDistinctIff | frontend/src/stores/mergeMessageWindow.ts:58-80 | merging one message gives distinct ids iff it does not clobber |
| MergeTheorems.CompatibleNeverClobbers | frontend/src/stores/mergeMessageWindow.ts:58-80 | distinct server messages never clobber, unless one is shown already and could echo an optimistic entry |
| MergeTheorems.NamedEntryIsOverwritten | frontend/src/stores/mergeMessageWindow.ts:46-56 | a message that names the id of a shown message takes its place, and that id is gone |
| MergeTheorems.MergeKeepsDistinct | frontend/src/stores/mergeMessageWindow.ts:30-115 | a batch without clobbering keeps ids distinct in either direction and under any cap |
| MergeTheorems.RedeliveryDuplicates | frontend/src/stores/mergeMessageWindow.ts:58-80 | a redelivered message with an optimistic twin is shown twice |
| MergeTheorems.BatchIsShown | frontend/src/stores/mergeMessageWindow.ts:45-84 | every message of a server batch is in the uncut result under its own id |
| MergeTheorems.RemergeAddsNothing | frontend/src/stores/mergeMessageWindow.ts:79-88 | merging the same batch again adds nothing if the first merge dropped nothing |
| ChatStore.FreshNeverClobbers | frontend/src/hooks/useWebSocket.ts:139-159 | the optimistic copy of what the user sends cannot clobber |
| ChatStore.NewIdNeverClobbers | frontend/src/stores/chatStore.ts:246-251 | a live message with a new id cannot clobber, whatever client id it names |
| ChatStore.AddedIs | frontend/src/stores/chatStore.ts:246-331 | a live message is put last in the public window unless its author is blocked, a bot message in the private one: in place of its echo, not at all if shown, else at the end of at most 500 |
| ChatStore.DeletedIs | frontend/src/stores/chatStore.ts:268-271 | deleting removes exactly the entries with the id and keeps the rest in order |
| ChatStore.EditedIs | frontend/src/stores/chatStore.ts:401-406 | editing changes text and mark of exactly the entries with the id |
| ChatStore.SystemLineIs | frontend/src/stores/chatStore.ts:272-299 | a system line is folded into a last system line with its key or text, and else put last |
| ChatStore.HistoryIs | frontend/src/stores/chatStore.ts:300-341 | a greeting is merged behind and cut to the last 500, an older page in front and cut to the first 1000; without new messages nothing is cut |
| ChatStore.ActionKeepsSound | frontend/src/stores/chatStore.ts:246-341 | every store action whose merge does not clobber keeps ids distinct and both windows within their caps |
| ChatStore.IdsStayDistinct | frontend/src/stores/chatStore.ts:246-341 | in every run of such actions ids stay pairwise distinct in both windows |
| Paging.GetRoomMessages | backend/store/store.go:428-490 | each message of a page is a row of the room (or addressed to nobody), older than the bound, in table order, without client id and without text if deleted; at most limit of them, and a row is passed over only if older than a full page; together the end of the matching messages in order of time |
| Paging.PageShowsRows | backend/store/store.go:466-483 | the same of the page function: which rows its messages come from and what becomes of each |
| Paging.PagePassesOver | backend/store/store.go:432-463 | the same of the page function: the limit, and which rows are passed over |
| Paging.ReverseInPlace | backend/store/store.go:487-490 | swapping from both ends reverses the array |
| Paging.MatchingBefore | backend/store/store.go:440-451 | asking for messages before a time gives the room's older messages |
| Paging.OlderPageIs | backend/hub/client.go:913-933 | a page is the up to 50 messages that end where the older ones end: directly before the window iff no tie |
| Paging.LoadOlderKeepsSuffixIff | frontend/src/hooks/useWebSocket.ts:246-261 | after a page the window is the end of the room iff the page is empty, or no tie was skipped and the cap holds |
| Paging.LiveKeepsSuffixIff | frontend/src/stores/chatStore.ts:246-267 | after a live message the window is the end of the room iff it echoes nothing, or is shown in place of the only entry |
| Paging.LiveKeepsShowing | frontend/src/stores/chatStore.ts:246-267 | a live message that fits keeps the window a suffix; beyond 500 the oldest go, loaded pages included |
| Paging.WindowStaysSuffix | frontend/src/stores/chatStore.ts:246-341 | over any mix of pages under the cap and live messages that fit the window stays the end of the room |
| Paging.JoinShows | backend/hub/client.go:234-246 | the first page shows the newest up to 100 messages |
| Paging.PagingIsComplete | frontend/src/components/MessageTranscript.tsx:185-191 | k pages show min(all, window + 50k) messages, and paging ends exactly when fewer than 50k were left |
| Paging.EndSurvivesTheCut | frontend/src/components/MessageTranscript.tsx:128-137 | at the end of paging a live message keeps the room complete iff it echoes nothing and fewer than 500 are shown, and what is lost is not loaded again |
| PagingRejoin.RejoinKeepsSuffixIff | frontend/src/hooks/useWebSocket.ts:246-261 | after a reconnection the window is the end of the room iff nothing was missed |
| PagingRejoin.RejoinEndsPagingIff | frontend/src/stores/chatStore.ts:333-341 | a reconnection ends paging iff the room has less than a page, or nothing was missed and the window holds the whole greeting |
| PagingWitnesses.TieIsSkipped | backend/store/store.go:440-445 | in every room of over 100 messages one tied with the top of the first window is skipped |
| PagingWitnesses.CapCutsNewest | frontend/src/stores/mergeMessageWindow.ts:100-105 | in every room of over 1000 messages the nineteenth page cuts off the newest |
| PagingWitnesses.EndIsLost | frontend/src/stores/mergeMessageWindow.ts:106-110 | in every room of 500 to 1000 messages a client at the end loses the oldest to the next live message for good |
| PagingWitnesses.MissedGoesInFront | frontend/src/hooks/useWebSocket.ts:246-261 | in every room a message missed while away is shown in front after the reconnection |
| PagingWitnesses.RejoinEndsPagingEarly | frontend/src/stores/chatStore.ts:333-341 | in every room of over 100 messages rejoining at once ends paging with older messages left |
| PagingWitnesses.PagingFailures | frontend/src/hooks/useWebSocket.ts:246-261 | rooms in which the tie, the cap and the early end occur exist, of every size over 1000 |
| PagingWitnesses.LiveFailures | frontend/src/hooks/useWebSocket.ts:246-261 | rooms in which the lost end and the misplaced message occur exist, of every size from 500 to 1000 |
| HubTheorems.StaysOpenIff | backend/hub/hub.go:412-450 | an event keeps all registered channels open iff it is no registration of a closed one, and no event panics meanwhile |
| HubTheorems.ChannelsAreSafe | backend/hub/hub.go:412-509 | with one join a connection nothing is sent on a closed channel or closed twice; closed exactly after leaving the registry |
| HubTheorems.LastLoginWins | backend/hub/hub.go:412-450 | the client registered under a name is the last to register under it, unless it left or the hub stopped since |
| HubTheorems.NoRivalAfterRegister | backend/hub/hub.go:414-434 | the break in the kick loop is sound: no rival is left after a registration |
| HubTheorems.OnlineOncePerClient | backend/hub/hub.go:536-549 | the online list has as many names as there are named clients |
| HubTheorems.RejoinPanics | backend/hub/hub.go:434-449 | a dropped connection that registers again makes the next broadcast panic |
| HubTheorems.RejoinHappens | backend/hub/hub.go:412-436 | two logins under one name lead to such a connection |
| HubTheorems.EventDelivers | backend/hub/hub.go:412-535 | an event delivers to each client its offers in order, as many as its channel has room for, and nothing to others |
| HubTheorems.DeliveryIsExact | backend/hub/hub.go:497-509 | over a run, taken plus queued messages are exactly the offers that met room, in order, and the queue holds at most 256 |
| HubTheorems.TakenAfter | backend/hub/client.go:585-595 | only the writer takes a message out of a channel, the oldest, one at a time |
| HubTheorems.RegistryIsRecorded | backend/hub/hub.go:412-495 | in every run the registry, the names and the rooms are the fold over registrations, kicks, unregistrations, room changes and the end |
| HubTheorems.ToRoomReaches | backend/hub/hub.go:857-879 | a message to a room reaches exactly the registered clients whose last room it is and whose channel holds fewer than 256 |
| HubLoop.Registry.Register | backend/hub/hub.go:412-442 | the whole new state of a registration with its kick |
| HubLoop.Registry.FindRival | backend/hub/hub.go:414-416 | finds another client under the name iff there is one, in any walking order |
| HubLoop.Registry.Unregister | backend/hub/hub.go:444-495 | the whole new state: channel closed once, user_left and user_status offered to the rest |
| HubLoop.Registry.Broadcast | backend/hub/hub.go:497-509 | offers to every registered client |
| HubLoop.Registry.SyncTick | backend/hub/hub.go:511-531 | offers the online list to every registered client |
| HubLoop.Registry.OnlineUsers | backend/hub/hub.go:536-549 | every registered name once, the empty one never |
| HubLoop.Registry.SendToClient | backend/hub/hub.go:795-814 | offers to that client iff it is registered |
| HubLoop.Registry.BroadcastToRoom | backend/hub/hub.go:857-879 | offers exactly to the clients in the room, or to all without one |
| HubLoop.Registry.Shutdown | backend/hub/hub.go:1286-1297 | closes every registered channel and empties the registry |
| HubLoop.Client.Send | backend/hub/hub.go:500-507 | a non-blocking send: queued if there is room, dropped if not, a panic if closed |
| HubLoop.Client.Take | backend/hub/client.go:585-595 | the writer takes the oldest queued message |
| OneTimeStore.Store.PutEntry | backend/handler/oidc.go:81-90 | prunes, then stores or refuses; the same for the token store |
| OneTimeStore.Store.TakeEntry | backend/handler/oidc.go:115-124 | removes the entry and gives it iff it is young enough |
| OneTimeStore.Store.PruneExpired | backend/handler/oidc.go:126-133 | deletes exactly the expired entries, in any order |
| OneTimeStore.CallRefines | backend/handler/oidc.go:81-133 | one call answers as on the never-pruned map and leaves the same live entries |
| OneTimeStore.RefinesNeverPruned | backend/handler/oidc.go:81-133 | every run is answered as by a map that never forgets: pruning and the ticker are unobservable |
| OneTimeStore.TakeExplained | backend/handler/oidc.go:196-205 | a take succeeds iff an accepted put that no take has followed is aged at most the time to live, and gives its entry |
| OneTimeStore.PutExplained | backend/handler/oidc.go:162-171 | a put is refused iff its key is not live and the live entries fill the store |
| OneTimeStore.StatesLastTenMinutes | backend/handler/oidc.go:81-124 | a login state can be taken while it is at most 600 s old, and is refused only when 1024 others are live |
| OneTimeStore.TokensLastFiveMinutes | backend/handler/oidc.go:162-205 | the tokens of a callback can be redeemed while at most 300 s old, and are refused only when 256 others are live |
| OneTimeStore.OnePutOneTake | backend/handler/oidc.go:115-124 | between a take of a key and a later successful one lies an accepted put of that key, whose entry is given, whatever the clock does |
| OneTimeStore.TakesNeverExceedPuts | backend/handler/oidc.go:115-124 | successful takes of a key never outnumber its accepted puts, whatever the clock does |
| OneTimeStore.SizeWithinCap | backend/handler/oidc.go:81-90 | the store never outgrows its capacity |
| Invites.Store.RegisterUser | backend/store/store.go:1506-1570 | the transaction's result and whole new tables, at every point of failure |
| Invites.Store.GenerateInviteCode | backend/store/store.go:1621-1653 | the first unused draw is stored, with 5 uses for a limit of 0 or less |
| Invites.AllOrNothing | backend/store/store.go:1506-1570 | a failed registration changes nothing; a successful one adds one user and one use |
| Invites.InvitesAreConserved | backend/store/store.go:1506-1653 | from an empty database users number the uses of all codes, also creator by creator, and no code is overused |
| Invites.CodeAdmitsAtMostItsLimit | backend/store/store.go:1536-1564 | in every run a code's use count is the number of users it admitted, at most its limit |
| Invites.TablesAreExplained | backend/store/store.go:1506-1653 | in every run the tables hold just what the recorded requests and answers say: who made each code, for how many and how many it admitted; whose hash and inviter each user has |
| Invites.RegistrationExplained | backend/store/store.go:1510-1569 | every answer to a registration, said of the recorded history alone, in the order of the checks and at every point of failure |
| Invites.RegistersIff | backend/store/store.go:1517-1569 | without a fault a registration succeeds iff its code was made for more users than it has admitted and nobody has the name; the account has the hash given and the maker of the code |
| Invites.GenerationExplained | backend/store/store.go:1625-1653 | a new code is the first draw that was never made before |
| Invites.TypedCodeIsNormal | backend/store/store.go:1510-1514 | any code typed in any case and with surrounding white space is found |
| Invites.InvitationWorks | backend/store/store.go:1621-1653 | a fresh code admits a new user, however it is typed |
| Snippet.ParseSnippetParts | frontend/src/components/SearchBar.tsx:8-24 | the loop over matches gives the parts of the parse function, and ends |
| Snippet.NoEarlier | frontend/src/components/SearchBar.tsx:10-13 | a mark is nowhere before the place where it is found |
| Snippet.MatchSplits | frontend/src/components/SearchBar.tsx:10-19 | a match with what is before and after it is the whole text |
| Snippet.PrintParse | frontend/src/components/SearchBar.tsx:8-24 | printing the parts of any text gives the text back |
| Snippet.ParseCanonical | frontend/src/components/SearchBar.tsx:8-24 | the parts of any text are a canonical list |
| Snippet.RoundTripIff | frontend/src/components/SearchBar.tsx:8-24 | parsing a printed list gives the list back iff it is canonical |
| Transcript.BuildMessageGroups | frontend/src/components/MessageTranscript.tsx:46-72 | the groups are lawful: all messages in order, coherent groups, none that could have gone on |
| Transcript.LastAdded | frontend/src/components/MessageTranscript.tsx:48-70 | a lawful grouping is that of all but the last message with one step of the loop |
| Transcript.LawfulIsUnique | frontend/src/components/MessageTranscript.tsx:46-72 | there is exactly one lawful grouping |

## Left out

- LimiterTheorems.SomeoneCanStep: says that some thread can step, not that each one finally does; Go's mutexes and scheduler are not modelled.
- LimiterTheorems.ConcurrentWindowBound: the skew is a hypothesis about the clocks in the order of the global mutex; how large it gets depends on the scheduler.
- Limiter.Window: time stamps are unbounded integers of nanoseconds, so the saturation of Go's durations is not modelled; the number the environment variable holds, if it holds one, is an argument of `AllowAPI`.
- RateLimiter.RateLimiter.PruneExpired: values of a foreign type in the map are not modelled, since nothing stores one.
- Connection.Delay: arithmetic is over reals, so floating-point rounding before `Math.round` is not modelled.
- ConnectionOrder.SentInOrder: frames are those given to `send` by callers, none of which sends a join itself; their JSON text is opaque.
- ConnectionOrder.OrderKeptIff: that the order is lost is stated for frames that are all different; with equal frames a changed order may not show.
- ChatApi.ChatApi.AttemptReconnect: the `reconnecting` and `reconnect_failed` dispatches to registered handlers are not modelled.
- ChatApi.ChatApi.FrameArrived: handlers registered by `on` and dispatched to are not run, so a handler that calls back into the client (for instance `disconnect` during `reconnecting`) is not modelled.
- MessageWindow.Merge: messages have the fields the merge and the store look at; replies, threads, attachments and the `private` flag are carried along in the source and absent here.
- ChatStore.IdsStayDistinct: store actions that touch neither window, previews, unread counts and the store's own copy of the revision are left out; only the revision of the merge module is modelled.
- Paging.GetRoomMessages: the table is a sequence in order of time, which is what ORDER BY makes of it (ties in table order); scan errors and the reactions joined to each message are left out.
- Paging.WindowStaysSuffix: server messages without ties or deletions, and a page answered before the next live message arrives; without optimistic entries and system lines, which the client itself appends.
- PagingRejoin.Rejoined: the system lines the client appends about a reconnection are left out.
- Hub.Step: a client's username is set by its registration, lists of names are sets, and `user_status` has no contents; last-seen times, rooms as such, cooldowns and logging are left out.
- HubTheorems.ChannelsAreSafe: direct writes of client handlers to their own channel, outside the hub's lock, and a second join on one connection are outside the hypothesis.
- HubTheorems.DeliveryIsExact: offers are those of the hub; history and error replies written by a client's own handlers are not among them.
- HubLoop.Registry.Broadcast: the unregistration that a full channel asks for is a later event of its own, in any order with the others.
- OneTimeStore.RefinesNeverPruned: the clock is the one read under the store's lock; generation and checking of the state value, the code verifier and the tokens are left out.
- Invites.Normal: upper case and white space are those of ASCII; other letters and spaces of Unicode are left as they are.
- Invites.GenerateInviteCode: random codes are a given sequence of draws; when all of them are taken the search is not finished and nothing has changed.
- Invites.Register: password hashing is opaque, and a failed statement is a parameter of the call.
- Snippet.Parse: the full-text index that makes the snippets is not modelled.
- React rendering, scrolling, gestures, translations, sounds, themes and the service worker: user interface.
- HTTP handlers, language models, identity-provider discovery and token exchange, link previews and media: network and file traffic over code that is not here.
- Streamed bot text, polls, profiles, notification settings, custom emoji: they would add only easy members.
