# opus.dev vote pipeline, modelled in Dafny

opus.dev is a live polling service. A voter posts a selection. The vote
endpoint checks the payload and takes a per-(poll, voter) lock in Redis with
`SET NX`. A first-time voter's vote is queued as a BullMQ job. A worker applies
the job to the poll document in MongoDB with one conditional update. That
update increments every selected option and appends the voter's IP to the
ledger, and it matches only while the IP is absent from the ledger. At most
once per second per poll, the worker then drops the cached results and
publishes the counts on the `poll_updates` channel. Every server process fans
each message out to the open WebSocket connections that joined that poll's
room. The results endpoint serves a cached snapshot or computes one. The
React client holds a few small rules: radio and checkbox selection, the 2-10
option editor, live total recomputation, the poll-code box and the dashboard
list.

The model works over explicit state:

- **Redis** is the `Infra.Redis` class. Lock and cooldown keys map to their
  expiry instant in milliseconds; the results cache maps a key to a snapshot
  and its expiry; published messages form a sequence.
- **MongoDB** is `Infra.PollStore`, a map from poll code to `Infra.PollDoc`
  objects, plus the audit-vote sequence. A poll document keeps its options in
  an array that the worker updates in place.
- **The BullMQ queue** is `Infra.VoteQueue`, a sequence of jobs.
- **Time** is a parameter `now` (milliseconds) of each handler.
- **`Math.random()`** is the sequence of numbers in [0, 1) the generator draws.

Modules follow the source files:

- `vote_controller.dfy`: the admission gate.
- `vote_worker.dfy`: the job handler.
- `rooms.dfy`: `server.ts`.
- `poll_controller.dfy`: the reads and the delete.
- `poll_code.dfy`: the generator.
- One module per client file: `vote_form.dfy`, `create_poll_form.dfy`,
  `results_view.dfy`, `hero_form.dfy`, `live_poll_hook.dfy`,
  `dashboard_list.dfy`.

`poll_model.dfy` gives the pure meaning of the conditional update (`ApplyVote`
on a `Tally`, the options and the ledger). The worker's array update is proved
against it. `scenarios.dfy` states and proves the outcome of concrete request
sequences.

Where the code falls short of what it evidently sets out to do, the model
follows the code:

- The results endpoint caches a snapshot for an hour
  (server/src/controllers/poll.controller.ts:106-110), and the worker deletes
  that cache key after a vote (server/src/workers/vote.worker.ts:82) so that
  reads reflect new votes. The delete sits inside the throttled branch, so a
  vote that lands within the one-second cooldown leaves the stale snapshot in
  place (see Findings).
- Clicking a checkbox twice restores the selection exactly when the option was
  unchecked, or was checked and already last. Any other checked option comes
  back at the end of the list (`VoteForm.ToggleTwice`,
  `VoteForm.ToggleTwiceRestoresIff`).
- A poll whose `isPublicResult` flag is off answers other requesters with 403
  "Results for this poll are private"
  (server/src/controllers/poll.controller.ts:89-90). A cache hit is returned
  before that check, so a private poll's cached results are served to anyone
  (see Findings). The live channel has no such check either: a join needs no
  credentials (server/src/server.ts:50-68) and the worker publishes every
  poll's counts (server/src/workers/vote.worker.ts:89-96), so any socket that
  joins a private poll's room receives its live counts.
  `PollController.GetPollResultsGuarded` closes only the HTTP read.
- Nothing keeps option texts distinct: the form sends repeated texts
  (client/src/pages/CreatePoll.tsx:73) and the poll is stored with them. The
  array filter at server/src/workers/vote.worker.ts:64 matches every copy, so
  a vote for such a text counts once per copy (`PollModel.IncrementedTotal`,
  `Scenarios.RepeatedTextCountsOncePerCopy`). Neither the gate nor the worker
  reads `isMultipleChoice`, so a request selecting several options of a
  single-choice poll is counted for each of them
  (`Scenarios.SingleChoicePollCountsTwoSelections`).
- The worker's throttle step (server/src/workers/vote.worker.ts:74-96) is
  meant to batch live updates, and clients replace their counts with each
  pushed list (client/src/pages/Results.tsx:58-77). But the worker publishes
  only on the vote that sets the cooldown, with the counts as they stand then.
  A later vote inside the window is never pushed unless another vote arrives
  after the window ends (`Scenarios.ThrottledVoteNotPushed`: votes at 0 ms and
  20 ms push only A = 1, B = 0 while the poll counts A = 1, B = 1).

## Model

| member | source | states |
|---|---|---|
| VoteController.VoterIP | server/src/controllers/vote.controller.ts:12 | the fingerprint is the forwarded-for header when non-empty, else the socket address when non-empty, else "unknown"; it is never empty |
| VoteController.VotePoll | server/src/controllers/vote.controller.ts:8-45 | an invalid selection gives 400 with no lock and no job; otherwise 202 exactly when no live lock exists for (code, IP), in which case the lock is set for 24 h and exactly the request's job is queued; otherwise 403 and nothing changes |
| VoteController.LockKeyInjective | server/src/controllers/vote.controller.ts:20 | for colon-free poll codes, equal lock keys mean the same poll and the same IP, so one voter's lock never blocks another |
| Infra.Redis.SetNX | server/src/controllers/vote.controller.ts:22-25 | writes the key with its expiry exactly when no live value exists, and reports whether it wrote |
| Infra.Redis.GetSnapshot | server/src/controllers/poll.controller.ts:73-75 | returns the cached snapshot exactly when the key is present and not expired |
| Infra.Redis.SetEx | server/src/controllers/poll.controller.ts:106-110 | stores the snapshot with an expiry of the given seconds from now |
| Infra.Redis.Del | server/src/workers/vote.worker.ts:82 | removes the key and nothing else |
| Infra.Redis.Publish | server/src/workers/vote.worker.ts:89-96 | appends the message to the channel |
| Infra.PollStore.CreateAudit | server/src/workers/vote.worker.ts:46-51 | appends one audit record |
| Infra.VoteQueue.Add | server/src/controllers/vote.controller.ts:32-40 | appends one job |
| PollModel.ApplyVote | server/src/workers/vote.worker.ts:54-67 | after the conditional update the IP is always in the ledger |
| PollModel.Incremented | server/src/workers/vote.worker.ts:59-64 | the option count and every option's text are kept; each count grows by zero or one |
| PollModel.TotalVotesBounds | server/src/controllers/poll.controller.ts:93 | the total is at least every option's count, and zero exactly when every count is zero |
| PollModel.LiveTotalBounds | client/src/pages/Results.tsx:61 | the client's total over a pushed list is at least every entry's count, and zero exactly when every count is zero |
| PollModel.IncrementedChangesOnlySelected | server/src/workers/vote.worker.ts:59-64 | each option whose text is selected gains exactly one however often the text repeats; every other option is unchanged |
| PollModel.IncrementedTotal | server/src/workers/vote.worker.ts:59-64 | the total grows by exactly the number of options the selection matches |
| PollModel.SingleSelectionMatchesOne | server/src/workers/vote.worker.ts:64 | with distinct option texts, a one-text selection naming an option matches exactly one option |
| PollModel.ApplyVoteIdempotent | server/src/workers/vote.worker.ts:54-72 | applying the same vote twice equals applying it once |
| PollModel.ApplyVoteMonotone | server/src/workers/vote.worker.ts:57-61 | the option count is kept, counters never decrease, the ledger only grows and stays free of repeated IPs |
| PollModel.UnmatchedSelectionStillRecordsVoter | server/src/workers/vote.worker.ts:57-64 | a fresh IP whose selection names no option is still appended, with all counts unchanged |
| PollModel.DistinctVotersAllCounted | server/src/workers/vote.worker.ts:54-67 | for a poll with distinct option texts, K single-choice jobs from K distinct fresh IPs raise the total by exactly K and add exactly K ledger entries |
| PollModel.PercentOf | server/src/controllers/poll.controller.ts:97 | the zero-total branch (`ZeroPercent`, shown "0.0") is taken exactly when the total is zero; otherwise the share is that option's count over the total |
| PollModel.LiveResults | server/src/workers/vote.worker.ts:84-87 | the published list has one entry per option |
| PollModel.LiveResultsTotal | server/src/workers/vote.worker.ts:84-87 | the counts of the published list sum to the poll's total |
| VoteWorker.IncrementSelected | server/src/workers/vote.worker.ts:59-64 | applying the `$[elem]` increment to the options array leaves exactly `Incremented` of the old options |
| VoteWorker.ApplyJob | server/src/workers/vote.worker.ts:34-72 | unknown poll: nothing written; expired poll: nothing written; otherwise one audit record, then the tally becomes `ApplyVote` of the old tally, as a duplicate when the IP was already in the ledger |
| VoteWorker.ProcessVote | server/src/workers/vote.worker.ts:29-105 | as `ApplyJob`, plus: a broadcast happens exactly when the vote was applied and the cooldown was not live; only then is the cooldown set for 1 s, the cached results dropped and the full `{text, votes}` list of the updated poll published |
| VoteWorker.ProcessVoteCoherent | server/src/workers/vote.worker.ts:75-96 | the corrected handler: after every applied vote the poll's results key is absent from the cache; the publish is still throttled |
| PollController.StripVotes | server/src/controllers/poll.controller.ts:50-52 | one text-only entry per option, same texts in order |
| PollController.StripVotesHidesCounts | server/src/controllers/poll.controller.ts:50-52 | polls with the same option texts give the same stripped list whatever their counts |
| PollController.GetPollByCode | server/src/controllers/poll.controller.ts:40-67 | 404 exactly when the code is unknown; otherwise the poll's fields with options stripped of counts |
| PollController.ResultRows | server/src/controllers/poll.controller.ts:94-98 | one row per option |
| PollController.ComputeSnapshot | server/src/controllers/poll.controller.ts:93-104 | one result row per option |
| PollController.SnapshotConsistent | server/src/controllers/poll.controller.ts:93-104 | the snapshot keeps the title, and each option's text and count in order; the total is the sum of the rows; every row takes the zero-total branch (`ZeroPercent`, shown "0.0") exactly when the total is zero |
| PollController.RowsTotalOf | server/src/controllers/poll.controller.ts:93 | the rows' counts sum to the options' total |
| PollController.GetPollResults | server/src/controllers/poll.controller.ts:69-115 | a live cache entry is returned as is, with no lookup and no visibility check; else 404 for an unknown code, 500 when a signed-in requester meets a poll with no creator, 403 for a private poll and a non-creator; else the computed snapshot, cached for 3600 s |
| PollController.GetPollResultsGuarded | server/src/controllers/poll.controller.ts:73-91 | the corrected read: a snapshot is returned only to a requester allowed to see it, from the cache or freshly computed |
| PollController.DeletePoll | server/src/controllers/poll.controller.ts:117-134 | 404 for an unknown code; 403 with no user or when a recorded creator is someone else; otherwise the poll is removed and 200 returned |
| Rooms.Registry.constructor | server/src/server.ts:15 | the registry starts with no rooms |
| Rooms.Registry.OnMessage | server/src/server.ts:50-68 | a JOIN_POLL frame with a code adds the socket to that room, creating the room when absent, and records the code on the socket; every other frame changes nothing; no room is ever empty |
| Rooms.Registry.OnClose | server/src/server.ts:70-79 | for a socket that is no longer open (the close event comes after the connection closed), the socket leaves the room it last joined, and the room is deleted when it becomes empty; a socket with no live room changes nothing; no room is ever empty |
| Rooms.Registry.Broadcast | server/src/server.ts:25-43 | every open socket in the poll's room receives the message data once; closed sockets receive nothing; other sockets are not touched |
| PollCodes.AlphabetsAsWritten | server/src/utils/pollCodeGenerator.ts:2-3 | the two alphabets are "A".."Z" and "0".."9" |
| PollCodes.PickIndex | server/src/utils/pollCodeGenerator.ts:6 | `floor(r * n)` is an index in [0, n) for every r in [0, 1) |
| PollCodes.RandomString | server/src/utils/pollCodeGenerator.ts:5-6 | one character per draw, each taken from the alphabet |
| PollCodes.GeneratePollCode | server/src/utils/pollCodeGenerator.ts:1-10 | every generated code has six characters: two capitals, then four digits |
| PollCodes.EveryWellFormedCodeIsGenerated | server/src/utils/pollCodeGenerator.ts:1-10 | every code of that shape is produced by some draw |
| PollCodes.WellFormedCodeHasNoColon | server/src/utils/pollCodeGenerator.ts:8 | generated codes contain no ':', as `LockKeyInjective` needs |
| VoteForm.Toggle | client/src/pages/Vote.tsx:61-65 | a click flips the clicked option's membership and leaves every other option's membership unchanged; the selection grows by at most one |
| VoteForm.HandleOptionChange | client/src/pages/Vote.tsx:56-70 | ignored until the poll is loaded; single choice selects exactly the clicked option |
| VoteForm.ToggleAbsentAppends | client/src/pages/Vote.tsx:62-64 | checking an absent option appends it at the end |
| VoteForm.ToggleRemovesPresent | client/src/pages/Vote.tsx:62-64 | unchecking an option held once removes exactly it, keeping the rest in order |
| VoteForm.ToggleKeepsNoDuplicates | client/src/pages/Vote.tsx:61-65 | a duplicate-free selection stays duplicate-free |
| VoteForm.ToggleTwice | client/src/pages/Vote.tsx:61-65 | two clicks restore an absent option's selection exactly; a present option ends up moved to the end |
| VoteForm.ToggleTwiceRestoresIff | client/src/pages/Vote.tsx:61-65 | two clicks give back the same selection exactly when the option was unchecked, or was checked and already last |
| VoteForm.SubmitVote | client/src/pages/Vote.tsx:74-77 | no request exactly when the selection is empty |
| VoteForm.SubmittedSelectionIsValid | client/src/pages/Vote.tsx:85-87 | whatever the page posts passes the endpoint's payload validation |
| CreatePollForm.InitialOptions | client/src/pages/CreatePoll.tsx:33-36 | the form starts with two options |
| CreatePollForm.AddOption | client/src/pages/CreatePoll.tsx:52-56 | one empty option is appended only below ten options |
| CreatePollForm.WithoutIndex | client/src/pages/CreatePoll.tsx:60 | exactly the entry at the index is removed, the others keep their order |
| CreatePollForm.RemoveOption | client/src/pages/CreatePoll.tsx:58-63 | an entry is removed only above two options |
| CreatePollForm.ChangeOptionText | client/src/pages/CreatePoll.tsx:46-50 | the entry at the index gets the new text; the length and every other entry are unchanged |
| CreatePollForm.EditsKeepOptionCountInBounds | client/src/pages/CreatePoll.tsx:52-63 | any run of edits keeps between two and ten options |
| CreatePollForm.FromInitialFormInBounds | client/src/pages/CreatePoll.tsx:33-36 | from the initial form the count stays between two and ten |
| CreatePollForm.FilledOptions | client/src/pages/CreatePoll.tsx:73 | an option is sent exactly when its text is not blank, every copy of a filled option is sent and none of a blank one, and the sent options keep their order |
| Common.FilterCounts | client/src/pages/CreatePoll.tsx:73 | `filter` keeps every copy of an accepted element and no copy of a rejected one |
| CreatePollForm.SubmitPoll | client/src/pages/CreatePoll.tsx:67-88 | no request exactly when fewer than two options are filled; the request carries the title and exactly the filled options |
| ResultsView.LiveSync | client/src/pages/Results.tsx:58-77 | one row per live entry |
| ResultsView.LiveSyncConsistent | client/src/pages/Results.tsx:58-77 | the title is the previous non-empty title, or else "Poll Results"; rows keep the live texts and counts in order; the total is their sum; every row takes the zero-total branch (`ZeroPercent`, shown "0.0") exactly when it is zero |
| ResultsView.RowsMatchLive | client/src/pages/Results.tsx:61-67 | the rows' counts sum to the live total |
| ResultsView.LiveSyncAgreesWithServer | client/src/pages/Results.tsx:58-77 | a live update built from a poll gives the page exactly the snapshot the results endpoint computes for it |
| Text.Trim | client/src/components/HeroPollForm.tsx:24 | the result is no longer than the input and neither starts nor ends with whitespace |
| Text.TrimEmptyIffBlank | client/src/pages/CreatePoll.tsx:73 | `trim` yields "" exactly when the input is all whitespace |
| Text.ToUpperAscii | client/src/components/HeroPollForm.tsx:24 | same length, no lower-case ASCII letter, whitespace kept in place |
| HeroForm.NormalizeCode | client/src/components/HeroPollForm.tsx:24 | the code has no surrounding whitespace and no lower-case ASCII letter |
| HeroForm.OnSubmit | client/src/components/HeroPollForm.tsx:22-28 | no navigation exactly when the input is blank; otherwise the route is "/vote/" followed by the normalised code, which is non-empty, has no surrounding whitespace and no lower-case ASCII letter |
| HeroForm.NormalizeIdempotent | client/src/components/HeroPollForm.tsx:24 | normalising a normalised code changes nothing |
| HeroForm.TrimOfTrimmed | client/src/components/HeroPollForm.tsx:24 | a string without surrounding whitespace is its own trim |
| HeroForm.TrimAround | client/src/components/HeroPollForm.tsx:24 | trim removes exactly the whitespace around a word |
| HeroForm.TypedCodeReachesItsPoll | client/src/components/HeroPollForm.tsx:22-28 | a generated code typed in any letter case with surrounding spaces leads to that code's page |
| LivePollHook.LivePoll.constructor | client/src/hooks/usePollWebSocket.ts:28-32 | a connection is opened only for a non-empty code |
| LivePollHook.LivePoll.OnOpen | client/src/hooks/usePollWebSocket.ts:34-44 | the hook becomes connected and sends exactly one join for its own code |
| LivePollHook.LivePoll.OnMessage | client/src/hooks/usePollWebSocket.ts:46-59 | a VOTE_UPDATE for the hook's own code replaces the live results; anything else changes nothing |
| LivePollHook.LivePoll.OnClose | client/src/hooks/usePollWebSocket.ts:61-64 | the hook becomes disconnected |
| LivePollHook.JoinFrameIsJoin | client/src/hooks/usePollWebSocket.ts:40-43 | the hook's join frame is one the server registers under the hook's code |
| LivePollHook.PublishedUpdateReachesOnlyItsPoll | client/src/hooks/usePollWebSocket.ts:52 | the worker's message is accepted exactly by hooks for that poll and carries the poll's counts in order |
| DashboardList.HandleDelete | client/src/pages/Dashboard.tsx:29-41 | a request is sent exactly when confirmed; the list changes only after a confirmed, accepted delete |
| DashboardList.DeleteRemovesOnlyThatCode | client/src/pages/Dashboard.tsx:35 | after a delete no card with the code remains, all other cards remain, in order |
| DashboardList.DeleteOfAbsentCodeKeepsList | client/src/pages/Dashboard.tsx:35 | a list without the code is unchanged |
| Scenarios.GateAdmitsEachVoterOnce | server/src/controllers/vote.controller.ts:20-40 | F1 is admitted, F1's second request is refused with 403, F2 is admitted; exactly two jobs are queued |
| Scenarios.WorkerCountsEachVoterOnce | server/src/workers/vote.worker.ts:46-72 | F1 for A is applied, a replay of F1 for B is a duplicate, F2 for B is applied: A = 1, B = 1, two ledger entries, three audit records |
| Scenarios.StaleCacheAfterThrottledVote | server/src/workers/vote.worker.ts:75-82 | as written, a read after a vote inside the cooldown is served total 1 while the poll counts 2 |
| Scenarios.ThrottledVoteNotPushed | server/src/workers/vote.worker.ts:75-96 | as written, votes at 0 ms and 20 ms leave exactly one published message, carrying A = 1, B = 0, while the poll counts A = 1, B = 1 |
| Scenarios.FreshCacheAfterThrottledVote | server/src/workers/vote.worker.ts:75-82 | with the corrected handler the same read is served total 2 |
| Scenarios.PrivateResultsServedFromCache | server/src/controllers/poll.controller.ts:73-91 | as written, a private poll's results read by its creator are then served to an anonymous requester |
| Scenarios.PrivateResultsGuarded | server/src/controllers/poll.controller.ts:73-91 | with the corrected read the anonymous requester gets 403 |
| Scenarios.RejoinedSocketStaysInFirstRoom | server/src/server.ts:25-79 | a socket that joins two polls and closes is removed from the second room only; it stays in the first, and a later update for the first poll is not sent to it |
| Scenarios.SingleChoicePollCountsTwoSelections | server/src/workers/vote.worker.ts:34-72 | a job selecting both options of a single-choice poll is applied and raises both counts |
| Scenarios.RepeatedTextCountsOncePerCopy | server/src/workers/vote.worker.ts:54-67 | one fresh vote for a text held by two options raises the total by two |

## Left out

- Transport and plumbing are left out: Express routing, JSON parsing and serialisation, the Redis, MongoDB and BullMQ connections, and worker and server start-up. Parsed frames are the `ClientFrame` and `ServerFrame` datatypes; the fan-out's serialise-once step is not modelled.
- Concurrency is left out. The queue runs five jobs at a time and there are many server processes. Each handler is one atomic step here, so the atomicity of the Mongo conditional update is taken as given, not proved.
- BullMQ retries and the failed-job list are left out. A job for an unknown poll ends as `PollNotFound`, where the source throws so that the queue records a failure.
- Clocks are the `now` parameter. `new Date()` and the Redis expiries are compared against it with the source's strict `<`.
- `toFixed(1)` percentages are the symbolic `Percentage` values. Floating-point formatting is not modelled.
- PollModel.PercentOf: the model does not format strings, so it does not show that a non-zero total can also render as "0.0" (`Share(0, t)`, and any share under 0.05 %); only the zero-total branch is tied to the total being zero.
- `opt.votes || 0` is left out: counts are `nat` and always present.
- `toUpperCase` is modelled for ASCII letters only; other Unicode case mappings are not modelled.
- `Math.random()` is the sequence of draws passed in. Uniformity and independence of the draws are not modelled.
- CreatePollForm.ChangeOptionText: works on values. The source's shallow copy still shares the option objects, so the assignment also changes the previous state's object; that aliasing is not captured.
- Rooms.Registry.Broadcast: sends in an arbitrary order. The source walks the set in insertion order.
- createPoll, getMyPolls, QR-code upload, authentication and the user controller are not part of this model. Polls enter the store through `PollStore.Insert`.
- The poll view omits `qrUrl` and `createdAt`, and ledger entries are plain IP strings rather than `{ip}` objects.
- The client's data fetching, toasts, navigation after a vote, loading flags and rendering are left out. The hook's `onerror` and its close on unmount or code change are left out too.
- Dashboard.tsx: `window.confirm` and the delete request's outcome are parameters of `HandleDelete`.

## Findings

| source | as written | input that shows it | evidently intended | confidence | as-written member | corrected member |
|---|---|---|---|---|---|---|
| server/src/workers/vote.worker.ts:81-82 | the cached results are dropped only inside the throttled broadcast branch | vote A by F1 at 0 ms (broadcast); results read at 10 ms caches total 1; vote B by F2 at 20 ms (inside the 1 s cooldown, no drop); read at 30 ms returns total 1 while the poll counts 2, until a later broadcast or the 1 h expiry | every applied vote drops the cached snapshot (the purpose of the delete at vote.worker.ts:82), so the next read reflects it; only the publish is throttled | not executed | Scenarios.StaleCacheAfterThrottledVote (over VoteWorker.ProcessVote) | VoteWorker.ProcessVoteCoherent, Scenarios.FreshCacheAfterThrottledVote |
| server/src/controllers/poll.controller.ts:73-91 | a cache hit is returned before the poll is loaded and before the visibility check | private poll; its creator reads the results at 0 ms (computed and cached); an anonymous request at 1 ms gets the same results with status 200 | the HTTP results of a poll with `isPublicResult` off go only to its creator, as the 403 "Results for this poll are private" at poll.controller.ts:89-90 says (the live channel still pushes the counts to any joined socket; see the list above) | not executed | Scenarios.PrivateResultsServedFromCache (over PollController.GetPollResults) | PollController.GetPollResultsGuarded, Scenarios.PrivateResultsGuarded |
