# NexChat presence and matching coordinator, in Dafny

This project models the in-memory coordinator of NexChat
(`backend/NexChat.Infrastructure/Services/MatchingService.cs`). The coordinator pairs
anonymous users into chat sessions and tracks who is reachable. Its state is six
process-wide collections:

- the user → connection map;
- the pending connect-by-code requests, keyed by requester and holding the target and creation time;
- three FIFO queues (unfiltered, "male", "female");
- the waiting set of users who are still searching.

Files:

- `wrappers.dfy`: `Option` and `Result`.
- `match_queues.dfy`, module `MatchQueues`:
  - the queue buckets and a value snapshot of them (`QueueSet`);
  - the filter-to-queues switches `GetQueues` and `GetPrimaryQueue`;
  - a specification of the head-first scan a match attempt performs (`ScanQueue`, `Search`);
  - an independent reference definition of whom that scan finds (`FirstLive`);
  - the lemmas connecting the scan to the reference definition and to the waiting set.
- `matching_service.dfy`, module `Matching`: the class `MatchingService`. It holds the six collections as `map`/`seq`/`set` fields (plus a session-id counter). Each public operation that changes state is a method whose contract states the complete new state and the result; the read-only lookup `GetConnectionId` is a function. The object invariant `Valid()` says:
  - every waiting user still has an entry in some queue, so lazy purging of stale entries never strands a searcher. `TryMatch` draws on this: an unfiltered search always pairs the caller when anyone else is waiting (lemma `WaitingPartnerFound`);
  - no request is addressed to its own sender.
- `scenarios.dfy`, module `Scenarios`: concrete runs of the class, each proved from the operations' contracts and the search functions `Search`/`ScanQueue` (with the lemma `SearchSkipHead`). They cover stale-entry skipping, exactly-once accept, the 60-second boundary and the disconnect purge.

External inputs are parameters:

- the clock is `now: int` in whole seconds;
- the directory lookup of a code (a user with that code who is not banned) is `found: Option<UserId>`;
- session persistence is a `SessionDescriptor(id, user1, user2, kind)` whose id comes from the counter `nextSessionId`.

Each public method is one atomic step; calls run one after another.

Two behaviours of the code differ from what one might expect; the model follows the code:

- One might expect a request to fail as already pending before the target's presence is looked at. The code checks that the target is online first, and only then whether the requester already has a pending request (`MatchingService.cs:83-88`).
- One might expect a user to sit in at most one queue. The code does not guarantee this. A repeated search that finds no partner drains every queue it scans, and with them the caller's own entry (`MatchingService.cs:26-29`); a search that finds a partner stops there and leaves the later queues alone. Suppose the second search finds no partner. Going from "male" to the unfiltered filter, or from the unfiltered filter to "male" or "female", then drops the old entry. Going from "male" to "female", or from "female" to "male", never scans the old queue, so the user then holds two entries. If the second search finds a partner, the caller is not enqueued again. Its old entry survives only when the scan stops before reaching it. For example, going from "male" to the unfiltered filter with the partner in the female queue drains the male queue, and the caller's entry with it. An old entry that does survive is discarded by a later search unless the caller is waiting again. The model therefore proves only the weaker invariant stated above.

## Model

| member | source | states |
|---|---|---|
| MatchQueues.GetPrimaryQueue | backend/NexChat.Infrastructure/Services/MatchingService.cs:135-140 | "male" selects the male queue, "female" the female queue, and every other string the unfiltered queue |
| MatchQueues.GetQueues | backend/NexChat.Infrastructure/Services/MatchingService.cs:142-147 | The scan order is [Male, All] for "male", [Female, All] for "female" and [All, Male, Female] otherwise. It always starts with the primary queue, always includes the unfiltered queue and has no repeats |
| MatchQueues.ScanQueue | backend/NexChat.Infrastructure/Services/MatchingService.cs:26-29 | Draining one queue head-first discards only entries that are the caller or not waiting. The partner is the first live entry. With no partner the whole queue was consumed and every entry was discardable |
| MatchQueues.Search | backend/NexChat.Infrastructure/Services/MatchingService.cs:24-44 | A found partner is never the caller and is always waiting |
| MatchQueues.SearchLeavesOnMatch | backend/NexChat.Infrastructure/Services/MatchingService.cs:24-42 | For an order without repeats, on a match: every queue scanned before the partner's is drained; the partner's queue loses exactly the entries up to and including the partner; every later or unscanned queue is unchanged, so nothing is enqueued |
| MatchQueues.SearchFindsWaiting | backend/NexChat.Infrastructure/Services/MatchingService.cs:24-29 | A search finds a partner whenever a scanned queue holds an entry of a waiting user other than the caller |
| MatchQueues.UnfilteredSearchPairs | backend/NexChat.Infrastructure/Services/MatchingService.cs:142-147 | An unfiltered search pairs the caller whenever any other waiting user holds an entry in any queue |
| MatchQueues.WaitingPartnerFound | backend/NexChat.Infrastructure/Services/MatchingService.cs:20-29 | When every waiting user holds a queue entry, the caller (added to the waiting set first) is paired whenever a scanned queue holds another waiting user. An unfiltered caller is paired whenever anyone else is waiting |
| MatchQueues.SearchKeepsInvariant | backend/NexChat.Infrastructure/Services/MatchingService.cs:20-47 | A match attempt keeps every waiting user holding a queue entry. On a match this covers everyone still waiting apart from the pair; with no match it covers everyone waiting, the caller included, once the caller joins its primary queue |
| MatchQueues.SearchFrame | backend/NexChat.Infrastructure/Services/MatchingService.cs:24-44 | Queues outside the scan order are untouched by a search. With no partner, every scanned queue is left empty |
| MatchQueues.FirstLive | backend/NexChat.Infrastructure/Services/MatchingService.cs:24-29 | Reference definition: the index of the first queue in scan order that holds a live entry. Every earlier queue holds none |
| MatchQueues.ScanFindsLive | backend/NexChat.Infrastructure/Services/MatchingService.cs:26-29 | A queue scan finds a partner if and only if the queue holds an entry that is neither the caller nor non-waiting |
| MatchQueues.SearchIsFirstLive | backend/NexChat.Infrastructure/Services/MatchingService.cs:24-42 | For an order without repeats, the search's partner is the head-most live entry of the first queue in scan order that holds one. There is no partner exactly when no scanned queue holds a live entry |
| MatchQueues.SearchSkipHead | backend/NexChat.Infrastructure/Services/MatchingService.cs:28-29 | Discarding a stale or self entry at the head changes neither the partner nor the queues the search leaves behind |
| MatchQueues.SearchSkipEmpty | backend/NexChat.Infrastructure/Services/MatchingService.cs:24-26 | An empty queue at the front of the scan order is passed over |
| MatchQueues.SearchKeepsWaiting | backend/NexChat.Infrastructure/Services/MatchingService.cs:26-32 | A waiting user other than the caller and the partner keeps a queue entry after the search |
| Matching.WithoutUser | backend/NexChat.Infrastructure/Services/MatchingService.cs:126-133 | After the purge no request names the user as requester or target. Every other request is kept with its value |
| Matching.MatchingService.constructor | backend/NexChat.Infrastructure/Services/MatchingService.cs:10-15 | All six collections start empty and the invariant holds |
| Matching.MatchingService.Dequeue | backend/NexChat.Infrastructure/Services/MatchingService.cs:26 | An empty queue yields nothing and is unchanged. Otherwise the head is removed and returned |
| Matching.MatchingService.Enqueue | backend/NexChat.Infrastructure/Services/MatchingService.cs:46 | The user is appended at the tail of exactly one queue |
| Matching.MatchingService.TryMatch | backend/NexChat.Infrastructure/Services/MatchingService.cs:17-48 | The connection map sends the caller to the given connection. On a match: the partner is not the caller and was waiting; both leave the waiting set; the result is (partner, caller, Random); nothing is enqueued. Otherwise: the scanned queues are drained, the caller is waiting and is appended to its primary queue, and the result is null. The invariant is kept. The caller is always paired when a scanned queue holds another waiting user, and, for an unfiltered search, whenever anyone else is waiting |
| Matching.MatchingService.Drain | backend/NexChat.Infrastructure/Services/MatchingService.cs:22-44 | The dequeue loop returns exactly the partner `Search` finds and leaves exactly the queues `Search` leaves |
| Matching.MatchingService.RemoveFromQueue | backend/NexChat.Infrastructure/Services/MatchingService.cs:50-55 | Only the waiting membership and the connection are removed. Queue entries and pending requests stay |
| Matching.MatchingService.GetConnectionId | backend/NexChat.Infrastructure/Services/MatchingService.cs:57-61 | The result is present exactly when the user has a connection, and it is that connection |
| Matching.MatchingService.SetUserOnline | backend/NexChat.Infrastructure/Services/MatchingService.cs:63-67 | The connection is overwritten unconditionally, so a later lookup returns it. Other users' lookups are unchanged and the invariant is kept |
| Matching.MatchingService.SetUserOffline | backend/NexChat.Infrastructure/Services/MatchingService.cs:69-75 | The user is not waiting and has no connection. No pending request has the user as key or target, and all other requests are untouched |
| Matching.MatchingService.RemovePendingRequestsForUser | backend/NexChat.Infrastructure/Services/MatchingService.cs:126-133 | The loop over a snapshot of the table leaves exactly `WithoutUser` of the old table |
| Matching.MatchingService.RequestConnectionByCode | backend/NexChat.Infrastructure/Services/MatchingService.cs:77-92 | Checked in this order: an unknown or banned target, or the requester itself, fails with TargetNotFound; a target with no connection fails with TargetOffline; a requester that already has a pending request fails with RequestAlreadyPending. Any error leaves the table unchanged. Success happens exactly when none of these applies; it records (target, now) under the requester and returns the target |
| Matching.MatchingService.AcceptConnectionRequest | backend/NexChat.Infrastructure/Services/MatchingService.cs:94-112 | The requester's entry is always removed. A session (requester, target, Code) is returned exactly when the entry existed, named this target, and at most 60 seconds had elapsed. A returned session never pairs a user with itself |
| Matching.MatchingService.DeclineConnectionRequest | backend/NexChat.Infrastructure/Services/MatchingService.cs:114-119 | Returns true and removes the entry exactly when it exists and names this target, with no expiry check. Otherwise the table is unchanged |
| Matching.MatchingService.CancelConnectionRequest | backend/NexChat.Infrastructure/Services/MatchingService.cs:121-124 | Removes the requester's entry whatever its target, and returns whether one existed |
| Scenarios.AnyFilterFindsMaleQueue | backend/NexChat.Infrastructure/Services/MatchingService.cs:17-48 | A "male" searcher waits. A later unfiltered searcher finds the unfiltered queue empty and is paired with the male-queue user as (1, 2, Random) |
| Scenarios.CancelledEntryIsSkipped | backend/NexChat.Infrastructure/Services/MatchingService.cs:24-29 | A cancelled searcher's entry is discarded, not matched. The next searcher waits alone |
| Scenarios.RepeatedSearchNeverSelfMatches | backend/NexChat.Infrastructure/Services/MatchingService.cs:28-29 | A user searching twice discards its own entry and is queued once |
| Scenarios.AcceptIsExactlyOnce | backend/NexChat.Infrastructure/Services/MatchingService.cs:94-124 | After one successful accept, a second accept, a decline and a cancel of the same request all fail |
| Scenarios.ExpiryBoundary | backend/NexChat.Infrastructure/Services/MatchingService.cs:94-101 | An accept exactly 60 seconds after the request succeeds. An accept 61 seconds after fails |
| Scenarios.WrongTargetConsumesRequest | backend/NexChat.Infrastructure/Services/MatchingService.cs:98-99 | An accept by the wrong user still removes the request, so the real target's accept fails |
| Scenarios.RequestErrors | backend/NexChat.Infrastructure/Services/MatchingService.cs:79-88 | Unknown code and self-request give TargetNotFound. An offline target gives TargetOffline. A second request gives RequestAlreadyPending |
| Scenarios.DisconnectPurgesRequests | backend/NexChat.Infrastructure/Services/MatchingService.cs:69-75 | After the target disconnects, an accept of its incoming request fails, a new request to it fails as offline, and its lookup is absent |
| Scenarios.DisconnectPurgesSearch | backend/NexChat.Infrastructure/Services/MatchingService.cs:69-75 | A searcher who disconnects is not matched by a later searcher; its queue entry is discarded |
| Scenarios.ReconnectOverwrites | backend/NexChat.Infrastructure/Services/MatchingService.cs:63-67 | A second SetUserOnline replaces the first connection |

## Left out

- Concurrency. `ConcurrentDictionary` and `ConcurrentQueue` give exactly-once guarantees under races; here each public method is one atomic step and calls run one after another.
- Persistence. `db.ChatSessions.Add` and `SaveChangesAsync` become a `SessionDescriptor` whose id comes from a counter. The `StartedAt`/`EndedAt` timestamps and navigation properties of `ChatSession` are not modelled.
- A failing save. `MatchingService.cs:31-32` take both users out of the waiting set, and line 98 removes the pending entry, before `SaveChangesAsync` runs (lines 41 and 110). If that save throws, the users are left with no session and the caller is not enqueued. The model treats session creation as always succeeding and does not capture this failure.
- Shared state. The six collections at `MatchingService.cs:10-15` are `static`, so every `MatchingService` instance the dependency-injection container creates works on the same process-wide state. The single Dafny `MatchingService` object stands for that shared state.
- The directory lookup at `MatchingService.cs:79` (Entity Framework) is the parameter `found`.
- Matching.MatchingService.AcceptConnectionRequest: the elapsed time is in whole seconds (`now - createdAt`), not the fractional `TotalSeconds` of a `DateTime` difference. An accept between 60 and 61 seconds, which the code rejects, is not distinguished.
- User ids are natural numbers rather than GUIDs; connection ids are strings.
- The error messages of `RequestConnectionByCodeAsync`, two of them in Arabic, become the error constructors `TargetNotFound`, `TargetOffline` and `RequestAlreadyPending`.
- Signalling relay. The hubs (`MatchingHub.cs`, `ChatHub.cs`, `WebRtcHub.cs`) are transport plumbing over SignalR groups and are not part of this model. This includes `MatchingHub.ConnectByCode`, which calls a service method (`ConnectByCodeAsync`) that `MatchingService` does not define.
- Controllers, authentication, middleware, migrations and the front ends are not part of this model.
