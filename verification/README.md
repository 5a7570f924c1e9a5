# A model of sse-proxy

sse-proxy reads Kubernetes events out of ClickHouse and shows them to callers, each caller only the
namespaces Kubernetes RBAC lets it see. This project models the four parts of it that are hard to get right
and proves what they promise.

- **Poller, hub and clients** (`FanoutMachine`, `FanoutInvariant`, `FanoutProof`, `FanoutRuns`,
  `FanoutHistory`, `FanoutLoss`, `FanoutBooks`, `FanoutCursor`, `FanoutService`, `Delivery`).
  Every goroutine is interleaved step by step: rows are stored, connections take the write lock to register
  or unregister and close their channel after releasing it, metrics readers take the read lock, the poller
  counts clients, queries a snapshot of a growing table, and sends to one client at a time under the read
  lock while clients drain. A send on a closed channel, a second close and a receive from a closed channel
  are recorded as faults in the state, so that their absence is a theorem. The state also carries history
  (what was published, by which poll, what each client got) that no step reads. `Hub` gives the same hub and
  poller as objects whose methods run undisturbed; `Messages` holds what both share.
- **`/events` and `/audit`** (`Store`, `Queries`, `Events`, `Audit`). A query answer is any legal answer to
  `ORDER BY Timestamp ... LIMIT n` over the matching rows, ties broken in any way; undecodable rows are
  dropped after the LIMIT. Each query of the window loop may find a different table. Bound parameters stay
  text, and ClickHouse's reading of that text decides what a query matches.
- **The RBAC scoper** (`Scoping`, `Sorting`, `Resolve`, `ScopeCache`, `ScopeRuns`). `Resolve` interleaves the
  spawning loop and the review goroutines with their semaphore, wait group and mutex. `ScopeRuns` interleaves
  any number of `scopeFor` calls, through the events and the audit scoper, with RBAC answers that change over
  time.
- **Texts** (`Text`, `Patterns`, `Scoping`, `Sse`). Numbers and the validating regular expressions, each
  tested in the code's way and given its meaning independently; and the array literal, the scope header, the cache key and the SSE frames,
  each with a reader and a round trip. The SSE reader is that of the WHATWG HTML Living Standard, sections
  9.2.5 and 9.2.6.

Time is an arbitrary input in nanoseconds. ClickHouse, the Kubernetes API and RBAC are parameters that may
answer anything legal or fail.

## What turned out not to hold outright

- A poll can move its cursor past rows it never fetched, and such rows are never published (`LostForGood`).
  When all matching rows can be decoded this happens, whatever ties ClickHouse breaks, exactly when the LIMIT
  falls inside a second of the table (`PassesOverExactlyWhenFull`); with undecodable rows about, some legal
  answer does it exactly when the LIMIT can fall between two decodable rows of one second
  (`SomeAnswerLosesIff`). `BurstLosesARow` is an instance.
- A poll whose answer holds only undecodable rows leaves the cursor where it was (`PollAdvancesIff`). Every
  legal answer is like that exactly when each decodable match has a whole LIMIT of matches before it
  (`EveryAnswerEmptyIffStuck`), and then nothing is published any more until an idle tick moves the cursor
  (`StreamStandsStill`).
- A row whose composition id is literally `krateo` goes twice to a subscriber of the global topic
  (`WantsBothIff`, `ClientStream`).
- The group lists `[]` and `[""]` share a cache entry, and nothing else does as long as no name contains NUL
  (`CacheKeyInjective`, `NulCollides`).
- The scope `["none"]` announces itself as empty (`HeaderRoundTrip`).
- A stream message is read back as itself only if its topic is not empty and neither topic nor data contains
  a line break (`FrameRoundTripIff`).

Where code and prose disagree the code is modelled: `rbac.go:116` calls the namespace list deduplicated, but
`resolve` only sorts it (`ResolvedScope`); `docs/overview.md:44-46` says a client without a topic gets every
message, but `client.wants` gives it the global topic only; `docs/overview.md:64-68` keys the composition
filter on the object's uid, but the query uses the composition-id attribute.

## Model

| member | source | states |
|---|---|---|
| Store.SargableCursor | main.go:274-281 | comparing the bare timestamp with the next whole second selects the same rows as comparing whole seconds |
| Store.DecodeRows | main.go:489-501 | decoding keeps exactly the decodable lines, in order |
| Store.DecodedKeepsOrder | main.go:489-501 | dropping undecodable lines leaves a distinct, ordered answer |
| Store.FullDecodeIsWhole | main.go:719-721 | an answer that still fills the limit after decoding had nothing undecodable in it |
| Store.FullWindowIsTopN | main.go:619-630 | a window that fills the limit already holds a newest-first top n of the whole table, ties included |
| Store.RankedSelectionUnique | main.go:557-558 | under a fixed tie-break a query has exactly one answer |
| Store.SelectionExists | main.go:306-307 | every query has an answer, so no statement about answers is vacuous |
| Text.AtoiMeaning | main.go:643 | exactly the decimal writings of 64-bit numbers are read, signed or not and with any leading zeros, each as its number |
| Queries.LimitMeaning | main.go:637-651 | both limit parsers give the number strconv.Atoi reads when it is from 1 to 200 and 200 for any other number or text; a number in range survives the trip through the bound parameter |
| Queries.ParseLimit | main.go:639-651 | the limit is always between 1 and 200 |
| Queries.ParseAuditLimit | audit.go:97-106 | the audit limit is always between 1 and 200 |
| Queries.UuidIsPattern | main.go:635 | the test for composition ids accepts exactly what the regular expression matches |
| Scoping.LabelIsPattern | rbac.go:179 | the test for namespace names accepts exactly what the regular expression matches |
| Messages.WantsBothIff | main.go:162-177 | both messages of a row go to one client exactly when it takes the global topic, the row's composition id is that topic, and the namespace is in scope |
| Messages.WantsIffEntitled | main.go:162-177 | a message is wanted exactly on the subscribed topic, the global one when none was given, and from a namespace in the scope |
| Messages.RoomForOwn | main.go:390-416 | a queue with room takes, of all that is published for a list of rows, exactly the messages of the client's own rows, in order |
| Messages.LiveCursorIs | main.go:337-339 | the live cursor is the clock's second less 30 |
| Messages.MaxTs | main.go:385-393 | the new cursor bounds every decoded row's second and is attained or unchanged |
| Hub.Client.TrySend | main.go:224-230 | the non-blocking send appends when there is room and otherwise leaves the queue alone and says so |
| Hub.Hub.Register | main.go:191-195 | adds the client and keeps every registered channel open |
| Hub.Hub.Unregister | main.go:197-202 | removes and closes the client and keeps every registered channel open |
| Hub.Hub.Count | main.go:235-239 | the number of registered clients |
| Hub.Hub.FanOut | main.go:220-231 | in any iteration order, exactly the wanting clients with room get the message, and both counts are exact |
| Hub.Hub.Broadcast | main.go:217-233 | each client's queue takes the message exactly when it is on the client's topic, from a namespace in its scope, and there is room for it; sent and dropped count the clients with and without room |
| Hub.Poller.constructor | main.go:341-349 | the cursor starts at the second 30 before boot's |
| Hub.Poller.PublishRows | main.go:390-416 | the row loop offers every client every message of every row in order, with exact counts and the newest second |
| Hub.Poller.Poll | main.go:376-436 | queues, both counts and the cursor after a poll; a client with room gets exactly its own rows' messages; a failed query changes nothing |
| Hub.Poller.Tick | main.go:364-374 | with nobody connected only the cursor moves, forward to the second 30 before now's; otherwise it polls, and clients with room get exactly their own |
| Hub.SentPlusDropped | main.go:217-233 | every wanted message is either sent or counted as dropped |
| FanoutProof.KeepsInv | main.go:182-436 | every step of every goroutine keeps the invariant of the whole machine |
| FanoutRuns.RunKeepsInv | main.go:182-436 | the invariant holds in every state of every run |
| FanoutRuns.NeverFaults | main.go:191-233 | in every interleaving no send or close hits a closed channel, no stream loop finds its channel closed, every registered channel is open |
| FanoutCursor.NobodyStuck | main.go:191-233 | no deadlock: in every reachable state whoever holds the lock can move, the poller waits only for a writer, connections only for the lock, and every legal answer can be taken |
| FanoutCursor.ConnectedAs | main.go:835-838 | a client's topic and scope are those it connected with |
| FanoutCursor.LogIsStored | main.go:285-308 | the table holds exactly what it held at boot and what was stored since |
| FanoutRuns.EachRowOnce | main.go:390-420 | a stored row is published by at most one poll, at most twice and then side by side on its two topics; publications are in timestamp order over the whole run |
| FanoutRuns.PollPublishesItsRows | main.go:385-420 | a finished poll published exactly its rows' messages in order and left the cursor at its newest decoded second |
| FanoutRuns.SendIsOffer | main.go:220-231 | each send of the machine does to the client's queue what the hub object's send does |
| FanoutRuns.PollCoverage | main.go:285-308 | every visible decodable row past the old cursor that the poll fetched is published; one it did not fetch is no older than the new cursor's second, and then the LIMIT was reached |
| FanoutLoss.PollAdvancesIff | main.go:418-420 | the cursor moves exactly when some row was decoded |
| FanoutRuns.CursorOnlyMovesForward | main.go:366-420 | the cursor never moves back, publications are only added, and everything added is newer than the cursor was |
| FanoutCursor.CursorIsLargest | main.go:328-420 | in every state of every run the cursor is the largest of: the seconds 30 before the clock readings of boot and idle ticks, and the seconds of the rows finished polls decoded |
| FanoutCursor.LookbackIsMatched | main.go:328-339 | so a stored row is matched by the next answered poll if it is less than 30 seconds older than the quiet readings and newer than all rows decoded before |
| FanoutCursor.TickDecides | main.go:364-374 | the poller idles exactly when its latest tick found nobody connected, with that tick's reading, and polls when it found somebody |
| FanoutLoss.PassesOverExactlyWhenFull | main.go:305-307 | with every matching row decodable, any legal answer loses a row exactly when some second has fewer than LIMIT matches before it and more than LIMIT up to its end |
| FanoutLoss.SomeAnswerLosesIff | main.go:305-307 | some legal answer loses a decodable row exactly when two decodable rows of one second have fewer than LIMIT matches before the first and more than LIMIT up to the second |
| FanoutLoss.BurstLosesARow | main.go:391-393 | 501 rows in one second: whichever 500 are fetched, the other is lost |
| FanoutHistory.RunKeepsHistory | main.go:376-420 | in every run each poll starts where the earlier ones stopped, in the table and in the publications, and publishes only rows it decoded |
| FanoutLoss.PublishedIffFetched | main.go:376-420 | of the rows between the cursor a poll started from and the one it left, exactly those it fetched and decoded are ever published in the run |
| FanoutLoss.LostForGood | main.go:391-420 | a decodable row that a poll passed over is never published by any poll of the run |
| FanoutLoss.PassedRowsStayLost | main.go:376-420 | a row stored or seen after the cursor has passed its second is never published |
| FanoutLoss.EveryAnswerEmptyIffStuck | main.go:385-393 | every legal answer leaves the cursor in place exactly when each decodable match has at least LIMIT matches before it |
| FanoutLoss.StreamStandsStill | main.go:364-420 | while that holds of the table, a run publishes nothing and its cursor stays until an idle tick moves it |
| FanoutRuns.LiveOnly | main.go:328-374 | a row being published is less than 30 seconds older than the latest boot or idle tick |
| FanoutRuns.ClientStream | main.go:162-233 | whatever enters a client's channel is on its topic and in its scope, and comes in publication and timestamp order; a row repeats only on the global topic and only when its composition id is that topic |
| FanoutRuns.AcceptedIsKept | main.go:837-863 | topic and scope are fixed at connect, and accepted messages are received or still queued, never lost or reordered |
| FanoutRuns.DropBound | main.go:318-326 | drops in a poll are at most backlog plus wanted minus 500, exactly that without draining, and at most the backlog when no row repeats on the topic |
| FanoutService.CaughtUpGetsOwn | main.go:376-420 | in any interleaving, a client registered from a poll's answer to its end with room for its own rows' messages gets exactly these, in order, after what it had |
| FanoutService.FreshRowArrives | main.go:285-420 | and when the answer was not cut by the LIMIT, every decodable stored row past the cursor that is for that client reaches it |
| FanoutBooks.StepKeepsBooks | main.go:217-436 | every step keeps the delivered sends of the whole run equal to what the channels ever took, and the wanted sends inside their own poll |
| FanoutBooks.Conservation | main.go:386-416 | in every state of every run: each poll's delivered plus dropped is the number of its wanted sends, which are of its own messages and to clients that want them, with no send counted by two polls; and a client's delivered sends over all polls are exactly, and exactly as many as, the messages received or still queued |
| FanoutBooks.WantedMeaning | main.go:217-231 | the wanted sends are exactly the pairs of a broadcast message and a client that was registered when its broadcast began, on the client's topic and from a namespace in its scope |
| Delivery.BrowserSees | main.go:841-862 | the bytes written to a client decode to exactly what it received: its topic, in scope, in timestamp order |
| Events.BuildEventsQueryWindow | main.go:665-699 | succeeds exactly when the composition id is absent or matches the UUID pattern and every scoped namespace matches the label pattern, says which of them is bad, and fills the parameters step by step as specified |
| Events.QueryMeaning | main.go:665-699 | the bound query, as ClickHouse reads its text, matches exactly the rows the caller may see, up to the limit asked for |
| Events.QueryEventsWindowed | main.go:704-726 | the loop returns the first outcome that fails, fills the limit or is unbounded |
| Events.DecisiveSource | main.go:706-725 | the result is the outcome of the first window that fails, fills the limit or is unbounded, every one before it being bounded and short; the loop runs out only when there is no such window |
| Events.WindowedIsTop | main.go:619-630 | a successful answer is a legal top n of the whole filtered table as seen by the query that returned it, whatever the windows and ties; from a bounded window it is that top n in full, nothing dropped |
| Events.WindowedRefinesUnbounded | main.go:701-726 | on one table under one tie-break, an answer equals the unbounded query's whatever the windows; a list ending with 0 fails only as one of its queries did |
| Events.FailureSource | main.go:704-726 | a list of windows ending with 0 fails only with one of its own queries, for a valid request only when the database fails |
| Events.WindowIsRecent | main.go:707-710 | a window asks for all the rows of its span and none more than a second older, or for everything |
| Events.EventsWindowsSuffice | main.go:630 | the windows in use are the last hour, the last day and everything, so the loop's last error never comes up |
| Events.HandleEvents | main.go:745-788 | 400 exactly for a caller with a non-empty scope whose composition id fails the UUID pattern or whose scope holds a bad name; without an established scope an error, with an empty scope no rows; otherwise rows that are in scope, within the limit, newest first and a top n of the table, or an error only if the database failed |
| Events.RepliesStayInScope | main.go:749-776 | rows leave only under an established scope, only decodable rows the scope and filter admit, newest first, no more than the limit, and a top n of some table queried |
| Events.EventsNonInterference | main.go:679-690 | tables that agree inside the caller's scope give the same reply, through windows, limits and the empty-scope shortcut |
| Events.EmptyScopeShortCircuit | main.go:756-762 | the shortcut for an empty scope replies what the database would have |
| Audit.BuildAuditQuery | audit.go:111-135 | succeeds exactly when every scoped namespace matches the label pattern, and fills the parameters step by step as specified |
| Audit.AuditMeaning | audit.go:68-75 | the bound audit query matches exactly the rows in scope and window, up to the limit asked for |
| Audit.HandleAudit | audit.go:203-267 | 503 exactly without a scoper, 400 exactly for a non-empty scope with a bad name; without an established scope an error, with an empty scope no records; otherwise the decodable part of a top n of the records in scope, or an error only if the database failed |
| Audit.AuditFailsClosed | audit.go:207-237 | without a scoper or a resolved scope no rows leave; those that do are the decodable part of a newest-first top n of the rows in scope |
| Audit.AuditNonInterference | audit.go:111-135 | tables that agree inside the caller's scope give the same audit reply |
| Scoping.AllowsScan | rbac.go:122-132 | the scan agrees with membership |
| Scoping.ClickhouseArrayParam | rbac.go:181-193 | succeeds exactly when every name matches the label pattern, with a literal that reads back as the list; otherwise reports the first bad name |
| Scoping.ParseUndoesArrayLiteral | rbac.go:181-193 | ClickHouse reads back exactly the list written |
| Scoping.EnforcementPathsAgree | main.go:602-608 | membership in the bound set is the in-memory test, and the empty namespace is in neither |
| Scoping.HeaderRoundTrip | rbac.go:143-170 | the header tells every scope of valid labels apart, except the list ["none"] |
| Resolve.AtMostEightInFlight | rbac.go:498-512 | at most eight reviews are in flight, and the counters stay in range |
| Resolve.SlotsAreUsed | rbac.go:498-508 | the loop waits for the semaphore only while eight goroutines hold it |
| Resolve.FirstErrorStays | rbac.go:514-519 | the first error recorded is the one reported |
| Resolve.ReturnedIsComplete | rbac.go:505-525 | when the wait returns every namespace was reviewed exactly once and every token and the mutex are released |
| Resolve.NoDeadlock | rbac.go:505-525 | until resolve returns some goroutine can move |
| Resolve.ScheduleLength | rbac.go:505-525 | every schedule of n reviews returns after exactly 9n + 2 steps |
| Resolve.OutcomeOfAnySchedule | rbac.go:498-530 | any schedule reports a failure iff some review failed, else the sorted list of exactly the granted names |
| Resolve.ScheduleIndependence | rbac.go:483-531 | two complete schedules agree on the scope, or both fail |
| Resolve.ResolvedScope | rbac.go:520-530 | the scope admits exactly the granted namespaces, sorted, and without repeats when the listing has none |
| Resolve.ListNamespaces | rbac.go:321-354 | all pages' names in order, or the failing page's error |
| Resolve.ConcatAppend | rbac.go:346-348 | listing in two parts gives the names of both parts in order |
| Resolve.ResolveReturns | rbac.go:483-531 | whatever the reviews and the listing answer, some schedule completes and resolve returns |
| Resolve.ResolveFailsClosed | rbac.go:483-531 | a scope comes out exactly if nothing failed, and says exactly what the cluster-wide and per-namespace reviews said |
| Sorting.SortStringsSorts | rbac.go:529 | sorting gives a sorted arrangement of the same names |
| Sorting.SortedIsUnique | rbac.go:529 | there is only one |
| Sorting.LexMeaning | rbac.go:529 | the order is the dictionary's: a prefix first, else by the first difference, upwards |
| ScopeCache.CacheKeyInjective | rbac.go:455-457 | NUL-free callers share a key exactly when they are the same or differ only as [] and [""] |
| ScopeCache.NulCollides | rbac.go:455-457 | a NUL in a name makes two callers share a key |
| ScopeCache.RbacScoper.ScopeFor | rbac.go:461-481 | an entry is returned exactly while the clock is before its expiry, changing nothing; otherwise the caller gets what resolving gives, a failure is not cached, and a fresh scope expires one ttl after the reading taken before resolving |
| ScopeCache.AnswersAreRecent | rbac.go:461-481 | over any sequence of calls a returned scope was resolved for the same key at a reading less than one ttl before this call's, and a returned failure is this call's own |
| ScopeCache.LoadAuditScoper | rbac.go:423-453 | nothing without events scoping, the same object when unset, else a new object with its own empty cache; verb, group and resource are each the configured one where there is one and the events scoper's otherwise |
| ScopeRuns.StepKeepsInv | rbac.go:461-531 | every step of every concurrent call keeps the invariant |
| ScopeRuns.RuleSeparation | rbac.go:411-416 | every entry readable through a scoper was resolved under that scoper's own rule, the audit one being part by part as configured; its reviews say what RBAC answered under that rule, and so for every scope served |
| ScopeRuns.ServedIsFresh | rbac.go:461-481 | every review behind a served scope was made under the right rule less than one ttl before the call's clock reading, and the scope says what those reviews said |
| ScopeRuns.GrantsAreFresh | rbac.go:461-481 | access is served only on a grant RBAC gave less than one ttl before |
| ScopeRuns.RevocationTakesEffect | rbac.go:27-29 | once RBAC has refused a caller for a whole ttl no served scope admits the namespace |
| ScopeRuns.ExclusionsAreReviewed | rbac.go:483-531 | a listed namespace left out of a served scope was refused by a fresh review |
| ScopeRuns.CallsAsBegun | rbac.go:461-463 | a call's caller, scoper and clock reading are those it began with |
| ScopeRuns.ReviewsTheListing | rbac.go:493-506 | the namespaces a call reviews are those the listing answered |
| ScopeRuns.RefusedHasCause | rbac.go:471-474 | a call is refused only if a review or the listing failed for it |
| ScopeRuns.CallsNeverWait | rbac.go:461-531 | a call can always go on, whatever the others do |
| ScopeRuns.AloneIsScopeFor | rbac.go:461-481 | a call that runs undisturbed answers and leaves its cache as the scoper object does |
| Sse.Serve | main.go:841-863 | the loop writes the connect comment and then a frame per keepalive and message until it ends |
| Sse.StreamRoundTrip | main.go:841-862 | for every interleaving the standard's reader reports exactly the topics and data of the messages taken before the loop ended, in order |
| Sse.CommentsArrive | main.go:841-857 | the stream opens with the connect comment and carries one keepalive comment for each tick |
| Sse.AnyLineEnd | main.go:841-862 | the reader takes CR LF, CR and LF alike for a line end |
| Sse.NoTopicIsMessage | main.go:860 | a message without a topic is read as the standard's default type |
| Sse.FrameRoundTripIff | main.go:860 | a message survives exactly when its topic is not empty and neither part has a line break |
| Text.SplitUndoesJoin | rbac.go:169 | splitting undoes joining for non-empty lists of separator-free parts |
| Text.ParseUndoesItoa | main.go:667 | a printed number reads back as itself |

## Left out

- HTTP transport, URL encoding, authentication and response writing: ClickHouse and the Kubernetes API are parameters that answer or fail.
- JWT validation (auth.go): a verified username and group list is the input.
- Routing, CORS, environment reading, logging, telemetry and metrics export: only the counts a poll computes are kept.
- SQL column text and the JSON field mapping: a row keeps its timestamp, composition id, namespace, decodability and an opaque payload; encoding an event to JSON is taken not to fail.
- Rows leaving the table by TTL: the log only grows.
- ClickHouse array elements that need escapes: the writer never produces them, and the reader of this model refuses them.
- Non-interference of the live stream: the poll LIMIT is shared between tenants, so only scope containment is stated there.
- Starvation: the lock, the ticker and the drain order are left to an arbitrary scheduler; progress is proved for resolve only.
- Resolve.ListNamespaces: assumes the API server's pages end; the source loops for as long as continue tokens come.
- Hub.Hub.Broadcast: the object form runs undisturbed; interleaving with connections is in FanoutMachine.
- ScopeRuns.ServedIsFresh: the semaphore is not repeated there; reviews complete in any order, which includes every order it allows.
