# go-react-rooms backend, modelled in Dafny

This project models the server side of a small chat system, and proves properties of the model. Users register and log in with an e-mail address and a password. Logging in gives them a session cookie. They create rooms and join rooms, and they talk in a room over a websocket. A room's history is read page by page over HTTP.

The model covers:

- **The websocket hub** (`WsHub`). It holds every client the handler created. Each client has its user, its room subscription, its bounded channel of outgoing envelopes (capacity 16) and a closed flag. The hub also holds its live set of clients.
  - `Run`'s three cases are three atomic steps: register, unregister, broadcast.
  - A broadcast appends the envelope to every live subscriber of the room that has spare room.
  - A subscriber whose channel is full is evicted: it leaves the live set and its channel is closed.
  - `WsHub.Invariant` is kept by every step. It says that no channel holds more than 16 envelopes, that every live client's channel is open, and that live clients exist.
  - Closing a closed channel is excluded by a precondition, as Go panics on it; the proofs show no step ever does it.
  - The hub is a class over maps (`Hub.all`, `Hub.clients`). Its methods are proved against the pure step functions.
- **The websocket handler** (`WsHandler`).
  - Admission: the session cookie, the session lookup, the origin check and the upgrade.
  - The reader loop's dispatch of each frame:
    - `join` checks membership and sets the room.
    - `message` checks membership, stores the message, broadcasts it and acknowledges it.
  - `sendErr`'s non-blocking send, the writer's draining of the channel, and `ServeHTTP`'s register / read / unregister sequence.
  - The reader loop is a method on the hub object, proved against the function `ReaderRun`. The writer loop is a method whose contract gives the envelopes it writes and the close message directly from the channel's earlier contents; `WriterStep` states one step of the writer.
- **The messages repository** (`MessagesRepo`).
  - `Insert`'s validation.
  - `ListLatest` and `listLatestNoCursor` over an in-memory table: the limit reset, the `(created_at, id)` descending order, and the strictly-older-than-cursor filter.
  - The row-collecting loops.
  - The headline result: pages fetched by following the cursor chain without overlap and without gap (`MessagesRepo.PagesChain`).
- **The rooms repository** (`RoomsRepo`): room creation, the membership relation, and the listing of a user's rooms ordered by last activity with each room's latest message.
- **The chat HTTP handlers** (`ChatHandlers`): create, list and join rooms, and the paginated history endpoint with its `nextBefore` cursor.
- **The request gates**:
  - the CSRF double-submit check and token minting (`Csrf`);
  - the CORS middleware of the server and of the stand-alone entry point (`HttpServer`, `ApiMain`);
  - the fixed-window rate limiter, its middleware and the client address (`RateLimit`, whose limiter is a class over the Redis counters);
  - configuration loading (`Config`);
  - the cookie options (`CookieOptionsGo`);
  - e-mail normalisation in the users repository (`UsersRepo`);
  - the register / login / logout handlers (`AuthHandlers`).
- **The Go library behaviour they rely on**:
  - `GoStrings`: `strings.TrimSpace` with Go's `unicode.IsSpace` set, `Split`, `Contains`, ASCII `ToLower`, and the UTF-8 length `len()` returns;
  - `GoStrconv`: `strconv.Atoi` on 64-bit integers;
  - `Ordering`: the `(created_at, id)` order and `ORDER BY ... DESC` as an insertion sort.

Databases, Redis, bcrypt, the random source and the clock are not executed. Their answers are parameters of the operations that use them: an `InsertAnswer`, an `Option<string>` fault, a boolean password match, a `now` instant. Time values are integers, opaque and ordered.

Several behaviours of the code are modelled as written, because they are what it does:

- **`err.Error()` on a nil error.** When `IsMember` answers "not a member" without an error (`ws/handler.go:120`, `139`), the reader calls `err.Error()` on a nil error. The model calls this reaction `NilError`, and the reader ends with `Panic`.
- **A send on a closed channel.** A sender that the broadcast of its own message evicted then sends its ack on a closed channel and panics (`WsHandler.AckAfterOwnEvictionPanics`). So does any later `sendErr` on that client.
- **A room whose latest sender has no user row.** The listing query's `LEFT JOIN users` then yields a NULL name, and the scan dereferences it (`rooms/repo.go:122`). The listing then panics (`RoomsRepo.PanicWhenSenderUnknown`).
- **The error key and message spellings.** The error JSON key is `"erro"`, and the duplicate-room message is `"room name already existes"`.
- **The envelope type.** `ws/hub.go:5-11` declares an `Envelope` without message id, client message id and error fields. It also declares `Broadcast(room, from, text)` (`ws/hub.go:67`). The handler uses the larger envelope and passes it whole to `Broadcast` (`ws/handler.go:155-170`). The model follows the handler: `WsHub.Envelope` has all eight fields, and the broadcast takes an envelope.
- **`Create`'s arity.** The register handler calls `users.Create` with two arguments (`auth/handlers.go:54`), but the repository takes three. The model passes an empty name.

## Model

| member | source | states |
|---|---|---|
| WsHub.InitialClient | backend/internal/ws/handler.go:68-72 | a new client belongs to its user, is subscribed to no room, and has an empty, open channel |
| WsHub.Close | backend/internal/ws/hub.go:49 | closing a channel keeps the envelopes buffered in it and is only allowed on an open channel |
| WsHub.UnregisterStep | backend/internal/ws/hub.go:46-50 | unregistering keeps the hub invariant, creates no client, adds none to the live set, and closes the channel of a client it drops |
| WsHub.VisitStep | backend/internal/ws/hub.go:54-60 | one iteration of the broadcast loop keeps the hub invariant (no channel above capacity 16, live clients open) |
| WsHub.BroadcastStep | backend/internal/ws/hub.go:52-62 | a broadcast keeps the hub invariant, adds no client, and every client it drops has its channel closed |
| WsHub.MessageEnvelope | backend/internal/ws/handler.go:155-162 | the broadcast envelope of a stored message carries type "message", the room, the stored body, the sender, the message id and its creation time, and no ack token or error |
| WsHub.FollowsTransitive | backend/internal/ws/hub.go:40-65 | successive hub steps compose: what holds after one step relative to the state before (no new client, the live set shrinks, dropped clients closed) holds across several |
| WsHub.Hub.constructor | backend/internal/ws/hub.go:31-38 | a new hub has no client and an empty live set |
| WsHub.Hub.NewClient | backend/internal/ws/handler.go:68-72 | creates a fresh client with no room and an empty open channel, leaving every other client and the live set alone |
| WsHub.Hub.Register | backend/internal/ws/hub.go:43-44 | the register case adds the client to the live set and keeps the invariant |
| WsHub.Hub.Unregister | backend/internal/ws/hub.go:46-50 | the unregister case is exactly UnregisterStep on the hub's state |
| WsHub.Hub.Broadcast | backend/internal/ws/hub.go:52-62 | the loop over the live set, in any order, ends in the state BroadcastStep describes |
| WsHub.Hub.Visit | backend/internal/ws/hub.go:54-60 | the select for one live client: append when there is room, otherwise drop and close |
| WsHub.Hub.SetRoom | backend/internal/ws/handler.go:124 | changes only the client's room |
| WsHub.Hub.Push | backend/internal/ws/handler.go:165-170 | a send that finds room puts the envelope at the back of the channel and changes nothing else |
| WsHub.Hub.Pop | backend/internal/ws/handler.go:185-190 | a receive takes the oldest envelope off the channel and changes nothing else |
| WsHub.BroadcastOverVisit | backend/internal/ws/hub.go:53-62 | visiting one more client of the loop is one VisitStep, whatever the visiting order |
| WsHub.RegisterKeeps | backend/internal/ws/hub.go:43-44 | registering a client with an open channel keeps the invariant |
| WsHub.RegisterAdds | backend/internal/ws/hub.go:43-44 | registering adds exactly that client to the live set; registering a live client changes nothing |
| WsHub.UnregisterPresent | backend/internal/ws/hub.go:46-50 | unregistering a live client removes it and closes its channel, which was open, and leaves every other client untouched |
| WsHub.UnregisterIdempotent | backend/internal/ws/hub.go:46-50 | unregistering an absent client changes nothing, so the unregister after an eviction never closes a channel twice |
| WsHub.BroadcastOthersUnchanged | backend/internal/ws/hub.go:53-54 | a client that is not a live subscriber of the room keeps its channel, room and liveness |
| WsHub.BroadcastAppends | backend/internal/ws/hub.go:55-56 | a live subscriber with spare room gets the envelope at the back of its channel and stays live |
| WsHub.BroadcastEvicts | backend/internal/ws/hub.go:57-60 | a live subscriber with a full channel leaves the live set, its channel is closed, and it gets nothing |
| WsHub.BroadcastSurvivor | backend/internal/ws/hub.go:55-60 | a subscriber still live after a broadcast had spare room and got the envelope |
| WsHub.BroadcastShrinks | backend/internal/ws/hub.go:52-62 | a broadcast never adds to the live set and creates no client |
| WsHub.ClosesOnlyLive | backend/internal/ws/hub.go:46-60 | a broadcast or an unregister closes a channel only when it drops that client from the live set |
| WsHub.BroadcastAll | backend/internal/ws/hub.go:52-62 | a run of broadcasts keeps the invariant |
| WsHub.SurvivorGetsAllInOrder | backend/internal/ws/hub.go:52-62 | a subscriber still live after a run of broadcasts to its room got every envelope, in the order they were broadcast |
| WsHub.SurvivorStaysLive | backend/internal/ws/hub.go:52-62 | a client live after a run of broadcasts was live before it |
| WsHub.TwoBroadcastsInOrder | backend/internal/ws/hub.go:52-62 | two broadcasts to one room reach every subscriber that survives both, in the order they were issued |
| WsHandler.CheckOrigin | backend/internal/ws/handler.go:28-34 | an absent Origin is accepted; any accepted Origin starts with "http://localhost:" or "http://127.0.0.1:" |
| WsHandler.CheckOriginLoopback | backend/internal/ws/handler.go:33 | every origin with either loopback prefix is accepted, whatever follows it |
| WsHandler.Admit | backend/internal/ws/handler.go:45-66 | a missing or empty cookie, or a failed or empty session lookup, is unauthorized; a connection is upgraded iff the cookie and session resolve, the origin passes and the handshake succeeds, for the session's user |
| WsHandler.ErrorEnvelope | backend/internal/ws/handler.go:200 | sendErr's envelope has type "error" and the reason |
| WsHandler.AckEnvelope | backend/internal/ws/handler.go:165-170 | the ack echoes the client's token with the stored message's id and creation time |
| WsHandler.Broadcasted | backend/internal/ws/handler.go:155-162 | the broadcast of a stored message is the hub's message envelope built from the store's body, sender, id and time |
| WsHandler.Target | backend/internal/ws/handler.go:127-130 | a message goes to the trimmed envelope room when it is not blank, else to the client's current room |
| WsHandler.Dispatch | backend/internal/ws/handler.go:105-172 | for each frame: undecodable frames and unknown types are skipped; a join subscribes iff its trimmed room is non-blank and the user is a member; a message is published iff it has a target, the user is a member, the trimmed text is non-empty and the insert succeeds, with an ack iff the client gave a token; blank rooms, membership errors, insert failures and a non-member answer each lead to their own outcome |
| WsHandler.JoinReaction | backend/internal/ws/handler.go:111-124 | a blank room is refused with "room required"; a membership error is reported; a member subscribes to the trimmed room; a non-member triggers the nil-error dereference |
| WsHandler.MessageReaction | backend/internal/ws/handler.go:126-171 | no target: "join a room first"; membership error reported; non-member: nil-error dereference; blank text: silently skipped; failed insert: "could not save message"; otherwise the trimmed text is stored under the target room and published, with an ack iff a token was given |
| WsHandler.TrySend | backend/internal/ws/handler.go:198-203 | sendErr never waits: a closed channel panics, a full one drops the envelope, otherwise it is appended; the invariant is kept |
| WsHandler.BlockingSend | backend/internal/ws/handler.go:165-170 | the ack send panics on a closed channel, waits on a full one with the envelope pending, and otherwise appends |
| WsHandler.Apply | backend/internal/ws/handler.go:110-171 | applying a reaction keeps the hub invariant, changes the room only on a subscription, and leaves the reader waiting only on a full open channel |
| WsHandler.FrameStep | backend/internal/ws/handler.go:105-172 | handling one frame keeps the invariant and the hub's history (no new client, drops closed) |
| WsHandler.JoinBlankRoom | backend/internal/ws/handler.go:112-116 | a join with a blank room queues exactly one "room required" error and leaves the room and the live set unchanged |
| WsHandler.RoomChangesOnlyOnJoin | backend/internal/ws/handler.go:118-124 | the room changes only on a join by a member, to the non-blank trimmed room |
| WsHandler.NothingForNonMemberOrEmptyText | backend/internal/ws/handler.go:137-146 | a message from a non-member or with blank text is neither stored nor broadcast, and blank text changes nothing at all |
| WsHandler.PublishDelivers | backend/internal/ws/handler.go:149-171 | a published message reaches every live subscriber with spare room; the sender with room for two gets the broadcast and then its ack |
| WsHandler.AckAfterOwnEvictionPanics | backend/internal/ws/handler.go:164-171 | a sender whose channel was full when its own message was broadcast is evicted and then panics sending the ack |
| WsHandler.ErrorAfterCloseCrashes | backend/internal/ws/handler.go:198-203 | after the hub closed a client's channel, any error sent to it panics |
| WsHandler.WriterStep | backend/internal/ws/handler.go:185-190 | the writer writes the oldest buffered envelope; on an empty closed channel it writes the close frame; otherwise it waits |
| WsHandler.Writer | backend/internal/ws/handler.go:183-191 | the writer loop writes everything buffered, in order, then the close frame iff the channel was closed, and leaves the channel empty |
| WsHandler.Unblock | backend/internal/ws/handler.go:185-190 | the writer taking one envelope off a full channel lets a waiting send through, keeping the invariant |
| WsHandler.Advance | backend/internal/ws/handler.go:99-173 | one frame handled to the end keeps the invariant; a panicking frame writes nothing more |
| WsHandler.ReaderRun | backend/internal/ws/handler.go:99-173 | the reader over all frames read before the read error keeps the invariant and the hub's history |
| WsHandler.ReadFrame | backend/internal/ws/handler.go:100-172 | one pass of the loop on the hub object is one Advance |
| WsHandler.ApplyReaction | backend/internal/ws/handler.go:110-171 | applying a reaction to the hub object is Apply on its state |
| WsHandler.SendErr | backend/internal/ws/handler.go:198-203 | sendErr on the hub object is TrySend of the error envelope |
| WsHandler.Reader | backend/internal/ws/handler.go:87-174 | the reader loop on the hub object ends in the state, end and output ReaderRun describes |
| WsHandler.ServeHTTP | backend/internal/ws/handler.go:43-85 | a refused connection leaves the hub alone; an admitted one creates and registers a fresh client for the session's user, runs the reader, and unregisters the client unless the reader panicked |
| WsHandler.ServedClientClosed | backend/internal/ws/handler.go:74-83 | after a read error the client is out of the live set with a closed channel; after a panic it is live iff its channel is open |
| MessagesRepo.Insert | backend/internal/repositories/messages/repo.go:28-42 | a body blank after trimming is refused with "body required" before the store; otherwise the trimmed body is stored, or the store's error returned |
| MessagesRepo.EffectiveLimit | backend/internal/repositories/messages/repo.go:47-49 | a limit in 1..200 is kept; any other is reset to 50, not clamped |
| MessagesRepo.RoomRows | backend/internal/repositories/messages/repo.go:63-66 | the query's rows are messages of the room whose sender has a user row, with that user's name |
| MessagesRepo.FindCursor | backend/internal/repositories/messages/repo.go:58-62 | the cursor resolves iff a message with that id is in that room, to that message's (created_at, id) |
| MessagesRepo.CollectRows | backend/internal/repositories/messages/repo.go:76-84 | the scan loop returns the result rows, all of them, in order |
| MessagesRepo.ListLatestNoCursor | backend/internal/repositories/messages/repo.go:87-110 | the newest `limit` rows of the room, or the query's error |
| MessagesRepo.ListLatest | backend/internal/repositories/messages/repo.go:46-85 | the page for the effective limit and the (blank or not) cursor, or the query's error |
| MessagesRepo.RoomRowsDistinct | backend/internal/repositories/messages/repo.go:66-68 | with unique ids, the room's rows have distinct (created_at, id) keys |
| MessagesRepo.OrderedStrict | backend/internal/repositories/messages/repo.go:44-45 | with unique ids, the room's history is strictly newest first |
| MessagesRepo.OrderedFromTable | backend/internal/repositories/messages/repo.go:63-66 | every message of the history is a message of that room in the table, with the same key |
| MessagesRepo.OlderRowsBelow | backend/internal/repositories/messages/repo.go:57-70 | the cursor query is the first `limit` of the sorted history strictly below the cursor tuple |
| MessagesRepo.FindCursorOf | backend/internal/repositories/messages/repo.go:58-62 | with unique ids, a message's own id resolves to its own key |
| MessagesRepo.CursorPageFollows | backend/internal/repositories/messages/repo.go:57-70 | the page with the i-th newest message as cursor is the `limit` messages right after it in the history |
| MessagesRepo.BlankCursorPage | backend/internal/repositories/messages/repo.go:52-54 | a blank cursor gives the newest `limit` messages of the room |
| MessagesRepo.UnknownCursorPage | backend/internal/repositories/messages/repo.go:58-65 | a cursor naming no message of the room gives an empty page |
| MessagesRepo.PageAtWindow | backend/internal/repositories/messages/repo.go:46-85 | every page is a contiguous window of the room's newest-first history |
| MessagesRepo.PageShape | backend/internal/repositories/messages/repo.go:46-85 | a page holds at most the effective limit of messages, only of the requested room, strictly newest first |
| MessagesRepo.PageOlderThanCursor | backend/internal/repositories/messages/repo.go:67 | below a resolved cursor, every message of the page is strictly older than the cursor tuple |
| MessagesRepo.WindowOfElement | backend/internal/repositories/messages/repo.go:67-68 | the page below the i-th newest message starts right after it |
| MessagesRepo.PagesChain | backend/internal/repositories/messages/repo.go:44-70 | with unique ids, the page fetched with the last id of a page follows it without overlap or gap: together they are the page of twice the size |
| Ordering.KeyLessTotal | backend/internal/repositories/messages/repo.go:67 | the (created_at, id) comparison is total; with KeyLessTransitive and KeyLessIrreflexive it is a strict total order |
| Ordering.KeyLessTransitive | backend/internal/repositories/messages/repo.go:67 | the (created_at, id) comparison is transitive |
| Ordering.SortDesc | backend/internal/repositories/messages/repo.go:68 | `ORDER BY created_at DESC, id DESC` yields a newest-first permutation of its input |
| Ordering.Below | backend/internal/repositories/messages/repo.go:67 | the filter keeps only elements strictly older than the key, from its input |
| Ordering.Take | backend/internal/repositories/messages/repo.go:69 | `LIMIT n` is the prefix of length min(n, size) |
| Ordering.SortBelowCommute | backend/internal/repositories/messages/repo.go:66-69 | filtering and sorting commute, so the query's evaluation order does not matter |
| Ordering.BelowElement | backend/internal/repositories/messages/repo.go:67 | in a strictly descending history, what is older than its i-th element is exactly what follows it |
| Ordering.WindowChain | backend/internal/repositories/messages/repo.go:67-69 | two consecutive windows of size n are the window of size 2n |
| RoomsRepo.Create | backend/internal/repositories/rooms/repo.go:28-50 | a name blank after trimming is refused with "name required"; a unique violation 23505 becomes ErrRoomNameExists; otherwise the room has the trimmed name and no last message |
| RoomsRepo.AddMember | backend/internal/repositories/rooms/repo.go:52-59 | on success the pair is a member and nothing else is added; on a fault nothing changes |
| RoomsRepo.IsMember | backend/internal/repositories/rooms/repo.go:61-69 | true iff the (room, user) pair is in the membership relation, or the query's error |
| RoomsRepo.AddMemberExisting | backend/internal/repositories/rooms/repo.go:53-57 | re-adding an existing pair changes nothing and reports no error |
| RoomsRepo.AddMemberIdempotent | backend/internal/repositories/rooms/repo.go:53-57 | adding twice is adding once |
| RoomsRepo.AddThenIsMember | backend/internal/repositories/rooms/repo.go:52-69 | after an add, IsMember holds for that pair and for every pair that held before |
| RoomsRepo.LatestIn | backend/internal/repositories/rooms/repo.go:84-90 | no message iff the room has none; otherwise a message of the room with the greatest created_at |
| RoomsRepo.MemberRows | backend/internal/repositories/rooms/repo.go:83-92 | exactly the joined rows of the rooms the user is a member of |
| RoomsRepo.ScanRooms | backend/internal/repositories/rooms/repo.go:100-130 | the scan loop panics iff some row has a body without its other last-message columns; otherwise it builds one room per row, in order |
| RoomsRepo.ListingOf | backend/internal/repositories/rooms/repo.go:71-131 | the query's error, a panic iff a listed row would be dereferenced while NULL, or the rooms built from the ordered rows |
| RoomsRepo.ListForUser | backend/internal/repositories/rooms/repo.go:71-131 | the method's result is ListingOf |
| RoomsRepo.ListingIds | backend/internal/repositories/rooms/repo.go:100-128 | the listed rooms are the query's rows, position by position |
| RoomsRepo.ListRowOrigin | backend/internal/repositories/rooms/repo.go:83-92 | every listed row is the joined row of a room the user belongs to |
| RoomsRepo.MemberRoomListed | backend/internal/repositories/rooms/repo.go:83-92 | every room the user belongs to is listed |
| RoomsRepo.ListedAreMemberRooms | backend/internal/repositories/rooms/repo.go:83-92 | the listing holds exactly the rooms the user is a member of |
| RoomsRepo.ToRoomActivity | backend/internal/repositories/rooms/repo.go:93 | building the room keeps its order key: last message time, else creation time, then id |
| RoomsRepo.JoinRowConsistent | backend/internal/repositories/rooms/repo.go:84-91 | a joined row that carries a last-message time also carries its body, so building the room never falls back to the creation time for a room with messages |
| RoomsRepo.ListedInActivityOrder | backend/internal/repositories/rooms/repo.go:93 | the listing is ordered by latest activity descending, then room id descending |
| RoomsRepo.JoinRowLast | backend/internal/repositories/rooms/repo.go:84-90 | a joined row has no last message iff the room has none, and otherwise carries a latest message of the room |
| RoomsRepo.ListedLastMessage | backend/internal/repositories/rooms/repo.go:118-126 | a listed room's LastMessage is nil iff it has no messages; otherwise it has the body, sender and time of a message with the greatest created_at in the room |
| RoomsRepo.JoinRowPanics | backend/internal/repositories/rooms/repo.go:118-123 | a row is dereferenced while NULL iff the room's latest message's sender has no user row |
| RoomsRepo.NoPanicWhenSendersKnown | backend/internal/repositories/rooms/repo.go:118-123 | when every sender has a user row, the listing never dereferences a NULL name |
| RoomsRepo.PanicWhenSenderUnknown | backend/internal/repositories/rooms/repo.go:91-123 | a member room whose latest message's sender has no user row makes the listing panic |
| ChatHandlers.CreateRoom | backend/internal/chat/handlers.go:28-55 | non-POST is 405 and anonymous is 401 before anything else; 201 with the room iff the body decodes and Create succeeds, and then the creator is added as a member; on any refusal the memberships are unchanged |
| ChatHandlers.ListRooms | backend/internal/chat/handlers.go:57-73 | anonymous is 401; a query error is 500; otherwise the user's listing, or the panic of the scan |
| ChatHandlers.JoinRoom | backend/internal/chat/handlers.go:75-100 | anonymous 401; blank trimmed roomId 400 "roomId required"; AddMember failure 401; otherwise "ok", with exactly the trimmed pair added |
| ChatHandlers.JoinRoomIdempotent | backend/internal/chat/handlers.go:87-99 | joining twice answers ok twice and adds the membership once |
| ChatHandlers.HandleRooms | backend/internal/chat/handlers.go:102-111 | GET lists, POST creates, any other method is 405 |
| ChatHandlers.RequestedLimit | backend/internal/chat/handlers.go:135-140 | the trimmed parameter's value when Atoi accepts it, even out of range, else 50 |
| ChatHandlers.NextBefore | backend/internal/chat/handlers.go:149-152 | the id of the page's last (oldest) message, or "" for an empty page |
| ChatHandlers.ListMessages | backend/internal/chat/handlers.go:113-159 | anonymous 401; blank roomId 400; a non-member or a membership error 403, before any read; 200 iff a member's read succeeds, with the page for the trimmed room, cursor and parsed limit, its nextBefore, and the time |
| ChatHandlers.RequestedLimitOfFormat | backend/internal/chat/handlers.go:135-140 | a limit written in decimal is read back exactly |
| ChatHandlers.HistoryReply | backend/internal/chat/handlers.go:133-158 | a member's request that the stores answer gets 200 with the repository's page and that page's nextBefore |
| ChatHandlers.NextBeforeChains | backend/internal/chat/handlers.go:142-158 | following nextBefore with the same limit gives the next messages without overlap or gap: the two pages are the page of twice the limit |
| ChatHandlers.CursorChains | backend/internal/chat/handlers.go:149-152 | the trimmed nextBefore of a non-empty page is a cursor whose page follows it without overlap or gap |
| RateLimit.AllowStep | backend/internal/security/ratelimit.go:25-39 | a store error leaves the counters and denies; otherwise the key's counter grows by exactly one, the expiry is set only when it becomes 1, and the call passes iff the new count is within the limit and no expiry error occurred |
| RateLimit.RunFrom | backend/internal/security/ratelimit.go:38 | call i of a run passes iff the counter it produces, previous count + i + 1, is within the limit |
| RateLimit.FirstLimitPass | backend/internal/security/ratelimit.go:32-38 | within one window, on a fresh key, exactly the first `limit` calls pass |
| RateLimit.RateLimiter.constructor | backend/internal/security/ratelimit.go:18-22 | a new limiter starts with no counter and no expiry |
| RateLimit.RateLimiter.Allow | backend/internal/security/ratelimit.go:25-39 | the limiter's counters change exactly as AllowStep says, and it returns AllowStep's answer |
| RateLimit.Admit | backend/internal/security/ratelimit.go:55-65 | a store error is 500 "rate limit error", a denial 429 "too many requests", and the request passes iff allowed without error |
| RateLimit.LimitKey | backend/internal/security/ratelimit.go:50 | the key is "rl:" + route + ":" + address |
| RateLimit.LimitKeySeparates | backend/internal/security/ratelimit.go:50 | for routes without a colon, different (route, address) pairs never share a counter |
| RateLimit.RateLimitMiddleware | backend/internal/security/ratelimit.go:42-67 | a missing limiter is 500 "rate limiter not configured" and touches no counter; otherwise one Allow on the route and client address key, answered as Admit says |
| RateLimit.SplitJoinHostPort | backend/internal/security/ratelimit.go:78 | net.SplitHostPort gives back the host and the port of a plain "host:port" address |
| RateLimit.ClientIPFromRemote | backend/internal/security/ratelimit.go:78-81 | without X-Forwarded-For, a connection from a non-empty host and a port is keyed by its host alone |
| RateLimit.ClientIP | backend/internal/security/ratelimit.go:69-84 | a non-empty X-Forwarded-For gives its first comma-element trimmed (holding no comma); otherwise RemoteAddr's non-empty host; otherwise RemoteAddr itself |
| RateLimit.ForwardedForWins | backend/internal/security/ratelimit.go:70-76 | when X-Forwarded-For is set, the connection's address does not matter |
| Csrf.MintCsrf | backend/internal/security/csrf.go:16-26 | cookie "grr_csrf" with the token, path "/", readable by scripts, for 86400 seconds, with the options' Secure and SameSite |
| Csrf.HexValue | backend/internal/security/csrf.go:33 | a lower-case hex digit's value is below 16, and the digit string maps it back to the digit |
| Csrf.HexEncode | backend/internal/security/csrf.go:33 | hex encoding gives two lower-case hex digits per byte |
| Csrf.HexRoundTrip | backend/internal/security/csrf.go:33 | decoding the hex encoding gives back the bytes |
| Csrf.NewCsrfToken | backend/internal/security/csrf.go:28-34 | fails iff the random source fails; otherwise 64 lower-case hex characters that decode to the 32 random bytes |
| Csrf.CsrfCheck | backend/internal/security/csrf.go:37-63 | safe methods pass unchecked; an unsafe request gets 403 "missing csrf token" for a blank header, then "missing csrf cookie" for a missing or blank cookie, then "invalid csrf token" on a mismatch, and passes iff both are non-blank after trimming and equal |
| Csrf.MintedTokenPasses | backend/internal/security/csrf.go:42-60 | a client that echoes a freshly minted token in the header gets any request through |
| HttpServer.CorsHeaders | backend/internal/httpserver/server.go:27-33 | the five CORS headers, echoing the request origin, with Vary: Origin and credentials allowed |
| HttpServer.CorsDecision | backend/internal/httpserver/server.go:15-42 | the headers are added iff the origin is non-empty and listed exactly; the request is forwarded iff it is not OPTIONS |
| HttpServer.OriginListed | backend/internal/httpserver/server.go:19-25 | the flag-and-break loop finds the origin iff it equals a configured origin |
| HttpServer.HandleCors | backend/internal/httpserver/server.go:15-42 | the middleware makes exactly the CorsDecision |
| HttpServer.EmptyOriginNoHeaders | backend/internal/httpserver/server.go:27 | an empty Origin never gets CORS headers, even when "" is configured |
| HttpServer.PreflightAlwaysAnswered | backend/internal/httpserver/server.go:35-40 | OPTIONS is always answered 204 and never forwarded, allowed or not, with the same headers as any other method; Allow-Origin is set iff the origin is non-empty and listed |
| ApiMain.Health | backend/cmd/api/main.go:15-21 | /health answers 200 with status "ok" and the configured environment |
| ApiMain.HandleCors | backend/cmd/api/main.go:34-61 | the entry point's copy of the middleware makes the same decision as the server's, over the configured origins |
| Config.GetEnv | backend/internal/config/config.go:50-56 | a set, non-empty variable wins; the fallback is returned iff the value is empty (or equals it) |
| Config.ParseOrigins | backend/internal/config/config.go:22-29 | the loop appends exactly the trimmed non-empty parts of the comma split, in order |
| Config.KeptConcat | backend/internal/config/config.go:24-29 | cleaning works part by part: the result over two lists is the two results concatenated |
| Config.KeptFrom | backend/internal/config/config.go:24-29 | every kept value is the non-empty image of some part |
| Config.CleanOriginsConcat | backend/internal/config/config.go:22-29 | the parsed origins keep the order of the parts |
| Config.CleanOriginsSingle | backend/internal/config/config.go:25-28 | one part is kept, trimmed, iff something besides spaces is in it |
| Config.CleanOriginsClean | backend/internal/config/config.go:25-28 | every parsed origin is non-empty with no surrounding space |
| Config.OriginsBound | backend/internal/config/config.go:22-29 | there are at most as many origins as commas plus one |
| Config.ConfigOf | backend/internal/config/config.go:17-48 | a configuration is returned iff DATABASE_URL and REDIS_URL are set, and then both are non-empty; the defaults "development", "8080" and "http://localhost:5173" apply to unset variables |
| Config.DefaultOrigins | backend/internal/config/config.go:20-29 | the default CORS_ORIGIN parses to itself |
| Config.SingleOrigin | backend/internal/config/config.go:22-29 | a single origin without comma or surrounding space parses to itself |
| Config.LoadConfig | backend/internal/config/config.go:17-48 | the method returns ConfigOf the environment, a failure standing for log.Fatal |
| CookieOptionsGo.IsDevNormalised | backend/internal/security/cookie_options.go:32-35 | isDev looks through surrounding spaces and ASCII case |
| CookieOptionsGo.IsDevIgnoresPadding | backend/internal/security/cookie_options.go:32-35 | a name padded with spaces is development iff its lower-cased core is "", "dev", "development" or "local" |
| CookieOptionsGo.SessionCookieOptions | backend/internal/security/cookie_options.go:14-21 | Secure iff not development; SameSite always Lax |
| CookieOptionsGo.CsrfCookieOptions | backend/internal/security/cookie_options.go:23-30 | Secure iff not development; SameSite always Lax |
| CookieOptionsGo.OptionsAgree | backend/internal/security/cookie_options.go:14-30 | the session and CSRF options of one environment agree on Secure and SameSite |
| UsersRepo.NormalizeEmail | backend/internal/repositories/users/repo.go:24 | the normalised address has no surrounding space and no upper-case ASCII letter, and is empty iff the input is all space |
| UsersRepo.NormalizeIdempotent | backend/internal/repositories/users/repo.go:24 | normalising twice is normalising once |
| UsersRepo.NormalizeIgnoresSpaceAndCase | backend/internal/repositories/users/repo.go:48 | an address wrapped in spaces normalises to its lower-cased core |
| UsersRepo.Create | backend/internal/repositories/users/repo.go:23-38 | an all-space address is refused with "email required" before the store; otherwise the user is stored with the normalised address and the trimmed name, or the store's error returned |
| UsersRepo.Lookup | backend/internal/repositories/users/repo.go:54 | finds a row whose email equals the key, and finds none iff there is none |
| UsersRepo.FindByEmail | backend/internal/repositories/users/repo.go:47-57 | the same blank check as Create; otherwise a user whose email is the normalised address, or "no rows" iff there is none |
| UsersRepo.FindAfterCreate | backend/internal/repositories/users/repo.go:23-57 | a user created with one spelling of an address is found with any spelling that normalises the same way |
| AuthHandlers.SessionCookie | backend/internal/auth/cookies.go:12-22 | the session cookie is HttpOnly on "/", lasts seven days, and takes Secure and SameSite from the options |
| AuthHandlers.ClearedSessionCookie | backend/internal/auth/cookies.go:24-34 | the cleared cookie is the session cookie emptied and expired at once |
| AuthHandlers.RequestGate | backend/internal/auth/handlers.go:30-42 | non-POST is 405 first; a present Content-Type without "application/json" is 415; an absent one is accepted; the request passes iff all three guards do |
| AuthHandlers.Register | backend/internal/auth/handlers.go:29-64 | the shared guards first; then a password under 10 bytes is 400 before hashing; 201 with the new user's id and normalised address iff hashing and Create succeed; never a panic |
| AuthHandlers.Login | backend/internal/auth/handlers.go:66-109 | the shared guards first; 200 iff the address is found, the password matches, a session id is made and saved; then the session belongs to that user and the cookie carries its id; no cookie on any failure |
| AuthHandlers.LoginFailuresAlike | backend/internal/auth/handlers.go:81-90 | an unknown address and a wrong password get the same 401 "invalid credentials", no session and no cookie |
| AuthHandlers.GuardsShared | backend/internal/auth/handlers.go:29-79 | Register and Login answer a request failing a shared guard identically |
| AuthHandlers.PasswordCountsBytes | backend/internal/auth/handlers.go:43 | the length rule counts UTF-8 bytes: five two-byte characters are long enough |
| AuthHandlers.Logout | backend/internal/auth/handlers.go:111-121 | always clears the cookie and answers "ok"; deletes the session iff the request carries a non-empty session cookie, and then exactly that one |
| GoStrings.TrimSpace | backend/internal/config/config.go:25 | the result has no surrounding space and is empty iff the input is all space |
| GoStrings.TrimSpaceOf | backend/internal/config/config.go:25 | trimming removes exactly the surrounding spaces of a trimmed core |
| GoStrings.TrimSpaceIdempotent | backend/internal/config/config.go:25 | trimming twice is trimming once |
| GoStrings.ToLower | backend/internal/repositories/users/repo.go:24 | lower-casing maps every character by LowerChar and keeps the length |
| GoStrings.TrimLowerCommute | backend/internal/repositories/users/repo.go:24 | lower-casing commutes with trimming |
| GoStrings.Split | backend/internal/config/config.go:22 | one more part than separators, none holding a separator |
| GoStrings.JoinSplit | backend/internal/config/config.go:22 | joining the parts gives back the string |
| GoStrings.ContainsWitness | backend/internal/auth/handlers.go:34 | Contains finds the substring at some offset; with ContainsAt, iff |
| GoStrings.Utf8Len | backend/internal/auth/handlers.go:43 | a string's byte length is between its length and four times it |
| GoStrconv.Atoi | backend/internal/chat/handlers.go:137 | an accepted string is non-empty, starts with a digit or a sign, and has a 64-bit value |
| GoStrconv.AtoiFormat | backend/internal/chat/handlers.go:137 | Atoi reads back what Itoa writes for every 64-bit integer |

## Left out

- Goroutines and channel scheduling. These are the `select` of `Run`, the blocking sends on `register` and `unregister`, and the 64-slot broadcast channel. Each case of `Run` and each frame of the reader is one atomic step. `Broadcast` is processed at once, as if the hub had taken it at the moment it was sent.
- WsHandler.Reader: the writer is modelled as running only when the reader waits on a full channel. It then takes one envelope. Interleavings in which the writer drains earlier are not modelled.
- WsHandler.Writer: it drains what is buffered and stops, instead of waiting for more.
- Ping frames, the pong handler, read and write deadlines, the 30 s ticker and the 4096-byte read limit. These are timers and library limits. A frame that breaks the read limit appears only as the end of `frames`, the read error.
- RFC 3339 formatting of timestamps: envelopes and replies carry the instant (`ts: Option<int>`, `now`) instead of the formatted string.
- JSON encoding and decoding: a decoded body is an `Option` (None for invalid JSON), and a websocket frame is `Malformed` or a decoded envelope.
- SQL and Redis execution: the repositories are functions over in-memory tables (`Store`, `RoomsDb`, a user sequence, `Counters`). Each query's error or answer is a parameter. Rows are ordered by an insertion sort standing for the database's sort.
- UUID comparison: ids are compared as text, which orders canonical lower-case UUIDs as the database orders uuid values.
- RoomsRepo.AddMember, RoomsRepo.IsMember, MessagesRepo.FindCursor: the model assumes every id is canonical lower-case uuid text and compares ids as exact text. The source casts them with `::uuid` (rooms/repo.go:55 and :66, messages/repo.go:61, :66 and :92). So an upper-case or braced spelling of an id matches there but not here: `IsMember` is false, `AddMember` adds a second pair where the source hits `ON CONFLICT DO NOTHING`, and the cursor finds no message. Text that is not a uuid makes the source's query fail. The model covers that failure only through the `fault`, `memberFault` and `listFault` parameters, which stand for the error a query returns.
- GoStrings.ToLower, UsersRepo.NormalizeEmail: only the ASCII letters A to Z are lower-cased. Go's `strings.ToLower` (users/repo.go:24 and :48) maps every Unicode capital, such as É to é and the Kelvin sign to k. So an address with a non-ASCII capital is stored and looked up under a different key here. `isDev` gives the same answer either way: the only non-ASCII capitals that lower to ASCII letters are İ and the Kelvin sign, and neither i nor k occurs in "dev", "development" or "local".
- RoomsRepo.LatestIn: the `LATERAL` subquery has no id tie-break, so among messages with equal timestamps the database may pick any. The model picks one, and its contract states only "a message with the greatest created_at".
- Expiry of Redis keys: the limiter records the window set on the first increment but does not expire counters. The lemmas reason within one window.
- bcrypt hashing and comparison, `crypto/rand`, the session store and the random session id: these are answers passed as parameters.
- Writing cookies and headers to the response: the model returns the cookie and header values instead.
- `users.Repo.GetUserById` (users/repo.go:40-45): a plain lookup that no modelled operation uses.
- The authentication middleware, `auth/Me.go`, `auth/routes/Me.go`, `auth/session_store.go`, `functions/functions.go`, `app/app.go` wiring, the database and cache setup, the debug and health packages of `internal`, and the frontend: none of these is part of this model.
- The rate limiter's `context.WithTimeout`: it is a deadline on the Redis call, whose outcome is already a parameter.
