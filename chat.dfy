/** The chat HTTP handlers: rooms (create, list, join) and a room's message
    history. The authenticated user id comes from the session middleware and is
    None when the request has no session. */
module ChatHandlers {
  import opened Wrappers
  import opened GoStrings
  import opened GoStrconv
  import opened Ordering
  import opened Http
  import opened MessagesRepo
  import opened RoomsRepo

  /** The payloads the handlers write. */
  datatype ChatBody =
    | RoomBody(room: Room)
    | RoomsBody(rooms: seq<Room>)
    | StatusBody(status: string)
    | MessagesBody(messages: seq<Message>, nextBefore: string, serverTime: int)

  /** A reply and the membership relation after the handler ran. */
  datatype ChatOutcome = ChatOutcome(reply: Reply<ChatBody>, members: set<Membership>)

  /** CreateRoom. `name` is the decoded body's name (None when the body is not
      valid JSON), `db` the answer to the INSERT and `addFault` the error of the
      creator's AddMember, which the handler ignores. */
  function CreateRoom(verb: string, userId: Option<string>, name: Option<string>, db: CreateAnswer,
                      members: set<Membership>, addFault: Option<string>): (r: ChatOutcome)
    ensures verb != "POST" ==> r == ChatOutcome(ErrorReply(StatusMethodNotAllowed, "method not allowed, use POST"), members)
    ensures verb == "POST" && userId.None? ==> r == ChatOutcome(ErrorReply(StatusUnauthorized, "unauthorized"), members)
    ensures r.reply.JsonReply? <==>
      verb == "POST" && userId.Some? && name.Some? && Create(name.value, userId.value, db).Success?
    ensures r.reply.JsonReply? ==>
      var room := Create(name.value, userId.value, db).value;
      && r.reply == JsonReply(StatusCreated, RoomBody(room))
      && r.members == AddMember(members, room.id, userId.value, addFault).members
    ensures r.reply.JsonReply? && addFault.None? ==> Membership(r.reply.body.room.id, userId.value) in r.members
    ensures !r.reply.JsonReply? ==> r.members == members
    ensures !r.reply.Panic?
  {
    if verb != "POST" then ChatOutcome(ErrorReply(StatusMethodNotAllowed, "method not allowed, use POST"), members)
    else if userId.None? then ChatOutcome(ErrorReply(StatusUnauthorized, "unauthorized"), members)
    else if name.None? then ChatOutcome(ErrorReply(StatusBadRequest, "invalid json"), members)
    else match Create(name.value, userId.value, db)
      case Failure(_) => ChatOutcome(ErrorReply(StatusBadRequest, "could not create room"), members)
      case Success(room) =>
        var added := AddMember(members, room.id, userId.value, addFault);
        ChatOutcome(JsonReply(StatusCreated, RoomBody(room)), added.members)
  }

  /** ListRooms over ListForUser's answer; a panic of the scan ends the request. */
  function ListRooms(userId: Option<string>, db: RoomsDb, fault: Option<string>): (r: Reply<ChatBody>)
    ensures userId.None? ==> r == ErrorReply(StatusUnauthorized, "unauthorized")
    ensures userId.Some? && fault.Some? ==> r == ErrorReply(StatusInternalServerError, "could not list rooms")
    ensures r.JsonReply? ==> userId.Some? && ListingOf(db, userId.value, fault).Listed?
                             && r == JsonReply(StatusOK, RoomsBody(ListingOf(db, userId.value, fault).rooms))
    ensures userId.Some? && fault.None? ==> (r.Panic? <==> ListingOf(db, userId.value, fault).Panicked?)
  {
    if userId.None? then ErrorReply(StatusUnauthorized, "unauthorized")
    else match ListingOf(db, userId.value, fault)
      case QueryFailed(_) => ErrorReply(StatusInternalServerError, "could not list rooms")
      case Panicked => Panic
      case Listed(rooms) => JsonReply(StatusOK, RoomsBody(rooms))
  }

  /** JoinRoom. `roomId` is the decoded body's roomId (None when the body is not
      valid JSON) and `addFault` the error of AddMember. */
  function JoinRoom(userId: Option<string>, roomId: Option<string>, members: set<Membership>,
                    addFault: Option<string>): (r: ChatOutcome)
    ensures userId.None? ==> r == ChatOutcome(ErrorReply(StatusUnauthorized, "unauthorized"), members)
    ensures userId.Some? && roomId.Some? && TrimSpace(roomId.value) == "" ==>
      r == ChatOutcome(ErrorReply(StatusBadRequest, "roomId required"), members)
    ensures userId.Some? && roomId.Some? && TrimSpace(roomId.value) != "" && addFault.Some? ==>
      r == ChatOutcome(ErrorReply(StatusUnauthorized, "unauthorized"), members)
    ensures r.reply.JsonReply? <==> userId.Some? && roomId.Some? && TrimSpace(roomId.value) != "" && addFault.None?
    ensures r.reply.JsonReply? ==>
      && r.reply == JsonReply(StatusOK, StatusBody("ok"))
      && r.members == members + {Membership(TrimSpace(roomId.value), userId.value)}
    ensures !r.reply.JsonReply? ==> r.members == members
  {
    if userId.None? then ChatOutcome(ErrorReply(StatusUnauthorized, "unauthorized"), members)
    else if roomId.None? then ChatOutcome(ErrorReply(StatusBadRequest, "invalid json"), members)
    else
      var id := TrimSpace(roomId.value);
      if id == "" then ChatOutcome(ErrorReply(StatusBadRequest, "roomId required"), members)
      else
        var added := AddMember(members, id, userId.value, addFault);
        if added.err.Some? then ChatOutcome(ErrorReply(StatusUnauthorized, "unauthorized"), members)
        else ChatOutcome(JsonReply(StatusOK, StatusBody("ok")), added.members)
  }

  /** Joining twice answers ok twice and adds the membership once. */
  lemma JoinRoomIdempotent(userId: string, roomId: string, members: set<Membership>)
    requires TrimSpace(roomId) != ""
    ensures var once := JoinRoom(Some(userId), Some(roomId), members, None);
      JoinRoom(Some(userId), Some(roomId), once.members, None) == once
  {
  }

  /** HandleRooms: GET lists, POST creates, any other method is refused. */
  function HandleRooms(verb: string, userId: Option<string>, name: Option<string>, db: CreateAnswer,
                       rooms: RoomsDb, listFault: Option<string>, addFault: Option<string>): (r: ChatOutcome)
    ensures verb == "GET" ==> r == ChatOutcome(ListRooms(userId, rooms, listFault), rooms.members)
    ensures verb == "POST" ==> r == CreateRoom(verb, userId, name, db, rooms.members, addFault)
    ensures verb != "GET" && verb != "POST" ==>
      r == ChatOutcome(ErrorReply(StatusMethodNotAllowed, "method not allowed"), rooms.members)
  {
    if verb == "GET" then ChatOutcome(ListRooms(userId, rooms, listFault), rooms.members)
    else if verb == "POST" then CreateRoom(verb, userId, name, db, rooms.members, addFault)
    else ChatOutcome(ErrorReply(StatusMethodNotAllowed, "method not allowed"), rooms.members)
  }

  /** The query parameters ListMessages reads, each "" when absent (r.URL.Query().Get). */
  datatype HistoryQuery = HistoryQuery(roomId: string, before: string, limit: string)

  /** The limit ListMessages passes on: 50, unless the trimmed parameter parses as
      an integer, which is passed on as it is, in range or not. */
  function RequestedLimit(raw: string): (limit: int)
    ensures Atoi(TrimSpace(raw)).Some? ==> limit == Atoi(TrimSpace(raw)).value
    ensures Atoi(TrimSpace(raw)).None? ==> limit == DefaultLimit
  {
    var t := TrimSpace(raw);
    if t == "" then DefaultLimit
    else match Atoi(t)
      case None => DefaultLimit
      case Some(n) => n
  }

  /** The cursor for the next page: the id of the page's last (oldest) message, "" for an empty page. */
  function NextBefore(page: seq<Message>): (cursor: string)
    ensures page == [] ==> cursor == ""
    ensures page != [] ==> cursor == page[|page| - 1].id
  {
    if |page| > 0 then page[|page| - 1].id else ""
  }

  /** ListMessages. `memberFault` is IsMember's error, `listFault` ListLatest's, if
      any, and `now` the server clock. */
  function ListMessages(userId: Option<string>, query: HistoryQuery, members: set<Membership>,
                        memberFault: Option<string>, store: Store, listFault: Option<string>, now: int): (r: Reply<ChatBody>)
    ensures userId.None? ==> r == ErrorReply(StatusUnauthorized, "unauthorized")
    ensures userId.Some? && TrimSpace(query.roomId) == "" ==> r == ErrorReply(StatusBadRequest, "roomId is required")
    ensures userId.Some? && TrimSpace(query.roomId) != ""
            && IsMember(members, TrimSpace(query.roomId), userId.value, memberFault) != Success(true) ==>
      r == ErrorReply(StatusForbidden, "forbidden")
    ensures r.JsonReply? <==>
      && userId.Some? && TrimSpace(query.roomId) != ""
      && memberFault.None? && Membership(TrimSpace(query.roomId), userId.value) in members
      && listFault.None?
    ensures r.JsonReply? ==>
      var page := LatestPage(store, TrimSpace(query.roomId), TrimSpace(query.before),
                             RequestedLimit(query.limit));
      r == JsonReply(StatusOK, MessagesBody(page, NextBefore(page), now))
    ensures !r.Panic?
  {
    if userId.None? then ErrorReply(StatusUnauthorized, "unauthorized")
    else
      var roomId := TrimSpace(query.roomId);
      if roomId == "" then ErrorReply(StatusBadRequest, "roomId is required")
      else if IsMember(members, roomId, userId.value, memberFault) != Success(true) then ErrorReply(StatusForbidden, "forbidden")
      else
        var before := TrimSpace(query.before);
        var limit := RequestedLimit(query.limit);
        if listFault.Some? then ErrorReply(StatusInternalServerError, listFault.value)
        else
          var page := LatestPage(store, roomId, before, limit);
          JsonReply(StatusOK, MessagesBody(page, NextBefore(page), now))
  }

  /** Itoa writes no space. */
  lemma FormatIntTrimmed(n: int)
    ensures TrimSpace(FormatInt(n)) == FormatInt(n)
  {
    var s := FormatInt(n);
    var digits := FormatNat(if n < 0 then -n else n);
    assert s[|s| - 1] == digits[|digits| - 1];
    assert !IsSpace(s[0]) && !IsSpace(s[|s| - 1]);
    TrimSpaceOf("", s, "");
    assert "" + s + "" == s;
  }

  /** The limit parameter as a client writes it is read back exactly. */
  lemma RequestedLimitOfFormat(n: int)
    requires MinInt64 <= n <= MaxInt64
    ensures RequestedLimit(FormatInt(n)) == n
  {
    FormatIntTrimmed(n);
    AtoiFormat(n);
  }

  /** Message ids are UUIDs: no surrounding spaces, so a cursor survives the handler's trim. */
  ghost predicate IdsTrimmed(store: Store) {
    forall i :: 0 <= i < |store.messages| ==> Trimmed(store.messages[i].id)
  }

  /** A message id trims to itself. */
  lemma IdTrimmed(store: Store, k: nat)
    requires IdsTrimmed(store) && k < |store.messages|
    ensures TrimSpace(store.messages[k].id) == store.messages[k].id
  {
    var id := store.messages[k].id;
    TrimSpaceOf("", id, "");
    assert "" + id + "" == id;
  }

  /** A member's history request that the stores answer is answered with the page
      the repository computes and that page's cursor. */
  lemma HistoryReply(userId: string, roomId: string, before: string, limit: string, members: set<Membership>,
                     store: Store, now: int, reply: Reply<ChatBody>)
    requires TrimSpace(roomId) != "" && Membership(TrimSpace(roomId), userId) in members
    requires reply == ListMessages(Some(userId), HistoryQuery(roomId, before, limit), members, None, store, None, now)
    ensures reply.JsonReply? && reply.status == StatusOK && reply.body.MessagesBody? && reply.body.serverTime == now
    ensures reply.body.messages == LatestPage(store, TrimSpace(roomId), TrimSpace(before), RequestedLimit(limit))
    ensures reply.body.nextBefore == NextBefore(reply.body.messages)
  {
  }

  /** Following nextBefore: the page fetched with the previous page's nextBefore as
      `before` continues it with no overlap and no gap, so two pages of n are
      one page of 2n. */
  lemma NextBeforeChains(userId: string, roomId: string, before: string, n: int, members: set<Membership>,
                         store: Store, now1: int, now2: int, now3: int,
                         first: Reply<ChatBody>, second: Reply<ChatBody>, both: Reply<ChatBody>)
    requires WellFormed(store) && IdsTrimmed(store)
    requires TrimSpace(roomId) != "" && Membership(TrimSpace(roomId), userId) in members
    requires 1 <= n && 2 * n <= MaxLimit
    requires first == ListMessages(Some(userId), HistoryQuery(roomId, before, FormatInt(n)), members, None, store, None, now1)
    requires first.JsonReply? && first.body.messages != []
    requires second == ListMessages(Some(userId), HistoryQuery(roomId, first.body.nextBefore, FormatInt(n)),
                                    members, None, store, None, now2)
    requires both == ListMessages(Some(userId), HistoryQuery(roomId, before, FormatInt(2 * n)), members, None, store, None, now3)
    ensures second.JsonReply? && both.JsonReply?
    ensures first.body.messages + second.body.messages == both.body.messages
  {
    RequestedLimitOfFormat(n);
    RequestedLimitOfFormat(2 * n);
    HistoryReply(userId, roomId, before, FormatInt(n), members, store, now1, first);
    HistoryReply(userId, roomId, first.body.nextBefore, FormatInt(n), members, store, now2, second);
    HistoryReply(userId, roomId, before, FormatInt(2 * n), members, store, now3, both);
    CursorChains(store, TrimSpace(roomId), TrimSpace(before), n, first.body.messages, second.body.messages,
                 both.body.messages);
  }

  /** The repository side of NextBeforeChains: the trimmed nextBefore of a page
      is the cursor that continues it. */
  lemma CursorChains(store: Store, room: string, cursor: string, n: int,
                     first: seq<Message>, second: seq<Message>, both: seq<Message>)
    requires WellFormed(store) && IdsTrimmed(store)
    requires 1 <= n && 2 * n <= MaxLimit
    requires first == LatestPage(store, room, cursor, n) && first != []
    requires second == LatestPage(store, room, TrimSpace(NextBefore(first)), n)
    requires both == LatestPage(store, room, cursor, 2 * n)
    ensures first + second == both
  {
    var k := PageLastFromTable(store, room, cursor, EffectiveLimit(n), first);
    IdTrimmed(store, k);
    PagesChain(store, room, cursor, n, first, second, both);
  }
}
