/** The rooms repository: creating a room, the membership relation, and the
    list of a user's rooms ordered by last activity, each with its latest message. */
module RoomsRepo {
  import opened Wrappers
  import opened GoStrings
  import opened Ordering
  import opened MessagesRepo

  /** A room as the API returns it. */
  datatype Room = Room(id: string, name: string, createdBy: string, createdAt: int, lastMessage: Option<Message>)

  /** A row of the `rooms` table. */
  datatype RoomRecord = RoomRecord(id: string, name: string, createdBy: string, createdAt: int)

  /** A row of `room_members`; the pair is its primary key. */
  datatype Membership = Membership(roomId: string, userId: string)

  /** The tables the repository reads. */
  datatype RoomsDb = RoomsDb(rooms: seq<RoomRecord>, members: set<Membership>,
                             messages: seq<Message>, userNames: map<string, string>)

  const ErrRoomNameExists := "room name already existes"
  const UniqueViolation := "23505"

  /** What the database answers to the INSERT ... RETURNING of a room: the
      stored row, or an error with its Postgres code when it has one. */
  datatype CreateAnswer = Created(id: string, createdAt: int) | CreateFailed(pgCode: Option<string>, message: string)

  /** Create: the name is trimmed and must not be empty; a unique violation on the
      name becomes ErrRoomNameExists, any other error is passed on. */
  function Create(name: string, createdBy: string, db: CreateAnswer): (r: Result<Room, string>)
    ensures TrimSpace(name) == "" ==> r == Failure("name required")
    ensures TrimSpace(name) != "" && db.CreateFailed? ==>
      r == Failure(if db.pgCode == Some(UniqueViolation) then ErrRoomNameExists else db.message)
    ensures r.Success? <==> TrimSpace(name) != "" && db.Created?
    ensures r.Success? ==> r.value == Room(db.id, TrimSpace(name), createdBy, db.createdAt, None)
  {
    var trimmed := TrimSpace(name);
    if trimmed == "" then Failure("name required")
    else match db
      case CreateFailed(code, message) =>
        if code == Some(UniqueViolation) then Failure(ErrRoomNameExists) else Failure(message)
      case Created(id, createdAt) => Success(Room(id, trimmed, createdBy, createdAt, None))
  }

  /** The membership relation after an AddMember and the error it returns. */
  datatype AddResult = AddResult(members: set<Membership>, err: Option<string>)

  /** AddMember: INSERT ... ON CONFLICT DO NOTHING. `fault` is the error the
      database raises, if any (no such room, an id that is not a uuid). */
  function AddMember(members: set<Membership>, roomId: string, userId: string, fault: Option<string>): (r: AddResult)
    ensures fault.Some? ==> r == AddResult(members, fault)
    ensures fault.None? ==> r.err.None? && Membership(roomId, userId) in r.members
    ensures members <= r.members && r.members - members <= {Membership(roomId, userId)}
  {
    if fault.Some? then AddResult(members, fault)
    else AddResult(members + {Membership(roomId, userId)}, None)
  }

  /** IsMember: SELECT EXISTS over the membership relation. */
  function IsMember(members: set<Membership>, roomId: string, userId: string, fault: Option<string>): (r: Result<bool, string>)
    ensures fault.Some? ==> r == Failure(fault.value)
    ensures fault.None? ==> r.Success? && (r.value <==> Membership(roomId, userId) in members)
  {
    if fault.Some? then Failure(fault.value) else Success(Membership(roomId, userId) in members)
  }

  /** Re-adding a pair that is already a member changes nothing and reports no error. */
  lemma AddMemberExisting(members: set<Membership>, roomId: string, userId: string)
    requires Membership(roomId, userId) in members
    ensures AddMember(members, roomId, userId, None) == AddResult(members, None)
  {
  }

  /** Adding twice is adding once. */
  lemma AddMemberIdempotent(members: set<Membership>, roomId: string, userId: string)
    ensures var once := AddMember(members, roomId, userId, None).members;
      AddMember(once, roomId, userId, None) == AddResult(once, None)
  {
  }

  /** After a successful AddMember, IsMember holds for that pair and for every pair that held before. */
  lemma AddThenIsMember(members: set<Membership>, roomId: string, userId: string, other: Membership)
    ensures IsMember(AddMember(members, roomId, userId, None).members, roomId, userId, None) == Success(true)
    ensures other in members ==>
      IsMember(AddMember(members, roomId, userId, None).members, other.roomId, other.userId, None) == Success(true)
  {
  }

  /** The LATERAL subquery: a message of the room with the greatest created_at.
      The query has no tiebreak; of equal times this picks the first in table order. */
  function LatestIn(msgs: seq<Message>, roomId: string): (r: Option<Message>)
    ensures r.None? <==> forall i :: 0 <= i < |msgs| ==> msgs[i].roomId != roomId
    ensures r.Some? ==> r.value in msgs && r.value.roomId == roomId
    ensures r.Some? ==> forall i :: 0 <= i < |msgs| && msgs[i].roomId == roomId ==> msgs[i].createdAt <= r.value.createdAt
  {
    if msgs == [] then None
    else
      var rest := LatestIn(msgs[1..], roomId);
      assert forall i :: 1 <= i < |msgs| ==> msgs[i] == msgs[1..][i - 1];
      if msgs[0].roomId != roomId then rest
      else if rest.Some? && rest.value.createdAt > msgs[0].createdAt then rest
      else Some(msgs[0])
  }

  /** A result row of the listing query; the last-message columns are NULL when
      the room has no message, the sender name also when the sender has no user row. */
  datatype RoomRow = RoomRow(id: string, name: string, createdBy: string, createdAt: int,
                             lastBody: Option<string>, lastSenderId: Option<string>,
                             lastCreatedAt: Option<int>, lastSenderName: Option<string>)

  /** One room joined with its latest message (LEFT JOIN LATERAL) and that message's sender (LEFT JOIN users). */
  function JoinRow(db: RoomsDb, room: RoomRecord): RoomRow {
    match LatestIn(db.messages, room.id)
    case None => RoomRow(room.id, room.name, room.createdBy, room.createdAt, None, None, None, None)
    case Some(m) =>
      RoomRow(room.id, room.name, room.createdBy, room.createdAt, Some(m.body), Some(m.senderId), Some(m.createdAt),
              if m.senderId in db.userNames then Some(db.userNames[m.senderId]) else None)
  }

  /** The rooms of `rooms` the user is a member of (JOIN room_members ... WHERE m.user_id), joined, in table order. */
  function MemberRows(db: RoomsDb, rooms: seq<RoomRecord>, userId: string): (r: seq<RoomRow>)
    ensures |r| <= |rooms|
    ensures forall i :: 0 <= i < |r| ==>
      exists j :: 0 <= j < |rooms| && Membership(rooms[j].id, userId) in db.members && r[i] == JoinRow(db, rooms[j])
    ensures forall j :: 0 <= j < |rooms| && Membership(rooms[j].id, userId) in db.members ==> JoinRow(db, rooms[j]) in r
  {
    if rooms == [] then []
    else
      var rest := MemberRows(db, rooms[1..], userId);
      assert forall j :: 1 <= j < |rooms| ==> rooms[j] == rooms[1..][j - 1];
      if Membership(rooms[0].id, userId) in db.members then [JoinRow(db, rooms[0])] + rest else rest
  }

  /** ORDER BY COALESCE(msg.created_at, r.created_at) DESC, r.id DESC. */
  function ActivityKey(row: RoomRow): Key {
    Key(if row.lastCreatedAt.Some? then row.lastCreatedAt.value else row.createdAt, row.id)
  }

  /** The rows of the listing query, in the order the query returns them. */
  function ListRows(db: RoomsDb, userId: string): seq<RoomRow> {
    SortDesc(MemberRows(db, db.rooms, userId), ActivityKey)
  }

  /** Scanning a row dereferences the last-message columns when the body is not NULL. */
  predicate Panics(row: RoomRow) {
    row.lastBody.Some? && (row.lastSenderId.None? || row.lastCreatedAt.None? || row.lastSenderName.None?)
  }

  /** The Room built from a scanned row; the last message carries no id. */
  function ToRoom(row: RoomRow): Room
    requires !Panics(row)
  {
    Room(row.id, row.name, row.createdBy, row.createdAt,
         if row.lastBody.None? then None
         else Some(Message("", row.id, row.lastSenderId.value, row.lastSenderName.value, row.lastBody.value, row.lastCreatedAt.value)))
  }

  /** The outcome of ListForUser: the rooms, the error of the query, or a nil dereference. */
  datatype Listing = Listed(rooms: seq<Room>) | QueryFailed(error: string) | Panicked

  /** The `for rows.Next()` loop of ListForUser. */
  method ScanRooms(rows: seq<RoomRow>) returns (out: Option<seq<Room>>)
    ensures out.None? <==> exists i :: 0 <= i < |rows| && Panics(rows[i])
    ensures out.Some? ==> |out.value| == |rows| && forall i :: 0 <= i < |rows| ==> out.value[i] == ToRoom(rows[i])
  {
    var acc: seq<Room> := [];
    var i := 0;
    while i < |rows|
      invariant 0 <= i <= |rows|
      invariant forall k :: 0 <= k < i ==> !Panics(rows[k])
      invariant |acc| == i && forall k :: 0 <= k < i ==> acc[k] == ToRoom(rows[k])
    {
      if Panics(rows[i]) {
        return None;
      }
      acc := acc + [ToRoom(rows[i])];
      i := i + 1;
    }
    out := Some(acc);
  }

  /** What ListForUser answers, as a value: the query error, a panic on the first
      row that would dereference a NULL column, or every row converted. */
  function ListingOf(db: RoomsDb, userId: string, fault: Option<string>): (r: Listing)
    ensures fault.Some? ==> r == QueryFailed(fault.value)
    ensures fault.None? ==> (r.Panicked? <==> exists i :: 0 <= i < |ListRows(db, userId)| && Panics(ListRows(db, userId)[i]))
    ensures fault.None? ==> !r.QueryFailed?
    ensures r.Listed? ==>
      && |r.rooms| == |ListRows(db, userId)|
      && forall i :: 0 <= i < |r.rooms| ==> r.rooms[i] == ToRoom(ListRows(db, userId)[i])
  {
    var rows := ListRows(db, userId);
    if fault.Some? then QueryFailed(fault.value)
    else if exists i :: 0 <= i < |rows| && Panics(rows[i]) then Panicked
    else Listed(seq(|rows|, i requires 0 <= i < |rows| => ToRoom(rows[i])))
  }

  /** ListForUser. `fault` is the error the database reports, if any. */
  method ListForUser(db: RoomsDb, userId: string, fault: Option<string>) returns (r: Listing)
    ensures r == ListingOf(db, userId, fault)
  {
    if fault.Some? {
      return QueryFailed(fault.value);
    }
    var scanned := ScanRooms(ListRows(db, userId));
    if scanned.None? {
      return Panicked;
    }
    r := Listed(scanned.value);
  }

  // ---------------------------------------------------------------------------
  // Properties of the listing


  /** A listed room is the room of the row at the same position. */
  lemma ListingIds(db: RoomsDb, userId: string)
    requires ListingOf(db, userId, None).Listed?
    ensures var rooms := ListingOf(db, userId, None).rooms;
      |rooms| == |ListRows(db, userId)| && forall i :: 0 <= i < |rooms| ==> rooms[i].id == ListRows(db, userId)[i].id
  {
  }

  /** Every listed row is the joined row of a room the user is a member of. */
  lemma ListRowOrigin(db: RoomsDb, userId: string, row: RoomRow) returns (j: nat)
    requires row in ListRows(db, userId)
    ensures j < |db.rooms| && Membership(db.rooms[j].id, userId) in db.members && row == JoinRow(db, db.rooms[j])
  {
    var rows := MemberRows(db, db.rooms, userId);
    assert row in multiset(rows);
    var p :| 0 <= p < |rows| && rows[p] == row;
    j :| 0 <= j < |db.rooms| && Membership(db.rooms[j].id, userId) in db.members && rows[p] == JoinRow(db, db.rooms[j]);
  }

  /** The joined row of every room the user is a member of is listed. */
  lemma MemberRoomListed(db: RoomsDb, userId: string, j: nat) returns (i: nat)
    requires j < |db.rooms| && Membership(db.rooms[j].id, userId) in db.members
    ensures i < |ListRows(db, userId)| && ListRows(db, userId)[i] == JoinRow(db, db.rooms[j])
  {
    var row := JoinRow(db, db.rooms[j]);
    assert row in MemberRows(db, db.rooms, userId);
    assert row in multiset(ListRows(db, userId));
    i :| 0 <= i < |ListRows(db, userId)| && ListRows(db, userId)[i] == row;
  }

  /** The listing holds exactly the rooms the user is a member of. */
  lemma ListedAreMemberRooms(db: RoomsDb, userId: string)
    ensures forall i :: 0 <= i < |ListRows(db, userId)| ==>
      exists j :: 0 <= j < |db.rooms| && ListRows(db, userId)[i].id == db.rooms[j].id
               && Membership(db.rooms[j].id, userId) in db.members
    ensures forall j :: 0 <= j < |db.rooms| && Membership(db.rooms[j].id, userId) in db.members ==>
      exists i :: 0 <= i < |ListRows(db, userId)| && ListRows(db, userId)[i].id == db.rooms[j].id
  {
    var sorted := ListRows(db, userId);
    forall i | 0 <= i < |sorted|
      ensures exists j :: 0 <= j < |db.rooms| && sorted[i].id == db.rooms[j].id
                       && Membership(db.rooms[j].id, userId) in db.members
    {
      var j := ListRowOrigin(db, userId, sorted[i]);
    }
    forall j | 0 <= j < |db.rooms| && Membership(db.rooms[j].id, userId) in db.members
      ensures exists i :: 0 <= i < |sorted| && sorted[i].id == db.rooms[j].id
    {
      var i := MemberRoomListed(db, userId, j);
    }
  }

  /** The key of a listed room: its last message's time, else its own creation time, then its id. */
  function RoomActivity(room: Room): Key {
    Key(if room.lastMessage.Some? then room.lastMessage.value.createdAt else room.createdAt, room.id)
  }

  /** Building the Room keeps the row's order key. */
  lemma ToRoomActivity(row: RoomRow)
    requires !Panics(row)
    requires row.lastBody.Some? || row.lastCreatedAt.None?
    ensures RoomActivity(ToRoom(row)) == ActivityKey(row)
  {
  }

  /** A joined row has its last-message columns all present or all NULL. */
  lemma JoinRowConsistent(db: RoomsDb, room: RoomRecord)
    ensures JoinRow(db, room).lastBody.Some? || JoinRow(db, room).lastCreatedAt.None?
  {
  }

  /** The listing is newest activity first, ties broken by room id, newest first. */
  lemma ListedInActivityOrder(db: RoomsDb, userId: string, rooms: seq<Room>)
    requires |rooms| == |ListRows(db, userId)|
    requires forall i :: 0 <= i < |rooms| ==> !Panics(ListRows(db, userId)[i]) && rooms[i] == ToRoom(ListRows(db, userId)[i])
    ensures Descending(rooms, RoomActivity)
  {
    var rows := ListRows(db, userId);
    forall i | 0 <= i < |rows| ensures RoomActivity(rooms[i]) == ActivityKey(rows[i]) {
      var j := ListRowOrigin(db, userId, rows[i]);
      JoinRowConsistent(db, db.rooms[j]);
      ToRoomActivity(rows[i]);
    }
    forall i, j | 0 <= i < j < |rooms| ensures !KeyLess(RoomActivity(rooms[i]), RoomActivity(rooms[j])) {
      assert !KeyLess(ActivityKey(rows[i]), ActivityKey(rows[j]));
    }
  }

  /** A joined row carries the room's latest message, if it has one. */
  lemma JoinRowLast(db: RoomsDb, room: RoomRecord)
    ensures JoinRow(db, room).lastBody.None? <==> forall k :: 0 <= k < |db.messages| ==> db.messages[k].roomId != room.id
    ensures JoinRow(db, room).lastBody.Some? ==>
      exists k :: 0 <= k < |db.messages| && db.messages[k].roomId == room.id
               && JoinRow(db, room).lastBody == Some(db.messages[k].body)
               && JoinRow(db, room).lastSenderId == Some(db.messages[k].senderId)
               && JoinRow(db, room).lastCreatedAt == Some(db.messages[k].createdAt)
               && forall q :: 0 <= q < |db.messages| && db.messages[q].roomId == room.id ==>
                    db.messages[q].createdAt <= db.messages[k].createdAt
  {
    var last := LatestIn(db.messages, room.id);
    if last.Some? {
      var k :| 0 <= k < |db.messages| && db.messages[k] == last.value;
    }
  }

  /** A listed room has no last message iff no message belongs to it; otherwise its
      last message is one of the room's messages with the greatest creation time. */
  lemma ListedLastMessage(db: RoomsDb, userId: string, i: nat)
    requires i < |ListRows(db, userId)| && !Panics(ListRows(db, userId)[i])
    ensures var room := ToRoom(ListRows(db, userId)[i]);
      && (room.lastMessage.None? <==> forall k :: 0 <= k < |db.messages| ==> db.messages[k].roomId != room.id)
      && (room.lastMessage.Some? ==>
            exists k :: 0 <= k < |db.messages| && db.messages[k].roomId == room.id
                     && room.lastMessage.value.body == db.messages[k].body
                     && room.lastMessage.value.senderId == db.messages[k].senderId
                     && room.lastMessage.value.createdAt == db.messages[k].createdAt
                     && forall q :: 0 <= q < |db.messages| && db.messages[q].roomId == room.id ==>
                          db.messages[q].createdAt <= db.messages[k].createdAt)
  {
    var j := ListRowOrigin(db, userId, ListRows(db, userId)[i]);
    JoinRowLast(db, db.rooms[j]);
  }

  /** A joined row panics only when the sender of the room's latest message has no user row. */
  lemma JoinRowPanics(db: RoomsDb, room: RoomRecord)
    ensures Panics(JoinRow(db, room)) <==>
      LatestIn(db.messages, room.id).Some? && LatestIn(db.messages, room.id).value.senderId !in db.userNames
  {
  }

  /** When every sender of a message has a user row, listing never dereferences a NULL name. */
  lemma NoPanicWhenSendersKnown(db: RoomsDb, userId: string)
    requires forall k :: 0 <= k < |db.messages| ==> db.messages[k].senderId in db.userNames
    ensures forall i :: 0 <= i < |ListRows(db, userId)| ==> !Panics(ListRows(db, userId)[i])
  {
    forall i | 0 <= i < |ListRows(db, userId)| ensures !Panics(ListRows(db, userId)[i]) {
      var j := ListRowOrigin(db, userId, ListRows(db, userId)[i]);
      JoinRowPanics(db, db.rooms[j]);
    }
  }

  /** A room whose latest message was sent by a user without a user row makes the listing panic. */
  lemma PanicWhenSenderUnknown(db: RoomsDb, userId: string, j: nat)
    requires j < |db.rooms| && Membership(db.rooms[j].id, userId) in db.members
    requires var last := LatestIn(db.messages, db.rooms[j].id); last.Some? && last.value.senderId !in db.userNames
    ensures exists i :: 0 <= i < |ListRows(db, userId)| && Panics(ListRows(db, userId)[i])
  {
    var i := MemberRoomListed(db, userId, j);
    JoinRowPanics(db, db.rooms[j]);
  }
}
