/** The messages repository: inserting a message and reading a room's history
    newest first, one page at a time, with a message id as the cursor. The
    database is an in-memory table; each query is the function it computes. */
module MessagesRepo {
  import opened Wrappers
  import opened GoStrings
  import opened Ordering

  /** A row of `messages`; `senderName` is filled in from `users` when listed. */
  datatype Message = Message(id: string, roomId: string, senderId: string, senderName: string,
                             body: string, createdAt: int)

  /** The two tables the queries read: the messages in insertion order, and the
      name of every user id that has a `users` row. */
  datatype Store = Store(messages: seq<Message>, userNames: map<string, string>)

  /** What the database answers to the INSERT ... RETURNING: the assigned id and
      creation time, or an error. */
  datatype InsertAnswer = Inserted(id: string, createdAt: int) | InsertFailed(reason: string)

  const DefaultLimit := 50
  const MaxLimit := 200

  /** The order key of both history queries: (created_at, id). */
  function MessageKey(m: Message): Key { Key(m.createdAt, m.id) }

  /** Message ids are UUID primary keys: unique and never blank. */
  ghost predicate WellFormed(db: Store) {
    && (forall i, j :: 0 <= i < j < |db.messages| ==> db.messages[i].id != db.messages[j].id)
    && (forall i :: 0 <= i < |db.messages| ==> TrimSpace(db.messages[i].id) != "")
  }

  /** Insert: the body is trimmed and must not be empty; the stored body is the trimmed one. */
  function Insert(roomId: string, senderId: string, body: string, db: InsertAnswer): (r: Result<Message, string>)
    ensures TrimSpace(body) == "" ==> r == Failure("body required")
    ensures TrimSpace(body) != "" && db.InsertFailed? ==> r == Failure(db.reason)
    ensures r.Success? <==> TrimSpace(body) != "" && db.Inserted?
    ensures r.Success? ==> r.value == Message(db.id, roomId, senderId, "", TrimSpace(body), db.createdAt)
  {
    var trimmed := TrimSpace(body);
    if trimmed == "" then Failure("body required")
    else match db
      case InsertFailed(reason) => Failure(reason)
      case Inserted(id, createdAt) => Success(Message(id, roomId, senderId, "", trimmed, createdAt))
  }

  /** The LIMIT the queries use: a requested limit outside 1..200 is reset to 50, not clamped. */
  function EffectiveLimit(limit: int): (n: nat)
    ensures 1 <= n <= MaxLimit
    ensures 1 <= limit <= MaxLimit ==> n == limit
    ensures (limit <= 0 || limit > MaxLimit) ==> n == DefaultLimit
  {
    if limit <= 0 || limit > MaxLimit then DefaultLimit else limit
  }

  /** The rows of room `roomId` that survive the inner join with `users`, with the
      sender's name taken from the join, in table order. */
  function RoomRows(msgs: seq<Message>, names: map<string, string>, roomId: string): (r: seq<Message>)
    ensures |r| <= |msgs|
    ensures forall i :: 0 <= i < |r| ==>
      r[i].roomId == roomId && r[i].senderId in names && r[i].senderName == names[r[i].senderId]
    ensures forall i :: 0 <= i < |r| ==> exists j :: 0 <= j < |msgs| && msgs[j].(senderName := r[i].senderName) == r[i]
  {
    if msgs == [] then []
    else
      var m := msgs[0];
      var rest := RoomRows(msgs[1..], names, roomId);
      assert forall i :: 0 <= i < |rest| ==> exists j :: 0 <= j < |msgs| && msgs[j].(senderName := rest[i].senderName) == rest[i] by {
        forall i | 0 <= i < |rest| ensures exists j :: 0 <= j < |msgs| && msgs[j].(senderName := rest[i].senderName) == rest[i] {
          var j :| 0 <= j < |msgs[1..]| && msgs[1..][j].(senderName := rest[i].senderName) == rest[i];
          assert msgs[j + 1] == msgs[1..][j];
        }
      }
      if m.roomId == roomId && m.senderId in names then [m.(senderName := names[m.senderId])] + rest else rest
  }

  /** A room's joined rows, newest first: the `ORDER BY created_at DESC, id DESC` of both queries. */
  function Ordered(db: Store, roomId: string): seq<Message> {
    SortDesc(RoomRows(db.messages, db.userNames, roomId), MessageKey)
  }

  /** The `cursor` CTE: the (created_at, id) of the message with this id in this room, if any. */
  function FindCursor(msgs: seq<Message>, roomId: string, beforeId: string): (r: Option<Key>)
    ensures r.None? <==> forall j :: 0 <= j < |msgs| ==> !(msgs[j].id == beforeId && msgs[j].roomId == roomId)
    ensures r.Some? ==> exists j :: 0 <= j < |msgs| && msgs[j].id == beforeId && msgs[j].roomId == roomId
                                  && r.value == MessageKey(msgs[j])
  {
    if msgs == [] then None
    else if msgs[0].id == beforeId && msgs[0].roomId == roomId then Some(MessageKey(msgs[0]))
    else
      var r := FindCursor(msgs[1..], roomId, beforeId);
      assert forall j :: 1 <= j < |msgs| ==> msgs[j] == msgs[1..][j - 1];
      r
  }

  /** listLatestNoCursor's query. */
  function LatestRows(db: Store, roomId: string, limit: nat): seq<Message> {
    Take(Ordered(db, roomId), limit)
  }

  /** ListLatest's cursor query: the room's joined rows strictly below the cursor tuple,
      newest first, at most `limit`; nothing when the cursor does not resolve. */
  function OlderRows(db: Store, roomId: string, beforeId: string, limit: nat): seq<Message> {
    match FindCursor(db.messages, roomId, beforeId)
    case None => []
    case Some(k) => Take(SortDesc(Below(RoomRows(db.messages, db.userNames, roomId), MessageKey, k), MessageKey), limit)
  }

  /** The page ListLatest returns, for an already effective limit. */
  function PageAt(db: Store, roomId: string, beforeId: string, limit: nat): seq<Message> {
    if TrimSpace(beforeId) == "" then LatestRows(db, roomId, limit) else OlderRows(db, roomId, beforeId, limit)
  }

  /** The page ListLatest returns. */
  function LatestPage(db: Store, roomId: string, beforeId: string, limit: int): seq<Message> {
    PageAt(db, roomId, beforeId, EffectiveLimit(limit))
  }

  /** The `for rows.Next()` loop: appends each result row in turn. */
  method CollectRows(rows: seq<Message>) returns (received: seq<Message>)
    ensures received == rows
  {
    received := [];
    var i := 0;
    while i < |rows|
      invariant 0 <= i <= |rows|
      invariant received == rows[..i]
    {
      received := received + [rows[i]];
      i := i + 1;
    }
  }

  /** listLatestNoCursor. `fault` is the error the database reports for the query, if any
      (a lost connection, a room id that is not a uuid). */
  method ListLatestNoCursor(db: Store, roomId: string, limit: nat, fault: Option<string>)
    returns (r: Result<seq<Message>, string>)
    ensures fault.Some? ==> r == Failure(fault.value)
    ensures fault.None? ==> r == Success(LatestRows(db, roomId, limit))
  {
    if fault.Some? {
      return Failure(fault.value);
    }
    var rows := CollectRows(Take(Ordered(db, roomId), limit));
    r := Success(rows);
  }

  /** ListLatest: reset the limit, then take the latest page or the page older than the cursor. */
  method ListLatest(db: Store, roomId: string, beforeId: string, limit: int, fault: Option<string>)
    returns (r: Result<seq<Message>, string>)
    ensures fault.Some? ==> r == Failure(fault.value)
    ensures fault.None? ==> r == Success(LatestPage(db, roomId, beforeId, limit))
  {
    var n := limit;
    if n <= 0 || n > MaxLimit {
      n := DefaultLimit;
    }
    if TrimSpace(beforeId) == "" {
      r := ListLatestNoCursor(db, roomId, n, fault);
      return;
    }
    if fault.Some? {
      return Failure(fault.value);
    }
    var rows := CollectRows(OlderRows(db, roomId, beforeId, n));
    r := Success(rows);
  }

  // ---------------------------------------------------------------------------
  // Properties of the pages

  lemma {:induction false} RoomRowsDistinct(msgs: seq<Message>, names: map<string, string>, roomId: string)
    requires forall i, j :: 0 <= i < j < |msgs| ==> msgs[i].id != msgs[j].id
    ensures DistinctKeys(RoomRows(msgs, names, roomId), MessageKey)
  {
    if msgs != [] {
      var rest := RoomRows(msgs[1..], names, roomId);
      RoomRowsDistinct(msgs[1..], names, roomId);
      forall i | 0 <= i < |rest| ensures rest[i].id != msgs[0].id {
        var j :| 0 <= j < |msgs[1..]| && msgs[1..][j].(senderName := rest[i].senderName) == rest[i];
        assert msgs[1..][j] == msgs[j + 1];
      }
    }
  }

  /** With unique ids, the room's history is strictly newest first. */
  lemma OrderedStrict(db: Store, roomId: string)
    requires WellFormed(db)
    ensures StrictlyDescending(Ordered(db, roomId), MessageKey)
  {
    RoomRowsDistinct(db.messages, db.userNames, roomId);
    SortDescDistinct(RoomRows(db.messages, db.userNames, roomId), MessageKey);
    DescendingDistinct(Ordered(db, roomId), MessageKey);
  }

  /** Every message of the ordered history is a message of that room. */
  lemma OrderedFromTable(db: Store, roomId: string, i: nat)
    requires i < |Ordered(db, roomId)|
    ensures exists j :: 0 <= j < |db.messages| && db.messages[j].id == Ordered(db, roomId)[i].id
                      && db.messages[j].roomId == roomId
                      && MessageKey(db.messages[j]) == MessageKey(Ordered(db, roomId)[i])
  {
    var rows := RoomRows(db.messages, db.userNames, roomId);
    var m := Ordered(db, roomId)[i];
    assert m in multiset(rows);
    var p :| 0 <= p < |rows| && rows[p] == m;
    var j :| 0 <= j < |db.messages| && db.messages[j].(senderName := rows[p].senderName) == rows[p];
  }

  /** The cursor query through the sorted history: what is below the cursor, in order. */
  lemma OlderRowsBelow(db: Store, roomId: string, beforeId: string, limit: nat, k: Key)
    requires FindCursor(db.messages, roomId, beforeId) == Some(k)
    ensures OlderRows(db, roomId, beforeId, limit) == Take(Below(Ordered(db, roomId), MessageKey, k), limit)
  {
    SortBelowCommute(RoomRows(db.messages, db.userNames, roomId), MessageKey, k);
  }

  /** With unique ids, the cursor resolves to the key of the one message bearing that id. */
  lemma {:induction false} FindCursorOf(msgs: seq<Message>, roomId: string, j: nat)
    requires forall a, b :: 0 <= a < b < |msgs| ==> msgs[a].id != msgs[b].id
    requires j < |msgs| && msgs[j].roomId == roomId
    ensures FindCursor(msgs, roomId, msgs[j].id) == Some(MessageKey(msgs[j]))
  {
    if j > 0 {
      assert msgs[0].id != msgs[j].id;
      assert msgs[1..][j - 1] == msgs[j];
      FindCursorOf(msgs[1..], roomId, j - 1);
    }
  }

  /** The page fetched with the id of the i-th newest message as cursor holds
      exactly the messages that follow it in the order. */
  lemma CursorPageFollows(db: Store, roomId: string, i: nat, limit: nat)
    requires WellFormed(db)
    requires i < |Ordered(db, roomId)|
    ensures PageAt(db, roomId, Ordered(db, roomId)[i].id, limit) == Take(Ordered(db, roomId)[i + 1..], limit)
  {
    WindowOfElement(db, roomId, i);
    PageAtWindow(db, roomId, Ordered(db, roomId)[i].id, limit);
  }

  /** A blank cursor yields the newest messages of the room. */
  lemma BlankCursorPage(db: Store, roomId: string, beforeId: string, limit: nat)
    requires TrimSpace(beforeId) == ""
    ensures PageAt(db, roomId, beforeId, limit) == Take(Ordered(db, roomId), limit)
  {
  }

  /** A cursor that names no message of the room yields an empty page. */
  lemma UnknownCursorPage(db: Store, roomId: string, beforeId: string, limit: int)
    requires TrimSpace(beforeId) != ""
    requires forall j :: 0 <= j < |db.messages| ==> !(db.messages[j].id == beforeId && db.messages[j].roomId == roomId)
    ensures LatestPage(db, roomId, beforeId, limit) == []
  {
  }

  /** Where in the room's history the page for a cursor starts. */
  function Window(db: Store, roomId: string, beforeId: string): (j: nat)
    ensures j <= |Ordered(db, roomId)|
  {
    var s := Ordered(db, roomId);
    if TrimSpace(beforeId) == "" then 0
    else match FindCursor(db.messages, roomId, beforeId)
      case None => |s|
      case Some(k) => |s| - |Below(s, MessageKey, k)|
  }

  /** Every page is a window of the room's history: the messages from a
      position fixed by the cursor on, as many as the limit allows. */
  lemma PageAtWindow(db: Store, roomId: string, beforeId: string, limit: nat)
    ensures PageAt(db, roomId, beforeId, limit) == Take(Ordered(db, roomId)[Window(db, roomId, beforeId)..], limit)
  {
    var s := Ordered(db, roomId);
    if TrimSpace(beforeId) == "" {
      assert s[0..] == s;
    } else if FindCursor(db.messages, roomId, beforeId).Some? {
      var k := FindCursor(db.messages, roomId, beforeId).value;
      BelowIsSuffix(s, MessageKey, k);
      OlderRowsBelow(db, roomId, beforeId, limit, k);
    }
  }

  /** Every page holds only messages of the requested room, at most the effective
      limit of them, strictly newest first. */
  lemma PageShape(db: Store, roomId: string, beforeId: string, limit: int)
    requires WellFormed(db)
    ensures var p := LatestPage(db, roomId, beforeId, limit);
      && |p| <= EffectiveLimit(limit)
      && (forall i :: 0 <= i < |p| ==> p[i].roomId == roomId)
      && StrictlyDescending(p, MessageKey)
  {
    var s := Ordered(db, roomId);
    var n := EffectiveLimit(limit);
    var j := Window(db, roomId, beforeId);
    PageAtWindow(db, roomId, beforeId, n);
    OrderedStrict(db, roomId);
    WindowStrict(s, MessageKey, j, n);
    var p := Take(s[j..], n);
    forall i | 0 <= i < |p| ensures p[i].roomId == roomId {
      assert s[j + i] in multiset(RoomRows(db.messages, db.userNames, roomId));
    }
  }

  /** Below a resolved cursor, every message of the page is strictly older than the cursor. */
  lemma PageOlderThanCursor(db: Store, roomId: string, beforeId: string, limit: int, k: Key)
    requires TrimSpace(beforeId) != ""
    requires FindCursor(db.messages, roomId, beforeId) == Some(k)
    ensures var p := LatestPage(db, roomId, beforeId, limit);
      forall i :: 0 <= i < |p| ==> KeyLess(MessageKey(p[i]), k)
  {
    OlderRowsBelow(db, roomId, beforeId, EffectiveLimit(limit), k);
  }

  /** The last message of a non-empty window of the history, by position. */
  lemma WindowLastId(db: Store, roomId: string, j: nat, n: nat, first: seq<Message>) returns (i: nat)
    requires j <= |Ordered(db, roomId)| && first == Take(Ordered(db, roomId)[j..], n) && |first| > 0
    ensures i < |Ordered(db, roomId)| && i + 1 == j + |first|
    ensures first[|first| - 1].id == Ordered(db, roomId)[i].id
  {
    WindowLast(Ordered(db, roomId), j, n, first);
    i := j + |first| - 1;
  }

  /** The window below the i-th newest message starts right after it. */
  lemma WindowOfElement(db: Store, roomId: string, i: nat)
    requires WellFormed(db)
    requires i < |Ordered(db, roomId)|
    ensures Window(db, roomId, Ordered(db, roomId)[i].id) == i + 1
  {
    var s := Ordered(db, roomId);
    OrderedFromTable(db, roomId, i);
    var j :| 0 <= j < |db.messages| && db.messages[j].id == s[i].id && db.messages[j].roomId == roomId
             && MessageKey(db.messages[j]) == MessageKey(s[i]);
    assert TrimSpace(s[i].id) != "";
    FindCursorOf(db.messages, roomId, j);
    OrderedStrict(db, roomId);
    BelowElement(s, MessageKey, i);
  }

  /** The window below the last message of a window starts right after that window. */
  lemma WindowAfter(db: Store, roomId: string, j: nat, n: nat, first: seq<Message>)
    requires WellFormed(db)
    requires j <= |Ordered(db, roomId)| && first == Take(Ordered(db, roomId)[j..], n) && |first| > 0
    ensures Window(db, roomId, first[|first| - 1].id) == j + |first|
  {
    var i := WindowLastId(db, roomId, j, n, first);
    WindowOfElement(db, roomId, i);
  }

  /** PageAtWindow, for a page already computed. */
  lemma PageIsWindow(db: Store, roomId: string, beforeId: string, n: nat, page: seq<Message>) returns (j: nat)
    requires page == PageAt(db, roomId, beforeId, n)
    ensures j == Window(db, roomId, beforeId) && j <= |Ordered(db, roomId)|
    ensures page == Take(Ordered(db, roomId)[j..], n)
  {
    PageAtWindow(db, roomId, beforeId, n);
    j := Window(db, roomId, beforeId);
  }

  /** The last message of a non-empty page is a row of the table. */
  lemma PageLastFromTable(db: Store, roomId: string, beforeId: string, n: nat, page: seq<Message>) returns (k: nat)
    requires page == PageAt(db, roomId, beforeId, n) && |page| > 0
    ensures k < |db.messages| && db.messages[k].id == page[|page| - 1].id
  {
    var j := PageIsWindow(db, roomId, beforeId, n, page);
    var i := WindowLastId(db, roomId, j, n, page);
    OrderedFromTable(db, roomId, i);
    k :| 0 <= k < |db.messages| && db.messages[k].id == Ordered(db, roomId)[i].id;
  }

  /** Chaining for an already effective limit. */
  lemma PageAtChain(db: Store, roomId: string, beforeId: string, n: nat,
                    first: seq<Message>, second: seq<Message>, both: seq<Message>)
    requires WellFormed(db)
    requires first == PageAt(db, roomId, beforeId, n) && |first| > 0
    requires second == PageAt(db, roomId, first[|first| - 1].id, n)
    requires both == PageAt(db, roomId, beforeId, 2 * n)
    ensures first + second == both
  {
    var j := PageIsWindow(db, roomId, beforeId, n, first);
    var j' := PageIsWindow(db, roomId, beforeId, 2 * n, both);
    var k := PageIsWindow(db, roomId, first[|first| - 1].id, n, second);
    WindowAfter(db, roomId, j, n, first);
    WindowChain(Ordered(db, roomId), j, n, k, first, second, both);
  }

  /** Chaining: the page fetched with the id of the last (oldest) message of a
      non-empty page as cursor continues exactly where that page stopped. The two
      pages together are the page of twice the size, so they are disjoint and
      leave no gap. */
  lemma PagesChain(db: Store, roomId: string, beforeId: string, n: int,
                   first: seq<Message>, second: seq<Message>, both: seq<Message>)
    requires WellFormed(db)
    requires 1 <= n && 2 * n <= MaxLimit
    requires first == LatestPage(db, roomId, beforeId, n) && |first| > 0
    requires second == LatestPage(db, roomId, first[|first| - 1].id, n)
    requires both == LatestPage(db, roomId, beforeId, 2 * n)
    ensures first + second == both
  {
    PageAtChain(db, roomId, beforeId, n, first, second, both);
  }
}
