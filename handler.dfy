/** The websocket handler: admitting a connection, the reader's per-frame
    dispatch of `join` and `message`, the sends on the client's own channel, the
    writer that drains it, and ServeHTTP's register / read / unregister sequence.
    The membership check and the INSERT are answers passed in with each frame. */
module WsHandler {
  import opened Wrappers
  import opened GoStrings
  import opened WsHub
  import opened MessagesRepo
  import opened RoomsRepo

  // ---------------------------------------------------------------------------
  // Admission

  /** The upgrader's CheckOrigin: no Origin header, or a plain-http loopback origin with a port. */
  function CheckOrigin(origin: string): (ok: bool)
    ensures origin == "" ==> ok
    ensures ok && origin != "" ==>
      |origin| >= 17 && (origin[..17] == "http://localhost:" || origin[..17] == "http://127.0.0.1:")
  {
    origin == "" || HasPrefix(origin, "http://localhost:") || HasPrefix(origin, "http://127.0.0.1:")
  }

  /** Every port of either loopback name is accepted. */
  lemma CheckOriginLoopback(port: string)
    ensures CheckOrigin("http://localhost:" + port) && CheckOrigin("http://127.0.0.1:" + port)
  {
    assert ("http://localhost:" + port)[..17] == "http://localhost:";
    assert ("http://127.0.0.1:" + port)[..17] == "http://127.0.0.1:";
  }

  /** How ServeHTTP ends before the reader starts, or the user it serves. */
  datatype Admission = Unauthorized | UpgradeFailed | Upgraded(userId: string)

  /** The session cookie must be present and non-empty and resolve to a non-empty
      user id (401 "unauthorized" otherwise); the upgrade then fails on a refused
      origin or any other handshake fault (`handshakeOk`). `session` is the
      session store's answer for the cookie value. */
  function Admit(cookie: Option<string>, session: Result<string, string>, origin: string, handshakeOk: bool): (a: Admission)
    ensures (cookie.None? || cookie == Some("")) ==> a == Unauthorized
    ensures cookie.Some? && cookie.value != "" && (session.Failure? || session == Success("")) ==> a == Unauthorized
    ensures a.Upgraded? <==>
      cookie.Some? && cookie.value != "" && session.Success? && session.value != "" && CheckOrigin(origin) && handshakeOk
    ensures a.Upgraded? ==> a.userId == session.value
  {
    if cookie.None? || cookie.value == "" then Unauthorized
    else if session.Failure? || session.value == "" then Unauthorized
    else if !CheckOrigin(origin) || !handshakeOk then UpgradeFailed
    else Upgraded(session.value)
  }

  // ---------------------------------------------------------------------------
  // Dispatch of one frame

  /** A frame as json.Unmarshal leaves it: undecodable, or an envelope. */
  datatype Frame = Malformed | Decoded(env: Envelope)

  /** The answers the reader gets while handling one frame: the membership
      relation and the error of IsMember, and the database's answer to the INSERT. */
  datatype Oracle = Oracle(members: set<Membership>, memberFault: Option<string>, insert: InsertAnswer)

  /** What the reader does with one frame. `NilError` is the `err.Error()` call on
      the nil error IsMember returns for a non-member, which panics. `Publish`
      means a message was stored, is broadcast to `room`, and is acknowledged
      with `ack` when the client gave a clientMsgId. */
  datatype Reaction =
    | Ignore
    | Reject(reason: string)
    | Subscribe(room: string)
    | NilError
    | Publish(room: string, message: Message, ack: Option<Envelope>)

  /** sendErr's envelope. */
  function ErrorEnvelope(reason: string): (e: Envelope)
    ensures e.kind == "error" && e.error == reason
  {
    Envelope("error", "", "", "", None, "", "", reason)
  }

  /** The acknowledgement of a stored message. */
  function AckEnvelope(clientMsgId: string, m: Message): (e: Envelope)
    ensures e.kind == "ack" && e.clientMsgId == clientMsgId && e.messageId == m.id && e.ts == Some(m.createdAt)
  {
    Envelope("ack", "", "", "", Some(m.createdAt), m.id, clientMsgId, "")
  }

  /** The envelope broadcast for a stored message. */
  function Broadcasted(room: string, m: Message): (e: Envelope)
    ensures e == MessageEnvelope(room, m.body, m.senderId, m.id, m.createdAt)
  {
    MessageEnvelope(room, m.body, m.senderId, m.id, m.createdAt)
  }

  /** The room a `message` goes to: the trimmed envelope room, else the current one. */
  function Target(env: Envelope, current: string): (room: string)
    ensures TrimSpace(env.room) != "" ==> room == TrimSpace(env.room)
    ensures TrimSpace(env.room) == "" ==> room == current
  {
    var room := TrimSpace(env.room);
    if room == "" then current else room
  }

  /** The membership check both commands make; a non-member answer without an
      error is the nil dereference. */
  function Check(o: Oracle, room: string, userId: string, granted: Reaction): Reaction {
    match IsMember(o.members, room, userId, o.memberFault)
    case Failure(e) => Reject(e)
    case Success(ok) => if ok then granted else NilError
  }

  /** The body of the reader loop's switch for one frame, given the client's user
      and current room. */
  function Dispatch(userId: string, current: string, frame: Frame, o: Oracle): (r: Reaction)
    // undecodable frames and unknown types are skipped
    ensures frame.Malformed? ==> r == Ignore
    ensures frame.Decoded? && frame.env.kind != "join" && frame.env.kind != "message" ==> r == Ignore
    // join
    ensures frame.Decoded? && frame.env.kind == "join" && TrimSpace(frame.env.room) == "" ==> r == Reject("room required")
    ensures r.Subscribe? <==>
      && frame.Decoded? && frame.env.kind == "join" && TrimSpace(frame.env.room) != ""
      && o.memberFault.None? && Membership(TrimSpace(frame.env.room), userId) in o.members
    ensures r.Subscribe? ==> r.room == TrimSpace(frame.env.room)
    // message
    ensures frame.Decoded? && frame.env.kind == "message" && Target(frame.env, current) == "" ==>
      r == Reject("join a room first")
    ensures r.Publish? <==>
      && frame.Decoded? && frame.env.kind == "message" && Target(frame.env, current) != ""
      && o.memberFault.None? && Membership(Target(frame.env, current), userId) in o.members
      && TrimSpace(frame.env.text) != "" && o.insert.Inserted?
    ensures r.Publish? ==>
      && r.room == Target(frame.env, current)
      && r.message == Message(o.insert.id, r.room, userId, "", TrimSpace(frame.env.text), o.insert.createdAt)
      && (r.ack.Some? <==> frame.env.clientMsgId != "")
      && (r.ack.Some? ==> r.ack.value == AckEnvelope(frame.env.clientMsgId, r.message))
    ensures frame.Decoded? && frame.env.kind == "message" && Target(frame.env, current) != ""
            && o.memberFault.None? && Membership(Target(frame.env, current), userId) in o.members
            && TrimSpace(frame.env.text) != "" && o.insert.InsertFailed? ==>
      r == Reject("could not save message")
    ensures frame.Decoded? && frame.env.kind == "message" && Target(frame.env, current) != ""
            && o.memberFault.None? && Membership(Target(frame.env, current), userId) in o.members
            && TrimSpace(frame.env.text) == "" ==>
      r == Ignore
    // the membership check, for both commands
    ensures frame.Decoded? && o.memberFault.Some? &&
            ((frame.env.kind == "join" && TrimSpace(frame.env.room) != "") ||
             (frame.env.kind == "message" && Target(frame.env, current) != "")) ==>
      r == Reject(o.memberFault.value)
    ensures r.NilError? <==>
      && frame.Decoded? && o.memberFault.None?
      && ((frame.env.kind == "join" && TrimSpace(frame.env.room) != ""
           && Membership(TrimSpace(frame.env.room), userId) !in o.members) ||
          (frame.env.kind == "message" && Target(frame.env, current) != ""
           && Membership(Target(frame.env, current), userId) !in o.members))
  {
    match frame
    case Malformed => Ignore
    case Decoded(env) =>
      if env.kind == "join" then JoinReaction(userId, env, o)
      else if env.kind == "message" then MessageReaction(userId, current, env, o)
      else Ignore
  }

  /** The `join` case: a blank room is refused, otherwise a member subscribes. */
  function JoinReaction(userId: string, env: Envelope, o: Oracle): (r: Reaction)
    ensures TrimSpace(env.room) == "" ==> r == Reject("room required")
    ensures TrimSpace(env.room) != "" && o.memberFault.Some? ==> r == Reject(o.memberFault.value)
    ensures r.Subscribe? <==>
      TrimSpace(env.room) != "" && o.memberFault.None? && Membership(TrimSpace(env.room), userId) in o.members
    ensures r.Subscribe? ==> r.room == TrimSpace(env.room)
    ensures r.NilError? <==>
      TrimSpace(env.room) != "" && o.memberFault.None? && Membership(TrimSpace(env.room), userId) !in o.members
    ensures !r.Publish? && !r.Ignore?
  {
    var room := TrimSpace(env.room);
    if room == "" then Reject("room required")
    else Check(o, room, userId, Subscribe(room))
  }

  /** The `message` case: a member's non-blank text is stored, broadcast to
      the target room and, when the client gave an id, acknowledged. */
  function MessageReaction(userId: string, current: string, env: Envelope, o: Oracle): (r: Reaction)
    ensures Target(env, current) == "" ==> r == Reject("join a room first")
    ensures Target(env, current) != "" && o.memberFault.Some? ==> r == Reject(o.memberFault.value)
    ensures r.Publish? <==>
      && Target(env, current) != "" && o.memberFault.None? && Membership(Target(env, current), userId) in o.members
      && TrimSpace(env.text) != "" && o.insert.Inserted?
    ensures r.Publish? ==>
      && r.room == Target(env, current)
      && r.message == Message(o.insert.id, r.room, userId, "", TrimSpace(env.text), o.insert.createdAt)
      && (r.ack.Some? <==> env.clientMsgId != "")
      && (r.ack.Some? ==> r.ack.value == AckEnvelope(env.clientMsgId, r.message))
    ensures Target(env, current) != "" && o.memberFault.None? && Membership(Target(env, current), userId) in o.members
            && TrimSpace(env.text) != "" && o.insert.InsertFailed? ==>
      r == Reject("could not save message")
    ensures Target(env, current) != "" && o.memberFault.None? && Membership(Target(env, current), userId) in o.members
            && TrimSpace(env.text) == "" ==>
      r == Ignore
    ensures r.NilError? <==>
      Target(env, current) != "" && o.memberFault.None? && Membership(Target(env, current), userId) !in o.members
    ensures !r.Subscribe?
  {
    var room := Target(env, current);
    if room == "" then Reject("join a room first")
    else
      var text := TrimSpace(env.text);
      var stored := Insert(room, userId, text, o.insert);
      TrimSpaceIdempotent(env.text);
      Check(o, room, userId,
        if text == "" then Ignore
        else match stored
          case Failure(_) => Reject("could not save message")
          case Success(m) => Publish(room, m, if env.clientMsgId != "" then Some(AckEnvelope(env.clientMsgId, m)) else None))
  }

  // ---------------------------------------------------------------------------
  // Sends on the client's own channel

  /** How the handling of a frame ends: the loop goes on, the reader waits on a
      full channel to send `pending`, or the reader goroutine panics. */
  datatype FrameOutcome = Continue | Stalled(pending: Envelope) | Crashed

  /** A hub state and how the step that produced it ended. */
  datatype Step = Step(state: HubState, outcome: FrameOutcome)

  /** The state with `env` at the back of the client's channel. */
  function Append(s: HubState, id: ClientId, env: Envelope): HubState
    requires id in s.all
  {
    s.(all := s.all[id := s.all[id].(send := s.all[id].send + [env])])
  }

  /** sendErr: a send that never waits. A closed channel panics, a full one drops the envelope. */
  function TrySend(s: HubState, id: ClientId, env: Envelope): (r: Step)
    requires Invariant(s) && id in s.all
    ensures Invariant(r.state) && r.state.clients == s.clients && id in r.state.all && Follows(s, r.state)
    ensures r.outcome.Crashed? <==> s.all[id].closed
    ensures !r.outcome.Stalled?
    ensures r.state == if !s.all[id].closed && !Full(s.all[id]) then Append(s, id, env) else s
  {
    var c := s.all[id];
    if c.closed then Step(s, Crashed)
    else if Full(c) then Step(s, Continue)
    else Step(Append(s, id, env), Continue)
  }

  /** `client.Send <- env`: a closed channel panics, a full one makes the reader wait. */
  function BlockingSend(s: HubState, id: ClientId, env: Envelope): (r: Step)
    requires Invariant(s) && id in s.all
    ensures Invariant(r.state) && r.state.clients == s.clients && id in r.state.all && Follows(s, r.state)
    ensures r.outcome.Crashed? <==> s.all[id].closed
    ensures r.outcome.Stalled? <==> !s.all[id].closed && Full(s.all[id])
    ensures r.outcome.Stalled? ==> r.outcome.pending == env && r.state == s
    ensures r.outcome.Continue? ==> r.state == Append(s, id, env)
    ensures r.outcome.Crashed? ==> r.state == s
  {
    var c := s.all[id];
    if c.closed then Step(s, Crashed)
    else if Full(c) then Step(s, Stalled(env))
    else Step(Append(s, id, env), Continue)
  }

  /** The effect of a reaction on the hub and the client's channel. */
  function Apply(s: HubState, id: ClientId, r: Reaction): (t: Step)
    requires Invariant(s) && id in s.all
    ensures Invariant(t.state) && id in t.state.all && Follows(s, t.state)
    ensures t.state.all[id].room == if r.Subscribe? then r.room else s.all[id].room
    ensures t.outcome.Stalled? ==> !t.state.all[id].closed && |t.state.all[id].send| == Capacity
  {
    match r
    case Ignore => Step(s, Continue)
    case Reject(reason) => TrySend(s, id, ErrorEnvelope(reason))
    case Subscribe(room) => Step(s.(all := s.all[id := s.all[id].(room := room)]), Continue)
    case NilError => Step(s, Crashed)
    case Publish(room, m, ack) =>
      var b := BroadcastStep(s, room, Broadcasted(room, m));
      if ack.None? then Step(b, Continue) else BlockingSend(b, id, ack.value)
  }

  /** One frame, from the client's state in the hub. */
  function FrameStep(s: HubState, id: ClientId, frame: Frame, o: Oracle): (t: Step)
    requires Invariant(s) && id in s.all
    ensures Invariant(t.state) && id in t.state.all && Follows(s, t.state)
    ensures t.outcome.Stalled? ==> !t.state.all[id].closed && |t.state.all[id].send| == Capacity
  {
    Apply(s, id, Dispatch(s.all[id].userId, s.all[id].room, frame, o))
  }

  // ---------------------------------------------------------------------------
  // Properties of one frame

  /** A join whose room trims to nothing queues one "room required" error if
      there is room for it, and leaves the subscription alone. */
  lemma JoinBlankRoom(s: HubState, id: ClientId, env: Envelope, o: Oracle)
    requires Invariant(s) && id in s.all && !s.all[id].closed && !Full(s.all[id])
    requires env.kind == "join" && TrimSpace(env.room) == ""
    ensures var t := FrameStep(s, id, Decoded(env), o);
      && t.outcome == Continue
      && t.state.all[id].room == s.all[id].room
      && t.state.all[id].send == s.all[id].send + [ErrorEnvelope("room required")]
      && t.state.clients == s.clients
  {
  }

  /** The subscription changes only on a join the membership check accepts. */
  lemma RoomChangesOnlyOnJoin(s: HubState, id: ClientId, frame: Frame, o: Oracle)
    requires Invariant(s) && id in s.all
    ensures var t := FrameStep(s, id, frame, o);
      t.state.all[id].room != s.all[id].room ==>
        && frame.Decoded? && frame.env.kind == "join" && o.memberFault.None?
        && Membership(TrimSpace(frame.env.room), s.all[id].userId) in o.members
        && t.state.all[id].room == TrimSpace(frame.env.room) != ""
  {
  }

  /** A message from a non-member, or one whose text trims to nothing, leaves
      every channel and the live set as they were: nothing is stored or broadcast,
      and an empty text draws no error. */
  lemma NothingForNonMemberOrEmptyText(s: HubState, id: ClientId, env: Envelope, o: Oracle)
    requires Invariant(s) && id in s.all && env.kind == "message"
    requires o.memberFault.None?
    requires Membership(Target(env, s.all[id].room), s.all[id].userId) !in o.members || TrimSpace(env.text) == ""
    requires Target(env, s.all[id].room) != ""
    ensures !Dispatch(s.all[id].userId, s.all[id].room, Decoded(env), o).Publish?
    ensures FrameStep(s, id, Decoded(env), o).state == s
  {
  }

  /** A stored message reaches every live subscriber of its room that has spare
      room, at the back of its channel; the sender's ack, when there is one,
      comes right after the broadcast. */
  lemma PublishDelivers(s: HubState, id: ClientId, room: string, m: Message, ack: Option<Envelope>, other: ClientId)
    requires Invariant(s) && id in s.all
    requires Targeted(s, other, room) && !Full(s.all[other])
    ensures var t := Apply(s, id, Publish(room, m, ack));
      && (other != id || ack.None? ==> t.state.all[other].send == s.all[other].send + [Broadcasted(room, m)])
      && (other == id && ack.Some? && |s.all[id].send| + 2 <= Capacity ==>
            t.outcome == Continue && t.state.all[id].send == s.all[id].send + [Broadcasted(room, m), ack.value])
  {
    var b := Broadcasted(room, m);
    BroadcastAppends(s, room, b, other);
    if other == id && ack.Some? && |s.all[id].send| + 2 <= Capacity {
      assert s.all[id].send + [b] + [ack.value] == s.all[id].send + [b, ack.value];
    }
  }

  /** A sender that the broadcast of its own message evicted panics on the ack:
      the channel the reader sends on has been closed by the hub. */
  lemma AckAfterOwnEvictionPanics(s: HubState, id: ClientId, room: string, m: Message, ack: Envelope)
    requires Invariant(s) && Targeted(s, id, room) && Full(s.all[id])
    ensures Apply(s, id, Publish(room, m, Some(ack))).outcome == Crashed
  {
    BroadcastEvicts(s, room, Broadcasted(room, m), id);
  }

  /** After the hub has closed a client's channel, any later error for that
      client panics the reader instead of being dropped. */
  lemma ErrorAfterCloseCrashes(s: HubState, id: ClientId, reason: string)
    requires Invariant(s) && id in s.all && s.all[id].closed
    ensures Apply(s, id, Reject(reason)).outcome == Crashed
  {
  }

  // ---------------------------------------------------------------------------
  // The writer

  /** What the writer does next: write the oldest buffered envelope, write the
      close message once the channel is closed and drained, or wait. */
  datatype WriterEvent = WriteJson(env: Envelope) | WriteClose | Wait

  datatype Drain = Drain(state: HubState, event: WriterEvent)

  /** One receive of the writer on the client's channel. */
  function WriterStep(s: HubState, id: ClientId): (d: Drain)
    requires Invariant(s) && id in s.all
    ensures Invariant(d.state) && d.state.clients == s.clients && id in d.state.all && Follows(s, d.state)
    ensures s.all[id].send != [] ==>
      d.event == WriteJson(s.all[id].send[0]) && d.state.all[id].send == s.all[id].send[1..]
    ensures d.event.WriteClose? <==> s.all[id].send == [] && s.all[id].closed
    ensures s.all[id].send == [] ==> d.state == s
  {
    var c := s.all[id];
    if c.send != [] then Drain(s.(all := s.all[id := c.(send := c.send[1..])]), WriteJson(c.send[0]))
    else if c.closed then Drain(s, WriteClose)
    else Drain(s, Wait)
  }

  /** The writer loop, as far as it can go without waiting: it writes the whole
      buffer in order and then the close message if the channel was closed. */
  method Writer(hub: Hub, id: ClientId) returns (written: seq<Envelope>, closeSent: bool)
    requires hub.Valid() && id in hub.all
    modifies hub
    ensures hub.Valid() && hub.clients == old(hub.clients)
    ensures written == old(hub.all[id].send) && closeSent == old(hub.all[id].closed)
    ensures hub.all == old(hub.all)[id := old(hub.all[id]).(send := [])]
  {
    written := [];
    closeSent := false;
    while hub.all[id].send != []
      invariant hub.Valid() && hub.clients == old(hub.clients) && id in hub.all
      invariant written + hub.all[id].send == old(hub.all[id].send)
      invariant hub.all == old(hub.all)[id := old(hub.all[id]).(send := hub.all[id].send)]
      decreases |hub.all[id].send|
    {
      var env := hub.Pop(id);
      written := written + [env];
    }
    if hub.all[id].closed {
      closeSent := true;
    }
  }

  // ---------------------------------------------------------------------------
  // The reader loop

  /** How the reader returns: its next read failed, or it panicked. */
  datatype ReaderEnd = ReadError | Panic

  /** The hub after the reader, how it ended, and what the writer wrote to the
      socket while the reader waited on it. */
  datatype Run = Run(state: HubState, end: ReaderEnd, written: seq<Envelope>)

  /** The writer takes the oldest envelope of a full channel, which lets the
      pending send through. */
  function Unblock(s: HubState, id: ClientId, pending: Envelope): (t: HubState)
    requires Invariant(s) && id in s.all && !s.all[id].closed && |s.all[id].send| == Capacity
    ensures Invariant(t) && t.clients == s.clients && Follows(s, t)
  {
    Append(WriterStep(s, id).state, id, pending)
  }

  /** One frame handled to the end: the hub after it, whether the reader
      panicked, and what the writer wrote meanwhile. */
  datatype Advanced = Advanced(state: HubState, crashed: bool, written: seq<Envelope>)

  /** One frame handled to the end. The writer runs only when the reader waits
      on it: it takes the oldest envelope, which lets the pending send through. */
  function Advance(s: HubState, id: ClientId, frame: Frame, o: Oracle): (a: Advanced)
    requires Invariant(s) && id in s.all
    ensures Invariant(a.state) && id in a.state.all && Follows(s, a.state)
    ensures a.crashed ==> a.written == []
  {
    var t := FrameStep(s, id, frame, o);
    match t.outcome
    case Crashed => Advanced(t.state, true, [])
    case Continue => Advanced(t.state, false, [])
    case Stalled(pending) =>
      var u := Unblock(t.state, id, pending);
      FollowsTransitive(s, t.state, u);
      Advanced(u, false, [t.state.all[id].send[0]])
  }

  /** The reader over the frames it reads before its next read fails; each frame
      comes with the answers its handling gets. */
  function ReaderRun(s: HubState, id: ClientId, frames: seq<Frame>, oracles: seq<Oracle>): (r: Run)
    requires Invariant(s) && id in s.all && |oracles| == |frames|
    ensures Invariant(r.state) && id in r.state.all && Follows(s, r.state)
    decreases |frames|
  {
    if frames == [] then Run(s, ReadError, [])
    else
      var a := Advance(s, id, frames[0], oracles[0]);
      if a.crashed then Run(a.state, Panic, [])
      else
        var rest := ReaderRun(a.state, id, frames[1..], oracles[1..]);
        FollowsTransitive(s, a.state, rest.state);
        Run(rest.state, rest.end, a.written + rest.written)
  }

  /** The run that continues after `written` has already gone out. */
  function Resume(written: seq<Envelope>, rest: Run): (r: Run)
    ensures r.state == rest.state && r.end == rest.end && |r.written| == |written| + |rest.written|
  {
    Run(rest.state, rest.end, written + rest.written)
  }

  /** Resuming twice is resuming once after both prefixes. */
  lemma ResumeResume(first: seq<Envelope>, second: seq<Envelope>, rest: Run)
    ensures Resume(first, Resume(second, rest)) == Resume(first + second, rest)
  {
    assert first + (second + rest.written) == (first + second) + rest.written;
  }

  /** One frame of the reader loop: ReaderRun unfolded once, around the result
      `a` of that frame. */
  lemma ReaderRunUnfold(s: HubState, id: ClientId, frames: seq<Frame>, oracles: seq<Oracle>, a: Advanced)
    requires Invariant(s) && id in s.all && |oracles| == |frames| && frames != []
    requires a == Advance(s, id, frames[0], oracles[0])
    ensures Invariant(a.state) && id in a.state.all
    ensures ReaderRun(s, id, frames, oracles) ==
      if a.crashed then Run(a.state, Panic, [])
      else Resume(a.written, ReaderRun(a.state, id, frames[1..], oracles[1..]))
  {
  }

  /** One pass of the reader loop on the hub object. */
  method ReadFrame(hub: Hub, id: ClientId, frame: Frame, o: Oracle) returns (crashed: bool, written: seq<Envelope>)
    requires hub.Valid() && id in hub.all
    modifies hub
    ensures hub.Valid() && Advance(old(hub.State()), id, frame, o) == Advanced(hub.State(), crashed, written)
  {
    var c := hub.all[id];
    var outcome := ApplyReaction(hub, id, Dispatch(c.userId, c.room, frame, o));
    crashed, written := outcome.Crashed?, [];
    if outcome.Stalled? {
      var env := hub.Pop(id);
      written := [env];
      hub.Push(id, outcome.pending);
    }
  }

  /** Applies a reaction to the hub object. */
  method ApplyReaction(hub: Hub, id: ClientId, r: Reaction) returns (outcome: FrameOutcome)
    requires hub.Valid() && id in hub.all
    modifies hub
    ensures hub.Valid() && Step(hub.State(), outcome) == Apply(old(hub.State()), id, r)
  {
    match r {
      case Ignore =>
        outcome := Continue;
      case Reject(reason) =>
        outcome := SendErr(hub, id, reason);
      case Subscribe(room) =>
        hub.SetRoom(id, room);
        outcome := Continue;
      case NilError =>
        outcome := Crashed;
      case Publish(room, m, ack) =>
        hub.Broadcast(room, Broadcasted(room, m));
        outcome := Continue;
        if ack.Some? {
          if hub.all[id].closed {
            outcome := Crashed;
          } else if |hub.all[id].send| >= Capacity {
            outcome := Stalled(ack.value);
          } else {
            hub.Push(id, ack.value);
          }
        }
    }
  }

  /** sendErr on the hub object. */
  method SendErr(hub: Hub, id: ClientId, reason: string) returns (outcome: FrameOutcome)
    requires hub.Valid() && id in hub.all
    modifies hub
    ensures hub.Valid() && Step(hub.State(), outcome) == TrySend(old(hub.State()), id, ErrorEnvelope(reason))
  {
    if hub.all[id].closed {
      return Crashed;
    }
    if |hub.all[id].send| < Capacity {
      hub.Push(id, ErrorEnvelope(reason));
    }
    outcome := Continue;
  }

  /** One turn of the reader loop: after frames[..i] wrote `written` and left
      the hub in `s`, the next frame either ends the run in a panic or moves
      the loop to frames[..i + 1]. */
  lemma ReadOn(goal: Run, id: ClientId, frames: seq<Frame>, oracles: seq<Oracle>, i: nat,
               s: HubState, written: seq<Envelope>, a: Advanced)
    requires Invariant(s) && id in s.all && |oracles| == |frames| && i < |frames|
    requires goal == Resume(written, ReaderRun(s, id, frames[i..], oracles[i..]))
    requires a == Advance(s, id, frames[i], oracles[i])
    ensures Invariant(a.state) && id in a.state.all
    ensures a.crashed ==> goal == Run(a.state, Panic, written)
    ensures !a.crashed ==> goal == Resume(written + a.written, ReaderRun(a.state, id, frames[i + 1..], oracles[i + 1..]))
  {
    assert frames[i..][1..] == frames[i + 1..] && oracles[i..][1..] == oracles[i + 1..];
    ReaderRunUnfold(s, id, frames[i..], oracles[i..], a);
    if a.crashed {
      assert written + [] == written;
    } else {
      ResumeResume(written, a.written, ReaderRun(a.state, id, frames[i + 1..], oracles[i + 1..]));
    }
  }

  /** The reader loop. `frames` are what ReadMessage returns until it fails. */
  method Reader(hub: Hub, id: ClientId, frames: seq<Frame>, oracles: seq<Oracle>)
    returns (end: ReaderEnd, written: seq<Envelope>)
    requires hub.Valid() && id in hub.all && |oracles| == |frames|
    modifies hub
    ensures hub.Valid()
    ensures ReaderRun(old(hub.State()), id, frames, oracles) == Run(hub.State(), end, written)
  {
    ghost var goal := ReaderRun(hub.State(), id, frames, oracles);
    written := [];
    var i := 0;
    while i < |frames|
      invariant 0 <= i <= |frames| && hub.Valid() && id in hub.all
      invariant goal == Resume(written, ReaderRun(hub.State(), id, frames[i..], oracles[i..]))
      decreases |frames| - i
    {
      ghost var before := hub.State();
      var crashed, w := ReadFrame(hub, id, frames[i], oracles[i]);
      ReadOn(goal, id, frames, oracles, i, before, written, Advanced(hub.State(), crashed, w));
      if crashed {
        return Panic, written;
      }
      written := written + w;
      i := i + 1;
    }
    end := ReadError;
  }

  // ---------------------------------------------------------------------------
  // ServeHTTP

  /** ServeHTTP: admit, make the client, register it, run the reader, then
      unregister it. A reader that panics never reaches the unregister. */
  method ServeHTTP(hub: Hub, cookie: Option<string>, session: Result<string, string>, origin: string,
                   handshakeOk: bool, frames: seq<Frame>, oracles: seq<Oracle>)
    returns (admission: Admission, id: ClientId, end: ReaderEnd, written: seq<Envelope>)
    requires hub.Valid() && |oracles| == |frames|
    modifies hub
    ensures hub.Valid()
    ensures admission == Admit(cookie, session, origin, handshakeOk)
    ensures !admission.Upgraded? ==> hub.State() == old(hub.State())
    ensures admission.Upgraded? ==>
      && id !in old(hub.all) && id in hub.all && hub.all[id].userId == admission.userId
      && var start := RegisterStep(old(hub.State()).(all := old(hub.all)[id := InitialClient(admission.userId)]), id);
         var run := ReaderRun(start, id, frames, oracles);
         && end == run.end && written == run.written
         && hub.State() == if end == ReadError then UnregisterStep(run.state, id) else run.state
  {
    admission := Admit(cookie, session, origin, handshakeOk);
    id, end, written := 0, ReadError, [];
    if !admission.Upgraded? {
      return;
    }
    id := hub.NewClient(admission.userId);
    hub.Register(id);
    end, written := Reader(hub, id, frames, oracles);
    if end == ReadError {
      hub.Unregister(id);
    }
  }

  /** A connection whose reader ends on a read error leaves the hub with its
      channel closed, whatever happened to it meanwhile; one whose reader
      panicked stays in the live set unless the hub evicted it. */
  lemma ServedClientClosed(s: HubState, id: ClientId, userId: string, frames: seq<Frame>, oracles: seq<Oracle>)
    requires Invariant(s) && id !in s.all && |oracles| == |frames|
    ensures var start := RegisterStep(s.(all := s.all[id := InitialClient(userId)]), id);
      var run := ReaderRun(start, id, frames, oracles);
      && (run.end == ReadError ==> id !in UnregisterStep(run.state, id).clients && UnregisterStep(run.state, id).all[id].closed)
      && (run.end == Panic ==> (id in run.state.clients <==> !run.state.all[id].closed))
  {
  }
}
