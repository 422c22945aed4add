/** The connection hub of the websocket server: the clients ServeHTTP created,
    each with its user, its room and its buffered Send channel, and the set of
    clients the hub currently holds (`hub.clients`). Each case of Hub.Run
    (register, unregister, broadcast) is one atomic step. A client is named by a
    number standing for its `*Client` address. */
module WsHub {
  import opened Wrappers

  /** The buffer ServeHTTP gives every Send channel. */
  const Capacity := 16

  /** The envelope as the handler builds it: hub.go's type, room, text, from and
      ts, and the messageId, clientMsgId and error fields the handler also sets.
      `ts` is the instant the RFC 3339 text stands for, None when it is empty. */
  datatype Envelope = Envelope(kind: string, room: string, text: string, from: string, ts: Option<int>,
                               messageId: string, clientMsgId: string, error: string)

  type ClientId = nat

  /** A Client and its channel: the envelopes buffered in Send, oldest first, and
      whether Send has been closed. */
  datatype Client = Client(userId: string, room: string, send: seq<Envelope>, closed: bool)

  /** Every client created so far (`all`) and the hub's live set (`clients`). */
  datatype HubState = HubState(all: map<ClientId, Client>, clients: set<ClientId>)

  /** What every step keeps: live clients exist and have an open channel, and no
      channel holds more than its capacity. */
  predicate Invariant(s: HubState) {
    && s.clients <= s.all.Keys
    && (forall id :: id in s.all ==> |s.all[id].send| <= Capacity)
    && (forall id :: id in s.clients ==> !s.all[id].closed)
  }

  /** `t` can follow `s`: no client is created or added, a dropped client has
      its channel closed, a closed channel stays closed, and every client keeps
      its user. */
  predicate Follows(s: HubState, t: HubState) {
    && s.all.Keys == t.all.Keys && t.clients <= s.clients
    && (forall id :: id in s.all ==> t.all[id].userId == s.all[id].userId)
    && (forall id :: id in s.all ==> (s.all[id].closed || (id in s.clients && id !in t.clients) ==> t.all[id].closed))
  }

  /** Follows chains. */
  lemma FollowsTransitive(s: HubState, t: HubState, u: HubState)
    requires Follows(s, t) && Follows(t, u)
    ensures Follows(s, u)
  {
  }

  /** The client ServeHTTP makes: no room yet and an empty channel. */
  function InitialClient(userId: string): (c: Client)
    ensures c.userId == userId && c.room == "" && c.send == [] && !c.closed
  {
    Client(userId, "", [], false)
  }

  predicate Full(c: Client) {
    |c.send| >= Capacity
  }

  /** Closing a channel that is already closed panics in Go, hence the precondition. */
  function Close(c: Client): (r: Client)
    requires !c.closed
    ensures r.closed && r.send == c.send && r.room == c.room && r.userId == c.userId
  {
    c.(closed := true)
  }

  /** `hub.clients[client] = struct{}{}`. */
  function RegisterStep(s: HubState, id: ClientId): HubState {
    s.(clients := s.clients + {id})
  }

  /** Removes a live client and closes its channel; an absent client is left alone. */
  function UnregisterStep(s: HubState, id: ClientId): (t: HubState)
    requires Invariant(s)
    ensures Invariant(t) && Follows(s, t)
  {
    if id in s.clients then HubState(s.all[id := Close(s.all[id])], s.clients - {id}) else s
  }

  /** A live client subscribed to `room`. */
  predicate Targeted(s: HubState, id: ClientId, room: string) {
    id in s.clients && id in s.all && s.all[id].room == room
  }

  /** The non-blocking send of the broadcast: the envelope goes to the back of
      the channel, or a full channel is closed. */
  function Deliver(c: Client, env: Envelope): Client
    requires !c.closed
  {
    if Full(c) then Close(c) else c.(send := c.send + [env])
  }

  /** One iteration of the broadcast loop, for a live client: the select with a
      default that either buffers the envelope or drops and closes a full client. */
  function VisitStep(s: HubState, id: ClientId, room: string, env: Envelope): (t: HubState)
    requires Invariant(s) && id in s.clients
    ensures Invariant(t)
  {
    var c := s.all[id];
    if c.room != room then s
    else if Full(c) then HubState(s.all[id := Close(c)], s.clients - {id})
    else HubState(s.all[id := c.(send := c.send + [env])], s.clients)
  }

  /** The state once the broadcast loop has visited the clients in `done`. */
  function BroadcastOver(s: HubState, room: string, env: Envelope, done: set<ClientId>): HubState
    requires Invariant(s)
  {
    HubState(map id | id in s.all :: if id in done && Targeted(s, id, room) then Deliver(s.all[id], env) else s.all[id],
             set id | id in s.clients && !(id in done && Targeted(s, id, room) && Full(s.all[id])))
  }

  /** The broadcast case of Run: every live client of the room is visited once. */
  function BroadcastStep(s: HubState, room: string, env: Envelope): (t: HubState)
    requires Invariant(s)
    ensures Invariant(t) && Follows(s, t)
  {
    BroadcastOver(s, room, env, s.clients)
  }

  /** The envelope the reader hands to the hub for a stored message. */
  function MessageEnvelope(room: string, body: string, senderId: string, messageId: string, createdAt: int): (e: Envelope)
    ensures e.kind == "message" && e.room == room && e.text == body && e.from == senderId
    ensures e.messageId == messageId && e.ts == Some(createdAt) && e.clientMsgId == "" && e.error == ""
  {
    Envelope("message", room, body, senderId, Some(createdAt), messageId, "", "")
  }

  // ---------------------------------------------------------------------------
  // The hub object

  /** Taking `id` off the to-do list adds it to what is done; nothing left to do
      means everything is done. */
  lemma DoneGrows(all: set<ClientId>, todo: set<ClientId>, id: ClientId)
    ensures todo <= all && id in todo ==> all - (todo - {id}) == (all - todo) + {id}
    ensures all - {} == all
  {
  }

  class Hub {
    /** Every client ServeHTTP created, live or not: the reader and the writer keep
        using a client's channel after the hub has dropped it. */
    var all: map<ClientId, Client>
    /** `hub.clients`. */
    var clients: set<ClientId>
    /** The next fresh client name. */
    var nextId: ClientId

    function State(): HubState
      reads this
    {
      HubState(all, clients)
    }

    ghost predicate Valid()
      reads this
    {
      Invariant(State()) && forall id :: id in all ==> id < nextId
    }

    /** NewHub. */
    constructor ()
      ensures Valid() && all == map[] && clients == {}
    {
      all, clients, nextId := map[], {}, 0;
    }

    /** ServeHTTP's `&Client{UserID: userID, Send: make(chan Envelope, 16), Room: ""}`. */
    method NewClient(userId: string) returns (id: ClientId)
      requires Valid()
      modifies this
      ensures Valid()
      ensures id !in old(all) && all == old(all)[id := InitialClient(userId)] && clients == old(clients)
    {
      id := nextId;
      all := all[id := InitialClient(userId)];
      nextId := nextId + 1;
    }

    /** The register case of Run. Only ServeHTTP registers, and only a client it
        has just made, whose channel is open. */
    method Register(id: ClientId)
      requires Valid() && id in all && !all[id].closed
      modifies this
      ensures Valid() && State() == RegisterStep(old(State()), id)
    {
      clients := clients + {id};
    }

    /** The unregister case of Run. */
    method Unregister(id: ClientId)
      requires Valid()
      modifies this
      ensures Valid() && State() == UnregisterStep(old(State()), id)
    {
      if id in clients {
        clients := clients - {id};
        all := all[id := Close(all[id])];
      }
    }

    /** The broadcast case of Run: the loop over `hub.clients`, in any order. */
    method Broadcast(room: string, env: Envelope)
      requires Valid()
      modifies this
      ensures Valid() && State() == BroadcastStep(old(State()), room, env)
    {
      ghost var s0 := State();
      var todo := clients;
      while todo != {}
        invariant todo <= s0.clients
        invariant State() == BroadcastOver(s0, room, env, s0.clients - todo)
        invariant nextId == old(nextId)
        decreases |todo|
      {
        var id :| id in todo;
        ghost var done := s0.clients - todo;
        BroadcastOverVisit(s0, room, env, done, id);
        Visit(id, room, env);
        DoneGrows(s0.clients, todo, id);
        todo := todo - {id};
      }
      DoneGrows(s0.clients, {}, 0);
    }

    /** The body of the broadcast loop for one live client. */
    method Visit(id: ClientId, room: string, env: Envelope)
      requires Invariant(State()) && id in clients
      modifies this
      ensures Invariant(State()) && State() == VisitStep(old(State()), id, room, env) && nextId == old(nextId)
    {
      var c := all[id];
      if c.room == room {
        if |c.send| < Capacity {
          all := all[id := c.(send := c.send + [env])];
        } else {
          clients := clients - {id};
          all := all[id := Close(c)];
        }
      }
    }

    /** The reader's `client.Room = room`. */
    method SetRoom(id: ClientId, room: string)
      requires Valid() && id in all
      modifies this
      ensures Valid() && clients == old(clients) && all == old(all)[id := old(all)[id].(room := room)]
    {
      all := all[id := all[id].(room := room)];
    }

    /** A send on the client's channel that finds room in it. */
    method Push(id: ClientId, env: Envelope)
      requires Valid() && id in all && !all[id].closed && !Full(all[id])
      modifies this
      ensures Valid() && clients == old(clients) && all == old(all)[id := old(all)[id].(send := old(all)[id].send + [env])]
    {
      all := all[id := all[id].(send := all[id].send + [env])];
    }

    /** The writer's receive of the oldest buffered envelope. */
    method Pop(id: ClientId) returns (env: Envelope)
      requires Valid() && id in all && all[id].send != []
      modifies this
      ensures Valid() && clients == old(clients)
      ensures env == old(all)[id].send[0] && all == old(all)[id := old(all)[id].(send := old(all)[id].send[1..])]
    {
      env := all[id].send[0];
      all := all[id := all[id].(send := all[id].send[1..])];
    }
  }

  // ---------------------------------------------------------------------------
  // Proof of the broadcast loop

  /** Visiting one more client of the loop is one VisitStep. */
  lemma BroadcastOverVisit(s: HubState, room: string, env: Envelope, done: set<ClientId>, id: ClientId)
    requires Invariant(s) && done <= s.clients && id in s.clients && id !in done
    ensures var t := BroadcastOver(s, room, env, done);
      Invariant(t) && id in t.clients && BroadcastOver(s, room, env, done + {id}) == VisitStep(t, id, room, env)
  {
    var t := BroadcastOver(s, room, env, done);
    var u := BroadcastOver(s, room, env, done + {id});
    var v := VisitStep(t, id, room, env);
    assert t.all[id] == s.all[id];
    forall k | k in u.all ensures k in v.all && u.all[k] == v.all[k] {
      if k != id { assert u.all[k] == t.all[k]; }
    }
    assert u.all == v.all;
    forall k ensures k in u.clients <==> k in v.clients {
      if k != id { assert k in u.clients <==> k in t.clients; }
    }
    assert u.clients == v.clients;
  }

  /** Registering a client with an open channel keeps the invariant. */
  lemma RegisterKeeps(s: HubState, id: ClientId)
    requires Invariant(s) && id in s.all && !s.all[id].closed
    ensures Invariant(RegisterStep(s, id))
  {
  }

  // ---------------------------------------------------------------------------
  // Properties of the steps

  /** Registering adds the client; registering a live client changes nothing. */
  lemma RegisterAdds(s: HubState, id: ClientId)
    ensures RegisterStep(s, id).clients == s.clients + {id} && RegisterStep(s, id).all == s.all
    ensures id in s.clients ==> RegisterStep(s, id) == s
  {
  }

  /** Unregistering a live client drops it and closes its channel, which was open
      until then; nothing else changes. */
  lemma UnregisterPresent(s: HubState, id: ClientId)
    requires Invariant(s) && id in s.clients
    ensures var t := UnregisterStep(s, id);
      && !s.all[id].closed && t.all[id].closed && t.all[id].send == s.all[id].send
      && t.clients == s.clients - {id}
      && forall other :: other in s.all && other != id ==> other in t.all && t.all[other] == s.all[other]
  {
  }

  /** Unregistering an absent client changes nothing, so unregistering twice is
      unregistering once: the unregister ServeHTTP sends after an eviction never
      closes the channel a second time. */
  lemma UnregisterIdempotent(s: HubState, id: ClientId)
    requires Invariant(s)
    ensures id !in s.clients ==> UnregisterStep(s, id) == s
    ensures Invariant(UnregisterStep(s, id)) && UnregisterStep(UnregisterStep(s, id), id) == UnregisterStep(s, id)
  {
  }

  /** A broadcast leaves alone every client that is not a live subscriber of the room. */
  lemma BroadcastOthersUnchanged(s: HubState, room: string, env: Envelope, id: ClientId)
    requires Invariant(s) && id in s.all && !Targeted(s, id, room)
    ensures var t := BroadcastStep(s, room, env);
      id in t.all && t.all[id] == s.all[id] && (id in t.clients <==> id in s.clients)
  {
  }

  /** A live subscriber with spare room gets the envelope at the back of its channel and stays live. */
  lemma BroadcastAppends(s: HubState, room: string, env: Envelope, id: ClientId)
    requires Invariant(s) && Targeted(s, id, room) && !Full(s.all[id])
    ensures var t := BroadcastStep(s, room, env);
      id in t.clients && t.all[id] == s.all[id].(send := s.all[id].send + [env])
  {
  }

  /** A live subscriber whose channel is full is dropped, its channel closed, and it gets nothing. */
  lemma BroadcastEvicts(s: HubState, room: string, env: Envelope, id: ClientId)
    requires Invariant(s) && Targeted(s, id, room) && Full(s.all[id])
    ensures var t := BroadcastStep(s, room, env);
      id !in t.clients && t.all[id].closed && t.all[id].send == s.all[id].send
  {
  }

  /** A subscriber still live after a broadcast to its room had spare room and got the envelope. */
  lemma BroadcastSurvivor(s: HubState, room: string, env: Envelope, id: ClientId)
    requires Invariant(s) && Targeted(s, id, room) && id in BroadcastStep(s, room, env).clients
    ensures !Full(s.all[id]) && BroadcastStep(s, room, env).all[id] == s.all[id].(send := s.all[id].send + [env])
  {
  }

  /** A broadcast never adds a client, and creates none. */
  lemma BroadcastShrinks(s: HubState, room: string, env: Envelope)
    requires Invariant(s)
    ensures BroadcastStep(s, room, env).clients <= s.clients
    ensures BroadcastStep(s, room, env).all.Keys == s.all.Keys
  {
  }

  /** A step closes a channel only when it drops that client from the live set,
      and the channel was open before: no channel is ever closed twice. */
  lemma ClosesOnlyLive(s: HubState, room: string, env: Envelope, id: ClientId)
    requires Invariant(s) && id in s.all
    ensures var t := BroadcastStep(s, room, env);
      t.all[id].closed && !s.all[id].closed ==> id in s.clients && id !in t.clients
    ensures var u := UnregisterStep(s, id);
      u.all[id].closed && !s.all[id].closed ==> id in s.clients && id !in u.clients
  {
  }

  /** Broadcasting a sequence of envelopes to one room, one after the other. */
  function BroadcastAll(s: HubState, room: string, envs: seq<Envelope>): (t: HubState)
    requires Invariant(s)
    ensures Invariant(t)
    decreases |envs|
  {
    if envs == [] then s
    else
      BroadcastAll(BroadcastStep(s, room, envs[0]), room, envs[1..])
  }

  /** A subscriber that is still live after a run of broadcasts to its room got
      every one of them, in the order they were issued, after what it held before. */
  lemma {:induction false} SurvivorGetsAllInOrder(s: HubState, room: string, envs: seq<Envelope>, id: ClientId)
    requires Invariant(s) && Targeted(s, id, room)
    requires id in BroadcastAll(s, room, envs).clients
    ensures BroadcastAll(s, room, envs).all[id] == s.all[id].(send := s.all[id].send + envs)
    decreases |envs|
  {
    if envs == [] {
      assert s.all[id].send + envs == s.all[id].send;
    } else {
      var t := BroadcastStep(s, room, envs[0]);
      SurvivorStaysLive(t, room, envs[1..], id);
      BroadcastSurvivor(s, room, envs[0], id);
      SurvivorGetsAllInOrder(t, room, envs[1..], id);
      AppendHead(s.all[id].send, envs);
    }
  }

  lemma AppendHead(send: seq<Envelope>, envs: seq<Envelope>)
    requires envs != []
    ensures send + [envs[0]] + envs[1..] == send + envs
  {
    assert envs == [envs[0]] + envs[1..];
  }

  /** A client live after a run of broadcasts was live before it. */
  lemma {:induction false} SurvivorStaysLive(s: HubState, room: string, envs: seq<Envelope>, id: ClientId)
    requires Invariant(s) && id in BroadcastAll(s, room, envs).clients
    ensures id in s.clients
    decreases |envs|
  {
    if envs != [] {
      SurvivorStaysLive(BroadcastStep(s, room, envs[0]), room, envs[1..], id);
      BroadcastShrinks(s, room, envs[0]);
    }
  }

  /** Two broadcasts to one room reach every subscriber that survives both in the order they were issued. */
  lemma TwoBroadcastsInOrder(s: HubState, room: string, b1: Envelope, b2: Envelope, id: ClientId)
    requires Invariant(s) && Targeted(s, id, room)
    requires id in BroadcastStep(BroadcastStep(s, room, b1), room, b2).clients
    ensures BroadcastStep(BroadcastStep(s, room, b1), room, b2).all[id].send == s.all[id].send + [b1, b2]
  {
    var t := BroadcastStep(s, room, b1);
    assert BroadcastAll(t, room, [b2]) == BroadcastAll(BroadcastStep(t, room, b2), room, []);
    assert BroadcastAll(s, room, [b1, b2]) == BroadcastAll(t, room, [b2]);
    SurvivorGetsAllInOrder(s, room, [b1, b2], id);
  }
}
