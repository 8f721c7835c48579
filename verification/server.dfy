/**
 The WebSocket lobby server (server/server.js). Node runs each `message`
 and `close` handler to completion on one event loop, so every handler is
 modelled as one atomic step over the global lobby list and the
 connection's own `lobbyName`, returning the frames it sends.
 */
module Server {
  import opened Wrappers
  import opened Lobbies

  /** The inbound frames the server dispatches on, by their `type` field. */
  datatype Message =
    | CreateLobby(name: Name, maxPlayers: Option<int>)
    | JoinLobby(lobbyName: Name)
    | LeaveLobby
    | UpdateLobbySettings(settings: Patch)
    | StartGame
    | Unrecognized   // a `type` matched by no case: the `default` branch

  /** `ws.send` reaches one connection; `wss.clients.forEach` reaches every open one. */
  datatype Recipient = To(id: UserId) | Everyone

  datatype Payload =
    | LobbyList(lobbies: seq<Lobby>)
    | JoinedLobby(lobby: Lobby)
    | LeftLobby
    | SettingsUpdated
    | GameStarted
    | Error(message: string)

  datatype Frame = Frame(to: Recipient, payload: Payload)

  /** What one handler leaves behind: the lobby list, the connection's `lobbyName`, the frames sent. */
  datatype Reply = Reply(lobbies: seq<Lobby>, seat: Name, frames: seq<Frame>)

  const NotInLobby := "Not in a lobby"
  const LobbyNotFound := "Lobby not found"
  const AlreadyJoined := "Already in a lobby or already joined this lobby"
  const UnknownType := "Unknown message type"

  /** An error sent back to the caller with nothing else changed. */
  function Refuse(lobbies: seq<Lobby>, id: UserId, seat: Name, message: string): Reply {
    Reply(lobbies, seat, [Frame(To(id), Error(message))])
  }

  /**
   `create_lobby`: appends a lobby holding the caller with `players` 0,
   whatever the caller's current lobby and whether or not the name is taken.
   */
  function Create(lobbies: seq<Lobby>, id: UserId, name: Name, maxPlayers: Option<int>): (r: Reply)
    ensures |r.lobbies| == |lobbies| + 1
    ensures r.lobbies[..|lobbies|] == lobbies
    ensures r.lobbies[|lobbies|] == Lobby(name, 0, maxPlayers, [id], map[])
    ensures r.seat == name
    ensures r.frames == [Frame(Everyone, LobbyList(r.lobbies))]
  {
    var after := lobbies + [Lobby(name, 0, maxPlayers, [id], map[])];
    Reply(after, name, [Frame(Everyone, LobbyList(after))])
  }

  /**
   `join_lobby`: refused when the caller has a truthy `lobbyName` or is
   listed in any lobby; otherwise `lobbyName` takes the requested name even
   if no lobby carries it, and the first lobby with that name gains the
   caller, with no check against `maxPlayers`.
   */
  function Join(lobbies: seq<Lobby>, id: UserId, seat: Name, request: Name): (r: Reply)
    ensures Truthy(seat) || Listed(lobbies, id) ==>
      r == Reply(lobbies, seat, [Frame(To(id), Error(AlreadyJoined))])
    ensures !Truthy(seat) && !Listed(lobbies, id) && Find(lobbies, request).None? ==>
      r == Reply(lobbies, request, [Frame(To(id), Error(LobbyNotFound))])
    ensures !Truthy(seat) && !Listed(lobbies, id) && Find(lobbies, request).Some? ==>
      var k := Find(lobbies, request).value;
      && r.seat == request
      && |r.lobbies| == |lobbies|
      && r.lobbies[k] == lobbies[k].(players := lobbies[k].players + 1, users := lobbies[k].users + [id])
      && (forall j :: 0 <= j < |lobbies| && j != k ==> r.lobbies[j] == lobbies[j])
      && r.frames == [Frame(Everyone, LobbyList(r.lobbies)), Frame(To(id), JoinedLobby(r.lobbies[k]))]
  {
    if Truthy(seat) || Listed(lobbies, id) then
      Refuse(lobbies, id, seat, AlreadyJoined)
    else match Find(lobbies, request)
      case None => Refuse(lobbies, id, request, LobbyNotFound)
      case Some(k) =>
        var l := lobbies[k].(players := lobbies[k].players + 1, users := lobbies[k].users + [id]);
        var after := lobbies[k := l];
        Reply(after, request, [Frame(Everyone, LobbyList(after)), Frame(To(id), JoinedLobby(l))])
  }

  /**
   `leave_lobby`: departs from the first lobby named by `lobbyName`;
   `lobbyName` is cleared only when that lobby is removed, and a name that
   no lobby carries is ignored without any reply.
   */
  function Leave(lobbies: seq<Lobby>, id: UserId, seat: Name): (r: Reply)
    ensures !Truthy(seat) ==> r == Reply(lobbies, seat, [Frame(To(id), Error(NotInLobby))])
    ensures Truthy(seat) && Find(lobbies, seat).None? ==> r == Reply(lobbies, seat, [])
    ensures Truthy(seat) && Find(lobbies, seat).Some? ==>
      var k := Find(lobbies, seat).value;
      && r.lobbies == Depart(lobbies, k, id)
      && r.seat == (if lobbies[k].players <= 1 then None else seat)
      && r.frames == [Frame(Everyone, LobbyList(r.lobbies)), Frame(To(id), LeftLobby)]
  {
    if !Truthy(seat) then Refuse(lobbies, id, seat, NotInLobby)
    else match Find(lobbies, seat)
      case None => Reply(lobbies, seat, [])
      case Some(k) =>
        var after := Depart(lobbies, k, id);
        var seat' := if lobbies[k].players - 1 <= 0 then None else seat;
        Reply(after, seat', [Frame(Everyone, LobbyList(after)), Frame(To(id), LeftLobby)])
  }

  /** `update_lobby_settings`: merges the patch into the first lobby named by `lobbyName` only. */
  function Update(lobbies: seq<Lobby>, id: UserId, seat: Name, patch: Patch): (r: Reply)
    ensures !Truthy(seat) ==> r == Reply(lobbies, seat, [Frame(To(id), Error(NotInLobby))])
    ensures Truthy(seat) && Find(lobbies, seat).None? ==> r == Reply(lobbies, seat, [])
    ensures Truthy(seat) && Find(lobbies, seat).Some? ==>
      var k := Find(lobbies, seat).value;
      && r.seat == seat
      && |r.lobbies| == |lobbies|
      && r.lobbies[k] == Merge(lobbies[k], patch)
      && (forall j :: 0 <= j < |lobbies| && j != k ==> r.lobbies[j] == lobbies[j])
      && r.frames == [Frame(Everyone, LobbyList(r.lobbies)), Frame(To(id), SettingsUpdated)]
  {
    if !Truthy(seat) then Refuse(lobbies, id, seat, NotInLobby)
    else match Find(lobbies, seat)
      case None => Reply(lobbies, seat, [])
      case Some(k) =>
        var after := lobbies[k := Merge(lobbies[k], patch)];
        Reply(after, seat, [Frame(Everyone, LobbyList(after)), Frame(To(id), SettingsUpdated)])
  }

  /** `start_game`: tells every open connection, not only the lobby's users; the state is untouched. */
  function Start(lobbies: seq<Lobby>, id: UserId, seat: Name): (r: Reply)
    ensures r.lobbies == lobbies && r.seat == seat
    ensures !Truthy(seat) ==> r.frames == [Frame(To(id), Error(NotInLobby))]
    ensures Truthy(seat) ==>
      r.frames == (if Find(lobbies, seat).Some? then [Frame(Everyone, GameStarted)] else [])
  {
    if !Truthy(seat) then Refuse(lobbies, id, seat, NotInLobby)
    else if Find(lobbies, seat).Some? then Reply(lobbies, seat, [Frame(Everyone, GameStarted)])
    else Reply(lobbies, seat, [])
  }

  /**
   The `message` handler's switch. Every error goes to the caller alone, is
   the only frame sent, and leaves the lobby list as it was.
   */
  function Handle(lobbies: seq<Lobby>, id: UserId, seat: Name, msg: Message): (r: Reply)
    ensures msg.Unrecognized? ==> r == Reply(lobbies, seat, [Frame(To(id), Error(UnknownType))])
    ensures forall f :: f in r.frames && f.payload.Error? ==>
      f.to == To(id) && r.frames == [f] && r.lobbies == lobbies
    ensures forall f :: f in r.frames ==> f.to == Everyone || f.to == To(id)
    ensures forall f :: f in r.frames && f.payload.LobbyList? ==> f.payload.lobbies == r.lobbies
  {
    match msg
    case CreateLobby(name, maxPlayers) => Create(lobbies, id, name, maxPlayers)
    case JoinLobby(request) => Join(lobbies, id, seat, request)
    case LeaveLobby => Leave(lobbies, id, seat)
    case UpdateLobbySettings(patch) => Update(lobbies, id, seat, patch)
    case StartGame => Start(lobbies, id, seat)
    case Unrecognized => Refuse(lobbies, id, seat, UnknownType)
  }

  /**
   The `close` handler: the same departure as `leave_lobby`, but `lobbyName`
   is cleared whenever the lobby was found, and only the lobby list is sent.
   */
  function Close(lobbies: seq<Lobby>, id: UserId, seat: Name): (r: Reply)
    ensures !Truthy(seat) || Find(lobbies, seat).None? ==> r == Reply(lobbies, seat, [])
    ensures Truthy(seat) && Find(lobbies, seat).Some? ==>
      && r.lobbies == Depart(lobbies, Find(lobbies, seat).value, id)
      && r.seat == None
      && r.frames == [Frame(Everyone, LobbyList(r.lobbies))]
    ensures forall f :: f in r.frames ==> f.payload == LobbyList(r.lobbies)
  {
    if !Truthy(seat) then Reply(lobbies, seat, [])
    else match Find(lobbies, seat)
      case None => Reply(lobbies, seat, [])
      case Some(k) =>
        var after := Depart(lobbies, k, id);
        Reply(after, None, [Frame(Everyone, LobbyList(after))])
  }

  /** The whole server: the lobby list and the `lobbyName` of every open connection. */
  datatype State = State(lobbies: seq<Lobby>, seats: map<UserId, Name>)

  const Initial := State([], map[])

  /** A connection is accepted with a fresh id (drawn at random by the source) and no lobby. */
  function Connect(s: State, id: UserId): (r: State)
    requires id !in s.seats
    ensures r.lobbies == s.lobbies
    ensures r.seats.Keys == s.seats.Keys + {id}
    ensures r.seats[id] == None
    ensures forall c :: c in s.seats ==> r.seats[c] == s.seats[c]
  {
    State(s.lobbies, s.seats[id := None])
  }

  /** A frame arrives on an open connection; only that connection's `lobbyName` can change. */
  function Receive(s: State, id: UserId, msg: Message): (r: (State, seq<Frame>))
    requires id in s.seats
    ensures r.0.seats.Keys == s.seats.Keys
    ensures forall c :: c in s.seats && c != id ==> r.0.seats[c] == s.seats[c]
    ensures forall f :: f in r.1 && f.payload.LobbyList? ==> f.payload.lobbies == r.0.lobbies
  {
    var reply := Handle(s.lobbies, id, s.seats[id], msg);
    (State(reply.lobbies, s.seats[id := reply.seat]), reply.frames)
  }

  /** A connection closes: its departure runs and the connection is gone. */
  function Disconnect(s: State, id: UserId): (r: (State, seq<Frame>))
    requires id in s.seats
    ensures r.0.seats.Keys == s.seats.Keys - {id}
    ensures forall c :: c in r.0.seats ==> r.0.seats[c] == s.seats[c]
    ensures forall f :: f in r.1 ==> f.to == Everyone && f.payload == LobbyList(r.0.lobbies)
  {
    var reply := Close(s.lobbies, id, s.seats[id]);
    (State(reply.lobbies, s.seats - {id}), reply.frames)
  }

  /** What can happen to the server: a connection opens, sends a frame, or closes. */
  datatype Event = Open(id: UserId) | Recv(id: UserId, msg: Message) | Shut(id: UserId)

  /** One event; an event that cannot occur (an open id reopening, a frame or close from an id that is not open) changes nothing. */
  function Apply(s: State, e: Event): (r: (State, seq<Frame>))
    ensures r.0.seats.Keys == match e
      case Open(id) => s.seats.Keys + {id}
      case Recv(_, _) => s.seats.Keys
      case Shut(id) => s.seats.Keys - {id}
    ensures forall f :: f in r.1 && f.payload.LobbyList? ==> f.payload.lobbies == r.0.lobbies
  {
    match e
    case Open(id) => if id in s.seats then (s, []) else (Connect(s, id), [])
    case Recv(id, msg) => if id in s.seats then Receive(s, id, msg) else (s, [])
    case Shut(id) => if id in s.seats then Disconnect(s, id) else (s, [])
  }

  /**
   A run of events from a given state, with every frame sent on the way.
   This is only the event-loop glue that the run invariant ranges over;
   the single steps carry the contracts.
   */
  function Run(s: State, events: seq<Event>): (r: (State, seq<Frame>))
    decreases |events|
  {
    if |events| == 0 then (s, [])
    else
      var first := Apply(s, events[0]);
      var rest := Run(first.0, events[1..]);
      (rest.0, first.1 + rest.1)
  }
}
