/**
 The lobby records kept by the server in its global `lobbies` array
 (server/server.js:6, 41), and the list operations its handlers share:
 `findIndex` by name, `some` over the member lists, `filter` of one user,
 the decrement-filter-splice of a departure, and the shallow settings merge.
 */
module Lobbies {
  import opened Wrappers

  /** The random id a connection receives when it is accepted. */
  type UserId = string

  /** A name as read from a JSON frame: `None` when the field is absent (`undefined`). */
  type Name = Option<string>

  /** JavaScript truthiness of a name: `null`, `undefined` and `""` are all falsy. */
  predicate Truthy(n: Name) {
    n.Some? && n.value != ""
  }

  /**
   One lobby record. `players` is the counter the handlers bump, which is
   independent of `users`; `extra` holds any other field a settings patch
   has added. Its keys are meant to be other than "name", "players",
   "maxPlayers" and "users", which have fields of their own; nothing here
   enforces that.
   */
  datatype Lobby = Lobby(
    name: Name,
    players: int,
    maxPlayers: Option<int>,
    users: seq<UserId>,
    extra: map<string, string>)

  /**
   The `settings` object of an `update_lobby_settings` frame: `None` marks
   an absent field, and `extra` holds every field other than "name",
   "players", "maxPlayers" and "users" (a key among those four in `extra`
   has no counterpart in a JSON object and does not rename the lobby).
   */
  datatype Patch = Patch(
    name: Name,
    players: Option<int>,
    maxPlayers: Option<int>,
    users: Option<seq<UserId>>,
    extra: map<string, string>)

  /** `lobbies.findIndex(lobby => lobby.name === name)`, with `None` for -1. */
  function Find(lobbies: seq<Lobby>, name: Name): (r: Option<nat>)
    ensures r.Some? ==> r.value < |lobbies| && lobbies[r.value].name == name
    ensures r.Some? ==> forall j :: 0 <= j < r.value ==> lobbies[j].name != name
    ensures r.None? <==> forall j :: 0 <= j < |lobbies| ==> lobbies[j].name != name
  {
    if |lobbies| == 0 then None
    else if lobbies[0].name == name then Some(0)
    else match Find(lobbies[1..], name)
      case None => None
      case Some(k) => Some(k + 1)
  }

  /** Two lists that agree on every name agree on every lookup. */
  lemma FindSameNames(a: seq<Lobby>, b: seq<Lobby>, name: Name)
    requires |a| == |b|
    requires forall j :: 0 <= j < |a| ==> a[j].name == b[j].name
    ensures Find(a, name) == Find(b, name)
  {
  }

  /** `lobbies.some(lobby => lobby.users.some(user => user.id === id))`. */
  predicate Listed(lobbies: seq<Lobby>, id: UserId) {
    exists i :: 0 <= i < |lobbies| && id in lobbies[i].users
  }

  /** No user id occurs twice. */
  predicate NoDup(users: seq<UserId>) {
    forall i, j :: 0 <= i < j < |users| ==> users[i] != users[j]
  }

  /** `users.filter(user => user.id !== id)`. */
  function Without(users: seq<UserId>, id: UserId): (r: seq<UserId>)
    ensures id !in r
    ensures multiset(r) == multiset(users)[id := 0]
    ensures |r| + multiset(users)[id] == |users|
    ensures id !in users ==> r == users
  {
    if |users| == 0 then []
    else
      var rest := Without(users[1..], id);
      assert users == [users[0]] + users[1..];
      assert multiset(users) == multiset{users[0]} + multiset(users[1..]);
      if users[0] == id then rest
      else [users[0]] + rest
  }

  /** Filtering a list without duplicates leaves it without duplicates. */
  lemma {:induction false} WithoutNoDup(users: seq<UserId>, id: UserId)
    requires NoDup(users)
    ensures NoDup(Without(users, id))
  {
    if |users| > 0 {
      WithoutNoDup(users[1..], id);
      var rest := Without(users[1..], id);
      if users[0] != id {
        assert users[0] !in users[1..];
        assert users[0] !in multiset(rest);
      }
    }
  }

  /** An id occurs at most once in a list without duplicates. */
  lemma {:induction false} NoDupOccursAtMostOnce(users: seq<UserId>, id: UserId)
    requires NoDup(users)
    ensures multiset(users)[id] <= 1
  {
    if |users| > 0 {
      assert users == [users[0]] + users[1..];
      NoDupOccursAtMostOnce(users[1..], id);
      if users[0] == id {
        assert id !in users[1..];
      }
    }
  }

  /**
   What `leave_lobby` and `close` do to the lobby at index `i`: decrement
   `players`, filter `id` out of `users`, and splice the lobby out when the
   decremented count is `<= 0` (server/server.js:76-81, 175-180).
   */
  function Depart(lobbies: seq<Lobby>, i: nat, id: UserId): (r: seq<Lobby>)
    requires i < |lobbies|
    ensures lobbies[i].players <= 1 ==>
      && |r| == |lobbies| - 1
      && (forall j :: 0 <= j < i ==> r[j] == lobbies[j])
      && (forall j :: i <= j < |r| ==> r[j] == lobbies[j + 1])
    ensures lobbies[i].players > 1 ==>
      && |r| == |lobbies|
      && r[i].name == lobbies[i].name
      && r[i].players == lobbies[i].players - 1
      && r[i].maxPlayers == lobbies[i].maxPlayers
      && r[i].users == Without(lobbies[i].users, id)
      && r[i].extra == lobbies[i].extra
      && (forall j :: 0 <= j < |r| && j != i ==> r[j] == lobbies[j])
  {
    var l := lobbies[i];
    var l' := l.(players := l.players - 1, users := Without(l.users, id));
    if l'.players <= 0 then lobbies[..i] + lobbies[i + 1..]
    else lobbies[i := l']
  }

  /** `{ ...lobby, ...settings }`: every field present in the patch wins. */
  function Merge(l: Lobby, p: Patch): (r: Lobby)
    ensures p.name.None? ==> r.name == l.name
    ensures p.name.Some? ==> r.name == p.name
    ensures r.players == (if p.players.Some? then p.players.value else l.players)
    ensures r.maxPlayers == (if p.maxPlayers.Some? then p.maxPlayers else l.maxPlayers)
    ensures r.users == (if p.users.Some? then p.users.value else l.users)
    ensures r.extra.Keys == l.extra.Keys + p.extra.Keys
    ensures forall k :: k in p.extra ==> r.extra[k] == p.extra[k]
    ensures forall k :: k in l.extra && k !in p.extra ==> r.extra[k] == l.extra[k]
  {
    Lobby(
      if p.name.Some? then p.name else l.name,
      if p.players.Some? then p.players.value else l.players,
      if p.maxPlayers.Some? then p.maxPlayers else l.maxPlayers,
      if p.users.Some? then p.users.value else l.users,
      l.extra + p.extra)
  }

  /** Merging the same settings twice is merging them once. */
  lemma MergeIdempotent(l: Lobby, p: Patch)
    ensures Merge(Merge(l, p), p) == Merge(l, p)
  {
  }

  /** An empty settings object leaves the lobby as it was. */
  lemma MergeEmpty(l: Lobby)
    ensures Merge(l, Patch(None, None, None, None, map[])) == l
  {
  }

}
