/**
 What the lobby handlers guarantee across several steps: which steps undo
 each other, the invariant every handler keeps, and the quirks of the
 code as written (a fresh lobby counts `players` 0, a failed join still
 sets `lobbyName`, `maxPlayers` is never checked).
 */
module ServerProperties {
  import opened Wrappers
  import opened Lobbies
  import opened Server

  /** Filtering out an id appended to a list that did not hold it gives the list back. */
  lemma {:induction false} WithoutAppended(users: seq<UserId>, id: UserId)
    requires id !in users
    ensures Without(users + [id], id) == users
  {
    if |users| == 0 {
      assert Without([id], id) == Without([], id);
    } else {
      assert (users + [id])[1..] == users[1..] + [id];
      WithoutAppended(users[1..], id);
      assert users == [users[0]] + users[1..];
    }
  }

  /**
   A lobby created under a truthy name no other lobby carries, then left by
   its creator, is spliced out again: the list is as before and the creator
   has no lobby.
   */
  lemma CreateThenLeave(lobbies: seq<Lobby>, id: UserId, name: Name, maxPlayers: Option<int>)
    requires Truthy(name) && Find(lobbies, name).None?
    ensures var created := Create(lobbies, id, name, maxPlayers);
      var left := Leave(created.lobbies, id, created.seat);
      && left.lobbies == lobbies
      && left.seat == None
      && left.frames == [Frame(Everyone, LobbyList(lobbies)), Frame(To(id), LeftLobby)]
  {
  }

  /**
   A successful join followed by a leave restores the list when the lobby
   already counted at least one player; the leaver keeps the lobby's name
   as `lobbyName`, because leaving clears it only when the lobby goes.
   */
  lemma JoinThenLeave(lobbies: seq<Lobby>, id: UserId, seat: Name, request: Name)
    requires !Truthy(seat) && !Listed(lobbies, id) && Truthy(request)
    requires Find(lobbies, request).Some? && lobbies[Find(lobbies, request).value].players >= 1
    ensures var joined := Join(lobbies, id, seat, request);
      var left := Leave(joined.lobbies, id, joined.seat);
      && left.lobbies == lobbies
      && left.seat == request
  {
    var k := Find(lobbies, request).value;
    var joined := Join(lobbies, id, seat, request);
    assert id !in lobbies[k].users;
    FindSameNames(joined.lobbies, lobbies, request);
    WithoutAppended(lobbies[k].users, id);
    var after := Depart(joined.lobbies, k, id);
    assert after[k] == lobbies[k];
    assert after == lobbies;
  }

  /** A join that names no lobby still records the name, and every join sent while `lobbyName` keeps that name is refused. */
  lemma FailedJoinLocksOut(lobbies: seq<Lobby>, id: UserId, seat: Name, request: Name, later: seq<Lobby>, next: Name)
    requires !Truthy(seat) && !Listed(lobbies, id) && Truthy(request)
    requires Find(lobbies, request).None?
    ensures Join(lobbies, id, seat, request).seat == request
    ensures Join(later, id, Join(lobbies, id, seat, request).seat, next).frames
      == [Frame(To(id), Error(AlreadyJoined))]
  {
  }

  /** Closing a connection changes the lobby list exactly as `leave_lobby` would. */
  lemma CloseDepartsLikeLeave(lobbies: seq<Lobby>, id: UserId, seat: Name)
    ensures Close(lobbies, id, seat).lobbies == Leave(lobbies, id, seat).lobbies
    ensures Truthy(seat) && Find(lobbies, seat).Some? ==> Close(lobbies, id, seat).seat == None
  {
  }

  /** Sending the same settings twice is sending them once, when they do not rename the lobby away. */
  lemma UpdateTwice(lobbies: seq<Lobby>, id: UserId, seat: Name, patch: Patch)
    requires patch.name.None? || Some(patch.name.value) == seat
    ensures var once := Update(lobbies, id, seat, patch);
      Update(once.lobbies, id, once.seat, patch).lobbies == once.lobbies
  {
    var once := Update(lobbies, id, seat, patch);
    if Truthy(seat) && Find(lobbies, seat).Some? {
      var k := Find(lobbies, seat).value;
      FindSameNames(once.lobbies, lobbies, seat);
      MergeIdempotent(lobbies[k], patch);
    }
  }

  /**
   The invariant the handlers keep: in every lobby no user is listed twice
   and `players` is at least 0 and below the number of listed users (the
   creator is listed but not counted).
   */
  predicate Healthy(lobbies: seq<Lobby>) {
    forall i :: 0 <= i < |lobbies| ==>
      NoDup(lobbies[i].users) && 0 <= lobbies[i].players < |lobbies[i].users|
  }

  /** A settings patch that leaves the counters alone; one that sets them can break any invariant. */
  predicate KeepsCounters(msg: Message) {
    msg.UpdateLobbySettings? ==> msg.settings.players.None? && msg.settings.users.None?
  }

  /** Every listed lobby in a healthy list has at least one user: no empty lobby is ever broadcast. */
  lemma HealthyLobbiesHaveUsers(lobbies: seq<Lobby>)
    requires Healthy(lobbies)
    ensures forall i :: 0 <= i < |lobbies| ==> |lobbies[i].users| >= 1
  {
  }

  /** A departure keeps the invariant: the count drops by one and at most one entry is filtered out. */
  lemma DepartHealthy(lobbies: seq<Lobby>, k: nat, id: UserId)
    requires Healthy(lobbies) && k < |lobbies|
    ensures Healthy(Depart(lobbies, k, id))
  {
    var r := Depart(lobbies, k, id);
    if lobbies[k].players > 1 {
      NoDupOccursAtMostOnce(lobbies[k].users, id);
      WithoutNoDup(lobbies[k].users, id);
      assert NoDup(r[k].users) && 0 <= r[k].players < |r[k].users|;
    }
  }

  lemma HandleHealthy(lobbies: seq<Lobby>, id: UserId, seat: Name, msg: Message)
    requires Healthy(lobbies) && KeepsCounters(msg)
    ensures Healthy(Handle(lobbies, id, seat, msg).lobbies)
  {
    match msg
    case CreateLobby(name, maxPlayers) =>
      var r := Create(lobbies, id, name, maxPlayers).lobbies;
      assert forall i :: 0 <= i < |lobbies| ==> r[i] == lobbies[i];
    case JoinLobby(request) =>
      if !Truthy(seat) && !Listed(lobbies, id) && Find(lobbies, request).Some? {
        var k := Find(lobbies, request).value;
        assert id !in lobbies[k].users;
        var r := Join(lobbies, id, seat, request).lobbies;
        assert NoDup(r[k].users);
      }
    case LeaveLobby =>
      if Truthy(seat) && Find(lobbies, seat).Some? {
        DepartHealthy(lobbies, Find(lobbies, seat).value, id);
      }
    case UpdateLobbySettings(patch) =>
    case StartGame =>
    case Unrecognized =>
  }

  lemma CloseHealthy(lobbies: seq<Lobby>, id: UserId, seat: Name)
    requires Healthy(lobbies)
    ensures Healthy(Close(lobbies, id, seat).lobbies)
  {
    if Truthy(seat) && Find(lobbies, seat).Some? {
      DepartHealthy(lobbies, Find(lobbies, seat).value, id);
    }
  }

  /** Events whose settings patches leave the counters alone. */
  predicate PatchesKeepCounters(events: seq<Event>) {
    forall i :: 0 <= i < |events| && events[i].Recv? ==> KeepsCounters(events[i].msg)
  }

  /**
   Along any run whose patches leave the counters alone, the invariant
   holds at the end and every lobby list broadcast on the way is healthy.
   */
  lemma {:induction false} RunHealthy(s: State, events: seq<Event>)
    requires Healthy(s.lobbies) && PatchesKeepCounters(events)
    ensures Healthy(Run(s, events).0.lobbies)
    ensures forall f :: f in Run(s, events).1 && f.payload.LobbyList? ==> Healthy(f.payload.lobbies)
    decreases |events|
  {
    if |events| > 0 {
      var e := events[0];
      var first := Apply(s, e);
      match e {
        case Open(id) =>
        case Recv(id, msg) =>
          if id in s.seats {
            assert KeepsCounters(msg);
            HandleHealthy(s.lobbies, id, s.seats[id], msg);
          }
        case Shut(id) =>
          if id in s.seats {
            CloseHealthy(s.lobbies, id, s.seats[id]);
          }
      }
      assert PatchesKeepCounters(events[1..]) by {
        forall i | 0 <= i < |events[1..]| && events[1..][i].Recv?
          ensures KeepsCounters(events[1..][i].msg)
        {
          assert events[1..][i] == events[i + 1];
        }
      }
      RunHealthy(first.0, events[1..]);
    }
  }

  /** A settings patch can set `players` to anything, so the invariant needs `KeepsCounters`. */
  lemma PatchBreaksHealthy()
    ensures var lobbies := [Lobby(Some("alpha"), 0, None, ["a"], map[])];
      var patch := Patch(None, Some(5), None, None, map[]);
      && Healthy(lobbies)
      && !Healthy(Update(lobbies, "a", Some("alpha"), patch).lobbies)
  {
  }

  /**
   Three connections: "a" creates "alpha" for at most 2 players, then "b"
   and "c" both join it. The third join succeeds, because `maxPlayers` is
   never consulted, and the lobby counts 2 players for 3 listed users.
   */
  lemma CapacityIsNotChecked()
    ensures var s := Connect(Connect(Connect(Initial, "a"), "b"), "c");
      var created := Receive(s, "a", CreateLobby(Some("alpha"), Some(2))).0;
      var second := Receive(created, "b", JoinLobby(Some("alpha"))).0;
      var third := Receive(second, "c", JoinLobby(Some("alpha")));
      && third.0.lobbies == [Lobby(Some("alpha"), 2, Some(2), ["a", "b", "c"], map[])]
      && third.1 == [Frame(Everyone, LobbyList(third.0.lobbies)), Frame(To("c"), JoinedLobby(third.0.lobbies[0]))]
  {
    var s := Connect(Connect(Connect(Initial, "a"), "b"), "c");
    var created := Receive(s, "a", CreateLobby(Some("alpha"), Some(2))).0;
    assert created.lobbies == [Lobby(Some("alpha"), 0, Some(2), ["a"], map[])];
    assert created.seats["b"] == None && created.seats["c"] == None;
    assert !Listed(created.lobbies, "b");
    assert Find(created.lobbies, Some("alpha")) == Some(0);
    assert ["a"] + ["b"] == ["a", "b"];
    var second := Receive(created, "b", JoinLobby(Some("alpha"))).0;
    assert second.lobbies == [Lobby(Some("alpha"), 1, Some(2), ["a", "b"], map[])];
    assert second.seats["c"] == None;
    assert !Listed(second.lobbies, "c");
    assert Find(second.lobbies, Some("alpha")) == Some(0);
    assert ["a", "b"] + ["c"] == ["a", "b", "c"];
  }

  /**
   "a" creates "alpha" and "b" joins it; when "b" leaves, the count falls
   from 1 to 0 and the lobby is removed although "a" is still listed in it.
   "a" keeps "alpha" as its `lobbyName`, and its own leave then finds no
   lobby and sends nothing.
   */
  lemma FirstLeaverRemovesCreatorsLobby()
    ensures var s := Connect(Connect(Initial, "a"), "b");
      var created := Receive(s, "a", CreateLobby(Some("alpha"), Some(4))).0;
      var joined := Receive(created, "b", JoinLobby(Some("alpha"))).0;
      var left := Receive(joined, "b", LeaveLobby).0;
      var stranded := Receive(left, "a", LeaveLobby);
      && left.lobbies == []
      && left.seats["a"] == Some("alpha")
      && left.seats["b"] == None
      && stranded == (left, [])
  {
    var s := Connect(Connect(Initial, "a"), "b");
    var created := Receive(s, "a", CreateLobby(Some("alpha"), Some(4))).0;
    assert created.lobbies == [Lobby(Some("alpha"), 0, Some(4), ["a"], map[])];
    assert created.seats["b"] == None;
    assert !Listed(created.lobbies, "b");
    assert Find(created.lobbies, Some("alpha")) == Some(0);
    assert ["a"] + ["b"] == ["a", "b"];
    var joined := Receive(created, "b", JoinLobby(Some("alpha"))).0;
    assert joined.lobbies == [Lobby(Some("alpha"), 1, Some(4), ["a", "b"], map[])];
    var left := Receive(joined, "b", LeaveLobby).0;
    assert left.seats == left.seats["a" := Some("alpha")];
  }

  /** The lobby "b" creates in `LockOutEndsWithOwnLobby`, before anyone joins. */
  const Alpha := Lobby(Some("alpha"), 0, Some(4), ["b"], map[])

  lemma LockOutCreated()
    ensures Receive(Connect(Connect(Initial, "a"), "b"), "b", CreateLobby(Some("alpha"), Some(4))).0
      == State([Alpha], map["a" := None, "b" := Some("alpha")])
  {
  }

  lemma LockOutFailed()
    ensures Receive(State([Alpha], map["a" := None, "b" := Some("alpha")]), "a", JoinLobby(Some("beta"))).0
      == State([Alpha], map["a" := Some("beta"), "b" := Some("alpha")])
  {
    assert Find([Alpha], Some("beta")).None?;
  }

  lemma LockOutOwn()
    ensures Receive(State([Alpha], map["a" := Some("beta"), "b" := Some("alpha")]), "a", CreateLobby(Some("gamma"), Some(4))).0
      == State([Alpha, Lobby(Some("gamma"), 0, Some(4), ["a"], map[])], map["a" := Some("gamma"), "b" := Some("alpha")])
  {
  }

  lemma LockOutLeft()
    ensures Receive(State([Alpha, Lobby(Some("gamma"), 0, Some(4), ["a"], map[])], map["a" := Some("gamma"), "b" := Some("alpha")]), "a", LeaveLobby).0
      == State([Alpha], map["a" := None, "b" := Some("alpha")])
  {
    var lobbies := [Alpha, Lobby(Some("gamma"), 0, Some(4), ["a"], map[])];
    assert Find(lobbies, Some("gamma")) == Some(1);
    assert lobbies[..1] + lobbies[2..] == [Alpha];
  }

  lemma LockOutJoined()
    ensures Receive(State([Alpha], map["a" := None, "b" := Some("alpha")]), "a", JoinLobby(Some("alpha"))).0
      == State([Lobby(Some("alpha"), 1, Some(4), ["b", "a"], map[])], map["a" := Some("alpha"), "b" := Some("alpha")])
  {
    assert !Listed([Alpha], "a");
    assert Find([Alpha], Some("alpha")) == Some(0);
    assert ["b"] + ["a"] == ["b", "a"];
  }

  /**
   The lock-out of a failed join lasts only while `lobbyName` keeps the
   failed name. "b" creates "alpha"; "a" joins the missing "beta", then
   creates "gamma", which records "gamma" instead. Leaving "gamma" drops
   its count below 1, removes it and clears `lobbyName`, and "a" can then
   join "alpha".
   */
  lemma LockOutEndsWithOwnLobby()
    ensures var s := Connect(Connect(Initial, "a"), "b");
      var created := Receive(s, "b", CreateLobby(Some("alpha"), Some(4))).0;
      var failed := Receive(created, "a", JoinLobby(Some("beta"))).0;
      var own := Receive(failed, "a", CreateLobby(Some("gamma"), Some(4))).0;
      var left := Receive(own, "a", LeaveLobby).0;
      var joined := Receive(left, "a", JoinLobby(Some("alpha"))).0;
      && failed.seats["a"] == Some("beta")
      && left.seats["a"] == None
      && joined.lobbies == [Lobby(Some("alpha"), 1, Some(4), ["b", "a"], map[])]
      && joined.seats["a"] == Some("alpha")
  {
    LockOutCreated();
    LockOutFailed();
    LockOutOwn();
    LockOutLeft();
    LockOutJoined();
  }
}
