# Lobby system: a Dafny model of the lobby server and the two game boards

This project models three small sequential state machines of the lobby-system
repository and proves properties about them:

1. **The WebSocket lobby server** (`server/server.js`). The server keeps a global
   list of lobby records `{ name, players, maxPlayers, users }`. Each connection
   also keeps its own `lobbyName`. Node runs every `message` and `close` handler to
   completion on one event loop, so each handler is modelled as one atomic pure
   function (`Server.Create`, `Server.Join`, `Server.Leave`, `Server.Update`,
   `Server.Start`, `Server.Close`). Each takes the lobby list, the caller's id and,
   except for `Create`, its `lobbyName`, and returns the new list, the new `lobbyName` and the frames
   sent. Frames are abstract: a recipient (`To(id)` or `Everyone`) and a payload.
   `Server.State`, `Server.Receive`, `Server.Disconnect` and `Server.Run` lift the
   handlers to the whole server: the lobby list plus the `lobbyName` of every open
   connection.
2. **The tic-tac-toe board** (`components/Board.tsx`): `calculateWinner` over the
   eight fixed lines, the cell update with the turn toggle, the winner/draw effect,
   the disabled-button guard and `reset`.
3. **The chess move bookkeeping** (`components/chess/Chess.tsx`): `makeMove`,
   `selectPiece` and `handleClick` on an 8x8 board. The helpers for move generation,
   check detection and move lookup are passed in as total functions (`Chess.Helpers`).
   Their definitions are not part of this model.

## Behaviour as written

The server is modelled as the code behaves, including these details:

- `create_lobby` does not reject duplicate names. It stores `players: 0` while
  listing the creator in `users`, and it ignores whether the caller already has a
  lobby.
  `ServerProperties.FirstLeaverRemovesCreatorsLobby` shows the consequence. When
  the first joiner leaves, the count drops to 0 and the lobby is removed, although
  its creator is still listed in it. The creator keeps the name as `lobbyName`, and
  a later leave from the creator sends nothing.
- `join_lobby` never compares `players` against `maxPlayers`.
  `ServerProperties.CapacityIsNotChecked` shows a third join into a two-player
  lobby succeeding.
- A join naming a missing lobby still sets the caller's `lobbyName`. Every join it
  sends while `lobbyName` keeps the failed name is refused
  (`ServerProperties.FailedJoinLocksOut`). A `create_lobby` under another name
  replaces the failed name. Joins then stay refused until a `leave_lobby` removes
  that lobby and clears `lobbyName`, for example the caller's own new lobby
  (`ServerProperties.LockOutEndsWithOwnLobby`).
- `leave_lobby` clears `lobbyName` only when the lobby is removed. `close` clears it
  whenever the lobby is found.
- `leave_lobby`, `update_lobby_settings` and `start_game` send nothing at all when
  `lobbyName` is truthy but no lobby carries it. `start_game` notifies every open
  connection, not only the lobby's users.
- `lobbyName` is judged by JavaScript truthiness, so `""` counts as "not in a
  lobby" (`Lobbies.Truthy`). A name field missing from a frame is `undefined`.
  It is modelled as `None`, and `undefined === undefined` holds, so a join without
  `lobbyName` finds a lobby created without `name`.

The invariant the handlers do keep is `ServerProperties.Healthy`. In every lobby,
no user is listed twice, and `0 <= players < |users|`. Every lobby in a broadcast
list therefore has at least one listed user. `ServerProperties.RunHealthy` proves
this along every run of connections, frames and closes, provided no settings patch
sets `players` or `users`. `ServerProperties.PatchBreaksHealthy` shows that such a
patch breaks it.

## Model

| member | source | states |
|---|---|---|
| Lobbies.Find | server/server.js:52 | `findIndex` by name: the index of the first lobby with that name; `None` exactly when no lobby has it |
| Lobbies.Without | server/server.js:78 | the user filter: the id is gone, every other id keeps its multiplicity, one fewer entry per removed occurrence, and the list is unchanged when the id is absent |
| Lobbies.WithoutNoDup | server/server.js:78 | filtering a list without duplicate users leaves it without duplicates |
| Lobbies.Depart | server/server.js:74-84 | leave/close on the lobby at `i`: when the count was at most 1 it is spliced out and the other lobbies keep their order; otherwise only its count drops by 1 and the caller is filtered from its users |
| Lobbies.Merge | server/server.js:101 | the shallow settings merge: every field present in the patch wins, every absent one keeps the lobby's value, the extra fields are the union of both |
| Lobbies.MergeIdempotent | server/server.js:101 | merging the same settings twice equals merging them once |
| Lobbies.MergeEmpty | server/server.js:101 | an empty settings object leaves the lobby unchanged |
| Server.Create | server/server.js:39-47 | exactly one lobby is appended at the end (given name and maxPlayers, players 0, users = [caller]), earlier lobbies are untouched, lobbyName becomes the name whatever it was, one lobby list goes to everyone |
| Server.Join | server/server.js:48-69 | refused with the "already" error and nothing changed when lobbyName is truthy or the caller is listed anywhere; "Lobby not found" with the list unchanged but lobbyName set to the request; otherwise the first lobby of that name gains exactly one player and the caller at the end of its users, whatever maxPlayers is, and everyone gets the list, the caller the joined lobby |
| Server.Leave | server/server.js:70-94 | falsy lobbyName: only a "Not in a lobby" error to the caller; unknown lobby: nothing at all; found: the departure of `Depart`, lobbyName cleared exactly when the lobby is removed, then the list to everyone and `left_lobby` to the caller |
| Server.Update | server/server.js:95-111 | falsy lobbyName: only "Not in a lobby"; found: only the first lobby with that name is replaced by the merge, all others unchanged |
| Server.Start | server/server.js:112-128 | the state never changes; falsy lobbyName gives one error to the caller, a found lobby gives `game_started` to everyone |
| Server.Handle | server/server.js:38-164 | an unknown type gives exactly one "Unknown message type" error and no change; any error frame goes to the caller, is the only frame and leaves the list unchanged; every broadcast list is the committed list |
| Server.Close | server/server.js:168-188 | the same departure as leave, lobbyName cleared whenever the lobby is found, only a lobby list sent (no `left_lobby`); nothing happens otherwise |
| Server.Connect | server/server.js:30-33 | a new connection gets a fresh id and no lobby; the others are untouched |
| Server.Receive | server/server.js:35-166 | a frame changes no other connection's lobbyName |
| Server.Disconnect | server/server.js:168-188 | the closing connection is removed, the others keep their lobbyName, and only lobby lists go out, to everyone |
| Server.Apply | server/server.js:30-35 | the set of open connections grows by an open, shrinks by a close, and is unchanged by a frame |
| ServerProperties.CreateThenLeave | server/server.js:39-94 | creating a lobby under a fresh truthy name and leaving it restores the list and clears lobbyName |
| ServerProperties.JoinThenLeave | server/server.js:48-94 | a join then a leave restores the list when the lobby already counted a player; the leaver keeps the name as lobbyName |
| ServerProperties.FailedJoinLocksOut | server/server.js:50-63 | a join naming no lobby records the name, and every join sent while `lobbyName` keeps that name is refused |
| ServerProperties.LockOutEndsWithOwnLobby | server/server.js:39-94 | after a failed join, creating a lobby replaces the recorded name, leaving it removes the lobby and clears `lobbyName`, and a join into another lobby then succeeds |
| ServerProperties.CloseDepartsLikeLeave | server/server.js:168-188 | close changes the lobby list exactly as leave does, and clears lobbyName when the lobby is found |
| ServerProperties.UpdateTwice | server/server.js:95-105 | sending the same settings twice gives the same list as sending them once, unless they rename the lobby to another name |
| ServerProperties.HealthyLobbiesHaveUsers | server/server.js:79-81 | under the invariant, every listed lobby has at least one user |
| ServerProperties.DepartHealthy | server/server.js:74-84 | a departure keeps the invariant |
| ServerProperties.HandleHealthy | server/server.js:38-164 | every message handler keeps the invariant when the patch leaves players and users alone |
| ServerProperties.CloseHealthy | server/server.js:168-188 | the close handler keeps the invariant |
| ServerProperties.RunHealthy | server/server.js:30-188 | along any run of opens, frames and closes, the invariant holds at the end and every broadcast lobby list satisfies it |
| ServerProperties.PatchBreaksHealthy | server/server.js:101 | a patch that sets `players` breaks the invariant |
| ServerProperties.CapacityIsNotChecked | server/server.js:53-56 | a third join into a lobby with maxPlayers 2 succeeds, leaving players 2 with 3 listed users |
| ServerProperties.FirstLeaverRemovesCreatorsLobby | server/server.js:41-83 | when the first joiner leaves, the creator's lobby is removed while the creator keeps its name, and the creator's later leave sends nothing |
| TicTacToe.WinnerFrom | components/Board.tsx:18-24 | from line i on, `None` exactly when no line is complete; otherwise the mark of a complete line with no complete line before it |
| TicTacToe.CalculateWinner | components/Board.tsx:7-25 | a mark only if a listed line is filled with it and it is the first complete line; null exactly when no line is complete |
| TicTacToe.SetSquareValue | components/Board.tsx:34-43 | the board equals the old one except cell `index`, which holds the current player (no change for an index off the board); the player toggles |
| TicTacToe.Settle | components/Board.tsx:52-61 | a complete line sets that winner; "Both" is set exactly when no line is complete and no cell is empty (or it already was); otherwise the winner stays |
| TicTacToe.Click | components/Board.tsx:72-77 | a filled cell or an existing winner makes the click do nothing; otherwise the cell gets the current mark and the turn passes |
| TicTacToe.Reset | components/Board.tsx:46-50 | nine empty cells, no winner, the given first player |
| TicTacToeProperties.FirstCompleteLineDecides | components/Board.tsx:18-22 | the first complete line in list order decides the winner |
| TicTacToeProperties.EmptyBoardHasNoWinner | components/Board.tsx:24 | the all-null board has no winner |
| TicTacToeProperties.ResetPlayable | components/Board.tsx:46-50 | a reset game satisfies the game invariant (winner agrees with the board, marks balanced) |
| TicTacToeProperties.CountAfterPlay | components/Board.tsx:35-41 | filling an empty cell adds one mark of the mover and none of the other |
| TicTacToeProperties.ClickPlayable | components/Board.tsx:34-61 | every click keeps the winner consistent with the board and the mover's count equal to, or one below, the other's |
| TicTacToeProperties.DrawExactly | components/Board.tsx:58-60 | after a click, the winner is "Both" exactly when no line is complete and no cell is empty |
| TicTacToeProperties.DecidedGameIsFrozen | components/Board.tsx:76 | once there is a winner or a draw, no click changes the game |
| Chess.Initial | components/chess/Chess.tsx:34-46 | the board is the one `initBoard` returned; white to move, nothing selected, no losses, kings at (4,7) and (4,0) |
| ChessProperties.InitialValid | components/chess/Chess.tsx:34-46 | the constructor's state is one `handleClick` accepts, given an 8x8 board whose squares record their own coordinates |
| ChessProperties.PlayFromInitial | components/chess/Chess.tsx:34-56 | every sequence of clicks from the constructor's state keeps it valid |
| Chess.Bump | components/chess/Chess.tsx:64-68 | a lost-pieces count grows by exactly 1, starting at 1 when absent; the other types are untouched |
| Chess.MovePiece | components/chess/Chess.tsx:85-89 | the destination holds the mover's type and team, the source is free and unselected, no other square changes |
| Chess.MakeMove | components/chess/Chess.tsx:57-103 | the board as `MovePiece`; the turn flips; a capture of the other team bumps that team's count for the captured type, any other move leaves both maps; a king move sets its own king's position only; the selection and moves are cleared |
| Chess.SelectPiece | components/chess/Chess.tsx:107-129 | in check, a non-king changes nothing; otherwise the piece's flag toggles (ending unselected when it was the selected square), the previous square is unselected, nothing else changes, selectedPiece is the piece's position only when newly selected, else null with no moves; a newly selected piece gets `getPossibleMoves` on the board with it selected |
| Chess.HandleClick | components/chess/Chess.tsx:48-56 | a click keeps the state valid; a candidate move runs `makeMove` from the selected square (no change when none is selected), otherwise a piece of the side to move is (de)selected as `SelectPiece` does |
| ChessProperties.MovePieceCount | components/chess/Chess.tsx:85-89 | a move removes only the kind that stood on the destination and adds one free square |
| ChessProperties.PiecesAreConserved | components/chess/Chess.tsx:63-89 | when a piece moves to a free square or captures the other team, each team's pieces on the board plus its lost count stay constant |
| ChessProperties.KingFollowsMove | components/chess/Chess.tsx:78-84 | in a valid state, a moved king's recorded position is the destination |
| ChessProperties.SelectTwice | components/chess/Chess.tsx:113-123 | selecting an unselected piece twice, with nothing selected before, gives back the state with no moves |

## Left out

- The WebSocket transport, `JSON.parse` and `JSON.stringify`, and the iteration over `wss.clients`. Frames are abstract values, and `Everyone` stands for every open connection. A frame that fails to parse throws out of the handler and is not modelled.
- `logToDiscord` and its retries. They are HTTP requests and timers, with no effect on the state.
- `send_message` and `broadcastLobbyMessages`. `create_lobby` never creates a `messages` array, and `wss.clients` has no `find`, so this path cannot work as written.
- The placeholder `other_message_type` case. `Server.Message.Unrecognized` stands for every type no case matches.
- Random ids and the random first player. Ids are parameters, and `Server.Connect` requires only that the id differ from every open connection's id. A closed id may therefore reopen, possibly while it is still listed in a lobby; the run properties cover these runs too. The first player is the parameter of `TicTacToe.Reset`.
- Names and other frame fields whose JSON value is `null`, a number or an object. Names are strings or absent. A settings patch sets `name`, `players`, `maxPlayers` and `users` with values of their own types, and any other field as a string in `extra`, whose keys are assumed to be none of those four (`Lobbies.Lobby` and `Lobbies.Patch` do not enforce this).
- `getPossibleMoves`, `hasChecked`, `findMoveInMoves` and `initBoard`. Their source is not part of this model, so the first three are parameters and the board `initBoard` returns is a parameter of `Chess.Initial`.
- `initBoard` is assumed to return an 8x8 board whose every square records its own coordinates (`Chess.Shaped` and `Chess.Coherent`, the premises of `ChessProperties.InitialValid`).
- A click on a candidate move while nothing is selected calls `makeMove(null, …)`, which throws a `TypeError` when it reads `oldPos[1]`, before it changes anything. `Chess.HandleClick` models this as leaving the state unchanged, and the exception itself is not modelled.
- Rendering, toasts and `LostPieces`.
- Lobbies.Without: the contents are stated as a multiset, and the order only when the id is absent. The filter also preserves the order of the remaining users.
- React's effect timing. The winner effect is applied right after the click, as one step (`TicTacToe.Click`). React runs the effect after re-rendering, and no other event can come in between.
