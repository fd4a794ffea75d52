# Connect-5 game room, modelled in Dafny

This project models the server side of a two-player Connect-5 game. The
game is played on a 20 x 20 board with gravity: a piece dropped into a
column lands on the lowest empty cell, and five in a row wins, whether
horizontal, vertical or diagonal. The original server keeps a single
global `game_state` record. Its socket handlers `join_game`,
`drop_piece`, `disconnect` and `reset_game` update that record in place
and emit events.

The model has five modules:

- `Options` (options.dfy) holds the `Option` datatype. It stands for
  Python's `None` and for a key missing from a message payload.
- `Board` (board.dfy) is the board as a value: a `Grid` of 20 rows of 20
  cells, with `EMPTY` (0) standing for `None` and 1 or 2 for a player's
  piece. It holds the specification functions:
  - `DropRow`, the gravity landing row;
  - `RunFrom` and `AxisCount`, the run lengths that `check_winner` counts;
  - `IsWinningMove`;
  - `TopRowFull`.

  It also holds the lemmas about them.
- `BoardScan` (board_scan.dfy) holds `get_drop_row`, `check_winner` and
  `is_board_full`. They are written as the loops they are, over the board
  held in an `array2<int>`, and each is proved equal to its specification
  function through `ToGrid`.
- `Game` (game.dfy) is a pure reference state machine. `State` mirrors
  `game_state`. Each handler is a function from a state and its inputs to
  a `Step`, which is the new state plus the events sent, in order.
  - The invariant `Inv` is proved to hold after every handler and after
    any sequence of handler calls (`Run`). It says: gravity holds, cells
    are 0, 1 or 2, the player count equals the roster size and is at most
    2, the turn is 1 or 2, and every roster entry and the winner are
    well-formed.
  - The specification lemmas say what each handler does, including every
    error path.
- `App` (app.dfy) is the game room as the mutable record it is: class
  `Session` has the board array and the other `game_state` fields. Each
  handler is a method that updates the fields in place. Each handler
  method (`HandleJoin`, `HandleDrop`, `HandleDisconnect`, `HandleReset`),
  as well as `ResetBoard` and `ResetGame`, is proved to keep `Valid()` and
  to produce exactly the new state and events of the matching `Game`
  function. `PlayPiece` and `Seat`, the accepted parts of a drop and a
  join, are proved equal to `Game.PlayPiece` and `Game.Seat`; they are
  called only from `HandleDrop` and `HandleJoin`, which re-establish
  `Valid()`.

Conventions of the model:

- The join, drop and disconnect handlers get the sending connection id
  (`request.sid`) as a parameter, and `Seat` gets it from `HandleJoin`.
  `HandleReset`, `ResetBoard`, `ResetGame` and `PlayPiece` take none,
  since the source code they model never reads it.
- Events are returned as a sequence instead of being emitted. `Error` and
  `Joined` carry their recipient. The others are broadcasts.
- The `game_state` broadcast is the `GameState` event, which carries the
  whole record as a value.

The model follows the code where a natural reading of the design would
expect otherwise:

- On a winning or drawing drop, `game_won` / `game_draw` is sent before
  `piece_dropped` (app.py:216-238).
- A player's number is `player_count + 1`, not the free slot
  (app.py:154). After player 1 leaves a running game and someone new
  joins, both players are number 2 and no drop is accepted, not even
  after a reset, which keeps the roster (`Game.DuplicatePlayerNumbers`). So the model states no
  "distinct player numbers" invariant.
- A disconnect after the game has ended keeps `winner` (app.py:131-132
  only resets a running game). The next join then starts a game that
  refuses every drop with "Game is over!" (`Game.StaleWinnerAfterRejoin`).
- `handle_reset` starts the game whatever the roster size. So "started"
  does not imply two players, and the invariant does not claim it.

## Model

| member | source | states |
|---|---|---|
| Board.EmptyGrid | app.py:16 | the fresh board has 20 rows of 20 cells, every one of them empty |
| Board.DropRow | app.py:38-43 | the landing row of a column is an empty cell with only occupied cells below it; there is none exactly when every cell of the column is occupied |
| Board.DropRowFrom | app.py:38-43 | scanning a column upwards from a row: a result is an empty cell with only occupied cells between it and the start; no result exactly when every cell up to the start is occupied |
| BoardScan.GetDropRow | app.py:38-43 | the bottom-up loop over the array returns exactly the specified landing row of the column, or none when the column is full |
| Board.OccupiedBelow | app.py:38-43 | under gravity every cell below an occupied cell is occupied |
| Board.DropRowOnTopOfColumn | app.py:38-43 | under gravity the landing cell and every cell above it are empty, and every cell below it is occupied |
| Board.PlaceAtDropRow | app.py:207-213 | a piece of player 1 or 2 placed at the landing row fills an empty cell, changes no other cell, and keeps gravity and the cell alphabet |
| Board.WalkMoves | app.py:62-73 | k steps along an axis move a coordinate by exactly k, -k or 0 |
| Board.RunFrom | app.py:62-73 | no contract of its own; Board.RunIsMaximal states what it counts |
| Board.RunIsMaximal | app.py:61-73 | a scan counts n cells exactly when the first n cells from the start are the player's and the next one is off the board or not the player's |
| BoardScan.ScanRun | app.py:62-73 | the while loop along one direction counts exactly the specified run of the player's cells |
| Board.AxisCount | app.py:59-73 | no contract of its own; it is the count check_winner builds for one axis (1 plus both runs), and BoardScan.CheckWinner is proved against it |
| Board.IsWinningMove | app.py:51-78 | no contract of its own; BoardScan.CheckWinner is proved equivalent to it, and Board.LineWins and Board.WinningMoveHasLine together state that it holds exactly when a line of at least CONNECT of the player's pieces runs through the placed cell on one of the four axes |
| BoardScan.CheckWinner | app.py:46-78 | checking the four axes returns true exactly when some axis counts, with the placed piece, at least CONNECT cells of the player |
| Board.RunAfter | app.py:62-66 | when the player owns the n cells after a cell, the run counted from the neighbouring cell is at least n |
| Board.LineWins | app.py:58-76 | a line of pieces through the placed cell, with before + after + 1 >= CONNECT, makes the move winning |
| Board.RunFromIsOwned | app.py:62-73 | every cell of the run counted from a cell's neighbour belongs to the player, counted step by step from the cell |
| Board.WinningMoveHasLine | app.py:58-76 | conversely, a winning move has a line of at least CONNECT of the player's pieces through the placed cell on one axis |
| Board.BottomRowFiveWins | app.py:46-78 | five of a player's pieces at the left of the bottom row win for the piece in column 4 |
| Board.TopRowFull | app.py:83-86 | no contract of its own; BoardScan.IsBoardFull is proved equivalent to it, and Board.TopRowFullIffAllOccupied shows it means the whole board is full |
| BoardScan.IsBoardFull | app.py:81-86 | the loop over the top row returns true exactly when no top-row cell is empty |
| Board.TopRowFullIffAllOccupied | app.py:81-86 | under gravity a full top row means every cell of the board is occupied, and conversely |
| Game.NatToString | app.py:153 | the number in the default name is written as a non-empty string of decimal digits without a leading zero ("0" for zero), as Python's str does |
| Game.NatToStringDenotes | app.py:153 | those digits, read back as a decimal number, are the number itself |
| Game.DefaultName | app.py:153 | the default name is "Player " followed by decimal digits, with no leading zero, that denote the given number, which the join passes as `player_count + 1` |
| Game.ColorOf | app.py:155 | no contract of its own; Game.JoinAccepted states that the new player is red exactly when its number is 1 |
| Game.Init | app.py:15-22 | no contract of its own; Game.InitInv states that it satisfies the invariant, and App.Session.constructor is proved to build it |
| Game.ResetBoard | app.py:25-29 | no contract of its own; Game.ResetBoardKeepsInv states that it keeps the invariant, and App.Session.ResetBoard is proved to produce it |
| Game.ResetAll | app.py:32-35 | no contract of its own; Game.ResetAllSpec states every field it produces |
| Game.InitInv | app.py:15-22 | the initial record satisfies the invariant |
| Game.ResetBoardKeepsInv | app.py:25-29 | reset_board keeps the invariant |
| Game.ResetAllSpec | app.py:32-35 | reset_game empties roster and board and yields the initial flags, keeping the invariant |
| Game.Join | app.py:137-177 | a join sends at least one event; its first event is an error exactly when the record is unchanged, and that error goes only to the sender; board and winner are never touched |
| Game.Seat | app.py:153-177 | the accepted part of a join seats the sender under the given name, leaves board and winner alone, and first tells the sender its slot |
| Game.SeatSpec | app.py:154-177 | seating adds exactly the sender, numbered by the new roster size and red exactly for number 1, starts the game at two players, and sends joined, game_started when starting, then the snapshot |
| Game.SeatKeepsInv | app.py:154-174 | seating into a room with fewer than two players keeps the invariant |
| Game.JoinRejected | app.py:141-151 | with a full room, a running game or a sender already seated, the record is unchanged and the sender gets the first failing guard's message |
| Game.JoinAccepted | app.py:153-177 | a successful join adds exactly the sender with number = roster size, red exactly for player 1, the default name when none is given; the game starts exactly at two players; events are joined, then game_started if starting, then the snapshot |
| Game.JoinKeepsInv | app.py:141-177 | a join keeps the invariant |
| Game.TwoJoinsStartTheGame | app.py:153-175 | two anonymous joins into a fresh room make "Player 1" red number 1 and "Player 2" blue number 2, and start the game on turn 1 |
| Game.Drop | app.py:180-240 | a drop never changes the roster and keeps a well-formed board; a first event that is an error means the record is unchanged and only that error is sent to the sender |
| Game.PlayPiece | app.py:212-213 | the accepted move's board is the old board with the player's number at (row, col) |
| Game.DropRejected | app.py:184-210 | a drop failing a guard changes nothing and sends one error to the sender, with the message of the first failing guard in source order |
| Game.DropChangesIffLegal | app.py:184-213 | a drop changes the record exactly when every guard passes, and then sends no error |
| Game.DropAccepted | app.py:207-240 | a legal drop fills exactly the lowest empty cell of the column; a win records the player and stops the game; otherwise a full board records a draw; otherwise the turn passes to the other player; events are terminal event, piece_dropped, snapshot |
| Game.DropKeepsInv | app.py:184-230 | a drop keeps gravity, the cell alphabet and the rest of the invariant |
| Game.PlayPieceKeepsInv | app.py:212-230 | placing at the landing row and settling the outcome keeps the invariant |
| Game.NoTwoDropsInARow | app.py:198-230 | right after an accepted drop, the same connection's next drop is refused and changes nothing: with "It's not your turn!" while the game goes on, and with "Game has not started yet!" once that drop ended it |
| Game.Disconnect | app.py:121-134 | a disconnect removes exactly the sender from the roster and broadcasts the snapshot only if the sender was seated |
| Game.DisconnectSpec | app.py:121-134 | removing a seated player leaves the others unchanged and decrements the count; a running game is reset to an empty stopped board, otherwise board, winner and turn stay; an unknown sender changes nothing and sends nothing |
| Game.DisconnectKeepsInv | app.py:124-132 | a disconnect keeps the invariant |
| Game.Reset | app.py:243-249 | reset keeps the roster, sets started with no winner, and sends game_reset then the snapshot |
| Game.ResetSpec | app.py:243-249 | reset clears board and winner and starts the game on turn 1 whatever the roster, which it keeps |
| Game.ResetKeepsInv | app.py:243-247 | reset keeps the invariant |
| Game.Handle | app.py:121-249 | no contract of its own; it dispatches one intent to its handler, and Game.HandleKeepsInv states that it keeps the invariant |
| Game.HandleKeepsInv | app.py:121-249 | any one handler keeps the invariant |
| Game.Run | app.py:121-249 | any sequence of handler calls from a valid record ends in a valid record |
| Game.StaleWinnerAfterRejoin | app.py:121-190 | after a finished game, a player leaving and a newcomer joining start a game that keeps the old winner and refuses every drop with "Game is over!" |
| Game.DuplicatePlayerNumbers | app.py:124-162 | when player 1 leaves a running game and someone joins, both players are number 2 and no drop is accepted, neither then nor after a reset |
| App.Session.constructor | app.py:15-22 | the session starts as the initial record and is valid |
| App.Session.ResetBoard | app.py:25-29 | installs a fresh empty board array and the reset flags, as the value-level reset_board says |
| App.Session.ResetGame | app.py:32-35 | reset_board plus an empty roster and count, as the value-level reset_game says |
| App.Session.HandleDisconnect | app.py:121-134 | the fields after the call and the events sent are exactly those of Game.Disconnect, and validity is kept |
| App.Session.HandleJoin | app.py:137-177 | the fields after the call and the events sent are exactly those of Game.Join, and validity is kept |
| App.Session.Seat | app.py:154-177 | inserting the sender into the roster field in place and starting the game at two players yields exactly Game.Seat's state and events |
| App.Session.HandleDrop | app.py:180-210 | the array and fields after the call and the events sent are exactly those of Game.Drop, and validity is kept |
| App.Session.PlayPiece | app.py:212-240 | writing the piece into the array and settling win, draw or turn produces exactly Game.PlayPiece's state and events |
| App.Session.HandleReset | app.py:243-249 | the fields after the call and the events sent are exactly those of Game.Reset, and validity is kept |

## Left out

- The Flask route, `render_template` and the Socket.IO server setup
  (app.py:1-7, 110-112, 252-255) are left out. They are web plumbing and
  carry no game logic.
- `PORT`, `DEBUG` and `SECRET_KEY` configuration is left out. It is
  environment and I/O.
- `print` logging is left out. It has no effect on the state or on the
  events.
- The JSON layout of `broadcast_state` (app.py:89-107) is left out. The
  snapshot event carries the whole record as a value, and the roster is a
  map, not a list in insertion order.
- `handle_connect` (app.py:115-118) is left out. It only logs and sends a
  snapshot to everyone, and does not touch the state.
- Concurrency is not modelled. Handlers run one at a time, each to
  completion. The real server's interleaving and its lack of locking are
  not captured.
- Dynamic payload typing is modelled only in part. The `col` payload is
  an `Option<int>`, so a non-integer `col` (which would raise in Python)
  is not modelled. `player_name` is an `Option<string>`: an absent key
  gives the default name, and an explicit JSON `null` name is not
  modelled.
- The recipient of `handle_reset` is not modelled. It is broadcast, and
  the sender is ignored, so `HandleReset` takes no connection id.
