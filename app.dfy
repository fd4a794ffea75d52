/**
 * The game room of app.py as the mutable record it is: one Session object
 * holds the board in a 20 x 20 array and the roster, turn, started flag,
 * winner and player count in fields, and each socket event handler is a
 * method that updates them in place. The join, drop and disconnect handlers
 * take the sending connection as a parameter; every handler returns the
 * events it sends, in order, in place of the socket emits. Every handler
 * method keeps Valid() and is proved to do what the matching function of
 * module Game does to the record; PlayPiece and Seat, the accepted parts of
 * a drop and a join, are proved to do what Game.PlayPiece and Game.Seat do
 * and are called only from HandleDrop and HandleJoin, which restore Valid().
 */
module App {
  import opened Options
  import opened Board
  import opened BoardScan
  import opened Game

  class Session {
    var board: array2<int>
    var players: map<Sid, Player>
    var currentTurn: int
    var gameStarted: bool
    var winner: Option<Outcome>
    var playerCount: int

    /** The record as a value; also the payload of the game_state snapshot. */
    function Abstract(): State
      reads this, board
      requires IsBoard(board)
    {
      State(ToGrid(board), players, currentTurn, gameStarted, winner, playerCount)
    }

    ghost predicate Valid()
      reads this, board
    {
      IsBoard(board) && Inv(Abstract())
    }

    /** The record at process start: empty board, no players, turn 1. */
    constructor ()
      ensures Valid() && fresh(board)
      ensures Abstract() == Init()
    {
      var b := NewBoard();
      board := b;
      players := map[];
      currentTurn := 1;
      gameStarted := false;
      winner := None;
      playerCount := 0;
      new;
      InitInv();
    }

    /** reset_board: a fresh empty board, turn 1, not started, no winner. */
    method ResetBoard()
      requires Valid()
      modifies this
      ensures Valid() && fresh(board)
      ensures Abstract() == Game.ResetBoard(old(Abstract()))
    {
      board := NewBoard();
      currentTurn := 1;
      gameStarted := false;
      winner := None;
      ResetBoardKeepsInv(old(Abstract()));
    }

    /** reset_game: reset_board and an empty roster. */
    method ResetGame()
      requires Valid()
      modifies this
      ensures Valid() && fresh(board)
      ensures Abstract() == ResetAll(old(Abstract()))
    {
      ResetBoard();
      players := map[];
      playerCount := 0;
      ResetAllSpec(old(Abstract()));
    }

    /** handle_disconnect */
    method HandleDisconnect(sid: Sid) returns (events: seq<Event>)
      requires Valid()
      modifies this
      ensures Valid()
      ensures Step(Abstract(), events) == Disconnect(old(Abstract()), sid)
    {
      if sid in players {
        DisconnectKeepsInv(Abstract(), sid);
        players := players - {sid};
        playerCount := playerCount - 1;
        if gameStarted {
          ResetBoard();
        }
        events := [GameState(Abstract())];
      } else {
        events := [];
      }
    }

    /** handle_join */
    method HandleJoin(sid: Sid, playerName: Option<string>) returns (events: seq<Event>)
      requires Valid()
      modifies this
      ensures Valid() && board == old(board)
      ensures Step(Abstract(), events) == Join(old(Abstract()), sid, playerName)
    {
      ghost var s := Abstract();
      if playerCount >= 2 {
        assert Join(s, sid, playerName) == Reject(s, sid, GAME_FULL);
        return [Error(sid, GAME_FULL)];
      }
      if gameStarted {
        assert Join(s, sid, playerName) == Reject(s, sid, IN_PROGRESS);
        return [Error(sid, IN_PROGRESS)];
      }
      if sid in players {
        assert Join(s, sid, playerName) == Reject(s, sid, ALREADY_JOINED);
        return [Error(sid, ALREADY_JOINED)];
      }

      var name := if playerName.Some? then playerName.value else DefaultName(playerCount + 1);
      assert Join(s, sid, playerName) == Game.Seat(s, sid, name);
      events := Seat(sid, name);
      JoinKeepsInv(s, sid, playerName);
    }

    /**
     * The accepted part of handle_join: inserts the sender into the roster
     * with the next player number, then starts the game at two players.
     */
    method Seat(sid: Sid, name: string) returns (events: seq<Event>)
      requires IsBoard(board) && playerCount >= 0 && sid !in players
      modifies this
      ensures board == old(board)
      ensures Step(Abstract(), events) == Game.Seat(old(Abstract()), sid, name)
    {
      ghost var s := Abstract();
      var num := playerCount + 1;
      var color := if num == 1 then Red else Blue;
      ghost var joined := s.(players := players[sid := Player(name, color, num)], playerCount := num);
      players := players[sid := Player(name, color, num)];
      playerCount := playerCount + 1;
      events := [Joined(sid, num, name, color)];
      assert Abstract() == joined;

      if playerCount == 2 {
        gameStarted := true;
        events := events + [GameStarted(STARTED)];
        assert Abstract() == joined.(gameStarted := true);
      }
      events := events + [GameState(Abstract())];
    }

    /** handle_drop */
    method HandleDrop(sid: Sid, col: Option<int>) returns (events: seq<Event>)
      requires Valid()
      modifies this, board
      ensures Valid() && board == old(board)
      ensures Step(Abstract(), events) == Drop(old(Abstract()), sid, col)
    {
      ghost var s := Abstract();
      DropKeepsInv(s, sid, col);
      if !gameStarted {
        return [Error(sid, NOT_STARTED)];
      }
      if winner.Some? {
        return [Error(sid, GAME_OVER)];
      }
      if sid !in players {
        return [Error(sid, NOT_IN_GAME)];
      }
      var player := players[sid];
      if player.playerNum != currentTurn {
        return [Error(sid, NOT_YOUR_TURN)];
      }
      if col.None? || col.value < 0 || col.value >= COLS {
        return [Error(sid, INVALID_COLUMN)];
      }
      var c := col.value;
      var row := GetDropRow(board, c);
      if row.None? {
        return [Error(sid, COLUMN_FULL)];
      }
      var r := row.value;
      assert Drop(s, sid, col) == Game.PlayPiece(s, player, r, c);
      events := PlayPiece(player, r, c);
    }

    /**
     * The accepted part of handle_drop: writes the player's number into
     * (r, c), then the win check, the full-board check or the turn switch,
     * then the broadcasts.
     */
    method PlayPiece(player: Player, r: int, c: int) returns (events: seq<Event>)
      requires IsBoard(board) && InBounds(r, c)
      modifies this, board
      ensures board == old(board)
      ensures Step(Abstract(), events) == Game.PlayPiece(old(Abstract()), player, r, c)
    {
      ghost var s := Abstract();
      board[r, c] := player.playerNum;
      GridsEqual(ToGrid(board), Place(s.board, r, c, player.playerNum));

      var won := CheckWinner(board, r, c, player.playerNum);
      var terminal: seq<Event>;
      if won {
        winner := Some(Won(player));
        gameStarted := false;
        terminal := [GameWon(player)];
      } else {
        var full := IsBoardFull(board);
        if full {
          winner := Some(Draw);
          gameStarted := false;
          terminal := [GameDraw];
        } else {
          currentTurn := if currentTurn == 1 then 2 else 1;
          terminal := [];
        }
      }
      events := terminal + [PieceDropped(r, c, player.playerNum, player.color), GameState(Abstract())];
    }

    /** handle_reset: clears board and winner and starts the game with turn 1. */
    method HandleReset() returns (events: seq<Event>)
      requires Valid()
      modifies this
      ensures Valid()
      ensures Step(Abstract(), events) == Reset(old(Abstract()))
    {
      ResetKeepsInv(Abstract());
      ResetBoard();
      gameStarted := true;
      currentTurn := 1;
      events := [GameReset, GameState(Abstract())];
    }
  }
}
