/**
 * The game room of app.py as a value: the shared game record, the events the
 * server sends, and each event handler as a function from the record before
 * to the record after plus the events sent, in order. Class App.Session runs
 * the same handlers over a mutable record and is proved to agree with these
 * functions; the lemmas below state what the handlers guarantee.
 */
module Game {
  import opened Options
  import opened Board

  /** A connection identity (the socket's session id). */
  type Sid = string

  datatype Color = Red | Blue

  /** A roster entry, and also the winner record: name, color and player number. */
  datatype Player = Player(name: string, color: Color, playerNum: int)

  /** The `winner` field once set: the winning player, or the draw marker. */
  datatype Outcome = Won(player: Player) | Draw

  /** The shared game record. */
  datatype State = State(
    board: Grid,
    players: map<Sid, Player>,
    currentTurn: int,
    gameStarted: bool,
    winner: Option<Outcome>,
    playerCount: int)

  /**
   * What the server sends. Error and Joined go to one connection only (`to`);
   * every other event is broadcast to all connections. GameState is the full
   * snapshot of the record.
   */
  datatype Event =
    | Error(to: Sid, message: string)
    | Joined(to: Sid, playerNum: int, playerName: string, color: Color)
    | GameStarted(message: string)
    | GameWon(winner: Player)
    | GameDraw
    | PieceDropped(row: int, col: int, playerNum: int, color: Color)
    | GameReset
    | GameState(snapshot: State)

  /** The record after a handler ran, and the events it sent in order. */
  datatype Step = Step(state: State, events: seq<Event>)

  /** An inbound event, with the connection it came from. */
  datatype Intent =
    | JoinGame(sid: Sid, playerName: Option<string>)
    | DropPiece(sid: Sid, col: Option<int>)
    | Leave(sid: Sid)
    | ResetGame

  const GAME_FULL := "Game is full! Only 2 players allowed."
  const IN_PROGRESS := "Game already in progress!"
  const ALREADY_JOINED := "You already joined!"
  const STARTED := "Game started! Red goes first."
  const NOT_STARTED := "Game has not started yet!"
  const GAME_OVER := "Game is over!"
  const NOT_IN_GAME := "You are not in this game!"
  const NOT_YOUR_TURN := "It's not your turn!"
  const INVALID_COLUMN := "Invalid column!"
  const COLUMN_FULL := "Column is full!"

  /** Player 1 plays red, every other player number blue. */
  function ColorOf(playerNum: int): Color {
    if playerNum == 1 then Red else Blue
  }

  /** The decimal digits of n. */
  function NatToString(n: nat): (s: string)
    ensures |s| >= 1
    ensures forall i :: 0 <= i < |s| ==> '0' <= s[i] <= '9'
    ensures n == 0 ==> s == "0"
    ensures n > 0 ==> s[0] != '0'
    decreases n
  {
    var d := [('0' as int + n % 10) as char];
    if n < 10 then d else NatToString(n / 10) + d
  }

  /** The number a string of decimal digits denotes, most significant digit first. */
  function DigitsValue(s: string): nat
    decreases |s|
  {
    if s == [] then 0
    else
      var d := s[|s| - 1] as int - '0' as int;
      DigitsValue(s[..|s| - 1]) * 10 + (if 0 <= d then d else 0)
  }

  /** NatToString spells n: read back as decimal digits it is n again. */
  lemma {:induction false} NatToStringDenotes(n: nat)
    ensures DigitsValue(NatToString(n)) == n
    decreases n
  {
    var d := [('0' as int + n % 10) as char];
    if n < 10 {
      assert NatToString(n) == d;
      assert d[..0] == [];
    } else {
      var s := NatToString(n);
      assert s == NatToString(n / 10) + d;
      assert s[..|s| - 1] == NatToString(n / 10);
      NatToStringDenotes(n / 10);
    }
  }

  /** The name a player gets when the join payload has none: "Player " and the number in decimal. */
  function DefaultName(playerNum: nat): (name: string)
    ensures |name| > 7 && name[..7] == "Player "
    ensures forall i :: 7 <= i < |name| ==> '0' <= name[i] <= '9'
    ensures name[7] != '0' || name == "Player 0"
    ensures DigitsValue(name[7..]) == playerNum
  {
    NatToStringDenotes(playerNum);
    assert ("Player " + NatToString(playerNum))[7..] == NatToString(playerNum);
    "Player " + NatToString(playerNum)
  }

  ghost predicate ValidPlayer(p: Player) {
    (p.playerNum == 1 || p.playerNum == 2) && p.color == ColorOf(p.playerNum)
  }

  /** What every handler preserves. */
  ghost predicate Inv(s: State) {
    && IsGrid(s.board) && CellsValid(s.board) && Gravity(s.board)
    && s.playerCount == |s.players| && s.playerCount <= 2
    && (s.currentTurn == 1 || s.currentTurn == 2)
    && (forall sid :: sid in s.players ==> ValidPlayer(s.players[sid]))
    && (s.winner.Some? && s.winner.value.Won? ==> ValidPlayer(s.winner.value.player))
  }

  /** The record at process start. */
  function Init(): State {
    State(EmptyGrid(), map[], 1, false, None, 0)
  }

  /** reset_board: empty board, turn 1, not started, no winner; the roster stays. */
  function ResetBoard(s: State): State {
    s.(board := EmptyGrid(), currentTurn := 1, gameStarted := false, winner := None)
  }

  /** reset_game: reset_board and an empty roster. */
  function ResetAll(s: State): State {
    ResetBoard(s).(players := map[], playerCount := 0)
  }

  function Reject(s: State, sid: Sid, message: string): Step {
    Step(s, [Error(sid, message)])
  }

  /** handle_join */
  function Join(s: State, sid: Sid, playerName: Option<string>): (step: Step)
    requires s.playerCount >= 0
    ensures |step.events| >= 1
    ensures step.events[0].Error? <==> step.state == s
    ensures step.events[0].Error? ==> step.events == [Error(sid, step.events[0].message)]
    ensures step.state.board == s.board && step.state.winner == s.winner
  {
    if s.playerCount >= 2 then Reject(s, sid, GAME_FULL)
    else if s.gameStarted then Reject(s, sid, IN_PROGRESS)
    else if sid in s.players then Reject(s, sid, ALREADY_JOINED)
    else Seat(s, sid, if playerName.Some? then playerName.value else DefaultName(s.playerCount + 1))
  }

  /**
   * The accepted part of handle_join: seats the sender under `name` with the
   * next player number, tells the sender, starts the game at two players
   * and broadcasts the snapshot.
   */
  function Seat(s: State, sid: Sid, name: string): (step: Step)
    requires s.playerCount >= 0 && sid !in s.players
    ensures sid in step.state.players && step.state.players[sid].name == name
    ensures step.state.board == s.board && step.state.winner == s.winner
    ensures |step.events| >= 2 && step.events[0].Joined? && step.events[0].to == sid
  {
    var num := s.playerCount + 1;
    var color := ColorOf(num);
    var joined := s.(players := s.players[sid := Player(name, color, num)], playerCount := num);
    if num == 2 then
      var t := joined.(gameStarted := true);
      Step(t, [Joined(sid, num, name, color), GameStarted(STARTED), GameState(t)])
    else
      Step(joined, [Joined(sid, num, name, color), GameState(joined)])
  }

  /** handle_drop */
  function Drop(s: State, sid: Sid, col: Option<int>): (step: Step)
    requires IsGrid(s.board)
    ensures IsGrid(step.state.board)
    ensures |step.events| >= 1
    ensures step.events[0].Error? ==> step.state == s && step.events == [Error(sid, step.events[0].message)]
    ensures step.state.players == s.players && step.state.playerCount == s.playerCount
  {
    if !s.gameStarted then Reject(s, sid, NOT_STARTED)
    else if s.winner.Some? then Reject(s, sid, GAME_OVER)
    else if sid !in s.players then Reject(s, sid, NOT_IN_GAME)
    else if s.players[sid].playerNum != s.currentTurn then Reject(s, sid, NOT_YOUR_TURN)
    else if col.None? || col.value < 0 || col.value >= COLS then Reject(s, sid, INVALID_COLUMN)
    else if DropRow(s.board, col.value).None? then Reject(s, sid, COLUMN_FULL)
    else
      var r := DropRow(s.board, col.value).value;
      PlayPiece(s, s.players[sid], r, col.value)
  }

  /**
   * The accepted part of handle_drop: the player's piece goes into (r, c),
   * then the win check, the full-board check or the turn switch, then the
   * broadcasts.
   */
  function PlayPiece(s: State, player: Player, r: int, c: int): (step: Step)
    requires IsGrid(s.board) && InBounds(r, c)
    ensures step.state.board == Place(s.board, r, c, player.playerNum)
  {
    var placed := s.(board := Place(s.board, r, c, player.playerNum));
    var dropped := PieceDropped(r, c, player.playerNum, player.color);
    if IsWinningMove(placed.board, r, c, player.playerNum) then
      var t := placed.(winner := Some(Won(player)), gameStarted := false);
      Step(t, [GameWon(player), dropped, GameState(t)])
    else if TopRowFull(placed.board) then
      var t := placed.(winner := Some(Draw), gameStarted := false);
      Step(t, [GameDraw, dropped, GameState(t)])
    else
      var t := placed.(currentTurn := if s.currentTurn == 1 then 2 else 1);
      Step(t, [dropped, GameState(t)])
  }

  /** handle_disconnect */
  function Disconnect(s: State, sid: Sid): (step: Step)
    ensures step.state.players.Keys == s.players.Keys - {sid}
    ensures step.events == if sid in s.players then [GameState(step.state)] else []
  {
    if sid in s.players then
      var left := s.(players := s.players - {sid}, playerCount := s.playerCount - 1);
      var t := if left.gameStarted then ResetBoard(left) else left;
      Step(t, [GameState(t)])
    else
      Step(s, [])
  }

  /** handle_reset: any connection may send it; nothing is checked. */
  function Reset(s: State): (step: Step)
    ensures step.state.players == s.players && step.state.gameStarted && step.state.winner == None
    ensures step.events == [GameReset, GameState(step.state)]
  {
    var t := ResetBoard(s).(gameStarted := true, currentTurn := 1);
    Step(t, [GameReset, GameState(t)])
  }

  function Handle(s: State, intent: Intent): Step
    requires IsGrid(s.board) && s.playerCount >= 0
  {
    match intent
    case JoinGame(sid, name) => Join(s, sid, name)
    case DropPiece(sid, col) => Drop(s, sid, col)
    case Leave(sid) => Disconnect(s, sid)
    case ResetGame => Reset(s)
  }

  // ---------------------------------------------------------------------
  // The invariant
  // ---------------------------------------------------------------------

  lemma InitInv()
    ensures Inv(Init())
  {
  }

  lemma ResetBoardKeepsInv(s: State)
    requires Inv(s)
    ensures Inv(ResetBoard(s))
  {
  }

  /** reset_game leaves an empty roster and a fresh board. */
  lemma ResetAllSpec(s: State)
    requires Inv(s)
    ensures Inv(ResetAll(s))
    ensures ResetAll(s).players == map[] && ResetAll(s).playerCount == 0
    ensures ResetAll(s).board == EmptyGrid() && ResetAll(s).winner == None
    ensures !ResetAll(s).gameStarted && ResetAll(s).currentTurn == 1
  {
  }

  lemma JoinKeepsInv(s: State, sid: Sid, playerName: Option<string>)
    requires Inv(s)
    ensures Inv(Join(s, sid, playerName).state)
  {
    if s.playerCount < 2 && !s.gameStarted && sid !in s.players {
      var name := if playerName.Some? then playerName.value else DefaultName(s.playerCount + 1);
      assert Join(s, sid, playerName) == Seat(s, sid, name);
      SeatKeepsInv(s, sid, name);
    }
  }

  lemma SeatKeepsInv(s: State, sid: Sid, name: string)
    requires Inv(s) && s.playerCount < 2 && sid !in s.players
    ensures Inv(Seat(s, sid, name).state)
  {
    var t := Seat(s, sid, name).state;
    assert t.players.Keys == s.players.Keys + {sid};
  }

  lemma DropKeepsInv(s: State, sid: Sid, col: Option<int>)
    requires Inv(s)
    ensures Inv(Drop(s, sid, col).state)
  {
    if LegalDrop(s, sid, col) {
      var player := s.players[sid];
      var c := col.value;
      var r := DropRow(s.board, c).value;
      assert Drop(s, sid, col) == PlayPiece(s, player, r, c);
      PlaceAtDropRow(s.board, c, player.playerNum);
      PlayPieceKeepsInv(s, player, r, c);
    }
  }

  lemma PlayPieceKeepsInv(s: State, player: Player, r: int, c: int)
    requires Inv(s) && InBounds(r, c) && ValidPlayer(player)
    requires Gravity(Place(s.board, r, c, player.playerNum)) && CellsValid(Place(s.board, r, c, player.playerNum))
    ensures Inv(PlayPiece(s, player, r, c).state)
  {
  }

  lemma DisconnectKeepsInv(s: State, sid: Sid)
    requires Inv(s)
    ensures Inv(Disconnect(s, sid).state)
  {
    if sid in s.players {
      var t := Disconnect(s, sid).state;
      assert t.players.Keys == s.players.Keys - {sid};
    }
  }

  lemma ResetKeepsInv(s: State)
    requires Inv(s)
    ensures Inv(Reset(s).state)
  {
  }

  lemma HandleKeepsInv(s: State, intent: Intent)
    requires Inv(s)
    ensures Inv(Handle(s, intent).state)
  {
    match intent
    case JoinGame(sid, name) => JoinKeepsInv(s, sid, name);
    case DropPiece(sid, col) => DropKeepsInv(s, sid, col);
    case Leave(sid) => DisconnectKeepsInv(s, sid);
    case ResetGame => ResetKeepsInv(s);
  }

  /**
   * The record after handling the intents one after the other. Whatever
   * arrives, the board keeps gravity and holds only 1s and 2s, the player
   * count equals the roster size and is at most 2, and the turn is 1 or 2.
   */
  function Run(s: State, intents: seq<Intent>): (t: State)
    requires Inv(s)
    ensures Inv(t)
    decreases |intents|
  {
    if intents == [] then s
    else
      HandleKeepsInv(s, intents[0]);
      Run(Handle(s, intents[0]).state, intents[1..])
  }

  // ---------------------------------------------------------------------
  // handle_drop
  // ---------------------------------------------------------------------

  /** Every guard of handle_drop passes. */
  predicate LegalDrop(s: State, sid: Sid, col: Option<int>)
    requires IsGrid(s.board)
  {
    && s.gameStarted && s.winner.None?
    && sid in s.players && s.players[sid].playerNum == s.currentTurn
    && col.Some? && 0 <= col.value < COLS
    && DropRow(s.board, col.value).Some?
  }

  /**
   * A drop that fails a guard changes nothing and sends one error, to the
   * sender only; the guards are tried in this order.
   */
  lemma DropRejected(s: State, sid: Sid, col: Option<int>)
    requires Inv(s) && !LegalDrop(s, sid, col)
    ensures Drop(s, sid, col).state == s
    ensures var e := Drop(s, sid, col).events;
      && |e| == 1 && e[0].Error? && e[0].to == sid
      && (!s.gameStarted ==> e[0].message == NOT_STARTED)
      && (s.gameStarted && s.winner.Some? ==> e[0].message == GAME_OVER)
      && (s.gameStarted && s.winner.None? && sid !in s.players ==> e[0].message == NOT_IN_GAME)
      && (s.gameStarted && s.winner.None? && sid in s.players && s.players[sid].playerNum != s.currentTurn
          ==> e[0].message == NOT_YOUR_TURN)
      && (s.gameStarted && s.winner.None? && sid in s.players && s.players[sid].playerNum == s.currentTurn ==>
            && ((col.None? || col.value < 0 || col.value >= COLS) ==> e[0].message == INVALID_COLUMN)
            && (col.Some? && 0 <= col.value < COLS ==> e[0].message == COLUMN_FULL))
  {
  }

  /** A drop changes the record exactly when it passes every guard, and then sends no error. */
  lemma DropChangesIffLegal(s: State, sid: Sid, col: Option<int>)
    requires Inv(s)
    ensures Drop(s, sid, col).state != s <==> LegalDrop(s, sid, col)
    ensures LegalDrop(s, sid, col) ==> forall e :: e in Drop(s, sid, col).events ==> !e.Error?
  {
    if LegalDrop(s, sid, col) {
      var player := s.players[sid];
      var c := col.value;
      var r := DropRow(s.board, c).value;
      assert Drop(s, sid, col) == PlayPiece(s, player, r, c);
      var t := PlayPiece(s, player, r, c).state;
      assert t.board == Place(s.board, r, c, player.playerNum);
      PlaceAtDropRow(s.board, c, player.playerNum);
      assert t.board[r][c] != s.board[r][c];
    }
  }

  /**
   * A legal drop writes the player's number into exactly one cell, the
   * lowest empty cell of the column, keeps the roster, and then:
   * a win records the player as winner and stops the game with the turn
   * unchanged; otherwise a completely filled board records a draw and stops
   * the game; otherwise the turn passes to the other player. The events are
   * the terminal event if any, then piece_dropped, then the snapshot.
   */
  lemma DropAccepted(s: State, sid: Sid, col: Option<int>)
    requires Inv(s) && LegalDrop(s, sid, col)
    ensures var player := s.players[sid];
      var c := col.value;
      var r := DropRow(s.board, c).value;
      var step := Drop(s, sid, col);
      var t := step.state;
      var dropped := PieceDropped(r, c, player.playerNum, player.color);
      && s.board[r][c] == EMPTY && t.board[r][c] == player.playerNum
      && (player.playerNum == 1 || player.playerNum == 2)
      && (forall k :: 0 <= k < r ==> s.board[k][c] == EMPTY)
      && (forall k :: r < k < ROWS ==> s.board[k][c] != EMPTY)
      && (forall i, j :: InBounds(i, j) && (i, j) != (r, c) ==> t.board[i][j] == s.board[i][j])
      && t.players == s.players && t.playerCount == s.playerCount
      && (IsWinningMove(t.board, r, c, player.playerNum) ==>
            && t.winner == Some(Won(player)) && !t.gameStarted && t.currentTurn == s.currentTurn
            && step.events == [GameWon(player), dropped, GameState(t)])
      && (!IsWinningMove(t.board, r, c, player.playerNum) && AllOccupied(t.board) ==>
            && t.winner == Some(Draw) && !t.gameStarted && t.currentTurn == s.currentTurn
            && step.events == [GameDraw, dropped, GameState(t)])
      && (!IsWinningMove(t.board, r, c, player.playerNum) && !AllOccupied(t.board) ==>
            && t.winner == None && t.gameStarted && t.currentTurn == 3 - s.currentTurn
            && step.events == [dropped, GameState(t)])
  {
    var player := s.players[sid];
    var c := col.value;
    var r := DropRow(s.board, c).value;
    assert Drop(s, sid, col) == PlayPiece(s, player, r, c);
    var t := PlayPiece(s, player, r, c).state;
    assert t.board == Place(s.board, r, c, player.playerNum);
    PlaceAtDropRow(s.board, c, player.playerNum);
    DropRowOnTopOfColumn(s.board, c);
    TopRowFullIffAllOccupied(t.board);
  }

  // ---------------------------------------------------------------------
  // handle_join
  // ---------------------------------------------------------------------

  /** A join that fails a guard changes nothing and sends one error, to the sender only. */
  lemma JoinRejected(s: State, sid: Sid, playerName: Option<string>)
    requires Inv(s) && (s.playerCount >= 2 || s.gameStarted || sid in s.players)
    ensures Join(s, sid, playerName).state == s
    ensures Join(s, sid, playerName).events == [Error(sid,
      if s.playerCount >= 2 then GAME_FULL
      else if s.gameStarted then IN_PROGRESS
      else ALREADY_JOINED)]
  {
  }

  /**
   * A join that passes the guards adds exactly the sender to the roster,
   * with the default name when none was given, the new roster size as its
   * player number and red exactly for player 1; it starts the game exactly
   * when the roster reaches two. The sender is told its slot privately, then
   * game_started is broadcast if the game starts, then the snapshot.
   */
  lemma JoinAccepted(s: State, sid: Sid, playerName: Option<string>)
    requires Inv(s) && s.playerCount < 2 && !s.gameStarted && sid !in s.players
    ensures var step := Join(s, sid, playerName);
      var t := step.state;
      var me := t.players[sid];
      && t.players.Keys == s.players.Keys + {sid}
      && (forall o :: o in s.players ==> t.players[o] == s.players[o])
      && t.playerCount == |t.players| == s.playerCount + 1
      && me.playerNum == |t.players|
      && (me.color == Red <==> me.playerNum == 1)
      && me.name == (if playerName.Some? then playerName.value else DefaultName(me.playerNum))
      && (t.gameStarted <==> |t.players| == 2)
      && t.board == s.board && t.currentTurn == s.currentTurn && t.winner == s.winner
      && step.events == [Joined(sid, me.playerNum, me.name, me.color)]
           + (if t.gameStarted then [GameStarted(STARTED)] else [])
           + [GameState(t)]
  {
    var name := if playerName.Some? then playerName.value else DefaultName(s.playerCount + 1);
    assert Join(s, sid, playerName) == Seat(s, sid, name);
    SeatSpec(s, sid, name);
  }

  /** Seat adds exactly the sender, numbered by the new roster size, and starts the game at two. */
  lemma SeatSpec(s: State, sid: Sid, name: string)
    requires Inv(s) && s.playerCount < 2 && sid !in s.players
    ensures var step := Seat(s, sid, name);
      var t := step.state;
      var me := t.players[sid];
      && t.players.Keys == s.players.Keys + {sid}
      && (forall o :: o in s.players ==> t.players[o] == s.players[o])
      && t.playerCount == |t.players| == s.playerCount + 1
      && me == Player(name, ColorOf(t.playerCount), t.playerCount)
      && (t.gameStarted <==> (s.gameStarted || |t.players| == 2))
      && t.board == s.board && t.currentTurn == s.currentTurn && t.winner == s.winner
      && step.events == [Joined(sid, me.playerNum, me.name, me.color)]
           + (if |t.players| == 2 then [GameStarted(STARTED)] else [])
           + [GameState(t)]
  {
    var num := s.playerCount + 1;
    var me := Player(name, ColorOf(num), num);
    var joined := s.(players := s.players[sid := me], playerCount := num);
    assert joined.players.Keys == s.players.Keys + {sid};
    assert |joined.players| == num;
    if num == 2 {
      var t := joined.(gameStarted := true);
      assert Seat(s, sid, name) == Step(t, [Joined(sid, num, name, me.color), GameStarted(STARTED), GameState(t)]);
    } else {
      assert Seat(s, sid, name) == Step(joined, [Joined(sid, num, name, me.color), GameState(joined)]);
    }
  }


  // ---------------------------------------------------------------------
  // handle_disconnect and handle_reset
  // ---------------------------------------------------------------------

  /**
   * A disconnect of a player removes exactly that roster entry; if the game
   * was running it also clears the board and the winner, sets turn 1 and
   * stops the game, and otherwise leaves board, winner, turn and the started
   * flag as they were. A disconnect of a connection not in the roster
   * changes nothing and sends nothing.
   */
  lemma DisconnectSpec(s: State, sid: Sid)
    requires Inv(s)
    ensures var step := Disconnect(s, sid);
      var t := step.state;
      && (sid !in s.players ==> t == s && step.events == [])
      && (sid in s.players ==>
            && t.players.Keys == s.players.Keys - {sid}
            && (forall o :: o in t.players ==> t.players[o] == s.players[o])
            && t.playerCount == s.playerCount - 1
            && (s.gameStarted ==>
                  t.board == EmptyGrid() && t.winner == None && t.currentTurn == 1 && !t.gameStarted)
            && (!s.gameStarted ==>
                  t.board == s.board && t.winner == s.winner && t.currentTurn == s.currentTurn && !t.gameStarted)
            && step.events == [GameState(t)])
  {
    DisconnectKeepsInv(s, sid);
  }

  /**
   * handle_reset clears board and winner and (re)starts the game with turn 1,
   * whoever sent it and however many players there are; the roster stays.
   */
  lemma ResetSpec(s: State)
    requires Inv(s)
    ensures var step := Reset(s);
      var t := step.state;
      && t.board == EmptyGrid() && t.winner == None && t.gameStarted && t.currentTurn == 1
      && t.players == s.players && t.playerCount == s.playerCount
      && step.events == [GameReset, GameState(t)]
  {
  }

  // ---------------------------------------------------------------------
  // Consequences over several events
  // ---------------------------------------------------------------------

  /**
   * The turn alternates: right after a player's accepted drop, any further
   * drop by that same connection is refused and changes nothing, with
   * "It's not your turn!" while the game goes on and "Game has not started
   * yet!" once the drop has ended it.
   */
  lemma NoTwoDropsInARow(s: State, sid: Sid, col: Option<int>, col2: Option<int>)
    requires Inv(s) && LegalDrop(s, sid, col)
    ensures var t := Drop(s, sid, col).state;
      && Inv(t) && Drop(t, sid, col2).state == t
      && (t.winner.None? ==> Drop(t, sid, col2).events == [Error(sid, NOT_YOUR_TURN)])
      && (t.winner.Some? ==> Drop(t, sid, col2).events == [Error(sid, NOT_STARTED)])
  {
    DropAccepted(s, sid, col);
    DropKeepsInv(s, sid, col);
    var t := Drop(s, sid, col).state;
    DropRejected(t, sid, col2);
  }

  /**
   * Two joins into a fresh room: the first connection becomes player 1 and
   * red, the second player 2 and blue, and the game starts with turn 1.
   */
  lemma TwoJoinsStartTheGame(a: Sid, b: Sid)
    requires a != b
    ensures var first := Join(Init(), a, None);
      var second := Join(first.state, b, None);
      && first.events == [Joined(a, 1, "Player 1", Red), GameState(first.state)]
      && second.events[0] == Joined(b, 2, "Player 2", Blue)
      && second.events[1] == GameStarted(STARTED)
      && second.state.gameStarted && second.state.currentTurn == 1
      && second.state.playerCount == 2
  {
    assert NatToString(1) == "1" && NatToString(2) == "2";
    assert DefaultName(1) == "Player 1" && DefaultName(2) == "Player 2";
  }

  /**
   * A disconnect while the game is finished keeps the winner; when someone
   * joins again the game counts as started with that stale winner, so every
   * drop is refused with "Game is over!" until a reset.
   */
  lemma StaleWinnerAfterRejoin(s: State, leaver: Sid, joiner: Sid, name: Option<string>, sid: Sid, col: Option<int>)
    requires Inv(s) && s.winner.Some? && !s.gameStarted && s.playerCount == 2
    requires leaver in s.players && joiner !in s.players - {leaver}
    ensures var t := Join(Disconnect(s, leaver).state, joiner, name).state;
      && Inv(t) && t.gameStarted && t.winner == s.winner && t.board == s.board
      && Drop(t, sid, col) == Step(t, [Error(sid, GAME_OVER)])
  {
    DisconnectSpec(s, leaver);
    DisconnectKeepsInv(s, leaver);
    var left := Disconnect(s, leaver).state;
    JoinAccepted(left, joiner, name);
    JoinKeepsInv(left, joiner, name);
  }

  /**
   * Player numbers are not always distinct. Player numbers come from the
   * roster size, not from the free slot: when player 1 leaves a running
   * game and a newcomer joins, both players are number 2, the game is
   * started with turn 1, and no drop by anyone is ever accepted: a reset
   * keeps the roster and sets turn 1 again, so it does not help either.
   */
  lemma DuplicatePlayerNumbers(s: State, one: Sid, two: Sid, newcomer: Sid, name: Option<string>)
    requires Inv(s) && s.gameStarted && one != two && s.players.Keys == {one, two}
    requires s.players[one].playerNum == 1 && s.players[two].playerNum == 2
    requires newcomer != two
    ensures var t := Join(Disconnect(s, one).state, newcomer, name).state;
      && Inv(t) && t.players.Keys == {two, newcomer}
      && t.players[two].playerNum == 2 && t.players[newcomer].playerNum == 2
      && t.gameStarted && t.currentTurn == 1
      && (forall sid, col :: Drop(t, sid, col).state == t)
      && var u := Reset(t).state;
         forall sid, col :: Drop(u, sid, col).state == u
  {
    DisconnectSpec(s, one);
    DisconnectKeepsInv(s, one);
    var left := Disconnect(s, one).state;
    assert left.players.Keys == {two};
    JoinAccepted(left, newcomer, name);
    JoinKeepsInv(left, newcomer, name);
    var t := Join(left, newcomer, name).state;
    forall sid, col
      ensures Drop(t, sid, col).state == t
    {
      DropRejected(t, sid, col);
    }
    ResetSpec(t);
    ResetKeepsInv(t);
    var u := Reset(t).state;
    forall sid, col
      ensures Drop(u, sid, col).state == u
    {
      DropRejected(u, sid, col);
    }
  }
}
