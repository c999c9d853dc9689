/**
 * The game loop: each pass evaluates the board (a win before a tie), chooses the message,
 * then consumes one key. While selecting, arrows move the cursor and the confirm key places
 * the current player's marker; once the game is won or tied, any key ends the loop.
 */
module Controller {
  import opened Options
  import opened Players
  import opened Layout
  import opened Fields
  import opened Navigation

  /** The game phase: selecting (1), won (2) or tied (3). */
  datatype Phase = Selecting | Won | Tied

  /** The player to move after p. */
  function Opponent(p: Player): (q: Player)
    requires p != Empty
    ensures q != Empty && q != p
  {
    match p
    case Cross => Nought
    case Nought => Cross
  }

  /** The message naming the player to move. */
  function MoveMessage(p: Player): (s: string)
    requires p != Empty
    ensures Name(p) <= s && s != Name(p)
  {
    if p == Cross then "Cross' move" else "Nought's move"
  }

  /** The state of one game: the board, the cursor, the phase, the player to move and the two messages. */
  datatype GameState = GameState(
    field: FieldState, cursor: (int, int), phase: Phase, player: Player, message: string, subMessage: string)

  /** A state the loop can be in: a consistent board that is never tied, a cursor on it, a player to move. */
  predicate Playable(g: GameState) {
    Consistent(g.field) && !g.field.tie && InBounds(g.cursor) && g.player != Empty
  }

  /** The state at game start: empty board, cursor at (1, 1), Cross to move. */
  const Start: GameState := GameState(InitialField, (1, 1), Selecting, Cross, "", "")

  /** The loop starts playable: an empty board without a line, the cursor on the board, Cross to move. */
  lemma StartPlayable()
    ensures Playable(Start) && Start.phase == Selecting && Start.player == Cross && Start.cursor == (1, 1)
    ensures forall i :: 0 <= i < 9 ==> Start.field.board[i] == Empty
    ensures !HasLine(Start.field.board) && !Start.field.won
  {
  }

  /** The first half of a pass: a recorded or completed line wins, else a full board ties, else the game goes on. */
  function Evaluated(g: GameState): (r: GameState)
    requires Playable(g) && g.phase == Selecting
    ensures Playable(r) && r.cursor == g.cursor && r.player == g.player && r.subMessage == g.subMessage
  {
    var (f1, won) := Scan(g.field);
    if won then g.(field := f1, phase := Won, message := Name(f1.whoWon) + " won!")
    else if IsFull(f1.board) then g.(field := f1, phase := Tied, message := "Tie!")
    else g.(field := f1, message := MoveMessage(g.player))
  }

  /** The second half of a pass: act on the key while selecting, otherwise end the loop on any key. */
  function AfterKey(g: GameState, key: Key): (r: (GameState, bool))
    requires Playable(g)
    ensures Playable(r.0) && r.0.phase == g.phase && r.0.message == g.message
    ensures r.1 <==> g.phase != Selecting
  {
    if g.phase != Selecting then
      (g.(subMessage := "Press any key to exit."), true)
    else
      match key
      case Confirm =>
        var (f2, ok) := Place(g.field, g.cursor, g.player);
        if !ok then (g.(field := f2, subMessage := "Field already selected"), false)
        else (g.(field := f2, subMessage := "", player := Opponent(g.player)), false)
      case Other => (g, false)
      case _ => (g.(cursor := MoveSelection(g.cursor, key)), false)
  }

  /** One pass of the loop on one key; the flag says whether the loop ends. */
  function Advance(g: GameState, key: Key): (r: (GameState, bool))
    requires Playable(g) && g.phase == Selecting
    ensures Playable(r.0)
    ensures r.1 <==> r.0.phase != Selecting
  {
    AfterKey(Evaluated(g), key)
  }

  /** The loop run on a sequence of keys, until it ends or the keys run out. */
  function Play(g: GameState, keys: seq<Key>): (r: (GameState, bool))
    requires Playable(g) && g.phase == Selecting
    ensures Playable(r.0)
    ensures r.1 <==> r.0.phase != Selecting
    decreases |keys|
  {
    if keys == [] then (g, false)
    else
      var (g1, exit) := Advance(g, keys[0]);
      if exit then (g1, true) else Play(g1, keys[1..])
  }

  /** The loop ends on a pass exactly when the board has a completed line or no empty cell. */
  lemma EndsOnLineOrFullBoard(g: GameState, key: Key)
    requires Playable(g) && g.phase == Selecting
    ensures Advance(g, key).1 <==> HasLine(g.field.board) || IsFull(g.field.board)
  {
  }

  /** A completed line is reported as a win, with its player and line, even when the board is also full. */
  lemma WinBeforeTie(g: GameState, key: Key)
    requires Playable(g) && g.phase == Selecting && HasLine(g.field.board)
    ensures var (r, exit) := Advance(g, key);
      exit && r.phase == Won && Winner(g.field.board) == Some((r.field.whoWon, r.field.wonCombination)) &&
      r.message == Name(r.field.whoWon) + " won!" && r.subMessage == "Press any key to exit."
  {
  }

  /** A full board without a completed line is a tie. */
  lemma TieWhenFull(g: GameState, key: Key)
    requires Playable(g) && g.phase == Selecting && !HasLine(g.field.board) && IsFull(g.field.board)
    ensures var (r, exit) := Advance(g, key);
      exit && r.phase == Tied && r.message == "Tie!" && r.field == g.field
  {
  }

  /** While selecting, an arrow key changes only the cursor, by one wrapped step. */
  lemma ArrowMovesCursorOnly(g: GameState, key: Key)
    requires Playable(g) && g.phase == Selecting && !HasLine(g.field.board) && !IsFull(g.field.board)
    requires key.IsArrow()
    ensures Advance(g, key) == (g.(cursor := MoveSelection(g.cursor, key), message := MoveMessage(g.player)), false)
  {
  }

  /** While selecting, a key that is neither an arrow nor confirm changes nothing. */
  lemma OtherKeyIgnored(g: GameState)
    requires Playable(g) && g.phase == Selecting && !HasLine(g.field.board) && !IsFull(g.field.board)
    ensures Advance(g, Other) == (g.(message := MoveMessage(g.player)), false)
  {
  }

  /** Confirm on an occupied cell keeps the board and the turn and says so. */
  lemma OccupiedCellRefused(g: GameState)
    requires Playable(g) && g.phase == Selecting && !HasLine(g.field.board) && !IsFull(g.field.board)
    requires g.field.board[Index(g.cursor)] != Empty
    ensures Advance(g, Confirm) ==
      (g.(message := MoveMessage(g.player), subMessage := "Field already selected"), false)
  {
  }

  /** Confirm on an empty cell writes the player there, clears the sub-message and passes the turn. */
  lemma EmptyCellTaken(g: GameState)
    requires Playable(g) && g.phase == Selecting && !HasLine(g.field.board)
    requires g.field.board[Index(g.cursor)] == Empty
    ensures Advance(g, Confirm) ==
      (g.(field := g.field.(board := g.field.board[Index(g.cursor) := g.player]),
          message := MoveMessage(g.player), subMessage := "", player := Opponent(g.player)), false)
  {
  }

  /** The turn passes exactly on a successful placement, and always to the opponent. */
  lemma TurnPassesOnPlacement(g: GameState, key: Key)
    requires Playable(g) && g.phase == Selecting
    ensures var r := Advance(g, key).0;
      (r.player != g.player <==>
        key == Confirm && !HasLine(g.field.board) && g.field.board[Index(g.cursor)] == Empty) &&
      (r.player == g.player || r.player == Opponent(g.player))
  {
  }

  /** A selecting state with nothing won yet. */
  function Ongoing(board: seq<Player>, cursor: (int, int), player: Player, message: string, subMessage: string): GameState
  {
    GameState(FieldState(board, false, false, Empty, (0, 0, 0)), cursor, Selecting, player, message, subMessage)
  }

  /** On a board without a completed line and with an empty cell, the loop first moves the cursor on an arrow key. */
  lemma ArrowStep(board: seq<Player>, cursor: (int, int), player: Player, message: string, subMessage: string,
                  key: Key, rest: seq<Key>, next: (int, int))
    requires |board| == 9 && Winner(board) == None && !IsFull(board)
    requires InBounds(cursor) && player != Empty && key.IsArrow() && next == MoveSelection(cursor, key)
    ensures Play(Ongoing(board, cursor, player, message, subMessage), [key] + rest) ==
            Play(Ongoing(board, next, player, MoveMessage(player), subMessage), rest)
  {
    WinnerFirstLine(board);
    ArrowMovesCursorOnly(Ongoing(board, cursor, player, message, subMessage), key);
    assert ([key] + rest)[1..] == rest;
  }

  /** On a board without a completed line, the loop first places the player on the empty cell under the cursor. */
  lemma PlaceStep(board: seq<Player>, cursor: (int, int), player: Player, message: string, subMessage: string,
                  rest: seq<Key>, next: seq<Player>)
    requires |board| == 9 && Winner(board) == None
    requires InBounds(cursor) && player != Empty && board[Index(cursor)] == Empty
    requires next == board[Index(cursor) := player]
    ensures Play(Ongoing(board, cursor, player, message, subMessage), [Confirm] + rest) ==
            Play(Ongoing(next, cursor, Opponent(player), MoveMessage(player), ""), rest)
  {
    WinnerFirstLine(board);
    EmptyCellTaken(Ongoing(board, cursor, player, message, subMessage));
    assert ([Confirm] + rest)[1..] == rest;
  }

  /** A pass never erases or overwrites a marker already on the board. */
  lemma AdvanceKeepsMarks(g: GameState, key: Key)
    requires Playable(g) && g.phase == Selecting
    ensures forall i :: 0 <= i < 9 && g.field.board[i] != Empty ==> Advance(g, key).0.field.board[i] == g.field.board[i]
  {
    PlaceWritesOneCell(Evaluated(g).field, g.cursor, g.player);
  }

  /** Over any key sequence, a marker once placed stays where it is. */
  lemma {:induction false} PlayKeepsMarks(g: GameState, keys: seq<Key>)
    requires Playable(g) && g.phase == Selecting
    ensures forall i :: 0 <= i < 9 && g.field.board[i] != Empty ==> Play(g, keys).0.field.board[i] == g.field.board[i]
    decreases |keys|
  {
    if keys != [] {
      AdvanceKeepsMarks(g, keys[0]);
      var (g1, exit) := Advance(g, keys[0]);
      if !exit {
        PlayKeepsMarks(g1, keys[1..]);
      }
    }
  }

  /** Running two key sequences one after the other is running their concatenation, unless the first ends the loop. */
  lemma {:induction false} PlayConcat(g: GameState, a: seq<Key>, b: seq<Key>)
    requires Playable(g) && g.phase == Selecting
    ensures Play(g, a + b) == if Play(g, a).1 then Play(g, a) else Play(Play(g, a).0, b)
    decreases |a|
  {
    if a == [] {
      assert a + b == b;
    } else {
      assert (a + b)[0] == a[0] && (a + b)[1..] == a[1..] + b;
      var (g1, exit) := Advance(g, a[0]);
      if !exit {
        PlayConcat(g1, a[1..], b);
      }
    }
  }

  /** The game loop's state, mutated in place by each pass. */
  class Game {
    const field: Field
    var cursor: (int, int)
    var phase: Phase
    var player: Player
    var message: string
    var subMessage: string
    /** The board text last handed to the renderer. */
    var fieldText: string

    ghost function State(): GameState
      reads this, field, field.cells
    {
      GameState(field.State(), cursor, phase, player, message, subMessage)
    }

    ghost predicate Valid()
      reads this, field, field.cells
    {
      field.Valid() && Playable(State())
    }

    constructor ()
      ensures Valid() && fresh(field) && fresh(field.cells)
      ensures State() == Start && fieldText == ""
    {
      field := new Field();
      cursor := (1, 1);
      phase := Selecting;
      player := Cross;
      message, subMessage, fieldText := "", "", "";
    }

    /** One pass of the loop, on one key; returns whether the loop ends. */
    method Step(key: Key) returns (exit: bool)
      requires Valid() && phase == Selecting
      modifies this, field, field.cells
      ensures Valid()
      ensures (State(), exit) == Advance(old(State()), key)
      ensures fieldText ==
        if exit then Render(old(field.State().board), None)
        else if key.IsArrow() then Render(old(field.State().board), Some(Index(cursor)))
        else Render(old(field.State().board), Some(Index(old(cursor))))
    {
      Evaluate();
      DrawField();
      exit := HandleKey(key);
    }

    /** Decide the phase and the message: a win first, then a tie, else the player to move. */
    method Evaluate()
      requires Valid() && phase == Selecting
      modifies this, field
      ensures Valid()
      ensures State() == Evaluated(old(State()))
      ensures fieldText == old(fieldText)
    {
      var won := field.CheckWon();
      if won {
        message := Name(field.WhoWon()) + " won!";
        phase := Won;
      } else {
        var tie := field.CheckTie();
        if tie {
          message := "Tie!";
          phase := Tied;
        } else {
          message := MoveMessage(player);
        }
      }
    }

    /** Hand over the board text, with the cursor highlighted while selecting. */
    method DrawField()
      requires Valid()
      modifies this`fieldText
      ensures fieldText == Render(field.State().board, if phase == Selecting then Some(Index(cursor)) else None)
    {
      if phase != Selecting {
        fieldText := field.MakeField(None);
      } else {
        fieldText := field.MakeField(Some(cursor));
      }
    }

    /** Act on the key while selecting; otherwise show the exit prompt and end the loop. */
    method HandleKey(key: Key) returns (exit: bool)
      requires Valid()
      modifies this, field, field.cells
      ensures Valid()
      ensures (State(), exit) == AfterKey(old(State()), key)
      ensures fieldText == if phase == Selecting && key.IsArrow() then Render(field.State().board, Some(Index(cursor))) else old(fieldText)
    {
      if phase == Selecting {
        match key {
          case Confirm => PlaceMarker();
          case Other =>
          case _ => MoveCursor(key);
        }
        exit := false;
      } else {
        subMessage := "Press any key to exit.";
        exit := true;
      }
    }

    /** Place the current player at the cursor; on success clear the sub-message and pass the turn. */
    method PlaceMarker()
      requires Valid() && phase == Selecting
      modifies this, field, field.cells
      ensures Valid()
      ensures State() == AfterKey(old(State()), Confirm).0
      ensures fieldText == old(fieldText)
    {
      var ok := field.SetPlayer(cursor, player);
      if !ok {
        subMessage := "Field already selected";
      } else {
        subMessage := "";
        player := Opponent(player);
      }
    }

    /** Move the cursor one step along the arrow and redraw the board with the new cursor. */
    method MoveCursor(key: Key)
      requires Valid() && phase == Selecting && key.IsArrow()
      modifies this
      ensures Valid()
      ensures State() == AfterKey(old(State()), key).0
      ensures fieldText == Render(field.State().board, Some(Index(cursor)))
    {
      cursor := MoveSelection(cursor, key);
      fieldText := field.MakeField(Some(cursor));
    }

    /** The loop over a sequence of keys, until a pass ends it or the keys run out. */
    method Run(keys: seq<Key>) returns (exited: bool)
      requires Valid() && phase == Selecting
      modifies this, field, field.cells
      ensures Valid()
      ensures (State(), exited) == Play(old(State()), keys)
    {
      exited := false;
      var n := 0;
      while n < |keys| && !exited
        invariant Valid() && n <= |keys|
        invariant !exited ==> phase == Selecting && Play(State(), keys[n..]) == Play(old(State()), keys)
        invariant exited ==> (State(), true) == Play(old(State()), keys)
        decreases |keys| - n
      {
        ghost var before := State();
        assert keys[n..][0] == keys[n] && keys[n..][1..] == keys[n + 1..];
        exited := Step(keys[n]);
        n := n + 1;
      }
      if !exited {
        assert keys[n..] == [];
      }
    }
  }
}
