/**
 * The 3x3 board: nine cells addressed by (row, col) in [1,3]x[1,3], the fixed table of
 * winning lines, and the cached win state. The pure functions on FieldState say what
 * each operation of the Field object does; the class does it in place.
 */
module Fields {
  import opened Options
  import opened Players
  import opened Layout

  /** A linear cell index. */
  type CellIndex = i: int | 0 <= i < 9

  /** Three cell indices that form a line. */
  type Combination = (CellIndex, CellIndex, CellIndex)

  /** The winning lines, in scan order: rows top to bottom, columns left to right, then the diagonals. */
  const Combinations: seq<Combination> :=
    [(0, 1, 2), (3, 4, 5), (6, 7, 8),
     (0, 3, 6), (1, 4, 7), (2, 5, 8),
     (0, 4, 8), (2, 4, 6)]

  /** The table holds the three rows top to bottom, then the three columns left to right, then the two diagonals. */
  lemma CombinationsTable()
    ensures |Combinations| == 8
    ensures forall t :: 0 <= t < 3 ==> Combinations[t] == (3 * t, 3 * t + 1, 3 * t + 2)
    ensures forall t :: 3 <= t < 6 ==> Combinations[t] == (t - 3, t, t + 3)
    ensures Combinations[6] == (0, 4, 8) && Combinations[7] == (2, 4, 6)
  {
  }

  /** A (row, col) position is on the board. */
  predicate InBounds(pos: (int, int)) {
    0 < pos.0 < 4 && 0 < pos.1 < 4
  }

  /** The linear index of a position, row-major. */
  function Index(pos: (int, int)): (i: CellIndex)
    requires InBounds(pos)
  {
    (pos.0 - 1) * 3 + (pos.1 - 1)
  }

  /** Index is a bijection from the positions on the board onto the nine cell indices. */
  lemma IndexBijective(p: (int, int), q: (int, int), i: CellIndex)
    requires InBounds(p) && InBounds(q)
    ensures Index(p) == Index(q) ==> p == q
    ensures InBounds((i / 3 + 1, i % 3 + 1)) && Index((i / 3 + 1, i % 3 + 1)) == i
  {
  }

  /** Cell index of an optional position, without a bounds check. */
  function SelectedIndex(select: Option<(int, int)>): (r: Option<int>)
    ensures select.Some? && InBounds(select.value) ==> r == Some(Index(select.value))
    ensures select.None? ==> r.None?
  {
    match select
    case Some(v) => Some((v.0 - 1) * 3 + (v.1 - 1))
    case None => None
  }

  /** The player holding all three cells of c, or Empty when c is not completed by one player. */
  function LineOwner(board: seq<Player>, c: Combination): (p: Player)
    requires |board| == 9
    ensures p != Empty ==> board[c.0] == p && board[c.1] == p && board[c.2] == p
  {
    if board[c.0] == Cross && board[c.1] == Cross && board[c.2] == Cross then Cross
    else if board[c.0] == Nought && board[c.1] == Nought && board[c.2] == Nought then Nought
    else Empty
  }

  /** A line has a non-empty owner exactly when all three of its cells hold that player. */
  lemma LineOwnerAllThree(board: seq<Player>, c: Combination, p: Player)
    requires |board| == 9 && p != Empty
    ensures LineOwner(board, c) == p <==> board[c.0] == p && board[c.1] == p && board[c.2] == p
  {
  }

  /** Some winning line is completed by a single player. */
  predicate HasLine(board: seq<Player>)
    requires |board| == 9
  {
    exists t :: 0 <= t < |Combinations| && LineOwner(board, Combinations[t]) != Empty
  }

  /** The first completed line at table position from or later. */
  function FirstLine(board: seq<Player>, from: nat): (r: Option<nat>)
    requires |board| == 9 && from <= |Combinations|
    ensures r.Some? ==> from <= r.value < |Combinations| && LineOwner(board, Combinations[r.value]) != Empty
    ensures forall t :: from <= t < (if r.Some? then r.value else |Combinations|) ==>
              LineOwner(board, Combinations[t]) == Empty
    decreases |Combinations| - from
  {
    if from == |Combinations| then None
    else if LineOwner(board, Combinations[from]) != Empty then Some(from)
    else FirstLine(board, from + 1)
  }

  /** The winner of a board and its line: the first completed line in table order. */
  function Winner(board: seq<Player>): (w: Option<(Player, Combination)>)
    requires |board| == 9
    ensures w.Some? ==>
      w.value.0 != Empty && w.value.1 in Combinations &&
      board[w.value.1.0] == w.value.0 && board[w.value.1.1] == w.value.0 && board[w.value.1.2] == w.value.0
  {
    match FirstLine(board, 0)
    case None => None
    case Some(t) => Some((LineOwner(board, Combinations[t]), Combinations[t]))
  }

  /** A board has a winner exactly when some line is complete; the winner's line is the first in table order. */
  lemma WinnerFirstLine(board: seq<Player>)
    requires |board| == 9
    ensures Winner(board).Some? <==> HasLine(board)
    ensures Winner(board).Some? ==>
      exists t :: 0 <= t < |Combinations| && Winner(board).value.1 == Combinations[t] &&
        Winner(board).value.0 == LineOwner(board, Combinations[t]) && Winner(board).value.0 != Empty &&
        forall u :: 0 <= u < t ==> LineOwner(board, Combinations[u]) == Empty
  {
    var w := FirstLine(board, 0);
    if w.Some? {
      assert HasLine(board);
    }
  }

  /** When the top row and the left column are both complete, the row is reported: rows come first in the table. */
  lemma RowBeatsColumn(board: seq<Player>)
    requires |board| == 9
    requires board[0] == Cross && board[1] == Cross && board[2] == Cross
    requires board[3] == Cross && board[6] == Cross
    ensures Winner(board) == Some((Cross, (0, 1, 2)))
  {
  }

  /** The board with its cached win state. */
  datatype FieldState = FieldState(board: seq<Player>, won: bool, tie: bool, whoWon: Player, wonCombination: Combination)

  /** The board at game start: nine empty cells, nothing won. */
  const EmptyBoard: seq<Player> := [Empty, Empty, Empty, Empty, Empty, Empty, Empty, Empty, Empty]
  const InitialField: FieldState := FieldState(EmptyBoard, false, false, Empty, (0, 0, 0))

  /** The cached win state is either unset or the board's winner. */
  predicate Consistent(s: FieldState) {
    |s.board| == 9 &&
    (s.won ==> Winner(s.board) == Some((s.whoWon, s.wonCombination))) &&
    (!s.won ==> s.whoWon == Empty && s.wonCombination == (0, 0, 0))
  }

  /** check_won: keep a recorded win, otherwise record the first completed line. */
  function Scan(s: FieldState): (r: (FieldState, bool))
    requires Consistent(s)
    ensures Consistent(r.0) && r.0.board == s.board && r.0.tie == s.tie && r.1 == r.0.won
  {
    if s.won then (s, true)
    else if s.tie then (s, false)
    else match Winner(s.board)
      case None => (s, false)
      case Some(w) => (s.(won := true, whoWon := w.0, wonCombination := w.1), true)
  }

  /** set_player: refresh the win state, then write the player into an empty cell of an unwon board. */
  function Place(s: FieldState, pos: (int, int), player: Player): (r: (FieldState, bool))
    requires Consistent(s) && InBounds(pos)
    ensures Consistent(r.0) && r.0.tie == s.tie
  {
    var s1 := Scan(s).0;
    if s1.board[Index(pos)] != Empty || s1.won then (s1, false)
    else (s1.(board := s1.board[Index(pos) := player]), true)
  }

  /** check_tie: no cell is Empty. */
  predicate IsFull(board: seq<Player>): (full: bool)
    ensures full <==> forall i :: 0 <= i < |board| ==> board[i] != Empty
  {
    Empty !in board
  }

  /** Without a recorded tie, a scan reports a win exactly when some line is complete, and records the first. */
  lemma ScanReportsLines(s: FieldState)
    requires Consistent(s) && !s.tie
    ensures Scan(s).1 <==> HasLine(s.board)
    ensures Scan(s).1 ==> Some((Scan(s).0.whoWon, Scan(s).0.wonCombination)) == Winner(s.board)
  {
    WinnerFirstLine(s.board);
  }

  /** A second scan changes nothing and reports the same. */
  lemma ScanIdempotent(s: FieldState)
    requires Consistent(s)
    ensures Scan(Scan(s).0) == Scan(s)
  {
  }

  /** Once won, scanning and placing change nothing: the win, its player and its line stay. */
  lemma WinIsSticky(s: FieldState, pos: (int, int), player: Player)
    requires Consistent(s) && s.won && InBounds(pos)
    ensures Scan(s) == (s, true)
    ensures Place(s, pos, player) == (s, false)
  {
  }

  /** A placement succeeds exactly on an empty cell of a board without a completed line, and writes only that cell. */
  lemma PlaceWritesOneCell(s: FieldState, pos: (int, int), player: Player)
    requires Consistent(s) && !s.tie && InBounds(pos)
    ensures Place(s, pos, player).1 <==> s.board[Index(pos)] == Empty && !HasLine(s.board)
    ensures var b := Place(s, pos, player).0.board;
      |b| == 9 &&
      b[Index(pos)] == (if Place(s, pos, player).1 then player else s.board[Index(pos)]) &&
      forall i :: 0 <= i < 9 && i != Index(pos) ==> b[i] == s.board[i]
  {
    WinnerFirstLine(s.board);
  }

  /** A rejected placement leaves every cell as it was. */
  lemma RejectedPlacementKeepsBoard(s: FieldState, pos: (int, int), player: Player)
    requires Consistent(s) && InBounds(pos)
    requires s.board[Index(pos)] != Empty || s.won
    ensures !Place(s, pos, player).1 && Place(s, pos, player).0.board == s.board
  {
  }

  /** The board of the game: nine cells in place, and the cached win state. */
  class Field {
    const cells: array<Player>
    var won: bool
    var tie: bool
    var whoWon: Player
    var wonCombination: Combination

    /** The abstract value of the object. */
    ghost function State(): FieldState
      reads this, cells
    {
      FieldState(cells[..], won, tie, whoWon, wonCombination)
    }

    ghost predicate Valid()
      reads this, cells
    {
      cells.Length == 9 && Consistent(State())
    }

    /** Default: an empty board, nothing won, no tie. */
    constructor ()
      ensures Valid() && fresh(cells)
      ensures State() == InitialField
    {
      cells := new Player[9] [Empty, Empty, Empty, Empty, Empty, Empty, Empty, Empty, Empty];
      won, tie, whoWon, wonCombination := false, false, Empty, (0, 0, 0);
    }

    /** The cell at a position on the board. */
    function GetPlayer(pos: (int, int)): (p: Player)
      reads this, cells
      requires Valid() && InBounds(pos)
      ensures p == State().board[Index(pos)]
    {
      cells[(pos.0 - 1) * 3 + (pos.1 - 1)]
    }

    /** Refresh the win state, then place player at pos if that cell is empty and nothing is won. */
    method SetPlayer(pos: (int, int), player: Player) returns (ok: bool)
      requires Valid() && InBounds(pos)
      modifies this, cells
      ensures Valid()
      ensures (State(), ok) == Place(old(State()), pos, player)
    {
      var _ := CheckWon();
      if GetPlayer(pos) != Empty || won {
        return false;
      }
      cells[(pos.0 - 1) * 3 + (pos.1 - 1)] := player;
      return true;
    }

    /** Scan the lines in table order and record the first completed one, unless a win is recorded already. */
    method CheckWon() returns (r: bool)
      requires Valid()
      modifies this
      ensures Valid()
      ensures (State(), r) == Scan(old(State()))
    {
      if won {
        return true;
      }
      if tie {
        return false;
      }
      for n := 0 to |Combinations|
        invariant !won && whoWon == Empty && wonCombination == (0, 0, 0)
        invariant forall t :: 0 <= t < n ==> LineOwner(cells[..], Combinations[t]) == Empty
      {
        var variant := Combinations[n];
        var wonPlayer: Player;
        if cells[variant.0] == Cross && cells[variant.1] == Cross && cells[variant.2] == Cross {
          wonPlayer := Cross;
        } else if cells[variant.0] == Nought && cells[variant.1] == Nought && cells[variant.2] == Nought {
          wonPlayer := Nought;
        } else {
          assert LineOwner(cells[..], variant) == Empty;
          continue;
        }
        assert FirstLine(cells[..], 0) == Some(n);
        won := true;
        whoWon := wonPlayer;
        wonCombination := variant;
        break;
      }
      return won;
    }

    /** Report whether no cell is Empty, whatever the win state. */
    method CheckTie() returns (r: bool)
      requires Valid()
      ensures r <==> IsFull(State().board)
    {
      for i := 0 to cells.Length
        invariant Empty !in cells[..i]
      {
        if cells[i] == Empty {
          return false;
        }
      }
      assert cells[..cells.Length] == cells[..];
      return true;
    }

    /** The recorded winner: Empty until a win is recorded, then the first winning line's player. */
    function WhoWon(): (p: Player)
      reads this, cells
      requires Valid()
      ensures won <==> p != Empty
      ensures p != Empty ==> Winner(State().board) == Some((p, wonCombination))
    {
      whoWon
    }

    /**
     * The 27 cell rows of the board in slot order: cell k's rows go to slots i, i + 3 and i + 6,
     * where i runs 0, 1, 2, 9, 10, 11, 18, 19, 20; the selected cell's rows are highlighted.
     */
    method MakeCells(selectCell: Option<int>) returns (rows: seq<string>)
      requires Valid()
      ensures rows == Cells(State().board, selectCell)
    {
      var fieldArray := new string[27](_ => "");
      var i := 0;
      var realIndex := 0;
      var selectedCell := match selectCell case Some(v) => v case None => -1;
      ghost var board := cells[..];
      for k := 0 to cells.Length
        invariant realIndex == k
        invariant k < 9 ==> i == Slot(k)
        invariant forall idx :: 0 <= idx < 27 && SlotCell(idx) < k ==> fieldArray[idx] == Cells(board, selectCell)[idx]
      {
        ghost var before := fieldArray[..];
        DrawCell(fieldArray, i, cells[k], realIndex == selectedCell);
        assert selectCell == Some(k) <==> realIndex == selectedCell;
        CellsPrefixStep(board, selectCell, before, fieldArray[..], k);
        if k + 1 < 9 {
          NextSlot(k);
        }
        i := i + 1;
        realIndex := realIndex + 1;
        if i == 3 {
          i := 9;
        }
        if i == 12 {
          i := 18;
        }
      }
      rows := fieldArray[..];
    }

    /** The three rows of a cell holding pl into slots i, i + 3 and i + 6, highlighted when selected. */
    static method DrawCell(fieldArray: array<string>, i: nat, pl: Player, selected: bool)
      requires i + 6 < fieldArray.Length
      modifies fieldArray
      ensures forall j :: 0 <= j < 3 ==>
        fieldArray[i + 3 * j] == if selected then Highlight(Glyph(pl, j)) else Glyph(pl, j)
      ensures forall idx :: 0 <= idx < fieldArray.Length && idx != i && idx != i + 3 && idx != i + 6 ==>
        fieldArray[idx] == old(fieldArray[idx])
    {
      DrawGlyph(fieldArray, i, pl);
      if selected {
        fieldArray[i] := Highlight(fieldArray[i]);
        fieldArray[i + 3] := Highlight(fieldArray[i + 3]);
        fieldArray[i + 6] := Highlight(fieldArray[i + 6]);
      }
    }

    /** The three glyph rows of pl into slots i, i + 3 and i + 6. */
    static method DrawGlyph(fieldArray: array<string>, i: nat, pl: Player)
      requires i + 6 < fieldArray.Length
      modifies fieldArray
      ensures forall j :: 0 <= j < 3 ==> fieldArray[i + 3 * j] == Glyph(pl, j)
      ensures forall idx :: 0 <= idx < fieldArray.Length && idx != i && idx != i + 3 && idx != i + 6 ==>
        fieldArray[idx] == old(fieldArray[idx])
    {
      match pl {
        case Cross =>
          fieldArray[i] := "00  00";
          fieldArray[i + 3] := "  00  ";
          fieldArray[i + 6] := "00  00";
        case Nought =>
          fieldArray[i] := "  00  ";
          fieldArray[i + 3] := "00  00";
          fieldArray[i + 6] := "  00  ";
        case Empty =>
          fieldArray[i] := "      ";
          fieldArray[i + 3] := "      ";
          fieldArray[i + 6] := "      ";
      }
    }

    /** The board text, with the cell at select highlighted when one is given. */
    method MakeField(select: Option<(int, int)>) returns (text: string)
      requires Valid()
      ensures text == Render(State().board, SelectedIndex(select))
    {
      var rows: seq<string>;
      match select {
        case Some(v) =>
          rows := MakeCells(Some((v.0 - 1) * 3 + (v.1 - 1)));
        case None =>
          rows := MakeCells(None);
      }
      assert rows == Cells(State().board, SelectedIndex(select));
      text := FieldText(rows);
    }
  }
}
