/**
 * The fixed ASCII text of the board. Every cell is drawn as three rows of six
 * characters; the 27 cell rows are laid out three per text line, with a dashed
 * separator line after each board row but the last.
 */
module Layout {
  import opened Options
  import opened Players

  /** Row j of the glyph drawn for a cell holding p. */
  function Glyph(p: Player, j: nat): (s: string)
    requires j < 3
    ensures |s| == 6
    ensures ' ' in s && '#' !in s
  {
    match p
    case Cross => if j == 1 then "  00  " else "00  00"
    case Nought => if j == 1 then "00  00" else "  00  "
    case Empty => "      "
  }

  /** The text with every space replaced by '#'. */
  function Highlight(s: string): (r: string)
    ensures |r| == |s|
    ensures forall k :: 0 <= k < |s| ==> r[k] == (if s[k] == ' ' then '#' else s[k])
  {
    if s == [] then [] else [if s[0] == ' ' then '#' else s[0]] + Highlight(s[1..])
  }

  /** Highlighting leaves no space behind, and puts a '#' in any text that had a space. */
  lemma HighlightMarks(s: string)
    ensures ' ' !in Highlight(s)
    ensures ' ' in s ==> '#' in Highlight(s)
  {
    if ' ' in s {
      var k :| 0 <= k < |s| && s[k] == ' ';
      assert Highlight(s)[k] == '#';
    }
  }

  /** Row j of cell k as drawn: its glyph row, highlighted when k is the selected cell. */
  function CellRow(board: seq<Player>, selected: Option<int>, k: nat, j: nat): (s: string)
    requires |board| == 9 && k < 9 && j < 3
    ensures |s| == 6
    ensures '#' in s <==> selected == Some(k)
    ensures selected != Some(k) ==> s == Glyph(board[k], j)
    ensures selected == Some(k) ==> ' ' !in s
  {
    var glyph := Glyph(board[k], j);
    HighlightMarks(glyph);
    if selected == Some(k) then Highlight(glyph) else glyph
  }

  /** The cell whose row is held by slot idx of the 27 cell rows. */
  function SlotCell(idx: nat): (k: nat)
    requires idx < 27
    ensures k < 9
  {
    3 * (idx / 9) + idx % 3
  }

  /** The glyph row held by slot idx of the 27 cell rows. */
  function SlotRow(idx: nat): (j: nat)
    requires idx < 27
    ensures j < 3
  {
    idx % 9 / 3
  }

  /** The first slot holding a row of cell k; its other rows are 3 and 6 slots further on. */
  function Slot(k: nat): (idx: nat)
    requires k < 9
    ensures idx + 6 < 27
  {
    9 * (k / 3) + k % 3
  }

  /** Slot idx holds row SlotRow(idx) of cell SlotCell(idx), and is that cell's first slot plus 3 per row. */
  lemma SlotDecompose(idx: nat)
    requires idx < 27
    ensures idx == Slot(SlotCell(idx)) + 3 * SlotRow(idx)
  {
    var a, b, c := idx / 9, idx % 9 / 3, idx % 3;
    assert idx == 9 * a + 3 * b + c;
    assert SlotCell(idx) / 3 == a && SlotCell(idx) % 3 == c;
  }

  /** The slot three times j past the first slot of cell k holds row j of cell k. */
  lemma SlotOfRow(k: nat, j: nat)
    requires k < 9 && j < 3
    ensures SlotCell(Slot(k) + 3 * j) == k && SlotRow(Slot(k) + 3 * j) == j
  {
    var a, c := k / 3, k % 3;
    var idx := Slot(k) + 3 * j;
    assert idx == 9 * a + 3 * j + c;
    assert idx / 9 == a;
    assert idx % 9 == 3 * j + c;
    assert idx % 3 == c;
  }

  /** The first slots of consecutive cells are consecutive, except for the jumps from 3 to 9 and from 12 to 18. */
  lemma NextSlot(k: nat)
    requires k + 1 < 9
    ensures Slot(k + 1) == (if Slot(k) + 1 == 3 then 9 else if Slot(k) + 1 == 12 then 18 else Slot(k) + 1)
  {
  }

  /** The 27 cell rows of a board, in slot order. */
  function Cells(board: seq<Player>, selected: Option<int>): (rows: seq<string>)
    requires |board| == 9
    ensures |rows| == 27
    ensures forall idx :: 0 <= idx < 27 ==> |rows[idx]| == 6
  {
    seq(27, idx requires 0 <= idx < 27 => CellRow(board, selected, SlotCell(idx), SlotRow(idx)))
  }

  /**
   * Filling the three slots of cell k with its rows extends a sequence that agrees with Cells on
   * the slots of cells before k to one that agrees on the slots of cells up to k.
   */
  lemma CellsPrefixStep(board: seq<Player>, selected: Option<int>, before: seq<string>, after: seq<string>, k: nat)
    requires |board| == 9 && |before| == 27 && |after| == 27 && k < 9
    requires forall idx :: 0 <= idx < 27 && SlotCell(idx) < k ==> before[idx] == Cells(board, selected)[idx]
    requires forall j :: 0 <= j < 3 ==> after[Slot(k) + 3 * j] == CellRow(board, selected, k, j)
    requires forall idx :: 0 <= idx < 27 && idx != Slot(k) && idx != Slot(k) + 3 && idx != Slot(k) + 6 ==>
      after[idx] == before[idx]
    ensures forall idx :: 0 <= idx < 27 && SlotCell(idx) <= k ==> after[idx] == Cells(board, selected)[idx]
  {
    var want := Cells(board, selected);
    SlotOfRow(k, 0);
    SlotOfRow(k, 1);
    SlotOfRow(k, 2);
    forall idx | 0 <= idx < 27 && SlotCell(idx) <= k
      ensures after[idx] == want[idx]
    {
      if SlotCell(idx) == k {
        SlotDecompose(idx);
        var j := SlotRow(idx);
        assert want[idx] == CellRow(board, selected, k, j);
        assert after[Slot(k) + 3 * j] == CellRow(board, selected, k, j);
      } else {
        assert idx != Slot(k) && idx != Slot(k) + 3 && idx != Slot(k) + 6;
      }
    }
  }

  const Dashes: string := "------------------------"

  /** The text of a board with an optional selected cell index. */
  function Render(board: seq<Player>, selected: Option<int>): string
    requires |board| == 9
  {
    FieldText(Cells(board, selected))
  }

  /** The board text is always 293 characters long, whatever the board and the selection. */
  lemma RenderLength(board: seq<Player>, selected: Option<int>)
    requires |board| == 9
    ensures |Render(board, selected)| == 293
  {
    FieldTextLength(Cells(board, selected));
  }

  /** Text line l of the grid: the three cell rows 3l, 3l+1 and 3l+2 separated by " | ". */
  function GridLine(rows: seq<string>, l: nat): string
    requires |rows| == 27 && l < 9
  {
    " " + rows[3 * l] + " | " + rows[3 * l + 1] + " | " + rows[3 * l + 2]
  }

  /** A grid line is its three cell rows plus a leading space and two three-character separators. */
  lemma GridLineLength(rows: seq<string>, l: nat)
    requires |rows| == 27 && l < 9
    ensures |GridLine(rows, l)| == |rows[3 * l]| + |rows[3 * l + 1]| + |rows[3 * l + 2]| + 7
    ensures GridLine(rows, l)[0] == ' '
  {
  }

  /** The eleven text lines of the board: three groups of three grid lines around two dashed lines. */
  function Lines(rows: seq<string>): (lines: seq<string>)
    requires |rows| == 27
    ensures |lines| == 11
  {
    [GridLine(rows, 0) + " ", GridLine(rows, 1) + " ", GridLine(rows, 2) + " ", " " + Dashes,
     GridLine(rows, 3) + " ", GridLine(rows, 4) + " ", GridLine(rows, 5) + " ", " " + Dashes,
     GridLine(rows, 6) + " ", GridLine(rows, 7) + " ", GridLine(rows, 8)]
  }

  /** The lines joined by newlines. */
  function Join(lines: seq<string>): string
  {
    if |lines| == 0 then ""
    else if |lines| == 1 then lines[0]
    else lines[0] + "\n" + Join(lines[1..])
  }

  /**
   * The board text built from the 27 cell rows: each line starts with a space, every grid line
   * but the last ends with one, and lines are separated by newlines.
   */
  function FieldText(rows: seq<string>): string
    requires |rows| == 27
  {
    Join(Lines(rows))
  }

  /** Built from six-character cell rows, the board text is 293 characters: 283 in its lines and 10 newlines. */
  lemma FieldTextLength(rows: seq<string>)
    requires |rows| == 27
    requires forall idx :: 0 <= idx < 27 ==> |rows[idx]| == 6
    ensures |FieldText(rows)| == 293
  {
    LinesLength(rows);
    JoinLength(Lines(rows));
  }

  /** The total length of some lines. */
  function TotalLength(lines: seq<string>): nat
  {
    if |lines| == 0 then 0 else |lines[0]| + TotalLength(lines[1..])
  }

  /** Joining lines adds one newline between each two. */
  lemma {:induction false} JoinLength(lines: seq<string>)
    requires |lines| > 0
    ensures |Join(lines)| == TotalLength(lines) + |lines| - 1
    decreases |lines|
  {
    if |lines| > 1 {
      JoinLength(lines[1..]);
    }
  }

  /** Dropping the line at k from the front of lines[k..] takes its length off the total. */
  lemma TotalLengthDrop(lines: seq<string>, k: nat)
    requires k < |lines|
    ensures TotalLength(lines[k..]) == |lines[k]| + TotalLength(lines[k + 1..])
  {
    assert lines[k..][1..] == lines[k + 1..];
  }

  /** With six-character cell rows, the eleven lines hold 8 * 26 + 3 * 25 characters. */
  lemma LinesLength(rows: seq<string>)
    requires |rows| == 27
    requires forall idx :: 0 <= idx < 27 ==> |rows[idx]| == 6
    ensures TotalLength(Lines(rows)) == 283
  {
    var ls := Lines(rows);
    forall i | 0 <= i < 11
      ensures |ls[i]| == if i == 3 || i == 7 || i == 10 then 25 else 26
    {
      LineAt(rows, i);
      if i != 3 && i != 7 {
        GridLineLength(rows, i - i / 4);
      }
    }
    ElevenLinesLength(ls);
  }

  /** Eleven lines of 26 characters, except three of 25 at positions 3, 7 and 10, hold 283 characters. */
  lemma ElevenLinesLength(ls: seq<string>)
    requires |ls| == 11
    requires forall i :: 0 <= i < 11 ==> |ls[i]| == if i == 3 || i == 7 || i == 10 then 25 else 26
    ensures TotalLength(ls) == 283
  {
    assert ls[11..] == [];
    TotalLengthDrop(ls, 10);
    assert TotalLength(ls[10..]) == 25;
    TotalLengthDrop(ls, 9);
    assert TotalLength(ls[9..]) == 51;
    TotalLengthDrop(ls, 8);
    assert TotalLength(ls[8..]) == 77;
    TotalLengthDrop(ls, 7);
    assert TotalLength(ls[7..]) == 102;
    TotalLengthDrop(ls, 6);
    assert TotalLength(ls[6..]) == 128;
    TotalLengthDrop(ls, 5);
    assert TotalLength(ls[5..]) == 154;
    TotalLengthDrop(ls, 4);
    assert TotalLength(ls[4..]) == 180;
    TotalLengthDrop(ls, 3);
    assert TotalLength(ls[3..]) == 205;
    TotalLengthDrop(ls, 2);
    assert TotalLength(ls[2..]) == 231;
    TotalLengthDrop(ls, 1);
    assert TotalLength(ls[1..]) == 257;
    TotalLengthDrop(ls, 0);
    assert TotalLength(ls[0..]) == 283;
    assert ls[0..] == ls;
  }

  /** A '#' appears in joined lines exactly when one of the lines holds one. */
  lemma {:induction false} HashInJoin(lines: seq<string>)
    ensures '#' in Join(lines) <==> exists i :: 0 <= i < |lines| && '#' in lines[i]
  {
    if |lines| > 1 {
      HashInJoin(lines[1..]);
      assert forall i :: 1 <= i < |lines| ==> lines[i] == lines[1..][i - 1];
    }
  }

  /** A '#' appears in a grid line exactly when one of its three cell rows holds one. */
  lemma HashInGridLine(rows: seq<string>, l: nat)
    requires |rows| == 27 && l < 9
    ensures '#' in GridLine(rows, l) <==> '#' in rows[3 * l] || '#' in rows[3 * l + 1] || '#' in rows[3 * l + 2]
  {
  }

  /** Text line 3r + j of the grid shows glyph row j of cells 3r, 3r+1 and 3r+2, left to right. */
  lemma BoardRowLine(board: seq<Player>, selected: Option<int>, r: nat, j: nat)
    requires |board| == 9 && r < 3 && j < 3
    ensures GridLine(Cells(board, selected), 3 * r + j) ==
      " " + CellRow(board, selected, 3 * r, j) + " | " + CellRow(board, selected, 3 * r + 1, j) + " | " +
      CellRow(board, selected, 3 * r + 2, j)
  {
    var l := 3 * r + j;
    RowSlots(r);
    CellsAt(board, selected, 3 * r, j);
    CellsAt(board, selected, 3 * r + 1, j);
    CellsAt(board, selected, 3 * r + 2, j);
    assert 3 * l == 9 * r + 3 * j;
  }

  /** The first slots of the three cells of board row r are 9r, 9r + 1 and 9r + 2. */
  lemma RowSlots(r: nat)
    requires r < 3
    ensures Slot(3 * r) == 9 * r && Slot(3 * r + 1) == 9 * r + 1 && Slot(3 * r + 2) == 9 * r + 2
  {
    if r == 0 {} else if r == 1 {} else {}
  }

  /** Slot Slot(k) + 3j of the cell rows is row j of cell k. */
  lemma CellsAt(board: seq<Player>, selected: Option<int>, k: nat, j: nat)
    requires |board| == 9 && k < 9 && j < 3
    ensures Cells(board, selected)[Slot(k) + 3 * j] == CellRow(board, selected, k, j)
  {
    SlotOfRow(k, j);
  }

  /** Line i of the board text is a dashed line for i = 3 and i = 7, otherwise grid line i - i / 4. */
  lemma LineAt(rows: seq<string>, i: nat)
    requires |rows| == 27 && i < 11
    ensures i == 3 || i == 7 ==> Lines(rows)[i] == " " + Dashes
    ensures i != 3 && i != 7 ==> Lines(rows)[i] == GridLine(rows, i - i / 4) + (if i == 10 then "" else " ")
  {
  }

  /** A cell row holds a '#' exactly when its cell is the selected one. */
  lemma HashInCells(board: seq<Player>, selected: Option<int>, idx: nat)
    requires |board| == 9 && idx < 27
    ensures '#' in Cells(board, selected)[idx] <==> selected == Some(SlotCell(idx))
  {
  }

  /** A '#' in a grid line is a '#' in the board text. */
  lemma GridLineInText(rows: seq<string>, l: nat)
    requires |rows| == 27 && l < 9
    requires '#' in GridLine(rows, l)
    ensures '#' in FieldText(rows)
  {
    var i := l + l / 3;
    assert i - i / 4 == l;
    LineAt(rows, i);
    assert '#' in Lines(rows)[i];
    HashInJoin(Lines(rows));
  }

  /** The selected cell, when it is one of the nine, shows up as a '#' in the board text. */
  lemma RenderShowsSelection(board: seq<Player>, k: nat)
    requires |board| == 9 && k < 9
    ensures '#' in Render(board, Some(k))
  {
    SelectedCellInGridLine(board, k);
    GridLineInText(Cells(board, Some(k)), 3 * (k / 3));
  }

  /** The selected cell's top glyph row puts a '#' in the grid line of its board row. */
  lemma SelectedCellInGridLine(board: seq<Player>, k: nat)
    requires |board| == 9 && k < 9
    ensures '#' in GridLine(Cells(board, Some(k)), 3 * (k / 3))
  {
    var r := k / 3;
    BoardRowLine(board, Some(k), r, 0);
    assert k == 3 * r || k == 3 * r + 1 || k == 3 * r + 2;
    assert '#' in CellRow(board, Some(k), k, 0);
  }

  /** Without a selected cell among the nine, the board text holds no '#'. */
  lemma RenderWithoutSelection(board: seq<Player>, selected: Option<int>)
    requires |board| == 9
    requires selected.None? || selected.value < 0 || selected.value >= 9
    ensures '#' !in Render(board, selected)
  {
    var lines := Lines(Cells(board, selected));
    forall i | 0 <= i < 11
      ensures '#' !in lines[i]
    {
      NoHashInLine(board, selected, i);
    }
    HashInJoin(lines);
  }

  /** Without a selected cell among the nine, no line of the board text holds a '#'. */
  lemma NoHashInLine(board: seq<Player>, selected: Option<int>, i: nat)
    requires |board| == 9 && i < 11
    requires selected.None? || selected.value < 0 || selected.value >= 9
    ensures '#' !in Lines(Cells(board, selected))[i]
  {
    LineAt(Cells(board, selected), i);
    if i != 3 && i != 7 {
      NoHashInGridLine(board, selected, i - i / 4);
    }
  }

  /** Without a selected cell among the nine, no grid line holds a '#'. */
  lemma NoHashInGridLine(board: seq<Player>, selected: Option<int>, l: nat)
    requires |board| == 9 && l < 9
    requires selected.None? || selected.value < 0 || selected.value >= 9
    ensures '#' !in GridLine(Cells(board, selected), l)
  {
    HashInGridLine(Cells(board, selected), l);
    HashInCells(board, selected, 3 * l);
    HashInCells(board, selected, 3 * l + 1);
    HashInCells(board, selected, 3 * l + 2);
  }

  /** The board text shows a '#' exactly when a cell of the board is selected. */
  lemma RenderHighlight(board: seq<Player>, selected: Option<int>)
    requires |board| == 9
    ensures '#' in Render(board, selected) <==> selected.Some? && 0 <= selected.value < 9
  {
    if selected.Some? && 0 <= selected.value < 9 {
      RenderShowsSelection(board, selected.value);
    } else {
      RenderWithoutSelection(board, selected);
    }
  }
}
