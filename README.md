# Tic-tac-toe engine in Dafny

This project models the engine of a terminal tic-tac-toe game written in Rust (`src/main.rs`).
The engine has three parts:

- **The board** (`field::Field`). Nine cells, each Empty, Cross or Nought, are addressed by
  `(row, col)` in `[1,3]×[1,3]`. The board caches its win state: a flag, the winner and the
  winning triple.
  - `set_player` places a marker.
  - `check_won` scans the eight winning triples in table order: rows, then columns, then
    diagonals. It keeps the first triple it finds.
  - `check_tie` reports a board with no Empty cell.
  - `make_cells` / `make_field` draw the board as ASCII text. The cell under the cursor is
    highlighted by turning its spaces into `#`.
- **Cursor movement** (`move_selection`). An arrow key moves the cursor one cell; moving off
  an edge wraps to the opposite edge.
- **The game loop** (`main`). Each pass of the loop:
  1. decides the phase: a recorded or completed line is a win, checked before a full board,
     which is a tie;
  2. sets the message;
  3. draws the board;
  4. handles one key.

  While the game is being played (the selecting phase), arrows move the cursor and space
  places the current player's marker. A successful placement passes the turn. Once the game
  is won or tied, any key ends the loop.

Layout:

- `options.dfy`: `Option`.
- `players.dfy`: `Player` and its display name.
- `layout.dfy`: the board text, as pure functions on the board.
- `fields.dfy`: the winning-line table; the pure specification of the board's operations on
  `FieldState`; and the class `Field`, which does them in place on an array of nine cells.
- `navigation.dfy`: keys and `MoveSelection`.
- `controller.dfy`: one pass of the loop as pure functions (`Evaluated`, `AfterKey`,
  `Advance`) and the loop over a key sequence (`Play`). The class `Game` holds the loop's
  mutable variables; `Game.Step` and `Game.Run` are proved equal to `Advance` and `Play`.

`set_player` calls `check_won` before it looks at the cell (`src/main.rs:66`). So a placement
on a board whose line is complete but not yet recorded first records that win, then refuses.
`Place` and `Field.SetPlayer` model this.

## Model

| member | source | states |
|---|---|---|
| Players.Name | src/main.rs:31-39 | Cross is shown as "Cross", Nought as "Nought", Empty as "_"; the name is never empty |
| Players.NameInjective | src/main.rs:31-39 | two players have the same name exactly when they are the same player |
| Fields.CombinationsTable | src/main.rs:20-29 | the table has eight triples: the three rows top to bottom, then the three columns left to right, then the diagonals (0,4,8) and (2,4,6) |
| Fields.IndexBijective | src/main.rs:56-60 | the map `(row-1)*3 + (col-1)` is one-to-one on the board and reaches all nine indices |
| Fields.SelectedIndex | src/main.rs:166-172 | a present in-bounds position becomes its row-major index; no position means no selection |
| Fields.LineOwner | src/main.rs:84-96 | a triple's owner, when not Empty, holds all three of its cells |
| Fields.LineOwnerAllThree | src/main.rs:84-96 | a triple belongs to a player exactly when all three of its cells hold that player |
| Fields.FirstLine | src/main.rs:20-29 | the result is a completed triple at or after the start position, and every earlier triple is incomplete; None means no triple from there on is complete |
| Fields.Winner | src/main.rs:83-103 | a reported winner is a non-Empty player holding all three cells of a triple from the table |
| Fields.WinnerFirstLine | src/main.rs:83-103 | a board has a winner exactly when some triple is complete; the winner and its triple are those of the first complete triple in table order |
| Fields.RowBeatsColumn | src/main.rs:20-29 | when the top row and the left column are both Cross, the top row is the reported line, because rows come first in the table |
| Fields.Scan | src/main.rs:74-104 | the scan keeps the board and the tie flag; the flag it returns is the recorded win; the cached state stays consistent with the board |
| Fields.IsFull | src/main.rs:105-112 | a board is full exactly when none of its cells is Empty |
| Fields.ScanReportsLines | src/main.rs:74-104 | without a tie flag, the scan reports a win exactly when some triple is complete, and records the first such triple and its player |
| Fields.ScanIdempotent | src/main.rs:75-77 | a second scan changes nothing and reports the same |
| Fields.WinIsSticky | src/main.rs:65-70 | once a win is recorded, scanning reports it again and a placement is refused with nothing changed |
| Fields.Place | src/main.rs:62-73 | a placement keeps the cached win state consistent and the tie flag unchanged |
| Fields.PlaceWritesOneCell | src/main.rs:62-73 | a placement succeeds exactly when the cell is Empty and no triple is complete; then it writes the player there; the other eight cells never change |
| Fields.RejectedPlacementKeepsBoard | src/main.rs:66-70 | a placement on an occupied cell, or after a recorded win, is refused and leaves every cell as it was |
| Fields.Field.constructor | src/main.rs:41-53 | a new board has nine Empty cells, no win, no tie, winner Empty and triple (0,0,0) |
| Fields.Field.GetPlayer | src/main.rs:56-61 | returns the cell at the row-major index of an in-bounds position |
| Fields.Field.SetPlayer | src/main.rs:62-73 | the new board, the cached state and the result are those of `Place` on the old state |
| Fields.Field.CheckWon | src/main.rs:74-104 | the loop over the table leaves the state and result of `Scan` on the old state |
| Fields.Field.CheckTie | src/main.rs:105-112 | true exactly when no cell is Empty, whatever the win state |
| Fields.Field.WhoWon | src/main.rs:114-116 | the winner is non-Empty exactly when a win is recorded, and then it is the owner of the board's first complete triple |
| Fields.Field.MakeCells | src/main.rs:118-164 | the 27 cell rows the loop writes are `Cells` of the board: cell k's three rows sit at slot `9*(k/3) + k%3` and at 3 and 6 past it |
| Fields.Field.DrawGlyph | src/main.rs:132-149 | writes row j of the cell's glyph at slot i + 3j, for j = 0, 1, 2, and nothing else |
| Fields.Field.DrawCell | src/main.rs:132-154 | writes the three rows of one cell's glyph at i, i+3 and i+6, each highlighted when the cell is selected, and nothing else |
| Fields.Field.MakeField | src/main.rs:166-185 | the board text is `Render` of the board with the row-major index of the given position selected |
| Layout.Glyph | src/main.rs:133-149 | each glyph row is six characters with a space in it and no `#` |
| Layout.Highlight | src/main.rs:151-155 | every space becomes `#` and every other character stays |
| Layout.HighlightMarks | src/main.rs:151-155 | a highlighted row has no space left, and it has a `#` whenever the row had a space |
| Layout.CellRow | src/main.rs:132-155 | a cell row is six characters; it contains `#` exactly when its cell is the selected one; an unselected cell shows its plain glyph |
| Layout.Cells | src/main.rs:118-164 | there are 27 cell rows, each six characters long |
| Layout.SlotDecompose | src/main.rs:157-163 | each of the 27 slots is its cell's base slot plus three times its row within the cell |
| Layout.SlotOfRow | src/main.rs:157-163 | the slot `Slot(k) + 3*j` belongs to cell k, row j |
| Layout.NextSlot | src/main.rs:157-163 | the base slot advances by one, jumping from 3 to 9 and from 12 to 18 |
| Layout.Lines | src/main.rs:174-184 | the board text has eleven lines |
| Layout.LineAt | src/main.rs:174-184 | lines 3 and 7 are the dashed rules; every other line is a grid line of three cell rows, with a trailing space except on the last line |
| Layout.BoardRowLine | src/main.rs:174-184 | grid line `3r + j` shows row j of the three cells of board row r, separated by " \| " |
| Layout.HashInCells | src/main.rs:151-155 | a cell row holds `#` exactly when it belongs to the selected cell |
| Layout.GridLineLength | src/main.rs:174-184 | a grid line starts with a space and is its three cell rows plus seven separator characters |
| Layout.FieldTextLength | src/main.rs:174-184 | from six-character cell rows, the board text is 293 characters: eleven lines and ten newlines |
| Layout.RenderLength | src/main.rs:166-185 | the board text of any board, with or without a selection, is 293 characters |
| Layout.RenderShowsSelection | src/main.rs:166-185 | when a cell is selected, the board text contains `#` |
| Layout.RenderWithoutSelection | src/main.rs:166-185 | with no cell selected, or one off the board, the board text contains no `#` |
| Layout.RenderHighlight | src/main.rs:118-185 | the board text contains `#` exactly when a selected index on the board is given |
| Navigation.MoveSelection | src/main.rs:274-311 | the result is on the board; Up/Down change only the row, Left/Right only the column, by one step modulo 3 |
| Navigation.MoveUndone | src/main.rs:274-311 | a step followed by a step in the opposite direction returns to the start |
| Navigation.MoveCycle | src/main.rs:274-311 | three steps in one direction return to the start |
| Navigation.EdgesWrap | src/main.rs:281-304 | stepping off an edge lands on the opposite edge of the same row or column |
| Controller.Opponent | src/main.rs:355-359 | the turn passes to the other, non-Empty player |
| Controller.MoveMessage | src/main.rs:328-332 | the turn message starts with the player's display name and says more than the name |
| Controller.StartPlayable | src/main.rs:315-318 | the loop starts on nine Empty cells with no line and no recorded win, the cursor at (1,1), the selecting phase and Cross to move |
| Controller.Evaluated | src/main.rs:321-333 | the first half of a pass keeps the state playable and leaves the cursor, player and sub-message |
| Controller.AfterKey | src/main.rs:342-371 | the key half keeps phase and message; it ends the loop exactly when the phase is not selecting |
| Controller.Advance | src/main.rs:320-371 | a pass keeps the state playable and ends the loop exactly when the new phase is won or tied |
| Controller.Play | src/main.rs:320-372 | the loop over a key sequence keeps the state playable and reports an exit exactly when the game has ended |
| Controller.EndsOnLineOrFullBoard | src/main.rs:321-371 | a pass ends the loop exactly when the board has a complete triple or no Empty cell |
| Controller.WinBeforeTie | src/main.rs:321-371 | a complete triple gives the Won phase, the first triple's player and line, the message "<player> won!" and the exit prompt, even if the board is also full |
| Controller.TieWhenFull | src/main.rs:321-326 | a full board with no complete triple gives the Tied phase, the message "Tie!", and the board unchanged |
| Controller.ArrowMovesCursorOnly | src/main.rs:345-349 | while playing, an arrow moves the cursor by one wrapped step and changes nothing else but the turn message |
| Controller.OtherKeyIgnored | src/main.rs:362-364 | while playing, any key other than an arrow or space changes nothing but the turn message |
| Controller.OccupiedCellRefused | src/main.rs:350-352 | space on an occupied cell keeps board and turn and sets "Field already selected" |
| Controller.EmptyCellTaken | src/main.rs:350-360 | space on an Empty cell of an unwon board writes the player there, clears the sub-message and passes the turn |
| Controller.TurnPassesOnPlacement | src/main.rs:350-360 | the player changes exactly on a successful placement, and only to the opponent |
| Controller.ArrowStep | src/main.rs:320-349 | on an undecided board, the loop's next pass on an arrow moves the cursor, and the loop continues with the remaining keys |
| Controller.PlaceStep | src/main.rs:320-360 | on an undecided board, the loop's next pass on space over an Empty cell writes the marker and passes the turn, and the loop continues |
| Controller.AdvanceKeepsMarks | src/main.rs:62-73 | no pass erases or overwrites a marker already on the board |
| Controller.PlayKeepsMarks | src/main.rs:320-372 | over any key sequence, a placed marker stays where it is |
| Controller.PlayConcat | src/main.rs:320-372 | running two key sequences in turn equals running their concatenation, unless the first ends the loop |
| Controller.Game.constructor | src/main.rs:313-318 | the loop starts on an empty board with the cursor at (1,1), the selecting phase and Cross to move |
| Controller.Game.Step | src/main.rs:320-371 | one pass changes the game state as `Advance` does; the text drawn is the board before the key, highlighted at the cursor while selecting, and redrawn after an arrow |
| Controller.Game.Evaluate | src/main.rs:321-333 | the phase and message become those of `Evaluated` on the old state |
| Controller.Game.DrawField | src/main.rs:335-339 | the text drawn is the board, highlighted at the cursor exactly while selecting |
| Controller.Game.HandleKey | src/main.rs:342-371 | the state and exit flag become those of `AfterKey` on the old state |
| Controller.Game.PlaceMarker | src/main.rs:350-360 | placing at the cursor changes the state as `AfterKey` does on the confirm key, and draws nothing |
| Controller.Game.MoveCursor | src/main.rs:345-349 | an arrow changes the state as `AfterKey` does and redraws the board highlighted at the new cursor |
| Controller.Game.Run | src/main.rs:320-372 | the loop over a key sequence leaves the state and exit flag of `Play` |

## Left out

- The `ui` module (the terminal screen, raw mode, reading key events, the drop handler) is
  I/O. Keys arrive as a sequence of `Key`s, and what is handed to the screen is modelled only as
  `Game.fieldText`. The message and sub-message are fields of the game state.
- Controller.Game.Run: `key_event().unwrap()` panics on a terminal event that is not a key;
  this is not modelled.
- Controller.Game.Run: the source loops until the game ends. The model runs over a finite key
  sequence and reports whether the loop ended.
- The second `render()` at `src/main.rs:368` is not modelled. The pass that finds the game
  over consumes one key, as `src/main.rs:369` does, and ends the loop.
- The source's assertion panics become preconditions: out-of-bounds positions in
  `get_player`, `set_player` and `move_selection`, a non-arrow key given to
  `move_selection`, and an Empty current player in `main`.
- Layout.FieldText is stated as the eleven lines of the format string joined by newlines. It
  is not written as the literal format string. The last line has no trailing space, as in the
  source.
- The `tie` flag is never set by the source; `check_tie` only reports. The flag is kept in
  `FieldState` for its effect on `check_won`. The loop's invariant `Playable` requires it to be
  false, which every reachable state satisfies.
- Positions are `int`, not `isize`; every position the game reaches lies in `[1,3]`, so no
  overflow can occur.
