# Chess GUI input and addressing layer, in Dafny

This project models the part of the chess GUI that connects the window to the
rules engine.

- **`coords_to_square`** maps a pixel to a square such as `"e4"`. Cells are
  90 × 90 pixels. Column 0 is file `h` and column 7 is file `a`. Row 0 is
  rank `8`. Rust's truncating division is modelled. So are the file letter
  that is left out for an off-board column, the `7 | 8` arm that gives
  rank `8` to small negative y, and the panic of the rank match.
- **The tile colour and placement rule of `App::render`.** Tile (row, col) is
  BLACK or WHITE by the parity of row and col. The tile and the piece on it
  share the offset (col·90, row·90). The nested `for row`/`for col` loops are
  the methods `Render` and `DrawRow`. They are proved against the
  specification functions `FrameRows` and `RowOps`.
- **The input handling of `main`'s event loop**, as the class
  `EventLoop.EventLoop`. Its fields are `moveInProgress`, `startSquare`,
  `mouseX`/`mouseY` and two game handles:
  - `app.game` receives every `make_move`;
  - the local `game` is the one that the promotion keys query and update.

  There is one method per event kind: cursor, left press, right press and
  arrow key. `Run` is the `while let` loop itself. The function `Step` gives
  what one event does to the loop's variables as a value, and `Steps` folds it
  over a stream of events. Each handler is proved to agree with `Step`, and
  `Run` is proved to agree with `Steps`.

The rules engine is not modelled (module `Engine`). A game is its reported
state plus a ghost log of the `make_move` and `set_promotion` calls made
into it. The engine's answers are parameters: a `MoveReply` gives the result
and the next state. `Game::new()` is taken to start in `InProgress`.

In two places the code does something that looks unintended, and the model
follows the code:
- A right press does not reset `move_in_progress` or `start_square`.
- Moves and promotions go to two different games.

Both are listed under "## Findings". Each has an as-written half and a
corrected half.

## Model

| member | source | states |
|---|---|---|
| Coordinates.TruncDiv | src/main.rs:185-202 | Rust's `/` for a positive divisor: q·b ≤ a < q·b + b when a ≥ 0, and q·b − b < a ≤ q·b when a < 0 (rounded toward zero) |
| Coordinates.CoordsInBoard | src/main.rs:181-215 | for 0 ≤ x, y < 720 the result is the two-character square of the cell: file "hgfedcba"[x/90], rank '8' − y/90 |
| Coordinates.CoordsInjective | src/main.rs:185-212 | inside the window two pixels give the same square exactly when they lie in the same 90 × 90 cell |
| Coordinates.SquareOriginHits | src/main.rs:185-212 | every valid square is produced: each pixel of the cell whose top-left corner is SquareOrigin(s), including its centre, maps back to s, and that cell lies inside the window |
| Coordinates.CellSquareRoundTrip | src/main.rs:185-212 | the square of a cell is valid, and SquareCell recovers that cell |
| Coordinates.SquareCellRoundTrip | src/main.rs:185-212 | every valid square has its cell inside the 8 × 8 grid, and the square of that cell is the square itself, so cells and squares are in bijection |
| Coordinates.CoordsOutsideBoard | src/main.rs:185-212 | for every 16-bit pixel: panics exactly when y ≤ −180 or y ≥ 720; otherwise the file letter is present exactly when −90 < x < 720 (so x in (−90, 0) still gives 'h'), and the rank is '8' for every negative y |
| Coordinates.FileAt | src/main.rs:185-201 | the if/else chain pushes exactly the letter "hgfedcba"[col] for col in 0..7, which is 'h' − col |
| Render.Render | src/main.rs:89-134 | the outer row loop issues exactly FrameRows over all 8 rows, row after row, each being what the inner loop draws for that row |
| Render.DrawRow | src/main.rs:90-132 | the inner column loop issues exactly RowOps for columns 0..7 of its row, cell after cell |
| Render.DrawCell | src/main.rs:92-131 | one cell draws its tile, then its sprite exactly when the board slot `63 - idx(row, col)` holds a piece |
| Render.TileParity | src/main.rs:92-108 | tile (row, col) is BLACK if and only if row + col is even |
| Render.TilesAlternate | src/main.rs:92-108 | horizontally and vertically adjacent tiles always differ in colour |
| Render.TileOffsetIsSquareOrigin | src/main.rs:110-113 | a cell is drawn at (col·90, row·90), the top-left pixel of the square that `coords_to_square` reports for that cell |
| Render.SpritesOnTiles | src/main.rs:110-127 | every sprite is drawn straight after a tile at the same offset |
| Render.FrameSound | src/main.rs:89-127 | every operation sits at the offset of a cell of the 8 × 8 grid; a tile has that cell's colour, and a sprite is the engine's piece for that cell |
| Render.FrameComplete | src/main.rs:89-127 | every cell's tile and, when the board holds a piece there, that piece's sprite appear in the frame |
| Engine.Game.constructor | src/main.rs:221 | `Game::new()`: a game in progress with no calls logged |
| Engine.Game.MakeMove | src/main.rs:277 | `make_move` is logged exactly once; its result and next state are the engine's answer |
| Engine.Game.SetPromotion | src/main.rs:293 | `set_promotion` is logged exactly once with its kind; the next state is the engine's |
| Engine.App.constructor | src/main.rs:76 | `App::new()` owns a freshly created game |
| EventLoop.PromotionKinds | src/main.rs:291-313 | Left, Up, Right and Down choose "queen", "rook", "bishop" and "knight": distinct keys give distinct kinds, and every kind is one of the four |
| EventLoop.EventLoop.constructor | src/main.rs:220-246 | the initial state: no move in progress, start square "a0", mouse at (0, 0), two distinct fresh games |
| EventLoop.EventLoop.CursorMoved | src/main.rs:256-259 | a cursor event overwrites the mouse position and nothing else, as Step says |
| EventLoop.EventLoop.LeftPress | src/main.rs:261-284 | with no move in progress: picks up the square and calls nothing. During a move: exactly one `app.game.make_move(start, square)`, then the move ends whatever the answer. A panic position changes nothing. The local game is never touched; this is what Step gives for the event |
| EventLoop.EventLoop.RightPress | src/main.rs:286-289 | replaces `app` (so `app.game`) and `game` with fresh games; move_in_progress, start_square and the mouse position are unchanged; this is what Step gives for the event |
| EventLoop.EventLoop.PromotionKey | src/main.rs:291-313 | exactly one `game.set_promotion(kind of key)` when the local game waits on a promotion choice, and no effect otherwise; `app.game` is untouched; this is what Step gives for the event |
| EventLoop.Step | src/main.rs:249-314 | one event's effect on the loop's variables: only a left press prints a report, a panic changes nothing, and no event moves the promotion game away from its starting state |
| EventLoop.Steps | src/main.rs:249-314 | the loop over a stream of events, one Step per event, stopping after a panic: it takes at least one event of a non-empty stream and never more than there are |
| EventLoop.StepsReportEachPress | src/main.rs:249-284 | every left press the loop takes is reported exactly once; events are left unhandled only after a Panicked report, and no report before the last is a panic |
| EventLoop.StepsKeepPromotionGame | src/main.rs:249-314 | from a promotion game in its starting state, the loop leaves it with no calls made and still in progress, whatever the events |
| EventLoop.RunOutcome | src/main.rs:249-314 | the loop prints at most one report per event, a panic can only be the last report, and a promotion game that starts new stays new |
| EventLoop.EventLoop.Handle | src/main.rs:250-313 | one event goes to its handler; the new state and the report are exactly those of Step |
| EventLoop.EventLoop.Run | src/main.rs:249-314 | the final state and the reports are exactly those of Steps over the events, so every event up to the first panic reaches its handler in order and nothing after it does; the two games stay distinct |
| EventLoop.RunProgram | src/main.rs:217-314 | from start-up, over any stream of events, the reports are those of Steps from the initial state, and the local promotion game ends in its starting state |
| EventLoop.CornerSquares | src/main.rs:181-215 | (650, 50) maps to "a8", (10, 650) to "h1" and (10, 570) to "h2" |
| EventLoop.TwoClickProtocol | src/main.rs:261-284 | presses at (650, 50) and (10, 650) report the pick-up of "a8" and then the move "a8"-"h1" with the engine's answer. A third press reports a new pick-up of "h1" |
| EventLoop.PromotionKeyIgnored | src/main.rs:277-313 | as written: after a move leaves `app.game` waiting on a promotion, any arrow key leaves it still waiting |
| EventLoop.EventLoop.PromotionKeyOnMoveGame | src/main.rs:291-313 | corrected: an arrow key sets the promotion exactly once on `app.game` when that game waits on one, and has no effect otherwise |
| EventLoop.PromotionKeyApplied | src/main.rs:277-313 | corrected: after the same events, `app.game` is in the state the engine gives for the promotion |
| EventLoop.ResetKeepsPendingMove | src/main.rs:271-289 | as written: pick up "a8", right press, press at (10, 650): the fresh game is asked for the move "a8"-"h1" |
| EventLoop.EventLoop.RightPressToIdle | src/main.rs:286-289 | corrected: the reset also ends the pending move, giving fresh games and no move in progress |
| EventLoop.ResetDropsPendingMove | src/main.rs:271-289 | corrected: after the reset, the same press picks up "h1" |

## Left out

- Drawing is not modelled: OpenGL, the window, `GlyphCache` and the textures. `Render` returns the list of drawing calls instead of drawing.
- `load_sprites` (src/main.rs:157-178) is not modelled. It does file I/O. A sprite is identified by its `Piece`, the key of that table, which has all 12 entries.
- The colours BLACK and WHITE are two symbolic values. Their floating-point RGBA values are not modelled.
- The centred status text (src/main.rs:136-147) is not modelled. It is floating-point layout of an empty string.
- The `f64` to `i16` casts (src/main.rs:182-183) are not modelled. Pixels are integers in the i16 range, so the mouse position is stored already cast.
- The rules engine is not modelled: its moves, its board and its states. `Position::new(row, col).idx` is the parameter `index`, and the board snapshot is a parameter of `Render`.
- The unreachable `_ => println!("Oops!")` arm (src/main.rs:280) is not modelled. A `Result` has no third case.
- The dead `board` mirror and `royal_rank` table (src/main.rs:42, 48-75) and the empty `update` (src/main.rs:151-153) are not modelled. In `Run`, render and update ticks change nothing.
- Escape closing the window and the end of the event stream are not modelled. `Run` covers a finite stream of events.
- Engine.Game.constructor: `Game::new()` belongs to the engine, which is not part of this model; it is taken to start in `InProgress` with no calls made. `RunProgram`'s `promotionState == InProgress`, `PromotionKeyIgnored` and the first finding need only that a fresh game is not waiting on a promotion choice.
- EventLoop.EventLoop.Run: a panic in `coords_to_square` is modelled as the report `Panicked`, with the state as it was when the panic happened. `Run` stops there. Unwinding and process exit are not modelled.

## Findings

| source | as written | input that shows it | evidently intended | confidence | as-written member | corrected member |
|---|---|---|---|---|---|---|
| src/main.rs:277-313 | moves go to `app.game`, but the arrow keys ask the separate local `game` whether a promotion is pending, and promote there; no move ever reaches that game | move a pawn to the last rank so that `app.game` waits on a promotion choice, then press Left: no `set_promotion` is made, and `app.game` keeps waiting | the promotion is chosen in the game the moves are made in | high (not executed) | EventLoop.PromotionKeyIgnored | EventLoop.EventLoop.PromotionKeyOnMoveGame |
| src/main.rs:286-289 | a right press replaces both games but keeps `move_in_progress` and `start_square` | left press at (650, 50), right press, left press at (10, 650): the fresh game is asked for "a8"-"h1" rather than a new pick-up at "h1" | a reset also abandons the pending move | medium (not executed) | EventLoop.ResetKeepsPendingMove | EventLoop.EventLoop.RightPressToIdle |
