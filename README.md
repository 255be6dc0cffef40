# Tic-tac-toe game engine in Dafny

A model of the game logic of a React tic-tac-toe with move history and time
travel. The `Game` component keeps a `history` of 9-square boards, the
`stepNumber` being viewed, an `xIsNext` flag and a `desc` flag for the
move-list order. A click on a square appends a new board to the history,
truncated at the viewed step. A click on a move-list entry jumps back to
that step. A button flips the move-list order. `calculateWinner` scans the
eight rows, columns and diagonals. The status line and the move labels
are derived from the state.

The files:

- `squares.dfy` (module `Squares`): cells, boards, the eight-line table,
  the winner check as the source's loop (`CalculateWinner`) and as the
  function that specifies it (`Winner`), and the facts about it.
- `engine.dfy` (module `Engine`): the state as a value (`GameState`), the
  three transitions as functions (`AfterClick`, `AfterJump`, `AfterSort`),
  the state invariant (`Invariant`, built on `ValidHistory`) and its
  lemmas, and the class `Game`. Its fields are the component's state, and
  each method is proved to perform the matching transition.
- `display.dfy` (module `Display`): the status line and the move labels.
  `StatusOf` decides the status in the order the game's `render` tests it:
  a winner on the viewed board first, then a draw when `stepNumber` equals
  `total`, and otherwise the next player, whose mark `xIsNext` designates.
  `StatusText` gives the text of each status, and `MoveLabel` gives the
  label of the move-list entry for a step.
- `scenarios.dfy` (module `Scenarios`): sequences of clicks, and two
  concrete games.

The invariant of a game state says four things:
- the history starts from the empty board;
- each entry adds exactly one mark to its predecessor, in a square that was
  empty, X and O alternating;
- no entry except the last has a winner;
- `stepNumber` indexes the history and `xIsNext == (stepNumber % 2 == 0)`.

Two consequences are proved from it. The board at step `k` holds exactly
`k` marks. So the status line's draw test (`stepNumber === total`) holds
exactly when the viewed board is full and has no winner: the step counter
cannot drift out of step with the board, even after time travel.

## Model

| member | source | states |
|---|---|---|
| `Squares.CalculateWinner` | src/index.js:144-162 | The loop over the line table returns the same mark as the winner specification: the first line, in table order, whose three squares are equal and non-empty. |
| `Squares.FirstWinCharacterised` | src/index.js:155-161 | Scanning from line `k` gives no winner exactly when no later line is owned by a player, and gives `p` only when some later line is owned by `p`. |
| `Squares.WinnerSound` | src/index.js:157-158 | A reported winner `p` owns all three squares of one of the eight lines. |
| `Squares.WinnerNoneIff` | src/index.js:144-162 | The check returns no winner exactly when neither X nor O owns a line. |
| `Squares.WinnerOfOnlyHolder` | src/index.js:145-161 | When `p` owns a line and nobody else does, the check reports `p`, whatever the table order. |
| `Squares.WinnerSwapped` | src/index.js:157-158 | Swapping X and O on the board swaps the winner; a board without a winner stays without one. |
| `Squares.CountMarksBounds` | src/index.js:61 | A board holds at most as many marks as squares, and exactly that many only when every square is taken. |
| `Squares.CountMarksFill` | src/index.js:126 | Writing a mark into an empty square adds exactly one mark. |
| `Engine.AfterClick` | src/index.js:117-134 | An illegal click (winner on the viewed board, or square taken) leaves the whole state unchanged. A legal click gives a history of length `stepNumber + 2` whose first `stepNumber + 1` entries are unchanged. The step advances by one, `xIsNext` flips and `desc` is kept. The new board equals the viewed one except at `i`, which gets the mark `xIsNext` designates. |
| `Engine.InitialInvariant` | src/index.js:57-68 | The initial state (one empty board, step 0, X to move, ascending order) satisfies the invariant. |
| `Engine.PrefixValid` | src/index.js:118 | Truncating a valid history to a non-empty prefix leaves a valid history. |
| `Engine.AppendValid` | src/index.js:126-131 | Appending a board that adds the next player's mark to a winner-free last board keeps the history valid. |
| `Engine.MarkIsOneMove` | src/index.js:126 | Writing a player's mark into an empty square changes that square alone, from empty to the mark. |
| `Engine.ClickKeepsInvariant` | src/index.js:118-132 | Every click keeps the invariant: write-once alternating history, no winner before the last entry, step in range, `xIsNext` equal to the step's parity. |
| `Engine.JumpRestoresInvariant` | src/index.js:135-140 | Jumping to any step of a valid history gives a state satisfying the invariant, since `xIsNext` is recomputed from the step's parity. |
| `Engine.SortTwice` | src/index.js:112-116 | Flipping the order twice restores the state, and flipping does not affect the invariant. |
| `Engine.JumpThenClick` | src/index.js:118-131 | A legal click after jumping to step `k` leaves a history of `k + 2` boards whose first `k + 1` are the old ones, and the new board holds the mark of the player whose turn step `k` is. |
| `Engine.MarksAtStep` | src/index.js:118-131 | In a valid history the board at step `k` holds exactly `k` marks. |
| `Engine.HistoryBounded` | src/index.js:118-131 | A valid history has at most ten boards. |
| `Engine.FullAtStep` | src/index.js:88 | In a valid history a board is full exactly when its step equals the number of squares, 9. |
| `Engine.WriteOnce` | src/index.js:120-126 | A square that holds a mark at step `j` holds the same mark at every later step. |
| `Engine.OwnerIsLastMover` | src/index.js:122-126 | On a board of a valid history, a player who owns a line made the last move on that board. |
| `Engine.WinnerIsLineOwner` | src/index.js:155-161 | On a board of a valid history, any player who owns a line is the reported winner. So at most one player owns lines, and the table order does not matter. |
| `Engine.Game.constructor` | src/index.js:57-68 | The new component holds one empty board, step 0, `xIsNext` true and `desc` false, and satisfies the invariant. |
| `Engine.Game.HistorySort` | src/index.js:112-116 | Negates `desc` and changes no other field. |
| `Engine.Game.HandleClick` | src/index.js:117-134 | It copies the viewed board into a fresh array, runs the winner loop, and writes one square in place. The resulting fields are exactly `AfterClick` of the old fields, and the invariant is kept. |
| `Engine.Game.JumpTo` | src/index.js:135-140 | Sets `stepNumber` to `step` and `xIsNext` to the step's parity. `history` and `desc` are unchanged, and the invariant is kept. |
| `Display.StatusTextInjective` | src/index.js:85-92 | The three status texts ("Winner:" and a mark, "It ends in a draw", "Next player: " and a mark) are pairwise distinct, so each text names one status. |
| `Display.DrawIffFullWithoutWinner` | src/index.js:85-92 | In a reachable state, the status is a draw exactly when the viewed board is full and has no winner. |
| `Display.WonOnlyAtLatest` | src/index.js:86-87 | A winner status appears only on the latest board of the history. The winner is the player who made the last move. |
| `Display.NextPlayerCanMove` | src/index.js:90-91 | "Next player" names the player whose turn the step's parity gives, and the viewed board has a square where a click is accepted. |
| `Display.Decimal` | src/index.js:75 | The printed move number is a non-empty string of decimal digits. |
| `Display.DecimalRoundTrip` | src/index.js:75 | Reading the printed move number back gives the number. |
| `Display.MoveLabelKind` | src/index.js:75 | Step 0 is labelled exactly "Go to game start". Every other step gets "Go to move #" followed by its decimal numeral. The seventh character alone tells the two kinds apart. |
| `Display.MoveLabelInjective` | src/index.js:75 | Distinct steps get distinct move-list labels. |
| `Scenarios.ReplayKeepsInvariant` | src/index.js:117-134 | Any sequence of clicks from a valid state ends in a valid state. |
| `Scenarios.NoWinnerGame` | src/index.js:117-134 | Clicks on 0, 4, 8, 1, 2 give X on 0, 2 and 8 and O on 1 and 4, with no winner, and the status is "Next player: O". |
| `Scenarios.TopRowWinners` | src/index.js:144-162 | The boards of the top-row game have no winner until the fifth move, which gives X the winner. |
| `Scenarios.TopRowGame` | src/index.js:122-124 | Clicks on 0, 3, 1, 4, 2 give X the top row and the status "Winner:X", and a further click on 5 leaves the state unchanged. |

## Left out

- React rendering is not modelled: `Square`, the nested loops of `Board.render`, the JSX of `Game.render` and the `ReactDOM.render` mount. They only display state and forward clicks.
- `Math.sqrt(total)` in `Board.render` is not modelled. It is floating point and only lays out rows.
- The display order of the move list (`moves.reverse()` when `desc` is set) and the bold highlight of the viewed entry are not modelled. The model keeps `desc` as a flag and gives the label of each step.
- `setState` is modelled as a synchronous, atomic update of the named fields. React's asynchrony and batching are not modelled.
- `Engine.Game.HandleClick` requires `i < 9` and `Engine.Game.JumpTo` requires `step < |history|`. The source does no range checks, and its board only offers such values.
- Only the 9-square board is modelled. The source hard-codes `Array(9)` and the 3x3 line table. Its `total` field is never changed, so it is the constant `Engine.Total`.
- The game as written stores `xIsNext` as a field rather than deriving it from the step. The model keeps the field and proves it always equals the step's parity.
- The game as written has no clamping or error for an out-of-range jump. The model makes the range a precondition, as above.
