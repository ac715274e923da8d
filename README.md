# Tic-tac-toe game engine, modelled and verified in Dafny

The browser game `script.js` lets two named players take turns on a 3x3
board. Its game logic is a small state machine held in module-level
variables:

- the nine-cell `board`, each cell `''`, `'x'` or `'o'`;
- `isXTurn`, true when X is to move;
- `gameOver`, which locks the board after a win or a draw;
- the two player names.

Three event handlers change that state:

- a cell click (`onCellClick`) places the current mark, then checks for a
  win, then for a draw, and only if neither happened passes the turn;
- `resetBoard` starts a fresh game;
- the start button reads the two names, trims them, falls back to
  "Player 1" / "Player 2", resets the board and prompts the first player.

This project models that engine and proves what it guarantees.

- `grid.dfy` (module `Grid`): cells (`Empty`, `X`, `O` stand for `''`,
  `'x'`, `'o'`), the fixed table of eight winning lines, the two board
  predicates `CheckWin` and `IsDraw`, and mark counts. It also proves that
  the table lists exactly the straight lines of the grid.
- `names.dfy` (module `Names`): JavaScript's `trim`, the name defaulting of
  the start button, the choice of the player named in a message, and the
  message texts.
- `rules.dfy` (module `Rules`): the engine state as a value (`Play`), a
  click as a pure transition (`Click`), the text shown after it
  (`Announce`), runs of clicks (`Run`), and the invariant `Consistent` that
  every reachable state satisfies, with the lemmas about them.
- `engine.dfy` (module `Engine`): class `Game`, with the source's state as
  fields. The board is an `array` written in place by a click and replaced
  by a fresh one on reset. Each handler is proved to follow `Rules`.
- `wrappers.dfy`: an `Option` type.

The invariant `Consistent` states the following. While the game is on:

- X has as many marks as O when it is X's turn, and one more otherwise;
- neither mark has a complete line;
- some cell is free.

Once the game is over:

- the player named by `isXTurn` moved last, because a win or a draw does
  not pass the turn;
- that player has a line, or the board is full;
- the other player has no line.

## Model

| member | source | states |
|---|---|---|
| `Grid.EmptyBoard` | script.js:17 | a fresh board has all nine cells empty |
| `Grid.WinsAreTheStraightLines` | script.js:21-25 | the table of eight winning lines lists every straight line of three cells on the 3x3 grid (rows, columns, both diagonals) and nothing else |
| `Grid.CheckWin` | script.js:73-77 | the definition of `checkWin`: some line of the table has all three cells equal to `m` (its meaning is stated by `Grid.WinIsStraightLine`) |
| `Grid.WinIsStraightLine` | script.js:73-77 | a mark has won exactly when it fills some straight line of three cells on the grid, a definition independent of the table |
| `Grid.IsDraw` | script.js:80-82 | the definition of `isDraw`: no cell is empty |
| `Grid.DrawIsNoEmptyCell` | script.js:80-82 | a board counts as full exactly when the count of empty cells is zero |
| `Grid.PlaceKeepsOtherLinesOpen` | script.js:52 | writing one mark into a cell never completes a line of the other mark |
| `Grid.NewLineRunsThroughMove` | script.js:52-55 | a line of `m` that appears when `m` is written into a cell runs through that cell |
| `Grid.CountExtremes` | script.js:80-81 | a count equals the board size exactly when every cell holds that value, and is zero exactly when no cell does; with the value empty, zero is the full board that `isDraw` tests for |
| `Grid.CountUpdate` | script.js:52 | overwriting one cell moves exactly that cell from the count of its old value to the count of its new value |
| `Names.InputText` | script.js:29-30 | a missing input value reads as the empty text, a present one as itself (`value \|\| ''`) |
| `Names.SkipSpaces` | script.js:29-30 | returns the first position not holding white space; everything skipped is white space |
| `Names.SkipSpacesBack` | script.js:29-30 | returns the end of the text once trailing white space is dropped; everything dropped is white space |
| `Names.Trim` | script.js:29-30 | the result is a slice of the input with only white space before and after it; it is empty exactly when the input is all white space; otherwise it neither starts nor ends with white space |
| `Names.TrimIdempotent` | script.js:29-30 | trimming a trimmed text changes nothing |
| `Names.NameOrDefault` | script.js:29-30 | a missing or blank input gives the fallback name; any other input gives its trimmed text, which is never empty |
| `Names.BlankInputsGiveDefaults` | script.js:29-30 | empty, all-space and missing inputs give "Player 1" and "Player 2" |
| `Names.TypedNameIsKept` | script.js:29-30 | a typed name "Alice" becomes player 1's name unchanged |
| `Names.PaddedNameIsTrimmed` | script.js:29-30 | " Bob" followed by a tab becomes player 2's name "Bob" |
| `Names.PlayerName` | script.js:56 | player 1's name on X's turn, player 2's name on O's turn (the same choice is made at script.js:86) |
| `Names.TurnText` | script.js:87 | the prompt is the name of the player it addresses followed by ", you're up" |
| `Names.WinText` | script.js:57 | the congratulation is the name of the winner followed by " congratulations you won!" |
| `Rules.Mover` | script.js:51 | the mark placed is X exactly on X's turn |
| `Rules.Initial` | script.js:14-18 | a fresh game has every cell empty, X to move and the game on |
| `Rules.Click` | script.js:45-70 | a click is ignored, with nothing changed, exactly when the game is over or the cell is taken. Otherwise it writes the mover's mark into that cell and leaves every other cell alone. It is a win exactly when that mark now fills a line, even if the board is also full. It is a draw exactly when there is no such line and no cell is empty. The game ends exactly on a win or a draw. The turn passes exactly when the game goes on |
| `Rules.InitialConsistent` | script.js:14-18 | the state of a fresh game satisfies the invariant |
| `Rules.ClickPreservesConsistent` | script.js:51-68 | a click keeps the invariant: mark counts match the turn, no line while in progress, and the winner is the player who just moved |
| `Rules.ClickFillsOneCell` | script.js:49-52 | a click that is not ignored fills exactly one more cell; an ignored click fills none |
| `Rules.WinRunsThroughClick` | script.js:55-60 | a winning click completes a line of the clicking player's mark that runs through the clicked cell |
| `Rules.RunPreservesConsistent` | script.js:45-70 | any sequence of clicks keeps the invariant |
| `Rules.ReachableIsConsistent` | script.js:91-94 | every state reached by clicks from a fresh game satisfies the invariant |
| `Rules.OverIsFinal` | script.js:46 | once the game is over, no sequence of clicks changes the board, the turn or the game-over flag |
| `Rules.Announce` | script.js:55-69 | an ignored click shows nothing new; a win shows the congratulation for the player who just moved; a draw shows "It's a draw!"; an ordinary move shows the prompt for the player now to move |
| `Rules.WinnerIsNamed` | script.js:55-58 | after a win exactly one mark has a line, and the congratulation names player 1 if it is X and player 2 if it is O |
| `Rules.PromptNamesPlayerToMove` | script.js:68-69 | after an ordinary move the prompt names player 1 exactly when X and O have placed the same number of marks |
| `Rules.TopRowScenario` | script.js:45-70 | clicks 0, 3, 1, 4 pass the turn, and click 2 then wins the top row for X, congratulating player 1 |
| `Rules.DrawScenario` | script.js:62-66 | clicks 0, 2, 1, 3, 5, 4, 6, 7 pass the turn, and click 8 then fills the board with no line and ends the game in a draw |
| `Engine.Game.constructor` | script.js:14-18 | the initial names are "Player 1" and "Player 2", the board is empty, X is to move and the game is on |
| `Engine.Game.NewBoard` | script.js:92 | a new array of nine cells, all empty |
| `Engine.Game.ResetBoard` | script.js:91-96 | whatever the state before, the board becomes a fresh array of nine empty cells, X is to move and the game is on; the names stay |
| `Engine.Game.Submit` | script.js:28-37 | the names become the defaulted inputs, the game is reset, and the prompt returned names player 1 |
| `Engine.Game.OnCellClick` | script.js:45-70 | the new state is exactly `Click` of the old one, written in place into the same array. The returned text is `Announce` of the outcome: nothing for an ignored click, the congratulation, the draw message, or the prompt for the next player. The invariant is kept and the names do not change |
| `Engine.Game.TurnMessage` | script.js:85-88 | while the game is on, the prompt names player 1 exactly when X and O have placed the same number of marks |

## Left out

- DOM lookups, event-listener wiring, and the display of marks and
  messages (script.js:3-11, 33-34, 40-42, 53, 95). The handlers return
  the message text instead of writing it into the page.
- Turning a cell's element id into an index (script.js:48). A click names
  its cell directly by an index in 0..8.
- Clicks on an out-of-range or non-numeric index are not modelled. The
  source does not guard them: it would read and write a property outside
  cells 0..8. `Engine.Game.OnCellClick` therefore takes an index of type
  `Index` (0..8).
- Strings are sequences of Unicode scalar values. JavaScript strings are
  UTF-16 code units, so a lone surrogate in a name input cannot be
  represented. The white space that `trim` removes is the fixed ECMAScript
  set of WhiteSpace and LineTerminator code points, written out in
  `Names.IsSpace`.
- The comment at script.js:72 calls the marks 'X' and 'O'. The code
  (script.js:51) writes the lowercase 'x' and 'o', and the model follows
  the code.
