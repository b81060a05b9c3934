# Bingo game engine in Dafny

This project models the game logic of the `BingoGame` browser component. It has two roles.
A *caller* draws numbers 1..75 without replacement. A *player* marks numbers on a
randomly generated 5×5 card and wins on a marked row, column or diagonal.

The model follows the component's structure:

- `Shuffle` (shuffle.dfy): `shuffleArray`, the Fisher–Yates shuffle over a copy of its
  argument, as a method on arrays. It is specified by the pure function `Shuffled`.
- `Board` (board.dfy): `generateBoard`, pure. Column c is the first five numbers of a shuffle
  of 15c+1..15c+15. `IsCard` states what every generated card satisfies.
- `Pool` (pool.dfy): the pool behind `callNumber`. The called numbers followed by the
  remaining ones always form a permutation of 1..75.
- `Win` (win.dfy): `checkWin`'s evaluation as the predicate `IsWinning`, also characterised
  as "the marks contain one of the twelve lines". `EvaluateWin` is the method with the
  source's loops and early returns.
- `Display` (display.dfy): the B/I/N/G/O letter index `floor((n-1)/15)` and the player-count
  clamp.
- `Session` (session.dfy): the class `BingoGame`. It has one field per state variable
  (`role`, `board`, `selected`, `called`, `current`, `hasWon`, `remaining`, `numPlayers`)
  and one method per handler and effect.
- `Scenarios` (scenarios.dfy): whole sessions driven through the handlers. One is the
  caller calling all 75 numbers. The other is the player completing column B, with the
  handler as written and with the corrected handler.
- `Seqs` and `Wrappers` (seqs.dfy, wrappers.dfy): sequence facts and the `Option` type.

Randomness is a parameter. `Math.floor(Math.random() * (i + 1))` in the shuffle becomes a
caller-supplied index sequence `js`. `js[k]` is the index chosen when the loop variable is
`i = n - 1 - k`, and `ValidSwaps` requires `0 <= js[k] <= i`. The index drawn by
`callNumber` is a method argument, bounded by the remaining pool's length whenever the pool
is non-empty.

React's deferred state updates matter in one place. `handleCellClick` calls `checkWin()` in
the same closure that queued the toggle, so `checkWin` reads the marked set from before the
click. `BingoGame.HandleCellClick` models exactly that. Its contract says that `hasWon`
becomes `old(hasWon) || (role == Player && IsWinning(board, old(selected)))`. See "## Findings".

The effect on `[board, role]` is the explicit step `FreeCellEffect`. `resetGame` always
replaces the board, so this step runs after every reset (`NewGame`, `SelectRole`, the
constructor).

Three behaviours of the code worth noting:

- `resetGame` generates a new card in both roles, not only in the player role.
- `callNumber` itself does not check the role. Only the view hides its button from the
  player.
- Clicking the free cell unmarks it like any other cell. Nothing re-adds it until the next
  reset.

## Model

| member | source | states |
|---|---|---|
| Shuffle.ShuffleArray | main.jsx:49-56 | returns a fresh array with the input's length whose contents are the Fisher–Yates result `Shuffled(a[..], js)` and a permutation (same multiset) of the input; the input array is only read |
| Shuffle.CopyArray | main.jsx:50 | the spread copy is a fresh array with the argument's contents |
| Shuffle.ShuffleInPlace | main.jsx:51-54 | after the loop the copy holds `Shuffled` of its old contents, iteration by iteration the swaps chosen by `js` |
| Shuffle.SwapElements | main.jsx:53 | the destructuring assignment leaves the array equal to `Swap` of its old contents |
| Shuffle.SwapPermutes | main.jsx:53 | exchanging two positions keeps the multiset of elements |
| Shuffle.StepPermutes | main.jsx:51-54 | one iteration of the loop keeps the multiset of elements |
| Shuffle.ApplySwapsPermutes | main.jsx:51-54 | every prefix of the swap loop keeps the multiset of elements |
| Shuffle.ShuffledPermutes | main.jsx:49-56 | the shuffle has the input's length and elements with the same multiplicities, and a duplicate-free input stays duplicate-free |
| Seqs.RemoveAt | main.jsx:66 | filtering out position `index` leaves the elements before it in place, shifts the later ones down by one, and removes exactly one copy of `s[index]` |
| Seqs.DistinctIffSingleOccurrences | main.jsx:49-56 | a sequence has no duplicates exactly when every value occurs at most once in its multiset |
| Seqs.PermutationPreservesDistinct | main.jsx:49-56 | a permutation of a duplicate-free sequence is duplicate-free |
| Board.Span | main.jsx:40-43 | the range `min..max` is built in increasing order, each number once, holding exactly the numbers from min to max |
| Board.ConsecutiveFacts | main.jsx:40-43 | numbers `i + min` for consecutive `i` are pairwise distinct and are exactly the numbers from min to min + length - 1 |
| Board.GenerateColumn | main.jsx:39-44 | the five numbers kept from a shuffled range are pairwise distinct and lie in 15c+1..15c+15 |
| Board.GenerateBoard | main.jsx:30-46 | every generated board is a card: 5 columns of 5, each column distinct and inside its range |
| Board.CardCellsDistinct | main.jsx:30-46 | two positions of a card hold the same number exactly when they are the same position, so all 25 numbers differ |
| Display.LetterIndex | main.jsx:198 | `floor((n-1)/15)` names the block of fifteen holding n: `15k+1 <= n <= 15k+15` |
| Display.LetterIndexIsColumn | main.jsx:198 | the letter index of n equals c exactly when n lies in column c's range 15c+1..15c+15 |
| Display.LetterIndexOfPoolNumber | main.jsx:198 | the letter index lies in 0..4 exactly for the numbers 1..75 |
| Display.Letter | main.jsx:198 | the B/I/N/G/O lookup is defined (not `undefined`) exactly for 1..75 |
| Display.CardCellLetter | main.jsx:31-37 | every number on a card is shown with the letter of the column that holds it |
| Display.ParsedOrOne | main.jsx:172 | `parseInt(...) \|\| 1` is never 0, maps NaN and 0 to 1 and keeps any other parsed value |
| Display.ClampPlayers | main.jsx:172 | the player count is in 1..50, NaN and 0 give 1, and a value already in 1..50 is kept |
| Display.ClampIsNearest | main.jsx:172 | the clamped count is the value of 1..50 nearest to the parsed number |
| Pool.FullPool | main.jsx:124 | the fresh pool is 1..75 in increasing order, duplicate-free, holding exactly the numbers 1..75 |
| Pool.PoolFacts | main.jsx:59-67 | under the pool invariant no number is called twice, called and remaining numbers are disjoint, each of 1..75 is in one of them, and their lengths add to 75 |
| Pool.FreshPool | main.jsx:124 | no calls and the full pool satisfy the pool invariant |
| Pool.DrawKeepsPoolInvariant | main.jsx:62-66 | moving the element at the drawn index from the pool to the end of the called numbers keeps the invariant |
| Pool.PoolEmptyAfterAllDraws | main.jsx:60-66 | once 75 numbers are called the pool is empty |
| Win.RowCovered | main.jsx:89-94 | the row `board.map(col => col[i])` is wholly marked exactly when column c's i-th number is marked for every column c |
| Win.MainDiagonalCovered | main.jsx:107-110 | the diagonal `board.map((col, i) => col[i])` is wholly marked exactly when every `board[c][c]` is marked |
| Win.AntiDiagonalCovered | main.jsx:108-111 | the diagonal `board.map((col, i) => col[4 - i])` is wholly marked exactly when every `board[c][4 - c]` is marked |
| Win.AllMarked | main.jsx:92 | `every(num => selectedNumbers.has(num))` is true exactly when every element of the line is marked |
| Win.EvaluateWin | main.jsx:86-115 | the row, column and diagonal loops with early return report true exactly when the card is winning |
| Win.WinningIffSomeLineCovered | main.jsx:89-114 | the card is winning exactly when the marked set contains one of its twelve lines (five rows, five columns, two diagonals) |
| Win.WinningIsMonotone | main.jsx:86-115 | marking more numbers never undoes a win |
| Win.SingleMarkDoesNotWin | main.jsx:22-27 | a card whose only mark is one number (the free cell) is not winning |
| Win.EmptyMarksDoNotWin | main.jsx:118-125 | a card with no marks is not winning |
| Session.Toggled | main.jsx:73-81 | the clicked number flips its membership and every other number keeps it |
| Session.ToggleTwice | main.jsx:73-81 | clicking the same number twice restores the marks |
| Session.BingoGame.constructor | main.jsx:7-27 | mounting starts in the player role with one player, a generated card, only the free cell marked, no calls, no current number, no win and the full pool |
| Session.BingoGame.CallNumber | main.jsx:59-67 | with an empty pool nothing changes; otherwise the number at the index leaves the pool, is appended to the called numbers, becomes the current number and was not called before; the pool invariant is kept |
| Session.BingoGame.CheckWin | main.jsx:86-115 | in the player role `hasWon` becomes true when the marks hold a line, otherwise it keeps its value; it is never lowered, and nothing happens in the caller role |
| Session.BingoGame.HandleCellClick | main.jsx:70-83 | no effect in the caller role; in the player role the clicked number flips and nothing else does, and the win is evaluated on the marks from before the click |
| Session.BingoGame.HandleCellClickIntended | main.jsx:70-83 | as HandleCellClick, but the win is evaluated on the marks after the click, so a marked line always shows the win |
| Session.BingoGame.ResetGame | main.jsx:118-125 | a new card, no marks, no calls, no current number, no win, the pool 1..75 in order |
| Session.BingoGame.FreeCellEffect | main.jsx:22-27 | in the player role the centre number `board[2][2]` is added to the marks; in the caller role nothing changes |
| Session.BingoGame.NewGame | main.jsx:187-192 | after a reset and its free-cell effect, the marks are only the free cell (player) or empty (caller), with no win shown |
| Session.BingoGame.SelectRole | main.jsx:132-148 | a role button sets the role and starts a fresh session in it |
| Session.BingoGame.SetNumPlayers | main.jsx:171-174 | the player count becomes the clamp of the parsed input |
| Scenarios.CallWholePool | main.jsx:59-67 | 75 calls without a reset call each of 1..75 exactly once, and a 76th call changes nothing |
| Scenarios.FourOfColumnBDoNotWin | main.jsx:86-115 | the free cell with at most four numbers of column B holds no line |
| Scenarios.ColumnBWins | main.jsx:98-104 | a wholly marked first column is a win |
| Scenarios.StaleWinScenario | main.jsx:70-83 | on any card, clicking the five numbers of column B with the handler as written marks the column but shows no win |
| Scenarios.IntendedWinScenario | main.jsx:70-83 | the same clicks with the corrected handler show the win |

## Left out

- JSX rendering, CSS classes and the `Card`, `Button` and `Alert` components are
  presentation only.
- React's `useState`/`useEffect` scheduling and batching are not modelled. Each handler is a
  sequential update. The effect on `[board, role]` is the explicit `FreeCellEffect` step run
  after each reset. The stale read of `checkWin` is kept.
- The first render, with `board` still `[]` before the mount effect runs, is left out. The
  constructor models the state after the mount effect. No cell can be clicked before then.
- `Math.random` is left out, and so is any claim that boards and draws are uniform. The
  indices are inputs, and only structural properties are proved.
- `parseInt` on the input element's text is a foreign parse. `ClampPlayers` takes its result
  as `Option<int>`, with `None` for NaN.
- `numPlayers` has no modelled effect beyond the clamp, because no game rule reads it.
- The `disabled` state of the Call Number button is not modelled separately. It mirrors
  `callNumber`'s own empty-pool no-op.

## Findings

| source | as written | input that shows it | evidently intended | confidence | as-written member | corrected member |
|---|---|---|---|---|---|---|
| main.jsx:70-83 | `checkWin()` runs in the click handler's closure. `selectedNumbers` there is still the set from before the queued toggle, so the win is evaluated one click late. | A fresh player session on any card: click the five numbers of column B from top to bottom. The column is then wholly marked, but `hasWon` stays false until some later click. | Evaluate the win on the marks after the click, so the banner shows as soon as a line is complete. | not executed | Scenarios.StaleWinScenario | Session.BingoGame.HandleCellClickIntended |
