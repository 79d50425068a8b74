# Stonehenge rules and minimax searches in Dafny

Stonehenge is a two-player board game on a hexagonal board of side length
1 to 5. Players take turns claiming cells (named by capital letters). Each
ley-line (diagonal `/`, anti-diagonal `\` or row `-`) goes to the first
player who holds at least half of its cells. A line once captured never
changes owner, and the game is over once either player holds at least half
of the 3n+3 ley-lines.

This project models two parts of the Python implementation:

- the rules engine in `stonehenge.py`: the per-size cell and ley-line
  tables, `make_move` with its hard-coded capture rules, `is_over`,
  `is_winner`, `get_possible_moves` and `str_to_move`;
- the two minimax strategies in `strategy.py`: the recursive one
  (`helper_isover`, `helper_moves`, `branch_or_not`, `helper_rec_state`,
  `minimax_rec`) and the iterative one (`_Container`, `minimax_iter`).

Modules, in dependency order:

- `Board` (board.dfy): players, marks, ley-line keys, the cell letters and
  the capture-rule table of each size, with the facts the tables satisfy.
- `Stonehenge` (stonehenge.dfy): the state value, `Next` (what `make_move`
  returns) and the imperative `MakeMove` proved equal to it, the scores,
  `IsOver`, `IsWinner` and `PossibleMoves`.
- `Reachable` (reachable.dfy): `Sound`, the invariant of every state a game
  can reach from a fresh board. It says no unclaimed ley-line is already at
  its threshold. The module also holds its preservation, termination and
  the link between "no moves" and "over".
- `StonehengeRules` (rules.dfy): properties of the rules stated across
  several calls.
- `StonehengeGame` (game.dfy): the game object (a class whose `current`
  field the searches swap and restore), the counting loops of `is_over` and
  `is_winner`, and `str_to_move`.
- `GameValue` (value.dfy): the negamax value both searches are proved to
  compute.
- `RecursiveSearch` (recursive.dfy) and `IterativeSearch` (iterative.dfy):
  the two strategies. The iterative one is a class of mutable nodes and a
  `seq` used as the stack.

A state is a value: `make_move` in the source copies both dictionaries
before changing them, so the receiver is never modified. The model writes
this as a method whose input is a value and whose result is proved equal to
the function `Next`. The cell and ley-line dictionaries become
`map<char, Mark>` and `map<LineKey, Mark>`. A cell's Python value (its own
letter while free, `"1"` or `"2"` once claimed) is `CellValue`.

## Model

| member | source | states |
|---|---|---|
| Board.Letters | stonehenge.py:121-161 | the cell letters of size n are 'A', 'B', … in dictionary order, CellCount(n) of them (3, 7, 12, 18, 25) |
| Board.LineKeysAreLineKeys | stonehenge.py:121-168 | a key belongs to the size-n ley-line table exactly when its index is 1..n+1, for each of the three orientations |
| Board.Rules | stonehenge.py:375-664 | the capture rules of make_move for each size as constant data, in evaluation order: target ley-line, member cells and threshold (properties in Board.RulesWellFormed, Board.AxesPartitionCells and the RulesCover lemmas) |
| Board.RulesWellFormed | stonehenge.py:375-664 | make_move has 3n+3 capture rules for size n; every rule targets a key of that size other than '\6', names only cells of that size, and has threshold ceil(members/2) |
| Board.AxesPartitionCells | stonehenge.py:375-664 | the rules of each orientation together list every cell of the board exactly once (a multiset equality with the letters) |
| Board.RulesCover5 | stonehenge.py:569-664 | for size 5 every ley-line key except '\6' is the target of a rule at a fixed position of the table |
| Reachable.TargetCovered | stonehenge.py:375-664 | for every size, every ley-line key except '\6' is the target of some rule |
| Stonehenge.Initial | stonehenge.py:113-168 | a fresh state has the given turn and length, one entry per cell letter and per ley-line key, all unclaimed |
| Stonehenge.FreeCells | stonehenge.py:347-350 | the comprehension keeps exactly the unclaimed cells of the letter list (each as its one-letter value), and nothing else |
| Stonehenge.FreeCellsAscending | stonehenge.py:347-350 | over ascending letters the unclaimed cells come out in ascending order (dictionary order) |
| Stonehenge.PossibleMoves | stonehenge.py:317-350 | [] when the game is over; otherwise every unclaimed cell, each once, in table order, and only unclaimed cells |
| Stonehenge.Score | stonehenge.py:49-55 | the number of ley-lines holding a player's number (p1_score / p2_score), at most 3n+3 |
| Stonehenge.Need | stonehenge.py:46-47 | least_ley: the least r with 2r >= 3n+3, that is ceil((3n+3)/2) |
| Stonehenge.IsOver | stonehenge.py:39-58 | the game is over when either player's line count reaches Need (computed by StonehengeGame.Game.IsOver) |
| Stonehenge.IsWinner | stonehenge.py:60-89 | is_winner on a state: a winner exists only once the game is over and only for the player not to move (full characterisation in StonehengeRules.WinnerRule) |
| Stonehenge.Next | stonehenge.py:353-667 | the state make_move returns, all at once: matching cells claimed, turn flipped, '@' lines captured by a firing rule (MakeMove is proved equal to it) |
| Stonehenge.MakeMove | stonehenge.py:353-667 | the copy-then-overwrite procedure returns exactly Next(s, move): matching cells claimed, turn flipped, '@' lines captured by any firing rule |
| Stonehenge.ClaimMatching | stonehenge.py:367-369 | the claiming loop gives the mover every cell whose value equals the move token and leaves all other cells as they were |
| Stonehenge.ApplyRules | stonehenge.py:375-664 | the chain of guarded `if`s captures a line exactly when it was '@' and some rule targeting it fires for the mover; other lines keep their owner |
| StonehengeRules.InitialNotOver | stonehenge.py:39-58 | a fresh board of size n has 3n+3 lines, both scores 0, and is not over |
| StonehengeRules.InitialMoves | stonehenge.py:317-331 | on a fresh board get_possible_moves lists all CellCount(n) letters in order |
| StonehengeRules.FreeCellsAllFree | stonehenge.py:347-350 | when every listed cell is free the comprehension returns every letter, in order |
| StonehengeRules.UnmatchedMoveKeepsCells | stonehenge.py:367-371 | on any well-formed state, a token that equals no cell's value changes no cell and flips the turn |
| StonehengeRules.UnmatchedMoveOnlyFlipsTurn | stonehenge.py:367-664 | on a reachable state such a token changes nothing but the turn: the re-run capture rules take no ley-line |
| StonehengeRules.ClaimedOrLowerCaseKeepsCells | stonehenge.py:357-369 | naming an already claimed cell, or a lower-case letter (the discarded `move.upper()`), matches no cell value, leaves every cell unchanged and flips the turn |
| StonehengeRules.ClaimedOrLowerCaseOnlyFlipsTurn | stonehenge.py:357-664 | on a reachable state such a move is not rejected: the result is the same state with the turn flipped |
| StonehengeRules.LinesMonotone | stonehenge.py:375-664 | a captured ley-line never changes owner, and an '@' line can only become the mover's |
| StonehengeRules.CaptureAtHalf | stonehenge.py:375-664 | an '@' line becomes the mover's exactly when some rule targeting it has the mover on at least half of its cells |
| StonehengeRules.SizeFiveBackslashSlip | stonehenge.py:653-664 | for size 5 '\6' never changes, and '\5' is captured when either the A,D,H,M,S,Y rule or the B,E,I,N,T rule fires |
| StonehengeRules.WinnerRule | stonehenge.py:60-89 | is_winner(p) holds exactly when the game is over, the other player is to move and p has strictly more lines; never for the player to move |
| Reachable.LegalMoveClaimsOneCell | stonehenge.py:347-369 | a move offered by get_possible_moves names one free cell, and make_move claims that cell and no other |
| Reachable.LegalMoveDecreases | stonehenge.py:353-373 | a legal move keeps the state well formed and lowers the number of free cells by one |
| Reachable.LegalMovesDistinct | stonehenge.py:353-373 | different legal moves lead to different states |
| Reachable.InitialSound | stonehenge.py:113-168 | a fresh board satisfies the reachability invariant |
| Reachable.SoundNext | stonehenge.py:353-667 | a legal move keeps the reachability invariant |
| Reachable.FullBoardIsOver | stonehenge.py:39-58 | a reachable board with every cell claimed is over |
| Reachable.MovesEmptyIffOver | stonehenge.py:333-350 | on reachable states get_possible_moves is empty exactly when is_over holds |
| Reachable.WaitingScoreKept | stonehenge.py:375-664 | make_move never changes the line count of the player who is not moving |
| Reachable.InitialInPlay | stonehenge.py:113-168 | a fresh board is in play: reachable, and the player to move has fewer lines than least_ley |
| Reachable.InPlayNext | stonehenge.py:353-667 | a legal move keeps a game in play |
| Reachable.OverInPlayIsLost | stonehenge.py:60-89 | once a game in play is over, the player who just moved is the winner and the player to move is not |
| StonehengeGame.CountLines | stonehenge.py:49-55 | the counting loop over init_ley yields the two players' captured-line counts |
| StonehengeGame.Game.constructor | stonehenge.py:12-21 | the game starts from a fresh state of the given length and first player |
| StonehengeGame.Game.IsOver | stonehenge.py:39-58 | true exactly when either count reaches least_ley = ceil((3n+3)/2) |
| StonehengeGame.Game.IsWinner | stonehenge.py:60-89 | true exactly when the current state is over, the other player is to move and `player` is strictly ahead |
| StonehengeGame.Upper | stonehenge.py:103 | str.upper() keeps the length and upper-cases each letter |
| StonehengeGame.StripLeftSuffix | stonehenge.py:101-103 | lstrip() returns a suffix and drops only white space |
| StonehengeGame.StripRightPrefix | stonehenge.py:101-103 | rstrip() returns a prefix and drops only white space |
| StonehengeGame.StripIsInfix | stonehenge.py:101-103 | strip() returns a contiguous part of its input, with white space dropped on both sides |
| StonehengeGame.StrToMove | stonehenge.py:91-103 | -1 exactly when the stripped line is empty or not all letters; otherwise an upper-case word as long as the stripped line |
| StonehengeGame.StrToMoveIdempotent | stonehenge.py:91-103 | feeding str_to_move's answer back to it gives the same answer |
| StonehengeGame.StrToMovePadded | stonehenge.py:91-103 | white space around a word is ignored and the word comes back upper-cased |
| StonehengeGame.LegalMovesParse | stonehenge.py:91-103 | every move get_possible_moves offers passes through str_to_move unchanged |
| GameValue.TerminalScore | strategy.py:35-55 | helper_isover's score is -1 exactly when the waiting player has won, else 0; the `return 1` branch never runs |
| GameValue.MaxOf | strategy.py:113 | Python's max: an element of the list, at least every element |
| GameValue.Negamax | strategy.py:88-123 | the negamax value of a reachable state lies in {-1, 0, 1} |
| GameValue.MoveValues | strategy.py:98-115 | one value per legal move, in get_possible_moves order, each in {-1, 0, 1} |
| GameValue.InPlayDecided | strategy.py:88-123 | a game in play is never a draw: its value is 1 or -1 |
| GameValue.LastMoveEnds | strategy.py:116-118 | with a single legal move the successor is reachable and over |
| RecursiveSearch.HelperIsOver | strategy.py:35-55 | swaps in `state`, scores it by is_winner for the player to move and then the other player, and restores `game.current` on every path |
| RecursiveSearch.HelperRecState | strategy.py:88-123 | an int exactly for a finished state (helper_isover's score); otherwise one score per legal move, equal to the move values, including in the single-move `a[0]` branch; the value read off is the negamax value; `game.current` is restored |
| RecursiveSearch.BranchOrNot | strategy.py:73-86 | appends the negated value of the successor to m (a finished successor is evaluated twice); `game.current` is restored |
| RecursiveSearch.HelperMoves | strategy.py:62-71 | appends the negation of the successor's int, or of its list's maximum, which is its negamax value |
| RecursiveSearch.FirstWinOrLast | strategy.py:134-137 | the chosen index is the first score equal to 1, or the last index when no score is 1 |
| RecursiveSearch.FirstWinningMove | strategy.py:134-137 | the scan returns the move at FirstWinOrLast of the scores |
| RecursiveSearch.FirstWinAt | strategy.py:134-137 | an index with no 1 before it that holds 1, or is the last index, is the one FirstWinOrLast picks |
| RecursiveSearch.MinimaxRec | strategy.py:126-137 | returns a legal move of the current state, the first scoring 1 or else the last, and restores `game.current` |
| RecursiveSearch.RecChoiceWinsIfPossible | strategy.py:134-136 | when the position is won, minimax_rec's move scores 1 |
| RecursiveSearch.RecChoiceOptimal | strategy.py:126-137 | in a game in play minimax_rec's move achieves the position's value |
| IterativeSearch.Container.constructor | strategy.py:185-189 | a new node holds its state, no score and no children |
| IterativeSearch.Expand | strategy.py:227-233 | the expansion loop gives the node one fresh, unexpanded child per legal move, in order, each holding that move's successor, and `temp` is the node followed by its children |
| IterativeSearch.AddChild | strategy.py:230-233 | one turn of the expansion loop appends a fresh node for the next move's successor |
| IterativeSearch.PushFront | strategy.py:234-235 | inserting each of temp at the front leaves temp reversed on top of the old stack |
| IterativeSearch.NegatedScores | strategy.py:241 | the list comprehension negates each child's score, in order |
| IterativeSearch.LastIndex | strategy.py:244-247 | the last index holding the target, or -1 when none does |
| IterativeSearch.PopTop | strategy.py:202 | after `stack.pop(0)` the popped node is Good, all its children are scored, and the rest of the stack keeps its layout |
| IterativeSearch.TopChildrenScored | strategy.py:201-241 | children go on the stack above their parent, so when a node comes back to the top all its children are scored |
| IterativeSearch.SetScore | strategy.py:213-241 | storing the negamax value in the popped node restores the loop invariant over the rest of the stack |
| IterativeSearch.ScoreFinished | strategy.py:203-219 | a finished node gets helper_isover's score, which is its negamax value, and `game.current` is restored |
| IterativeSearch.ExpandPopped | strategy.py:227-233 | expanding the popped node builds its children and leaves the rest of the stack and its work unchanged |
| IterativeSearch.ExpandAndPush | strategy.py:227-235 | an unexpanded node is expanded and pushed back under its children; the invariant holds and the remaining work drops |
| IterativeSearch.AfterExpand | strategy.py:227-235 | after an expansion every node is Good, the layout holds over the new nodes and the work measure has decreased |
| IterativeSearch.ScoresAreValues | strategy.py:241 | the negated scores of scored, Good children are the move values of their parent |
| IterativeSearch.ScoreFromChildren | strategy.py:240-241 | an expanded node gets the maximum of its children's negated scores, which is its negamax value |
| IterativeSearch.Step | strategy.py:201-241 | one loop turn keeps the invariant (every node built is Good, so every score is the negamax value) and strictly lowers the remaining work |
| IterativeSearch.LastMatchingChild | strategy.py:244-247 | picks the last child whose negated score equals the target, else the last child |
| IterativeSearch.FirstMoveTo | strategy.py:249-252 | returns a legal move whose successor equals the target, or nothing when no legal move reaches it |
| IterativeSearch.ChosenChild | strategy.py:244-247 | the chosen child stands for the move LastBest picks among the root's move values, and holds that move's successor |
| IterativeSearch.MoveReached | strategy.py:249-252 | since legal moves lead to different states, the first move reaching the chosen child's state is that child's own move |
| IterativeSearch.ChooseMove | strategy.py:244-252 | returns the legal move at the last index whose value equals the root's value |
| IterativeSearch.IterChoiceOptimal | strategy.py:244-247 | the move minimax_iter picks achieves the position's value |
| IterativeSearch.RootReady | strategy.py:201-243 | once the stack is empty the root and all its children are Good and scored |
| IterativeSearch.MinimaxIter | strategy.py:192-252 | terminates, restores `game.current` and returns the legal move at LastBest(move values, negamax value) |

## Left out

- Console I/O: `StonehengeGame.__init__` reads the side length with `input()`; here the length is a constructor parameter. `interactive_strategy` is not part of this model.
- `__str__`, `get_instructions`, `rough_outcome`, `rough_outcome_strategy` and the unused `Tree` class: presentation, a stub heuristic that returns None, and dead code.
- `__repr__` is a stub that returns None, so the `repr(...) == repr(...)` test in minimax_iter (strategy.py:250-251) would raise at run time. `IterativeSearch.FirstMoveTo` compares the two states by value instead (length, cells, ley-lines, turn). That is what the comparison is for.
- The `Game`/`GameState` base classes are not part of this model: `get_current_player_name()` is `'p1'` exactly when `p1Turn` holds.
- Board lengths outside 1..5: the source silently uses the size-5 tables for them while `is_over` still counts 3n+3 lines. Every operation requires `SupportedLength`.
- On unreachable but well-formed dictionaries, a move that matches no cell can still capture ley-lines, because make_move re-runs every rule. StonehengeRules.UnmatchedMoveOnlyFlipsTurn states the "only the turn flips" behaviour for reachable states only.
- `Stonehenge.MakeMove` takes the move as a string. `str_to_move`'s `-1` (an int) equals no cell value, so it behaves like a string that matches no cell; `StonehengeRules.UnmatchedMoveKeepsCells` covers that case.
- `StonehengeGame.StrToMove`: `isalpha` and `upper` are modelled for ASCII letters only; non-ASCII letters count as non-letters. `isspace` follows Python's full white-space set.
- RecursiveSearch.MinimaxRec and IterativeSearch.MinimaxIter require a game that is not over, so the source's failures there are not modelled. On a finished game helper_rec_state returns an int, and minimax_rec's `len(score_lst)` raises TypeError (strategy.py:92-93, 134). minimax_iter scores the lone root and then raises IndexError on `_last.children[-1]` (strategy.py:244). On an unreachable state that is not over but has no free cells, minimax_iter pushes the childless root back forever (strategy.py:227-235); the reachability requirement below excludes that case.
- `RecursiveSearch.HelperRecState`, `RecursiveSearch.MinimaxRec` and `IterativeSearch.MinimaxIter` require the state to be reachable from a fresh board (`Sound`). On unreachable dictionaries the source can index an empty move list or see a board with no free cells that is not over.
- `RecursiveSearch.HelperRecState`: in the single-move branch the source reads `a[0]` from the successor's list. On reachable states that successor is always finished, so the list case is proved never to happen; the model keeps the branch and shows it is dead rather than modelling a value for it.
- `IterativeSearch.Container.state` is a `const`: the source never reassigns a node's state after building it.
- The bodies of minimax_iter's loop are split into methods (`Step`, `ScoreFinished`, `ExpandAndPush`, `ExpandPopped`, `ScoreFromChildren`, `AddChild`), and minimax_rec's scan is `FirstWinningMove`. The terminal branch of minimax_iter repeats helper_isover's code (strategy.py:204-219); the model runs `HelperIsOver` there, which performs the same swap, tests and restore.
- The model does not claim that the two searches pick the same move. The recursive one takes the first move scoring 1 and the iterative one the last optimal child. Each is proved to return a legal move, and each optimal where the source promises it.
- Run time and memory of the exhaustive searches are not modelled; only termination is (the number of free cells for the recursion, a bound on the remaining pops for the loop).
