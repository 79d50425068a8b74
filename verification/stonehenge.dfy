/**
 * The Stonehenge rules engine: a game state, the capture-evaluating
 * transition (make_move), the terminal test, the winner test and the
 * legal-move enumeration.
 */
module Stonehenge {
  import opened Board

  /** A StonehengeState: whose turn it is, the side length, the cell map
      (init_alpha) and the ley-line map (init_ley). */
  datatype State = State(p1Turn: bool, length: int, cells: map<char, Mark>, lines: map<LineKey, Mark>)

  /** The shape every state built by the source has: a supported length, one
      entry per cell letter and one entry per ley-line key of that length. */
  ghost predicate Valid(s: State) {
    && SupportedLength(s.length)
    && (forall c :: c in s.cells <==> IsLetter(s.length, c))
    && (forall k :: k in s.lines <==> IsLineKey(s.length, k))
  }

  /** get_current_player_name: 'p1' exactly when p1_turn holds. */
  function ToMove(s: State): Player {
    if s.p1Turn then P1 else P2
  }

  /** The string the source keeps for a cell: its own letter while unclaimed, else "1" or "2". */
  function CellValue(c: char, m: Mark): string {
    match m
    case Free => [c]
    case Owned(p) => p.Number()
  }

  /** StonehengeState(is_p1_turn, length): every cell unclaimed, every ley-line '@'. */
  function Initial(p1Turn: bool, n: int): (s: State)
    requires SupportedLength(n)
    ensures Valid(s)
    ensures s.p1Turn == p1Turn && s.length == n
    ensures forall c :: c in s.cells ==> s.cells[c] == Free
    ensures forall k :: k in s.lines ==> s.lines[k] == Free
  {
    var s := State(p1Turn, n, map c | c in Letters(n) :: Free, map k | k in LineKeys(n) :: Free);
    forall c ensures c in s.cells <==> IsLetter(n, c) {
      LettersAreLetters(n, c);
    }
    forall k ensures k in s.lines <==> IsLineKey(n, k) {
      LineKeysAreLineKeys(n, k);
    }
    s
  }

  // ---------------------------------------------------------------------------
  // Counting

  /** How many of the cells named in `members` player `p` owns (a cell named
      twice counts twice). */
  function Count(cells: map<char, Mark>, members: string, p: Player): (k: nat)
    ensures k <= |members|
  {
    if members == [] then 0
    else (if members[0] in cells && cells[members[0]] == Owned(p) then 1 else 0) + Count(cells, members[1..], p)
  }

  /** The number of keys in `ks` whose ley-line holds mark `m`. */
  function LineCount(lines: map<LineKey, Mark>, ks: seq<LineKey>, m: Mark): (k: nat)
    ensures k <= |ks|
  {
    if ks == [] then 0
    else (if ks[0] in lines && lines[ks[0]] == m then 1 else 0) + LineCount(lines, ks[1..], m)
  }

  /** The number of ley-lines player `p` has captured (the p1_score / p2_score loops). */
  function Score(s: State, p: Player): (k: nat)
    requires SupportedLength(s.length)
    ensures k <= 3 * s.length + 3
  {
    LineCount(s.lines, LineKeys(s.length), Owned(p))
  }

  /** least_ley: half of the 3n+3 ley-lines, rounded up. */
  function Need(n: int): (r: int)
    ensures 3 * n + 3 <= 2 * r <= 3 * n + 4
  {
    var all := 3 * n + 3;
    all / 2 + (if all % 2 > 0 then 1 else 0)
  }

  // ---------------------------------------------------------------------------
  // StonehengeGame.is_over, is_winner and StonehengeState.get_possible_moves

  /** is_over: some player has captured at least least_ley ley-lines. */
  predicate IsOver(s: State)
    requires SupportedLength(s.length)
  {
    Score(s, P2) >= Need(s.length) || Score(s, P1) >= Need(s.length)
  }

  /** is_winner(player), evaluated on the game's current state `s`: the game
      is over, the OTHER player is to move, and `p` has the higher score. */
  predicate IsWinner(s: State, p: Player)
    requires SupportedLength(s.length)
    ensures IsWinner(s, p) ==> IsOver(s) && p == ToMove(s).Other()
  {
    || (p == P1 && ToMove(s) == P2 && IsOver(s) && Score(s, P2) < Score(s, P1))
    || (p == P2 && ToMove(s) == P1 && IsOver(s) && Score(s, P2) > Score(s, P1))
  }

  /** The letters `ls` are strictly increasing. */
  predicate Ascending(ls: string) {
    forall i, j :: 0 <= i < j < |ls| ==> ls[i] < ls[j]
  }

  /** The comprehension of get_possible_moves over the letters `ls`: the value
      (which is the letter itself) of every unclaimed cell, in `ls` order. */
  function FreeCells(cells: map<char, Mark>, ls: string): (r: seq<string>)
    ensures |r| <= |ls|
    ensures forall i :: 0 <= i < |r| ==>
      |r[i]| == 1 && r[i][0] in ls && r[i][0] in cells && cells[r[i][0]] == Free
    ensures forall c :: c in ls && c in cells && cells[c] == Free ==> [c] in r
  {
    if ls == [] then []
    else
      var rest := FreeCells(cells, ls[1..]);
      if ls[0] in cells && cells[ls[0]] == Free then [[ls[0]]] + rest else rest
  }

  /** Over letters in ascending order the free cells come out in ascending order. */
  lemma {:induction false} FreeCellsAscending(cells: map<char, Mark>, ls: string)
    requires Ascending(ls)
    ensures forall i, j :: 0 <= i < j < |FreeCells(cells, ls)| ==>
      FreeCells(cells, ls)[i][0] < FreeCells(cells, ls)[j][0]
  {
    if ls != [] {
      var r := FreeCells(cells, ls);
      var rest := FreeCells(cells, ls[1..]);
      FreeCellsAscending(cells, ls[1..]);
      if ls[0] in cells && cells[ls[0]] == Free {
        FreeCellsAbove(cells, ls[1..], ls[0]);
        assert r == [[ls[0]]] + rest;
      }
    }
  }

  /** Free cells drawn from letters above `x` are above `x`. */
  lemma {:induction false} FreeCellsAbove(cells: map<char, Mark>, ls: string, x: char)
    requires forall i :: 0 <= i < |ls| ==> x < ls[i]
    ensures forall i :: 0 <= i < |FreeCells(cells, ls)| ==> x < FreeCells(cells, ls)[i][0]
  {
    if ls != [] {
      FreeCellsAbove(cells, ls[1..], x);
    }
  }

  /** get_possible_moves: nothing once the game is over, else every unclaimed cell in table order. */
  function PossibleMoves(s: State): (r: seq<string>)
    requires SupportedLength(s.length)
    ensures IsOver(s) ==> r == []
    ensures !IsOver(s) ==> forall c :: c in Letters(s.length) && c in s.cells && s.cells[c] == Free ==> [c] in r
    ensures forall i :: 0 <= i < |r| ==> |r[i]| == 1 && r[i][0] in s.cells && s.cells[r[i][0]] == Free
    ensures forall i, j :: 0 <= i < j < |r| ==> r[i][0] < r[j][0]
  {
    LettersAscending(s.length);
    FreeCellsAscending(s.cells, Letters(s.length));
    if IsOver(s) then [] else FreeCells(s.cells, Letters(s.length))
  }

  /** The number of unclaimed cells; every legal move lowers it by one. */
  function FreeCount(s: State): nat
    requires SupportedLength(s.length)
  {
    |FreeCells(s.cells, Letters(s.length))|
  }

  // ---------------------------------------------------------------------------
  // StonehengeState.make_move

  /** The one rule `r` of the table holds for `p` on `cells`. */
  predicate Fires(cells: map<char, Mark>, r: Rule, p: Player) {
    Count(cells, r.members, p) >= r.threshold
  }

  /** Some rule of the size-`n` table that targets `k` holds for `p`. */
  predicate Captures(n: int, cells: map<char, Mark>, p: Player, k: LineKey)
    requires SupportedLength(n)
  {
    exists i :: 0 <= i < |Rules(n)| && Rules(n)[i].target == k && Fires(cells, Rules(n)[i], p)
  }

  /** The state make_move returns, described all at once: every cell whose
      value equals `move` goes to the mover, the turn flips, and every ley-line
      still '@' that some rule lets the mover capture becomes the mover's. */
  function Next(s: State, move: string): State
    requires Valid(s)
  {
    var p := ToMove(s);
    var cells := map c | c in s.cells :: Claimed(s.cells, move, p, c);
    var lines := map k | k in s.lines ::
      if s.lines[k] == Free && Captures(s.length, cells, p, k) then Owned(p) else s.lines[k];
    State(!s.p1Turn, s.length, cells, lines)
  }

  /** make_move as the source runs it: copy both maps, overwrite the matching
      cells, then apply the capture rules one after another. The receiver `s`
      is a value, so it is left as it was. */
  method MakeMove(s: State, move: string) returns (r: State)
    requires Valid(s)
    ensures r == Next(s, move)
  {
    // `move.upper()` is evaluated and discarded: matching stays case-sensitive.
    var playerNo := ToMove(s);
    var n := s.length;
    forall c | c in s.cells ensures c in Letters(n) {
      LettersAreLetters(n, c);
    }
    LettersAscending(n);
    var newCells := ClaimMatching(s.cells, Letters(n), move, playerNo);
    RulesWellFormed(n);
    forall i | 0 <= i < |Rules(n)| ensures Rules(n)[i].target in s.lines {
      assert RuleFits(n, Rules(n)[i]);
    }
    var newLines := ApplyRules(s.lines, newCells, Rules(n), playerNo);
    r := State(!s.p1Turn, n, newCells, newLines);
  }

  /** What the claiming loop leaves in cell `c`: the mover's mark when its value equals `move`. */
  function Claimed(cells: map<char, Mark>, move: string, p: Player, c: char): Mark
    requires c in cells
  {
    if CellValue(c, cells[c]) == move then Owned(p) else cells[c]
  }

  /** The claiming loop of make_move over a copy of `cells`, whose keys are
      `letters`: each cell whose value equals `move` goes to `p`. */
  method ClaimMatching(cells: map<char, Mark>, letters: string, move: string, p: Player)
    returns (newCells: map<char, Mark>)
    requires Ascending(letters)
    requires forall c :: c in cells ==> c in letters
    requires forall i :: 0 <= i < |letters| ==> letters[i] in cells
    ensures newCells == map c | c in cells :: Claimed(cells, move, p, c)
  {
    newCells := cells;
    for i := 0 to |letters|
      invariant newCells.Keys == cells.Keys
      invariant forall j :: i <= j < |letters| ==> newCells[letters[j]] == cells[letters[j]]
      invariant forall j :: 0 <= j < i ==> newCells[letters[j]] == Claimed(cells, move, p, letters[j])
    {
      var a := letters[i];
      if CellValue(a, newCells[a]) == move {
        newCells := newCells[a := Owned(p)];
      }
    }
    forall c | c in cells ensures newCells[c] == Claimed(cells, move, p, c) {
      var j :| 0 <= j < |letters| && letters[j] == c;
    }
  }

  /** The chain of `if` rules of make_move over a copy of `lines`: each rule
      captures its target for `p` when it holds and the target is still '@'. */
  method ApplyRules(lines: map<LineKey, Mark>, cells: map<char, Mark>, rules: seq<Rule>, p: Player)
    returns (newLines: map<LineKey, Mark>)
    requires forall i :: 0 <= i < |rules| ==> rules[i].target in lines
    ensures newLines == map k | k in lines ::
      if lines[k] == Free && exists j :: 0 <= j < |rules| && rules[j].target == k && Fires(cells, rules[j], p)
      then Owned(p) else lines[k]
  {
    newLines := lines;
    for i := 0 to |rules|
      invariant forall k :: k in newLines <==> k in lines
      invariant forall k :: k in lines ==>
        newLines[k] == if lines[k] == Free && exists j :: 0 <= j < i && rules[j].target == k && Fires(cells, rules[j], p)
                       then Owned(p) else lines[k]
    {
      var rule := rules[i];
      if Count(cells, rule.members, p) >= rule.threshold && newLines[rule.target] == Free {
        newLines := newLines[rule.target := Owned(p)];
      }
    }
  }
}
