/**
 * What the Stonehenge rules engine promises: the fresh board, the effect of
 * make_move on cells and ley-lines, the size-5 table's '\5' / '\6' slip and
 * the turn-dependent winner test.
 */
module StonehengeRules {
  import opened Board
  import opened Stonehenge
  import opened Reachable

  lemma {:induction false} FreeCellsAllFree(cells: map<char, Mark>, ls: string)
    requires Ascending(ls)
    requires forall i :: 0 <= i < |ls| ==> ls[i] in cells && cells[ls[i]] == Free
    ensures FreeCells(cells, ls) == seq(|ls|, i requires 0 <= i < |ls| => [ls[i]])
  {
    if ls != [] {
      assert Ascending(ls[1..]);
      FreeCellsAllFree(cells, ls[1..]);
    }
  }

  /** A fresh board of side n has 3n+3 ley-lines, all '@': nobody has
      scored and the game is not over. */
  lemma InitialNotOver(p1Turn: bool, n: int)
    requires SupportedLength(n)
    ensures |LineKeys(n)| == 3 * n + 3
    ensures Score(Initial(p1Turn, n), P1) == 0 && Score(Initial(p1Turn, n), P2) == 0
    ensures !IsOver(Initial(p1Turn, n))
  {
    var s := Initial(p1Turn, n);
    FreeLinesNone(s.lines, LineKeys(n));
  }

  /** On a fresh board of side n every one of its CellCount(n) (3, 7, 12, 18
      or 25) cells is a legal move, offered in table order. */
  lemma InitialMoves(p1Turn: bool, n: int)
    requires SupportedLength(n)
    ensures FreeCount(Initial(p1Turn, n)) == CellCount(n)
    ensures PossibleMoves(Initial(p1Turn, n)) == seq(CellCount(n), i requires 0 <= i < CellCount(n) => [Letters(n)[i]])
  {
    var s := Initial(p1Turn, n);
    InitialNotOver(p1Turn, n);
    LettersAscending(n);
    forall i | 0 <= i < |Letters(n)| ensures Letters(n)[i] in s.cells {
      LettersAreLetters(n, Letters(n)[i]);
    }
    FreeCellsAllFree(s.cells, Letters(n));
  }

  /** A move token that no cell's value equals (a claimed cell's letter, a
      lower-case letter, an unknown letter) changes no cell: make_move only
      flips the turn and re-runs the capture rules. */
  lemma UnmatchedMoveKeepsCells(s: State, move: string)
    requires Valid(s)
    requires forall c :: c in s.cells ==> CellValue(c, s.cells[c]) != move
    ensures Next(s, move).cells == s.cells
    ensures Next(s, move).p1Turn == !s.p1Turn
  {
  }

  /** The two cases the source leaves open: naming an already claimed cell,
      and naming a cell in lower case (make_move's `move.upper()` is discarded). */
  lemma ClaimedOrLowerCaseKeepsCells(s: State, c: char)
    requires Valid(s)
    requires (c in s.cells && s.cells[c] != Free) || 'a' <= c <= 'z'
    ensures forall d :: d in s.cells ==> CellValue(d, s.cells[d]) != [c]
    ensures Next(s, [c]).cells == s.cells
    ensures Next(s, [c]).p1Turn == !s.p1Turn
  {
    forall d | d in s.cells ensures CellValue(d, s.cells[d]) != [c] {
      match s.cells[d]
      case Free => assert [d] == [c] ==> d == c;
      case Owned(q) => assert CellValue(d, s.cells[d]) == q.Number();
    }
    UnmatchedMoveKeepsCells(s, [c]);
  }

  /** On a reachable state a token that matches no cell changes nothing but
      the turn: the re-run capture rules find no rule at its threshold on an
      unclaimed ley-line, because the cells are those they were checked on. */
  lemma UnmatchedMoveOnlyFlipsTurn(s: State, move: string)
    requires Sound(s)
    requires forall c :: c in s.cells ==> CellValue(c, s.cells[c]) != move
    ensures Next(s, move) == s.(p1Turn := !s.p1Turn)
  {
    var t, n, p := Next(s, move), s.length, ToMove(s);
    UnmatchedMoveKeepsCells(s, move);
    forall k | k in s.lines && s.lines[k] == Free ensures !Captures(n, t.cells, p, k) {
      forall i | 0 <= i < |Rules(n)| && Rules(n)[i].target == k ensures !Fires(t.cells, Rules(n)[i], p) {
        assert Rules(n)[i].target in s.lines && s.lines[Rules(n)[i].target] == Free;
      }
    }
    assert t.lines == s.lines;
  }

  /** On a reachable state naming an already claimed cell, or a cell in lower
      case, is not rejected: the move only hands the turn to the other player. */
  lemma ClaimedOrLowerCaseOnlyFlipsTurn(s: State, c: char)
    requires Sound(s)
    requires (c in s.cells && s.cells[c] != Free) || 'a' <= c <= 'z'
    ensures Next(s, [c]) == s.(p1Turn := !s.p1Turn)
  {
    ClaimedOrLowerCaseKeepsCells(s, c);
    UnmatchedMoveOnlyFlipsTurn(s, [c]);
  }

  /** A captured ley-line never changes hands, and an '@' ley-line can only go to the mover. */
  lemma LinesMonotone(s: State, move: string)
    requires Valid(s)
    ensures forall k :: k in s.lines && s.lines[k] != Free ==> Next(s, move).lines[k] == s.lines[k]
    ensures forall k :: k in s.lines && s.lines[k] == Free ==>
      Next(s, move).lines[k] in {Free, Owned(ToMove(s))}
  {
  }

  /** An '@' ley-line goes to the mover exactly when the mover, after the
      move, owns at least half (rounded up) of the cells of a rule for it. */
  lemma CaptureAtHalf(s: State, move: string, k: LineKey)
    requires Valid(s) && k in s.lines && s.lines[k] == Free
    ensures var t := Next(s, move);
      t.lines[k] == Owned(ToMove(s)) <==>
        exists i :: 0 <= i < |Rules(s.length)| && Rules(s.length)[i].target == k &&
          2 * Count(t.cells, Rules(s.length)[i].members, ToMove(s)) >= |Rules(s.length)[i].members|
  {
    var n, t, p := s.length, Next(s, move), ToMove(s);
    RulesWellFormed(n);
    forall i | 0 <= i < |Rules(n)|
      ensures Fires(t.cells, Rules(n)[i], p) <==> 2 * Count(t.cells, Rules(n)[i].members, p) >= |Rules(n)[i].members|
    {
      assert RuleFits(n, Rules(n)[i]);
    }
  }

  /** The size-5 table's last rule writes '\5' where '\6' was meant: '\6' is
      never captured, and '\5' is captured by either of its two rules. */
  lemma SizeFiveBackslashSlip(s: State, move: string)
    requires Valid(s) && s.length == 5
    ensures Next(s, move).lines[Uncapturable] == s.lines[Uncapturable]
    ensures var t, p, k := Next(s, move), ToMove(s), LineKey(Backslash, 5);
      s.lines[k] == Free ==>
        (t.lines[k] == Owned(p) <==> Count(t.cells, "ADHMSY", p) >= 3 || Count(t.cells, "BEINT", p) >= 3)
  {
    RulesWellFormed(5);
    var t, p, k := Next(s, move), ToMove(s), LineKey(Backslash, 5);
    forall i | 0 <= i < |Rules(5)| ensures Rules(5)[i].target != Uncapturable {
      assert RuleFits(5, Rules(5)[i]);
    }
    assert forall i :: 0 <= i < 16 ==> Rules(5)[i].target != k;
    assert Rules(5)[16] == Rule(k, "ADHMSY", 3);
    assert Rules(5)[17] == Rule(k, "BEINT", 3);
  }

  /** is_winner(p) holds exactly when the game is over, the other player is
      to move and p has captured strictly more ley-lines; so it never holds
      for the player to move. */
  lemma WinnerRule(s: State, p: Player)
    requires SupportedLength(s.length)
    ensures IsWinner(s, p) <==> IsOver(s) && ToMove(s) == p.Other() && Score(s, p) > Score(s, p.Other())
    ensures !IsWinner(s, ToMove(s))
  {
  }
}
