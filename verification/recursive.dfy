/**
 * The recursive minimax strategy: helper_isover, helper_moves,
 * branch_or_not, helper_rec_state and minimax_rec, over a game object whose
 * current state is swapped out and restored while a position is scored.
 */
module RecursiveSearch {
  import opened Board
  import opened Stonehenge
  import opened Reachable
  import opened StonehengeGame
  import opened GameValue

  /** What helper_rec_state returns: an int for a finished game, else a list
      with one score per legal move. */
  datatype Eval = Leaf(v: int) | Branch(scores: seq<int>)

  /** The number a caller reads off an Eval: the int itself, or the list's maximum. */
  function Value(e: Eval): int
    requires e.Leaf? || |e.scores| > 0
  {
    match e
    case Leaf(v) => v
    case Branch(scores) => MaxOf(scores)
  }

  /** helper_isover: make `state` the game's current state, ask is_winner for
      the player to move and then for the other player, and put the old
      current state back on every path. */
  method HelperIsOver(game: Game, state: State) returns (r: int)
    requires SupportedLength(state.length)
    modifies game
    ensures game.current == old(game.current)
    ensures r == TerminalScore(state)
  {
    var oldState := game.current;
    game.current := state;
    var player := ToMove(game.current);
    var player2 := player.Other();
    var moverWon := game.IsWinner(player);
    if moverWon {
      // is_winner never holds for the player to move, so `return 1` is unreachable.
      assert false;
    }
    var otherWon := game.IsWinner(player2);
    if otherWon {
      game.current := oldState;
      return -1;
    }
    game.current := oldState;
    return 0;
  }

  /** helper_rec_state: the terminal score of a finished game; otherwise the
      list of move scores, where a lone move scores the negation of its
      successor's int or of the FIRST entry of its successor's list. */
  method HelperRecState(game: Game, state: State) returns (e: Eval)
    requires Sound(state)
    modifies game
    ensures game.current == old(game.current)
    ensures e.Leaf? <==> IsOver(state)
    ensures e.Leaf? ==> e.v == TerminalScore(state)
    ensures e.Branch? ==> !IsOver(state) && e.scores == MoveValues(state)
    ensures (e.Leaf? || |e.scores| > 0) && Value(e) == Negamax(state)
    decreases FreeCount(state), 0
  {
    var over := game.IsOver(state);
    if over {
      var v := HelperIsOver(game, state);
      assert v == Negamax(state);
      return Leaf(v);
    }
    var possibleMoves := PossibleMoves(state);
    ghost var values := MoveValues(state);
    if |possibleMoves| > 1 {
      var l: seq<int> := [];
      for i := 0 to |possibleMoves|
        invariant game.current == old(game.current)
        invariant |l| == i && forall j :: 0 <= j < i ==> l[j] == values[j]
      {
        var m: seq<int> := [];
        var newState := MakeMove(state, possibleMoves[i]);
        SoundNext(state, possibleMoves[i]);
        LegalMoveDecreases(state, possibleMoves[i]);
        m := BranchOrNot(game, newState, m);
        var best := MaxOf(m);
        assert best == values[i];
        PrefixGrows(l, values, best);
        l := l + [best];
      }
      assert l == values;
      return Branch(l);
    } else {
      var newState := MakeMove(state, possibleMoves[0]);
      LastMoveEnds(state);
      LegalMoveDecreases(state, possibleMoves[0]);
      var a := HelperRecState(game, newState);
      var b: int;
      if a.Branch? {
        // The lone move fills the last cell, so the successor is finished
        // and the source's list case here never runs.
        assert false;
      } else {
        b := -1 * a.v;
      }
      assert b == values[0];
      assert [b] == values;
      return Branch([b]);
    }
  }

  lemma PrefixGrows(l: seq<int>, values: seq<int>, next: int)
    requires |l| < |values| && next == values[|l|]
    requires forall j :: 0 <= j < |l| ==> l[j] == values[j]
    ensures forall j :: 0 <= j < |l| + 1 ==> (l + [next])[j] == values[j]
  {
  }

  /** branch_or_not: append the negated value of `newState` to `m`; a
      finished successor is evaluated twice, as the source does. */
  method BranchOrNot(game: Game, newState: State, m: seq<int>) returns (r: seq<int>)
    requires Sound(newState)
    modifies game
    ensures game.current == old(game.current)
    ensures r == m + [-Negamax(newState)]
    decreases FreeCount(newState), 2
  {
    var first := HelperRecState(game, newState);
    if first.Leaf? {
      var again := HelperRecState(game, newState);
      r := m + [again.v * -1];
    } else {
      r := HelperMoves(game, newState, m);
    }
  }

  /** helper_moves: append the negation of the maximum of `newState`'s list
      (or of its int) to `m`. */
  method HelperMoves(game: Game, newState: State, m: seq<int>) returns (r: seq<int>)
    requires Sound(newState)
    modifies game
    ensures game.current == old(game.current)
    ensures r == m + [-Negamax(newState)]
    decreases FreeCount(newState), 1
  {
    var c := HelperRecState(game, newState);
    var b := if c.Branch? then MaxOf(c.scores) * -1 else c.v * -1;
    assert b == -Value(c);
    r := m + [b];
  }

  /** minimax_rec's choice among the move scores: the first 1, else the last entry. */
  function FirstWinOrLast(scores: seq<int>): (i: nat)
    requires |scores| > 0
    ensures i < |scores|
    ensures scores[i] == 1 ==> forall j :: 0 <= j < i ==> scores[j] != 1
    ensures scores[i] != 1 ==> i == |scores| - 1 && forall j :: 0 <= j < |scores| ==> scores[j] != 1
  {
    if scores[0] == 1 || |scores| == 1 then 0 else 1 + FirstWinOrLast(scores[1..])
  }

  /** minimax_rec: score every move of the current state, return the first
      move scoring 1, and otherwise the last legal move. */
  method MinimaxRec(game: Game) returns (move: string)
    requires Sound(game.current) && !IsOver(game.current)
    modifies game
    ensures game.current == old(game.current)
    ensures move in PossibleMoves(game.current)
    ensures move == PossibleMoves(game.current)[FirstWinOrLast(MoveValues(game.current))]
  {
    var scoreLst := HelperRecState(game, game.current);
    var possibleLst := PossibleMoves(game.current);
    move := FirstWinningMove(scoreLst.scores, possibleLst);
  }

  /** minimax_rec's scan of the score list: the move at the first score 1,
      or the last move when no score is 1. */
  method FirstWinningMove(scores: seq<int>, possibleLst: seq<string>) returns (move: string)
    requires |scores| == |possibleLst| > 0
    ensures move == possibleLst[FirstWinOrLast(scores)]
  {
    for i := 0 to |scores|
      invariant forall j :: 0 <= j < i ==> scores[j] != 1
    {
      if scores[i] == 1 {
        FirstWinAt(scores, i);
        return possibleLst[i];
      }
    }
    FirstWinAt(scores, |scores| - 1);
    return possibleLst[|possibleLst| - 1];
  }

  /** The index FirstWinOrLast picks is the first 1 when there is one, and
      the last index otherwise. */
  lemma FirstWinAt(scores: seq<int>, i: nat)
    requires i < |scores| && forall j :: 0 <= j < i ==> scores[j] != 1
    requires scores[i] == 1 || (i == |scores| - 1 && scores[i] != 1)
    ensures FirstWinOrLast(scores) == i
  {
  }

  /** minimax_rec takes a winning move whenever there is one. */
  lemma RecChoiceWinsIfPossible(s: State)
    requires Sound(s) && !IsOver(s) && Negamax(s) == 1
    ensures MoveValues(s)[FirstWinOrLast(MoveValues(s))] == 1
  {
  }

  /** In a game in play every move scores 1 or -1, so minimax_rec's move
      always achieves the position's value. */
  lemma RecChoiceOptimal(s: State)
    requires InPlay(s) && !IsOver(s)
    ensures MoveValues(s)[FirstWinOrLast(MoveValues(s))] == Negamax(s)
  {
    var vs := MoveValues(s);
    var moves := PossibleMoves(s);
    LegalMovesDescend(s);
    forall i | 0 <= i < |vs| ensures vs[i] == 1 || vs[i] == -1 {
      InPlayNext(s, moves[i]);
      InPlayDecided(Next(s, moves[i]));
    }
  }
}
