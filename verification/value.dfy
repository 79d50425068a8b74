/**
 * The game-theoretic value both strategies compute: a terminal position is
 * scored for the player to move the way helper_isover scores it, and any
 * other position is worth the best negated value of its successors.
 */
module GameValue {
  import opened Board
  import opened Stonehenge
  import opened Reachable

  /** helper_isover: 1 if the player to move has won, -1 if the other
      player has, 0 otherwise. */
  function TerminalScore(s: State): (v: int)
    requires SupportedLength(s.length)
    ensures v == -1 <==> IsWinner(s, ToMove(s).Other())
    ensures v == -1 || v == 0
  {
    if IsWinner(s, ToMove(s)) then 1
    else if IsWinner(s, ToMove(s).Other()) then -1
    else 0
  }

  /** Python's max over a non-empty list of scores. */
  function MaxOf(xs: seq<int>): (m: int)
    requires |xs| > 0
    ensures m in xs
    ensures forall i :: 0 <= i < |xs| ==> xs[i] <= m
  {
    if |xs| == 1 then xs[0]
    else
      var rest := MaxOf(xs[1..]);
      if xs[0] >= rest then xs[0] else rest
  }

  /** Every legal move leads to a reachable state with one cell fewer. */
  lemma LegalMovesDescend(s: State)
    requires Sound(s)
    ensures forall m :: m in PossibleMoves(s) ==> Sound(Next(s, m)) && FreeCount(Next(s, m)) < FreeCount(s)
  {
    forall m | m in PossibleMoves(s) ensures Sound(Next(s, m)) && FreeCount(Next(s, m)) < FreeCount(s) {
      SoundNext(s, m);
      LegalMoveDecreases(s, m);
    }
  }

  /** The negamax value of a reachable state for the player to move. */
  function Negamax(s: State): (v: int)
    requires Sound(s)
    ensures -1 <= v <= 1
    decreases FreeCount(s), 1
  {
    if IsOver(s) then TerminalScore(s)
    else
      MovesEmptyIffOver(s);
      MaxOf(MoveValues(s))
  }

  /** The value of each legal move, in get_possible_moves order: the negated
      value of the state it leads to. */
  function MoveValues(s: State): (vs: seq<int>)
    requires Sound(s) && !IsOver(s)
    ensures |vs| == |PossibleMoves(s)| > 0
    ensures forall i :: 0 <= i < |vs| ==> -1 <= vs[i] <= 1
    decreases FreeCount(s), 0
  {
    var moves := PossibleMoves(s);
    MovesEmptyIffOver(s);
    LegalMovesDescend(s);
    seq(|moves|, i requires 0 <= i < |moves| => -Negamax(Next(s, moves[i])))
  }

  /** A game in play is never drawn and never lost by the waiting player: its
      value is 1 or -1. */
  lemma {:induction false} InPlayDecided(s: State)
    requires InPlay(s)
    ensures Negamax(s) == 1 || Negamax(s) == -1
    decreases FreeCount(s)
  {
    if IsOver(s) {
      OverInPlayIsLost(s);
    } else {
      var moves := PossibleMoves(s);
      var vs := MoveValues(s);
      LegalMovesDescend(s);
      forall i | 0 <= i < |vs| ensures vs[i] == 1 || vs[i] == -1 {
        InPlayNext(s, moves[i]);
        InPlayDecided(Next(s, moves[i]));
      }
    }
  }

  /** A position with one unclaimed cell is decided by that move: the
      successor is full and hence over. */
  lemma LastMoveEnds(s: State)
    requires Sound(s) && !IsOver(s) && |PossibleMoves(s)| == 1
    ensures Sound(Next(s, PossibleMoves(s)[0])) && IsOver(Next(s, PossibleMoves(s)[0]))
  {
    var m := PossibleMoves(s)[0];
    LegalMoveDecreases(s, m);
    SoundNext(s, m);
    LettersAscending(s.length);
    FullBoardIsOver(Next(s, m));
  }
}
