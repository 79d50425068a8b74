/**
 * The states the game actually reaches: a fresh board and everything that
 * legal moves (those of get_possible_moves) lead to. On such states every
 * ley-line still '@' is one neither player could already have captured, and
 * from that the terminal test and the move list fit together: a game that
 * is not over always has a legal move, so both searches are total on them.
 */
module Reachable {
  import opened Board
  import opened Stonehenge

  /** Every ley-line still '@' has neither player at its threshold on any rule that targets it. */
  ghost predicate Settled(s: State)
    requires SupportedLength(s.length)
  {
    forall i :: 0 <= i < |Rules(s.length)| ==>
      var r := Rules(s.length)[i];
      r.target in s.lines && s.lines[r.target] == Free ==>
        Count(s.cells, r.members, P1) < r.threshold && Count(s.cells, r.members, P2) < r.threshold
  }

  /** The invariant of every reachable state. */
  ghost predicate Sound(s: State) {
    Valid(s) && Settled(s)
  }

  // ---------------------------------------------------------------------------
  // Counting helpers

  lemma CountNone(cells: map<char, Mark>, ms: string, p: Player)
    requires forall c :: c in cells ==> cells[c] == Free
    ensures Count(cells, ms, p) == 0
  {
  }

  /** Claiming one unclaimed cell for `p` leaves the other player's counts alone. */
  lemma {:induction false} CountClaimOther(cells: map<char, Mark>, c: char, ms: string, p: Player, q: Player)
    requires c in cells && cells[c] == Free && q != p
    ensures Count(cells[c := Owned(p)], ms, q) == Count(cells, ms, q)
  {
    if ms != [] {
      CountClaimOther(cells, c, ms[1..], p, q);
    }
  }

  /** When every member is claimed, the two players' counts add up to the number of members. */
  lemma {:induction false} CountSplit(cells: map<char, Mark>, ms: string)
    requires forall c :: c in ms ==> c in cells && cells[c] != Free
    ensures Count(cells, ms, P1) + Count(cells, ms, P2) == |ms|
  {
    if ms != [] {
      assert ms[0] in ms;
      CountSplit(cells, ms[1..]);
      match cells[ms[0]]
      case Owned(q) => assert q == P1 || q == P2;
    }
  }

  /** How often `u` occurs in `ks`. */
  function Occurrences(ks: seq<LineKey>, u: LineKey): nat {
    if ks == [] then 0 else (if ks[0] == u then 1 else 0) + Occurrences(ks[1..], u)
  }

  lemma {:induction false} OccurrencesAppend(a: seq<LineKey>, b: seq<LineKey>, u: LineKey)
    ensures Occurrences(a + b, u) == Occurrences(a, u) + Occurrences(b, u)
  {
    if a != [] {
      assert (a + b)[0] == a[0];
      assert (a + b)[1..] == a[1..] + b;
      OccurrencesAppend(a[1..], b, u);
    } else {
      assert a + b == b;
    }
  }

  lemma {:induction false} OccurrencesAxis(d: Orientation, count: nat, u: LineKey)
    ensures Occurrences(AxisKeys(d, count), u) == if u.dir == d && 1 <= u.index <= count then 1 else 0
  {
    if count > 0 {
      OccurrencesAxis(d, count - 1, u);
      OccurrencesAppend(AxisKeys(d, count - 1), [LineKey(d, count)], u);
    }
  }

  /** '\6' is a key of the size-5 board only. */
  lemma UncapturableOccurrences(n: int)
    requires SupportedLength(n)
    ensures Occurrences(LineKeys(n), Uncapturable) == if n == 5 then 1 else 0
  {
    var a, b, c := AxisKeys(Slash, n + 1), AxisKeys(Backslash, n + 1), AxisKeys(Dash, n + 1);
    OccurrencesAppend(a + b, c, Uncapturable);
    OccurrencesAppend(a, b, Uncapturable);
    OccurrencesAxis(Slash, n + 1, Uncapturable);
    OccurrencesAxis(Backslash, n + 1, Uncapturable);
    OccurrencesAxis(Dash, n + 1, Uncapturable);
  }

  /** Every line is unclaimed, player 1's or player 2's. */
  lemma {:induction false} LineCountSplit(lines: map<LineKey, Mark>, ks: seq<LineKey>)
    requires forall i :: 0 <= i < |ks| ==> ks[i] in lines
    ensures LineCount(lines, ks, Free) + LineCount(lines, ks, Owned(P1)) + LineCount(lines, ks, Owned(P2)) == |ks|
  {
    if ks != [] {
      LineCountSplit(lines, ks[1..]);
      match lines[ks[0]]
      case Free =>
      case Owned(q) => assert q == P1 || q == P2;
    }
  }

  /** Only occurrences of `u` can still be unclaimed. */
  lemma {:induction false} FreeLinesBound(lines: map<LineKey, Mark>, ks: seq<LineKey>, u: LineKey)
    requires forall i :: 0 <= i < |ks| ==> ks[i] in lines && (lines[ks[i]] == Free ==> ks[i] == u)
    ensures LineCount(lines, ks, Free) <= Occurrences(ks, u)
  {
    if ks != [] {
      FreeLinesBound(lines, ks[1..], u);
    }
  }

  lemma FreeLinesNone(lines: map<LineKey, Mark>, ks: seq<LineKey>)
    requires forall k :: k in lines ==> lines[k] == Free
    ensures LineCount(lines, ks, Owned(P1)) == 0 && LineCount(lines, ks, Owned(P2)) == 0
  {
  }

  // ---------------------------------------------------------------------------
  // Legal moves

  /** A move from get_possible_moves names exactly one unclaimed cell: the
      new state gives that cell, and only that cell, to the player to move. */
  lemma LegalMoveClaimsOneCell(s: State, m: string)
    requires Valid(s) && m in PossibleMoves(s)
    ensures !IsOver(s) && |m| == 1 && m[0] in s.cells && s.cells[m[0]] == Free
    ensures Next(s, m).cells == s.cells[m[0] := Owned(ToMove(s))]
  {
    LettersAscending(s.length);
    var c := m[0];
    ClaimLetter(s, c);
  }

  /** Naming an unclaimed letter claims that cell and no other. */
  lemma ClaimLetter(s: State, c: char)
    requires Valid(s) && c in s.cells && s.cells[c] == Free
    ensures Next(s, [c]).cells == s.cells[c := Owned(ToMove(s))]
  {
    var p := ToMove(s);
    var cells := Next(s, [c]).cells;
    forall d | d in s.cells ensures cells[d] == s.cells[c := Owned(p)][d] {
      if d != c {
        match s.cells[d]
        case Free => assert CellValue(d, s.cells[d]) == [d] != [c];
        case Owned(q) => assert CellValue(d, s.cells[d]) == q.Number();
      }
    }
  }

  /** Claiming an unclaimed letter of `ls` takes it off the list of unclaimed cells. */
  lemma {:induction false} FreeCellsClaim(cells: map<char, Mark>, ls: string, c: char, p: Player)
    requires Ascending(ls) && c in cells && cells[c] == Free
    ensures |FreeCells(cells[c := Owned(p)], ls)| == |FreeCells(cells, ls)| - (if c in ls then 1 else 0)
  {
    if ls != [] {
      assert Ascending(ls[1..]);
      FreeCellsClaim(cells, ls[1..], c, p);
      if ls[0] == c {
        assert c !in ls[1..];
      } else {
        assert c in ls <==> c in ls[1..];
      }
    }
  }

  /** The termination measure of both searches: a legal move lowers FreeCount by one. */
  lemma LegalMoveDecreases(s: State, m: string)
    requires Valid(s) && m in PossibleMoves(s)
    ensures Valid(Next(s, m)) && FreeCount(Next(s, m)) == FreeCount(s) - 1
  {
    LegalMoveClaimsOneCell(s, m);
    LettersAscending(s.length);
    LettersAreLetters(s.length, m[0]);
    FreeCellsClaim(s.cells, Letters(s.length), m[0], ToMove(s));
    NextValid(s, m);
  }

  lemma NextValid(s: State, m: string)
    requires Valid(s)
    ensures Valid(Next(s, m))
  {
  }

  /** Different legal moves lead to different states. */
  lemma LegalMovesDistinct(s: State, m1: string, m2: string)
    requires Valid(s) && m1 in PossibleMoves(s) && m2 in PossibleMoves(s) && m1 != m2
    ensures Next(s, m1) != Next(s, m2)
  {
    LegalMoveClaimsOneCell(s, m1);
    LegalMoveClaimsOneCell(s, m2);
    assert m1 == [m1[0]] && m2 == [m2[0]];
    assert Next(s, m2).cells[m1[0]] == Free;
  }

  // ---------------------------------------------------------------------------
  // The invariant

  /** A fresh board is a reachable state. */
  lemma InitialSound(p1Turn: bool, n: int)
    requires SupportedLength(n)
    ensures Sound(Initial(p1Turn, n))
  {
    var s := Initial(p1Turn, n);
    RulesWellFormed(n);
    forall i | 0 <= i < |Rules(n)|
      ensures Count(s.cells, Rules(n)[i].members, P1) < Rules(n)[i].threshold
      ensures Count(s.cells, Rules(n)[i].members, P2) < Rules(n)[i].threshold
    {
      assert RuleFits(n, Rules(n)[i]);
      CountNone(s.cells, Rules(n)[i].members, P1);
      CountNone(s.cells, Rules(n)[i].members, P2);
    }
  }

  /** Legal moves keep a state reachable. */
  lemma SoundNext(s: State, m: string)
    requires Sound(s) && m in PossibleMoves(s)
    ensures Sound(Next(s, m))
  {
    var n, p := s.length, ToMove(s);
    LegalMoveClaimsOneCell(s, m);
    NextValid(s, m);
    var t := Next(s, m);
    var c := m[0];
    forall i | 0 <= i < |Rules(n)|
      ensures var r := Rules(n)[i];
        r.target in t.lines && t.lines[r.target] == Free ==>
          Count(t.cells, r.members, P1) < r.threshold && Count(t.cells, r.members, P2) < r.threshold
    {
      var r := Rules(n)[i];
      if r.target in t.lines && t.lines[r.target] == Free {
        assert s.lines[r.target] == Free;
        assert !Fires(t.cells, r, p) by {
          assert !Captures(n, t.cells, p, r.target);
        }
        CountClaimOther(s.cells, c, r.members, p, p.Other());
        assert p == P1 || p == P2;
      }
    }
  }

  /** On a reachable state with every cell claimed, some player has enough ley-lines. */
  lemma FullBoardIsOver(s: State)
    requires Sound(s) && FreeCount(s) == 0
    ensures IsOver(s)
  {
    var n := s.length;
    LettersAscending(n);
    RulesWellFormed(n);
    var fc := FreeCells(s.cells, Letters(n));
    assert fc == [];
    forall c | c in s.cells ensures s.cells[c] != Free {
      LettersAreLetters(n, c);
      assert s.cells[c] == Free ==> [c] in fc;
    }
    var ks := LineKeys(n);
    forall i | 0 <= i < |ks| ensures ks[i] in s.lines && (s.lines[ks[i]] == Free ==> ks[i] == Uncapturable) {
      var k := ks[i];
      LineKeysAreLineKeys(n, k);
      if k != Uncapturable {
        TargetCovered(n, k);
        var r := Rules(n)[RuleIndex(n, k)];
        assert RuleFits(n, r);
        CountSplit(s.cells, r.members);
      }
    }
    LineCountSplit(s.lines, ks);
    FreeLinesBound(s.lines, ks, Uncapturable);
    UncapturableOccurrences(n);
    RulesFit1(); RulesFit2(); RulesFit3(); RulesFit4(); RulesFit5();
    assert |ks| == 3 * n + 3;
  }

  /** Every ley-line key but '\6' is the target of a rule. */
  lemma TargetCovered(n: int, k: LineKey)
    requires SupportedLength(n) && IsLineKey(n, k) && k != Uncapturable
    ensures Rules(n)[RuleIndex(n, k)].target == k
  {
    if n == 1 { RulesCover1(); } else if n == 2 { RulesCover2(); } else if n == 3 { RulesCover3(); }
    else if n == 4 { RulesCover4(); } else { RulesCover5(); }
  }

  /** get_possible_moves is empty exactly when the game is over (on reachable states). */
  lemma MovesEmptyIffOver(s: State)
    requires Sound(s)
    ensures PossibleMoves(s) == [] <==> IsOver(s)
  {
    if !IsOver(s) && PossibleMoves(s) == [] {
      FullBoardIsOver(s);
    }
  }

  // ---------------------------------------------------------------------------
  // Nobody wins out of turn

  /** Reachable, and the player to move has not reached least_ley: the game
      only ends on the move that takes the mover over the line. */
  ghost predicate InPlay(s: State) {
    Sound(s) && Score(s, ToMove(s)) < Need(s.length)
  }

  lemma {:induction false} LineCountAgree(lines: map<LineKey, Mark>, lines2: map<LineKey, Mark>, ks: seq<LineKey>, m: Mark)
    requires forall i :: 0 <= i < |ks| ==> ks[i] in lines && ks[i] in lines2 && (lines2[ks[i]] == m <==> lines[ks[i]] == m)
    ensures LineCount(lines2, ks, m) == LineCount(lines, ks, m)
  {
    if ks != [] {
      LineCountAgree(lines, lines2, ks[1..], m);
    }
  }

  /** make_move never takes a ley-line away from the player who is not moving. */
  lemma WaitingScoreKept(s: State, m: string)
    requires Valid(s)
    ensures Score(Next(s, m), ToMove(s).Other()) == Score(s, ToMove(s).Other())
  {
    var n, q := s.length, ToMove(s).Other();
    forall i | 0 <= i < |LineKeys(n)| ensures LineKeys(n)[i] in s.lines {
      LineKeysAreLineKeys(n, LineKeys(n)[i]);
    }
    assert ToMove(s) != q;
    LineCountAgree(s.lines, Next(s, m).lines, LineKeys(n), Owned(q));
  }

  lemma InitialInPlay(p1Turn: bool, n: int)
    requires SupportedLength(n)
    ensures InPlay(Initial(p1Turn, n))
  {
    InitialSound(p1Turn, n);
    FreeLinesNone(Initial(p1Turn, n).lines, LineKeys(n));
  }

  lemma InPlayNext(s: State, m: string)
    requires InPlay(s) && m in PossibleMoves(s)
    ensures InPlay(Next(s, m))
  {
    SoundNext(s, m);
    LegalMoveClaimsOneCell(s, m);
    WaitingScoreKept(s, m);
  }

  /** Once a game in play is over, the player who just moved has won it:
      Stonehenge has no draws and no win for the player to move. */
  lemma OverInPlayIsLost(s: State)
    requires InPlay(s) && IsOver(s)
    ensures IsWinner(s, ToMove(s).Other()) && !IsWinner(s, ToMove(s))
  {
  }
}
