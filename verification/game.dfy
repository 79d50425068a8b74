/**
 * StonehengeGame: the object that owns the current state, counts ley-lines
 * for is_over / is_winner, and turns a typed line into a move token.
 */
module StonehengeGame {
  import opened Board
  import opened Stonehenge

  /** LineCount read from the front, one key at a time. */
  lemma {:induction false} LineCountSnoc(lines: map<LineKey, Mark>, ks: seq<LineKey>, k: LineKey, m: Mark)
    ensures LineCount(lines, ks + [k], m) == LineCount(lines, ks, m) + (if k in lines && lines[k] == m then 1 else 0)
  {
    if ks != [] {
      assert (ks + [k])[1..] == ks[1..] + [k];
      LineCountSnoc(lines, ks[1..], k, m);
    }
  }

  /** The two counting loops over the ley-line map: how many ley-lines hold "1" and how many hold "2". */
  method CountLines(s: State) returns (p1Score: nat, p2Score: nat)
    requires SupportedLength(s.length)
    ensures p1Score == Score(s, P1) && p2Score == Score(s, P2)
  {
    var keys := LineKeys(s.length);
    p1Score, p2Score := 0, 0;
    for j := 0 to |keys|
      invariant p1Score == LineCount(s.lines, keys[..j], Owned(P1))
      invariant p2Score == LineCount(s.lines, keys[..j], Owned(P2))
    {
      var k := keys[j];
      assert keys[..j + 1] == keys[..j] + [k];
      LineCountSnoc(s.lines, keys[..j], k, Owned(P1));
      LineCountSnoc(s.lines, keys[..j], k, Owned(P2));
      if k in s.lines && s.lines[k] == Owned(P1) {
        p1Score := p1Score + 1;
      } else if k in s.lines && s.lines[k] == Owned(P2) {
        p2Score := p2Score + 1;
      }
    }
    assert keys[..|keys|] == keys;
  }

  /** The game object; `current` is `current_state`, which the searches
      overwrite and restore while they score a position. */
  class Game {
    var current: State

    /** StonehengeGame(p1_starts), with the side length the source reads from
        the console passed in as `length`. */
    constructor (p1Starts: bool, length: int)
      requires SupportedLength(length)
      ensures current == Initial(p1Starts, length)
    {
      current := Initial(p1Starts, length);
    }

    /** is_over(state): some player holds at least least_ley = ceil((3n+3)/2) ley-lines. */
    method IsOver(state: State) returns (r: bool)
      requires SupportedLength(state.length)
      ensures r <==> Score(state, P1) >= Need(state.length) || Score(state, P2) >= Need(state.length)
      ensures r == Stonehenge.IsOver(state)
    {
      var allLey := 3 * state.length + 3;
      var leastLey := allLey / 2 + (if allLey % 2 > 0 then 1 else 0);
      var p1Score, p2Score := CountLines(state);
      r := p2Score >= leastLey || p1Score >= leastLey;
    }

    /** is_winner(player), judged on `current`: over, the other player to
        move, and `player` strictly ahead. */
    method IsWinner(player: Player) returns (r: bool)
      requires SupportedLength(current.length)
      ensures r <==> Stonehenge.IsOver(current) && ToMove(current) == player.Other()
                     && Score(current, player) > Score(current, player.Other())
      ensures r == Stonehenge.IsWinner(current, player)
    {
      var p1Score, p2Score := CountLines(current);
      var over := IsOver(current);
      if player == P1 && ToMove(current) == P2 && over && p2Score < p1Score {
        r := true;
      } else if player == P2 && ToMove(current) == P1 && over && p2Score > p1Score {
        r := true;
      } else {
        r := false;
      }
    }
  }

  // ---------------------------------------------------------------------------
  // str_to_move

  /** What str_to_move returns: -1 for an unusable line, else a move string. */
  datatype MoveToken = Invalid | Token(move: string)

  /** str.isspace() for one character: the ASCII blanks, the four
      information separators and the other Unicode white-space code points. */
  predicate IsSpace(c: char) {
    var x := c as int;
    || (0x09 <= x <= 0x0D) || (0x1C <= x <= 0x20)
    || x == 0x85 || x == 0xA0 || x == 0x1680
    || (0x2000 <= x <= 0x200A)
    || x == 0x2028 || x == 0x2029 || x == 0x202F || x == 0x205F || x == 0x3000
  }

  /** str.isalpha() for one character, restricted to ASCII letters. */
  predicate IsAlpha(c: char) {
    ('A' <= c <= 'Z') || ('a' <= c <= 'z')
  }

  predicate IsUpperLetter(c: char) {
    'A' <= c <= 'Z'
  }

  function UpperChar(c: char): (u: char)
    ensures IsAlpha(c) ==> IsUpperLetter(u)
    ensures IsUpperLetter(c) ==> u == c
  {
    if 'a' <= c <= 'z' then (c as int - 32) as char else c
  }

  /** str.upper() on ASCII. */
  function Upper(s: string): (u: string)
    ensures |u| == |s|
    ensures forall i :: 0 <= i < |s| ==> u[i] == UpperChar(s[i])
  {
    if s == [] then [] else [UpperChar(s[0])] + Upper(s[1..])
  }

  /** str.lstrip(): `s` from its first non-space on (StripLeftSuffix). */
  function StripLeft(s: string): (r: string)
    ensures |r| <= |s|
    ensures r == [] || !IsSpace(r[0])
  {
    if s != [] && IsSpace(s[0]) then StripLeft(s[1..]) else s
  }

  /** What lstrip keeps is a suffix of `s`, and what it drops is white space. */
  lemma {:induction false} StripLeftSuffix(s: string)
    ensures StripLeft(s) == s[|s| - |StripLeft(s)|..]
    ensures forall i :: 0 <= i < |s| - |StripLeft(s)| ==> IsSpace(s[i])
  {
    if s != [] && IsSpace(s[0]) {
      var r := StripLeft(s);
      StripLeftSuffix(s[1..]);
      assert s[1..][|s| - 1 - |r|..] == s[|s| - |r|..];
      forall i | 0 <= i < |s| - |r| ensures IsSpace(s[i]) {
        if i > 0 {
          assert s[i] == s[1..][i - 1];
        }
      }
    }
  }

  /** str.rstrip(): `s` up to its last non-space (StripRightPrefix). */
  function StripRight(s: string): (r: string)
    ensures |r| <= |s|
    ensures r == [] || !IsSpace(r[|r| - 1])
  {
    if s != [] && IsSpace(s[|s| - 1]) then StripRight(s[..|s| - 1]) else s
  }

  /** What rstrip keeps is a prefix of `s`, and what it drops is white space. */
  lemma {:induction false} StripRightPrefix(s: string)
    ensures StripRight(s) == s[..|StripRight(s)|]
    ensures forall i :: |StripRight(s)| <= i < |s| ==> IsSpace(s[i])
  {
    if s != [] && IsSpace(s[|s| - 1]) {
      var r := StripRight(s);
      var p := s[..|s| - 1];
      StripRightPrefix(p);
      assert p[..|r|] == s[..|r|];
      forall i | |r| <= i < |s| ensures IsSpace(s[i]) {
        if i < |s| - 1 {
          assert s[i] == p[i];
        }
      }
    }
  }

  /** str.strip(): `s` without its leading and trailing white space. */
  function Strip(s: string): (r: string)
    ensures |r| <= |s|
    ensures r == [] || (!IsSpace(r[0]) && !IsSpace(r[|r| - 1]))
  {
    StripRightPrefix(StripLeft(s));
    StripRight(StripLeft(s))
  }

  /** What strip removes is white space, and what it keeps is one piece of `s`. */
  lemma StripIsInfix(s: string)
    ensures exists i, j ::
      && 0 <= i <= j <= |s| && Strip(s) == s[i..j]
      && (forall k :: 0 <= k < i ==> IsSpace(s[k]))
      && (forall k :: j <= k < |s| ==> IsSpace(s[k]))
  {
    var l := StripLeft(s);
    StripLeftSuffix(s);
    var r := StripRight(l);
    StripRightPrefix(l);
    var i := |s| - |l|;
    assert r == s[i..i + |r|];
    forall k | i + |r| <= k < |s| ensures IsSpace(s[k]) {
      assert s[k] == l[k - i];
    }
  }

  /** str.isalpha() for a whole string: non-empty and letters only. */
  predicate IsAlphaWord(t: string) {
    t != [] && forall i :: 0 <= i < |t| ==> IsAlpha(t[i])
  }

  /** str_to_move: -1 unless the stripped line is a non-empty run of letters,
      in which case it is that run in upper case. */
  function StrToMove(s: string): (r: MoveToken)
    ensures r.Token? <==> IsAlphaWord(Strip(s))
    ensures r.Token? ==> |r.move| == |Strip(s)| > 0 && forall i :: 0 <= i < |r.move| ==> IsUpperLetter(r.move[i])
  {
    var t := Strip(s);
    if IsAlphaWord(t) then Token(Upper(t)) else Invalid
  }

  /** A string without leading or trailing white space is its own strip. */
  lemma StripTrimmed(s: string)
    requires s == [] || (!IsSpace(s[0]) && !IsSpace(s[|s| - 1]))
    ensures Strip(s) == s
  {
  }

  /** Feeding str_to_move's answer back to it gives the same answer. */
  lemma StrToMoveIdempotent(s: string)
    requires StrToMove(s).Token?
    ensures StrToMove(StrToMove(s).move) == StrToMove(s)
  {
    var m := StrToMove(s).move;
    StripTrimmed(m);
    assert forall i :: 0 <= i < |m| ==> IsAlpha(m[i]);
    assert Upper(m) == m;
  }

  /** Surrounding white space is ignored and letters are upper-cased. */
  lemma StrToMovePadded(pre: string, word: string, post: string)
    requires forall i :: 0 <= i < |pre| ==> IsSpace(pre[i])
    requires forall i :: 0 <= i < |post| ==> IsSpace(post[i])
    requires IsAlphaWord(word)
    ensures StrToMove(pre + word + post) == Token(Upper(word))
  {
    StripPadded(pre, word, post);
  }

  lemma StripPadded(pre: string, word: string, post: string)
    requires forall i :: 0 <= i < |pre| ==> IsSpace(pre[i])
    requires forall i :: 0 <= i < |post| ==> IsSpace(post[i])
    requires word != [] && !IsSpace(word[0]) && !IsSpace(word[|word| - 1])
    ensures Strip(pre + word + post) == word
  {
    assert pre + word + post == pre + (word + post);
    StripLeftSpaces(pre, word + post);
    StripRightSpaces(word, post);
  }

  lemma {:induction false} StripLeftSpaces(pre: string, rest: string)
    requires forall i :: 0 <= i < |pre| ==> IsSpace(pre[i])
    requires rest != [] && !IsSpace(rest[0])
    ensures StripLeft(pre + rest) == rest
  {
    if pre != [] {
      assert (pre + rest)[1..] == pre[1..] + rest;
      StripLeftSpaces(pre[1..], rest);
    }
  }

  lemma {:induction false} StripRightSpaces(rest: string, post: string)
    requires forall i :: 0 <= i < |post| ==> IsSpace(post[i])
    requires rest != [] && !IsSpace(rest[|rest| - 1])
    ensures StripRight(rest + post) == rest
  {
    if post != [] {
      var p := post[..|post| - 1];
      assert (rest + post)[..|rest + post| - 1] == rest + p;
      StripRightSpaces(rest, p);
    }
  }

  /** Every move get_possible_moves offers is accepted unchanged by str_to_move. */
  lemma LegalMovesParse(s: State, m: string)
    requires Valid(s) && m in PossibleMoves(s)
    ensures StrToMove(m) == Token(m)
  {
    LettersAreLetters(s.length, m[0]);
    StrToMoveIdempotentOnLetter(m[0]);
    assert m == [m[0]];
  }

  lemma StrToMoveIdempotentOnLetter(c: char)
    requires IsUpperLetter(c)
    ensures StrToMove([c]) == Token([c])
  {
    StripSingleLetter(c);
    StrToMoveOfWord([c]);
    UpperKeepsCapitals([c]);
  }

  lemma StripSingleLetter(c: char)
    requires IsUpperLetter(c)
    ensures Strip([c]) == [c] && IsAlphaWord([c])
  {
    StripTrimmed([c]);
  }

  lemma StrToMoveOfWord(w: string)
    requires Strip(w) == w && IsAlphaWord(w)
    ensures StrToMove(w) == Token(Upper(w))
  {
  }

  lemma UpperKeepsCapitals(w: string)
    requires forall i :: 0 <= i < |w| ==> IsUpperLetter(w[i])
    ensures Upper(w) == w
  {
  }
}
