/**
 * The board topology of Stonehenge: for each supported side length (1..5)
 * the cell letters, the ley-line keys and the hard-coded capture rules that
 * StonehengeState.make_move applies one after another.
 */
module Board {

  /** The two players; the source names them 'p1' and 'p2' and writes "1" / "2" on the board. */
  datatype Player = P1 | P2 {
    function Other(): Player {
      if this == P1 then P2 else P1
    }
    /** The marker the source writes into a claimed cell or a captured ley-line. */
    function Number(): string {
      if this == P1 then "1" else "2"
    }
  }

  /** Ownership of a cell or ley-line: unclaimed (a letter or '@' in the source) or a player's number. */
  datatype Mark = Free | Owned(owner: Player)

  /** The three axes of ley-lines: '/', '\' and '-'. */
  datatype Orientation = Slash | Backslash | Dash

  /** A ley-line key such as '/1' or '-3'. */
  datatype LineKey = LineKey(dir: Orientation, index: nat)

  /** One `if` of make_move: when the mover owns at least `threshold` of `members`
      and `target` is still unclaimed, the mover captures `target`. */
  datatype Rule = Rule(target: LineKey, members: string, threshold: nat)

  predicate SupportedLength(n: int) {
    1 <= n <= 5
  }

  function CellCount(n: int): nat
    requires SupportedLength(n)
  {
    if n == 1 then 3 else if n == 2 then 7 else if n == 3 then 12 else if n == 4 then 18 else 25
  }

  /** The cell letters of a board, 'A' onwards, in the insertion order of the source's dictionaries. */
  function Letters(n: int): (ls: string)
    requires SupportedLength(n)
    ensures |ls| == CellCount(n)
    ensures forall i :: 0 <= i < |ls| ==> ls[i] == ('A' as int + i) as char
  {
    seq(CellCount(n), i requires 0 <= i < CellCount(n) => ('A' as int + i) as char)
  }

  /** `c` is one of the first CellCount(n) capital letters. */
  predicate IsLetter(n: int, c: char)
    requires SupportedLength(n)
  {
    'A' <= c && (c as int) - ('A' as int) < CellCount(n)
  }

  lemma LettersAreLetters(n: int, c: char)
    requires SupportedLength(n)
    ensures c in Letters(n) <==> IsLetter(n, c)
  {
    if IsLetter(n, c) {
      var ls := Letters(n);
      assert ls[c as int - 'A' as int] == c;
    }
  }

  /** The letters are listed in increasing order, so each occurs once. */
  lemma LettersAscending(n: int)
    requires SupportedLength(n)
    ensures forall i, j :: 0 <= i < j < |Letters(n)| ==> Letters(n)[i] < Letters(n)[j]
  {
  }

  /** The ley-line keys of a board: '/1'..'/n+1', '\1'..'\n+1', '-1'..'-n+1'. */
  function LineKeys(n: int): (ks: seq<LineKey>)
    requires SupportedLength(n)
  {
    AxisKeys(Slash, n + 1) + AxisKeys(Backslash, n + 1) + AxisKeys(Dash, n + 1)
  }

  /** `k` is one of the ley-line keys of a board of side `n`. */
  predicate IsLineKey(n: int, k: LineKey) {
    1 <= k.index <= n + 1
  }

  lemma LineKeysAreLineKeys(n: int, k: LineKey)
    requires SupportedLength(n)
    ensures k in LineKeys(n) <==> IsLineKey(n, k)
  {
    var a, b, c := AxisKeys(Slash, n + 1), AxisKeys(Backslash, n + 1), AxisKeys(Dash, n + 1);
    assert LineKeys(n) == a + b + c;
    if IsLineKey(n, k) {
      var i := k.index - 1;
      assert k == AxisKeys(k.dir, n + 1)[i];
      assert k in a || k in b || k in c by {
        match k.dir
        case Slash => assert k in a;
        case Backslash => assert k in b;
        case Dash => assert k in c;
      }
    }
    if k in a {
      var i :| 0 <= i < |a| && a[i] == k;
    } else if k in b {
      var i :| 0 <= i < |b| && b[i] == k;
    } else if k in c {
      var i :| 0 <= i < |c| && c[i] == k;
    }
  }

  function AxisKeys(d: Orientation, count: nat): (ks: seq<LineKey>)
    ensures |ks| == count
    ensures forall i :: 0 <= i < count ==> ks[i] == LineKey(d, i + 1)
  {
    if count == 0 then [] else AxisKeys(d, count - 1) + [LineKey(d, count)]
  }

  /** The line that no rule of the size-5 table ever targets: its last rule writes '\5' where '\6' was meant. */
  const Uncapturable: LineKey := LineKey(Backslash, 6)

  /** The capture rules of make_move, in the order the source evaluates them. */
  function Rules(n: int): seq<Rule>
    requires SupportedLength(n)
  {
    if n == 1 then
      [ Rule(LineKey(Slash, 1), "A", 1),
        Rule(LineKey(Slash, 2), "BC", 1),
        Rule(LineKey(Dash, 1), "BA", 1),
        Rule(LineKey(Dash, 2), "C", 1),
        Rule(LineKey(Backslash, 1), "AC", 1),
        Rule(LineKey(Backslash, 2), "B", 1) ]
    else if n == 2 then
      [ Rule(LineKey(Slash, 1), "AC", 1),
        Rule(LineKey(Slash, 2), "BDF", 2),
        Rule(LineKey(Slash, 3), "EG", 1),
        Rule(LineKey(Dash, 1), "AB", 1),
        Rule(LineKey(Dash, 2), "CDE", 2),
        Rule(LineKey(Dash, 3), "FG", 1),
        Rule(LineKey(Backslash, 1), "CF", 1),
        Rule(LineKey(Backslash, 2), "ADG", 2),
        Rule(LineKey(Backslash, 3), "BE", 1) ]
    else if n == 3 then
      [ Rule(LineKey(Slash, 1), "ACF", 2),
        Rule(LineKey(Slash, 2), "BDGJ", 2),
        Rule(LineKey(Slash, 3), "EHK", 2),
        Rule(LineKey(Slash, 4), "IL", 1),
        Rule(LineKey(Dash, 1), "AB", 1),
        Rule(LineKey(Dash, 2), "CDE", 2),
        Rule(LineKey(Dash, 3), "FGHI", 2),
        Rule(LineKey(Dash, 4), "JKL", 2),
        Rule(LineKey(Backslash, 1), "FJ", 1),
        Rule(LineKey(Backslash, 2), "CGK", 2),
        Rule(LineKey(Backslash, 3), "ADHL", 2),
        Rule(LineKey(Backslash, 4), "BEI", 2) ]
    else if n == 4 then
      [ Rule(LineKey(Slash, 1), "ACFJ", 2),
        Rule(LineKey(Slash, 2), "BDGKO", 3),
        Rule(LineKey(Slash, 3), "EHLP", 2),
        Rule(LineKey(Slash, 4), "IMQ", 2),
        Rule(LineKey(Slash, 5), "NR", 1),
        Rule(LineKey(Dash, 1), "AB", 1),
        Rule(LineKey(Dash, 2), "CDE", 2),
        Rule(LineKey(Dash, 3), "FGHI", 2),
        Rule(LineKey(Dash, 4), "JKLMN", 3),
        Rule(LineKey(Dash, 5), "OPQR", 2),
        Rule(LineKey(Backslash, 1), "JO", 1),
        Rule(LineKey(Backslash, 2), "FKP", 2),
        Rule(LineKey(Backslash, 3), "CGLQ", 2),
        Rule(LineKey(Backslash, 4), "ADHMR", 3),
        Rule(LineKey(Backslash, 5), "BEIN", 2) ]
    else
      [ Rule(LineKey(Slash, 1), "ACFJO", 3),
        Rule(LineKey(Slash, 2), "BDGKPU", 3),
        Rule(LineKey(Slash, 3), "EHLQV", 3),
        Rule(LineKey(Slash, 4), "IMRW", 2),
        Rule(LineKey(Slash, 5), "NSX", 2),
        Rule(LineKey(Slash, 6), "TY", 1),
        Rule(LineKey(Dash, 1), "AB", 1),
        Rule(LineKey(Dash, 2), "CDE", 2),
        Rule(LineKey(Dash, 3), "FGHI", 2),
        Rule(LineKey(Dash, 4), "JKLMN", 3),
        Rule(LineKey(Dash, 5), "OPQRST", 3),
        Rule(LineKey(Dash, 6), "UVWXY", 3),
        Rule(LineKey(Backslash, 1), "OU", 1),
        Rule(LineKey(Backslash, 2), "JPV", 2),
        Rule(LineKey(Backslash, 3), "FKQW", 2),
        Rule(LineKey(Backslash, 4), "CGLRX", 3),
        Rule(LineKey(Backslash, 5), "ADHMSY", 3),
        Rule(LineKey(Backslash, 5), "BEINT", 3) ]   // the source writes '\5' here, not '\6'
  }

  /** Where the n+1 rules of one orientation start in Rules(n): the table
      lists all '/' rules, then all '-' rules, then all '\\' rules. */
  function AxisStart(n: int, d: Orientation): nat
    requires SupportedLength(n)
  {
    match d
    case Slash => 0
    case Dash => n + 1
    case Backslash => 2 * (n + 1)
  }

  /** The member letters of rules lo .. hi-1, concatenated in table order. */
  function Joined(rules: seq<Rule>, lo: nat, hi: nat): string
    requires lo <= hi <= |rules|
    decreases hi - lo
  {
    if lo == hi then [] else rules[lo].members + Joined(rules, lo + 1, hi)
  }

  /** The member letters of every rule of orientation d, in table order. */
  function AxisMembers(n: int, d: Orientation): string
    requires SupportedLength(n)
  {
    Joined(Rules(n), AxisStart(n, d), AxisStart(n, d) + n + 1)
  }

  /** The set of letters occurring in p. */
  ghost function Elems(p: string): set<char> {
    set i | 0 <= i < |p| :: p[i]
  }

  predicate Distinct(p: string) {
    forall i, j :: 0 <= i < j < |p| ==> p[i] != p[j]
  }

  /** A string has at most as many different letters as positions, and
      exactly as many when no letter repeats. */
  lemma {:induction false} ElemsCard(p: string)
    ensures |Elems(p)| <= |p|
    ensures Distinct(p) <==> |Elems(p)| == |p|
  {
    if p != [] {
      var t := p[1..];
      ElemsCard(t);
      assert Elems(p) == {p[0]} + Elems(t) by {
        forall c | c in Elems(p) ensures c in {p[0]} + Elems(t) {
          var i :| 0 <= i < |p| && p[i] == c;
          if i > 0 { assert t[i - 1] == c; }
        }
        forall c | c in Elems(t) ensures c in Elems(p) {
          var i :| 0 <= i < |t| && t[i] == c;
          assert p[i + 1] == c;
        }
      }
      if p[0] in Elems(t) {
        var i :| 0 <= i < |t| && t[i] == p[0];
        assert p[i + 1] == p[0];
        assert !Distinct(p);
      } else {
        assert Distinct(p) <==> Distinct(t) by {
          if Distinct(t) {
            forall i, j | 0 <= i < j < |p| ensures p[i] != p[j] {
              if i == 0 { assert p[j] == t[j - 1]; } else { assert t[i - 1] != t[j - 1]; }
            }
          }
        }
      }
    }
  }

  /** In a string without repeats every letter occurs once or not at all. */
  lemma {:induction false} DistinctMultiplicity(p: string, c: char)
    requires Distinct(p)
    ensures multiset(p)[c] == if c in Elems(p) then 1 else 0
  {
    if p != [] {
      var t := p[1..];
      assert p == [p[0]] + t;
      assert Distinct(t) by {
        forall i, j | 0 <= i < j < |t| ensures t[i] != t[j] { assert p[i + 1] != p[j + 1]; }
      }
      DistinctMultiplicity(t, c);
      assert c in Elems(p) <==> c == p[0] || c in Elems(t) by {
        if c in Elems(p) && c != p[0] {
          var i :| 0 <= i < |p| && p[i] == c;
          assert t[i - 1] == c;
        }
        if c in Elems(t) {
          var i :| 0 <= i < |t| && t[i] == c;
          assert p[i + 1] == c;
        }
      }
      assert p[0] !in Elems(t) by {
        forall i | 0 <= i < |t| ensures t[i] != p[0] { assert p[i + 1] != p[0]; }
      }
    }
  }

  /** A string of CellCount(n) letters that are exactly the cell letters of
      size n is a permutation of those letters. */
  lemma CoversCellsOnce(n: int, p: string)
    requires SupportedLength(n)
    requires |p| == CellCount(n)
    requires forall c :: c in p <==> IsLetter(n, c)
    ensures multiset(p) == multiset(Letters(n))
  {
    var ls := Letters(n);
    LettersAscending(n);
    ElemsCard(ls);
    assert Elems(p) == Elems(ls) by {
      forall c ensures c in Elems(p) <==> c in Elems(ls) {
        LettersAreLetters(n, c);
        if c in p { var i :| 0 <= i < |p| && p[i] == c; }
        if c in ls { var i :| 0 <= i < |ls| && ls[i] == c; }
      }
    }
    ElemsCard(p);
    forall c ensures multiset(p)[c] == multiset(ls)[c] {
      DistinctMultiplicity(p, c);
      DistinctMultiplicity(ls, c);
    }
  }

  /** The rules of each orientation form one block of the table and list
      every cell exactly once: the ley-lines of one direction partition the
      board, for every supported size. */
  lemma AxesPartitionCells(n: int, d: Orientation)
    requires SupportedLength(n)
    ensures multiset(AxisMembers(n, d)) == multiset(Letters(n))
  {
    if n == 1 { Partition1(n, d); }
    else if n == 2 { Partition2(n, d); }
    else if n == 3 { Partition3(n, d); }
    else if n == 4 { Partition4(n, d); }
    else { Partition5(n, d); }
  }

  lemma Partition1(n: int, d: Orientation)
    requires n == 1
    ensures multiset(AxisMembers(n, d)) == multiset(Letters(n))
  {
    match d
    case Slash => Slash1();
    case Dash => Dash1();
    case Backslash => Backslash1();
  }

  lemma Partition2(n: int, d: Orientation)
    requires n == 2
    ensures multiset(AxisMembers(n, d)) == multiset(Letters(n))
  {
    match d
    case Slash => Slash2();
    case Dash => Dash2();
    case Backslash => Backslash2();
  }

  lemma Partition3(n: int, d: Orientation)
    requires n == 3
    ensures multiset(AxisMembers(n, d)) == multiset(Letters(n))
  {
    match d
    case Slash => Slash3();
    case Dash => Dash3();
    case Backslash => Backslash3();
  }

  lemma Partition4(n: int, d: Orientation)
    requires n == 4
    ensures multiset(AxisMembers(n, d)) == multiset(Letters(n))
  {
    match d
    case Slash => Slash4();
    case Dash => Dash4();
    case Backslash => Backslash4();
  }

  lemma Partition5(n: int, d: Orientation)
    requires n == 5
    ensures multiset(AxisMembers(n, d)) == multiset(Letters(n))
  {
    match d
    case Slash => Slash5();
    case Dash => Dash5();
    case Backslash => Backslash5();
  }

  lemma Slash1()
    ensures multiset(AxisMembers(1, Slash)) == multiset(Letters(1))
  {
    assert AxisMembers(1, Slash) == "ABC";
    SlashCells1();
    CoversCellsOnce(1, "ABC");
  }

  lemma SlashCells1()
    ensures forall c :: c in "ABC" <==> IsLetter(1, c)
  {
  }

  lemma Dash1()
    ensures multiset(AxisMembers(1, Dash)) == multiset(Letters(1))
  {
    assert AxisMembers(1, Dash) == "BAC";
    DashCells1();
    CoversCellsOnce(1, "BAC");
  }

  lemma DashCells1()
    ensures forall c :: c in "BAC" <==> IsLetter(1, c)
  {
  }

  lemma Backslash1()
    ensures multiset(AxisMembers(1, Backslash)) == multiset(Letters(1))
  {
    assert AxisMembers(1, Backslash) == "ACB";
    BackslashCells1();
    CoversCellsOnce(1, "ACB");
  }

  lemma BackslashCells1()
    ensures forall c :: c in "ACB" <==> IsLetter(1, c)
  {
  }

  lemma Slash2()
    ensures multiset(AxisMembers(2, Slash)) == multiset(Letters(2))
  {
    assert AxisMembers(2, Slash) == "ACBDFEG";
    SlashCells2();
    CoversCellsOnce(2, "ACBDFEG");
  }

  lemma SlashCells2()
    ensures forall c :: c in "ACBDFEG" <==> IsLetter(2, c)
  {
  }

  lemma Dash2()
    ensures multiset(AxisMembers(2, Dash)) == multiset(Letters(2))
  {
    assert AxisMembers(2, Dash) == "ABCDEFG";
    DashCells2();
    CoversCellsOnce(2, "ABCDEFG");
  }

  lemma DashCells2()
    ensures forall c :: c in "ABCDEFG" <==> IsLetter(2, c)
  {
  }

  lemma Backslash2()
    ensures multiset(AxisMembers(2, Backslash)) == multiset(Letters(2))
  {
    assert AxisMembers(2, Backslash) == "CFADGBE";
    BackslashCells2();
    CoversCellsOnce(2, "CFADGBE");
  }

  lemma BackslashCells2()
    ensures forall c :: c in "CFADGBE" <==> IsLetter(2, c)
  {
  }

  lemma Slash3()
    ensures multiset(AxisMembers(3, Slash)) == multiset(Letters(3))
  {
    assert AxisMembers(3, Slash) == "ACFBDGJEHKIL";
    SlashCells3();
    CoversCellsOnce(3, "ACFBDGJEHKIL");
  }

  lemma SlashCells3()
    ensures forall c :: c in "ACFBDGJEHKIL" <==> IsLetter(3, c)
  {
  }

  lemma Dash3()
    ensures multiset(AxisMembers(3, Dash)) == multiset(Letters(3))
  {
    assert AxisMembers(3, Dash) == "ABCDEFGHIJKL";
    DashCells3();
    CoversCellsOnce(3, "ABCDEFGHIJKL");
  }

  lemma DashCells3()
    ensures forall c :: c in "ABCDEFGHIJKL" <==> IsLetter(3, c)
  {
  }

  lemma Backslash3()
    ensures multiset(AxisMembers(3, Backslash)) == multiset(Letters(3))
  {
    assert AxisMembers(3, Backslash) == "FJCGKADHLBEI";
    BackslashCells3();
    CoversCellsOnce(3, "FJCGKADHLBEI");
  }

  lemma BackslashCells3()
    ensures forall c :: c in "FJCGKADHLBEI" <==> IsLetter(3, c)
  {
  }

  lemma Slash4()
    ensures multiset(AxisMembers(4, Slash)) == multiset(Letters(4))
  {
    assert AxisMembers(4, Slash) == "ACFJBDGKOEHLPIMQNR";
    SlashCells4();
    CoversCellsOnce(4, "ACFJBDGKOEHLPIMQNR");
  }

  lemma SlashCells4()
    ensures forall c :: c in "ACFJBDGKOEHLPIMQNR" <==> IsLetter(4, c)
  {
  }

  lemma Dash4()
    ensures multiset(AxisMembers(4, Dash)) == multiset(Letters(4))
  {
    assert AxisMembers(4, Dash) == "ABCDEFGHIJKLMNOPQR";
    DashCells4();
    CoversCellsOnce(4, "ABCDEFGHIJKLMNOPQR");
  }

  lemma DashCells4()
    ensures forall c :: c in "ABCDEFGHIJKLMNOPQR" <==> IsLetter(4, c)
  {
  }

  lemma Backslash4()
    ensures multiset(AxisMembers(4, Backslash)) == multiset(Letters(4))
  {
    assert AxisMembers(4, Backslash) == "JOFKPCGLQADHMRBEIN";
    BackslashCells4();
    CoversCellsOnce(4, "JOFKPCGLQADHMRBEIN");
  }

  lemma BackslashCells4()
    ensures forall c :: c in "JOFKPCGLQADHMRBEIN" <==> IsLetter(4, c)
  {
  }

  lemma Slash5()
    ensures multiset(AxisMembers(5, Slash)) == multiset(Letters(5))
  {
    SlashAxis5();
    SlashCells5();
    CoversCellsOnce(5, "ACFJOBDGKPUEHLQVIMRWNSXTY");
  }

  lemma SlashAxis5()
    ensures AxisMembers(5, Slash) == "ACFJOBDGKPUEHLQVIMRWNSXTY"
  {
  }

  lemma SlashCells5()
    ensures forall c :: c in "ACFJOBDGKPUEHLQVIMRWNSXTY" <==> IsLetter(5, c)
  {
  }

  lemma Dash5()
    ensures multiset(AxisMembers(5, Dash)) == multiset(Letters(5))
  {
    DashAxis5();
    DashCells5();
    CoversCellsOnce(5, "ABCDEFGHIJKLMNOPQRSTUVWXY");
  }

  lemma DashAxis5()
    ensures AxisMembers(5, Dash) == "ABCDEFGHIJKLMNOPQRSTUVWXY"
  {
  }

  lemma DashCells5()
    ensures forall c :: c in "ABCDEFGHIJKLMNOPQRSTUVWXY" <==> IsLetter(5, c)
  {
  }

  lemma Backslash5()
    ensures multiset(AxisMembers(5, Backslash)) == multiset(Letters(5))
  {
    BackslashAxis5();
    BackslashCells5();
    CoversCellsOnce(5, "OUJPVFKQWCGLRXADHMSYBEINT");
  }

  lemma BackslashAxis5()
    ensures AxisMembers(5, Backslash) == "OUJPVFKQWCGLRXADHMSYBEINT"
  {
  }

  lemma BackslashCells5()
    ensures forall c :: c in "OUJPVFKQWCGLRXADHMSYBEINT" <==> IsLetter(5, c)
  {
  }

  /** Table facts the capture rules rely on. */
  predicate RuleFits(n: int, r: Rule)
    requires SupportedLength(n)
  {
    && IsLineKey(n, r.target)
    && r.target != Uncapturable
    && |r.members| > 0
    && r.threshold == (|r.members| + 1) / 2
    && forall c :: c in r.members ==> IsLetter(n, c)
  }

  lemma RulesWellFormed(n: int)
    requires SupportedLength(n)
    ensures |Rules(n)| == 3 * n + 3
    ensures forall i :: 0 <= i < |Rules(n)| ==> RuleFits(n, Rules(n)[i])
  {
    if n == 1 { RulesFit1(); } else if n == 2 { RulesFit2(); } else if n == 3 { RulesFit3(); }
    else if n == 4 { RulesFit4(); } else { RulesFit5(); }
  }

  lemma RulesFit1()
    ensures |Rules(1)| == 6
    ensures forall i :: 0 <= i < |Rules(1)| ==> RuleFits(1, Rules(1)[i])
  {
  }

  lemma RulesFit2()
    ensures |Rules(2)| == 9
    ensures forall i :: 0 <= i < |Rules(2)| ==> RuleFits(2, Rules(2)[i])
  {
  }

  lemma RulesFit3()
    ensures |Rules(3)| == 12
    ensures forall i :: 0 <= i < |Rules(3)| ==> RuleFits(3, Rules(3)[i])
  {
  }

  lemma RulesFit4()
    ensures |Rules(4)| == 15
    ensures forall i :: 0 <= i < |Rules(4)| ==> RuleFits(4, Rules(4)[i])
  {
    SlashRulesFit4();
    OtherRulesFit4();
  }

  lemma SlashRulesFit4()
    ensures |Rules(4)| == 15 && forall i :: 0 <= i < 5 ==> RuleFits(4, Rules(4)[i])
  {
  }

  lemma OtherRulesFit4()
    ensures |Rules(4)| == 15 && forall i :: 5 <= i < 15 ==> RuleFits(4, Rules(4)[i])
  {
  }

  lemma RulesFit5()
    ensures |Rules(5)| == 18
    ensures forall i :: 0 <= i < |Rules(5)| ==> RuleFits(5, Rules(5)[i])
  {
    SlashRulesFit5();
    DashRulesFit5();
    BackslashRulesFit5();
  }

  lemma SlashRulesFit5()
    ensures |Rules(5)| == 18 && forall i :: 0 <= i < 6 ==> RuleFits(5, Rules(5)[i])
  {
  }

  lemma DashRulesFit5()
    ensures |Rules(5)| == 18 && forall i :: 6 <= i < 12 ==> RuleFits(5, Rules(5)[i])
  {
  }

  lemma BackslashRulesFit5()
    ensures |Rules(5)| == 18 && forall i :: 12 <= i < 18 ==> RuleFits(5, Rules(5)[i])
  {
  }

  /** Where the rule for key `k` stands: the '/' rules come first, then the '-' rules, then the '\' rules. */
  function RuleIndex(n: int, k: LineKey): (i: nat)
    requires SupportedLength(n) && IsLineKey(n, k)
    ensures i < 3 * n + 3
  {
    match k.dir
    case Slash => k.index - 1
    case Dash => (n + 1) + k.index - 1
    case Backslash => 2 * (n + 1) + k.index - 1
  }

  lemma RulesCover1()
    ensures forall k :: IsLineKey(1, k) && k != Uncapturable ==> Rules(1)[RuleIndex(1, k)].target == k
  {
  }

  lemma RulesCover2()
    ensures forall k :: IsLineKey(2, k) && k != Uncapturable ==> Rules(2)[RuleIndex(2, k)].target == k
  {
  }

  lemma RulesCover3()
    ensures forall k :: IsLineKey(3, k) && k != Uncapturable ==> Rules(3)[RuleIndex(3, k)].target == k
  {
  }

  lemma RulesCover4()
    ensures forall k :: IsLineKey(4, k) && k != Uncapturable ==> Rules(4)[RuleIndex(4, k)].target == k
  {
  }

  lemma RulesCover5()
    ensures forall k :: IsLineKey(5, k) && k != Uncapturable ==> Rules(5)[RuleIndex(5, k)].target == k
  {
  }
}
