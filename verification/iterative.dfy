/**
 * The iterative minimax strategy: minimax_iter walks the game tree with an
 * explicit stack of _Container nodes, expanding a node the first time it is
 * popped and scoring it the second time, then picks the root's move.
 */
module IterativeSearch {
  import opened Board
  import opened Stonehenge
  import opened Reachable
  import opened StonehengeGame
  import opened GameValue
  import opened RecursiveSearch

  datatype Option<T> = None | Some(value: T)

  /** _Container: a search-tree node. `state` is never reassigned after the
      node is built; `score` starts as None and `children` as []. */
  class Container {
    const state: State
    var score: Option<int>
    var children: seq<Container>

    constructor (state: State)
      ensures this.state == state && score == None && children == []
    {
      this.state := state;
      score := None;
      children := [];
    }
  }

  // ---------------------------------------------------------------------------
  // What a node of the search tree means

  /** A node for `s` with these `children` has been expanded: one child per
      legal move of the (unfinished) state, in get_possible_moves order, each
      holding that move's successor. A child's state is fixed, so this reads
      nothing. */
  ghost predicate Expanded(s: State, children: seq<Container>) {
    Sound(s) && !IsOver(s) && ChildStates(s, children)
  }

  /** One child per entry of get_possible_moves, in that order, each holding
      that move's successor. */
  ghost predicate ChildStates(s: State, children: seq<Container>)
    requires Valid(s)
  {
    && |children| == |PossibleMoves(s)|
    && forall i :: 0 <= i < |children| ==> children[i].state == Next(s, PossibleMoves(s)[i])
  }

  /** What every node the search builds satisfies: a reachable state, children
      only once expanded, a score only when it is the state's negamax value,
      and an unfinished node scored only after it was expanded. */
  ghost predicate GoodNode(s: State, children: seq<Container>, score: Option<int>) {
    && Sound(s)
    && (children != [] ==> Expanded(s, children))
    && (score.Some? ==> score.value == Negamax(s))
    && (score.Some? && !IsOver(s) ==> children != [])
  }

  ghost predicate Good(c: Container)
    reads c
  {
    GoodNode(c.state, c.children, c.score)
  }

  // ---------------------------------------------------------------------------
  // Termination measure: how many pops are still to come

  /** A bound on the pops a fresh node with `f` unclaimed cells costs: one
      to expand it, one to score it, and at most `f` children with one cell
      fewer each. */
  function PopBound(f: nat): (w: nat)
    ensures w >= 1
  {
    if f == 0 then 1 else 2 + Times(f, PopBound(f - 1))
  }

  /** k * w, by repeated addition. */
  function Times(k: nat, w: nat): nat {
    if k == 0 then 0 else w + Times(k - 1, w)
  }

  /** The pops a node on the stack can still cost: its whole subtree while it
      is unexpanded, only the scoring pop once it has children. */
  ghost function EntryWork(c: Container): (w: nat)
    reads c
    ensures w >= 1
  {
    if c.children == [] && SupportedLength(c.state.length) then PopBound(FreeCount(c.state)) else 1
  }

  ghost function StackWork(st: seq<Container>): nat
    reads set x | x in st
  {
    if st == [] then 0 else EntryWork(st[0]) + StackWork(st[1..])
  }

  lemma StackWorkCons(c: Container, cs: seq<Container>)
    ensures StackWork([c] + cs) == EntryWork(c) + StackWork(cs)
  {
    assert ([c] + cs)[0] == c && ([c] + cs)[1..] == cs;
  }

  lemma {:induction false} StackWorkAppend(a: seq<Container>, b: seq<Container>)
    ensures StackWork(a + b) == StackWork(a) + StackWork(b)
  {
    if a != [] {
      assert (a + b)[0] == a[0] && (a + b)[1..] == a[1..] + b;
      StackWorkAppend(a[1..], b);
    } else {
      assert a + b == b;
    }
  }

  /** `t` back to front: the order in which inserting each element at the
      front of a list leaves them. */
  function Reversed<T>(t: seq<T>): (r: seq<T>)
    ensures |r| == |t|
    ensures forall i :: 0 <= i < |t| ==> r[i] == t[|t| - 1 - i]
  {
    if t == [] then [] else [t[|t| - 1]] + Reversed(t[..|t| - 1])
  }

  lemma {:induction false} StackWorkReversed(t: seq<Container>)
    ensures StackWork(Reversed(t)) == StackWork(t)
  {
    if t != [] {
      var init := t[..|t| - 1];
      StackWorkReversed(init);
      StackWorkAppend(init, [t[|t| - 1]]);
      assert init + [t[|t| - 1]] == t;
    }
  }

  /** Unexpanded nodes that all have `f` unclaimed cells cost PopBound(f) each. */
  lemma {:induction false} FreshChildrenWork(cs: seq<Container>, f: nat)
    requires forall i :: 0 <= i < |cs| ==>
      cs[i].children == [] && SupportedLength(cs[i].state.length) && FreeCount(cs[i].state) == f
    ensures StackWork(cs) == Times(|cs|, PopBound(f))
  {
    if cs != [] {
      FreshChildrenWork(cs[1..], f);
    }
  }

  // ---------------------------------------------------------------------------
  // The pieces of the loop

  /** The branch for a popped node without children: a new container for
      every legal move of `node`, appended both to its children and to a list
      that starts with `node` itself. */
  method Expand(node: Container, ghost known: set<Container>) returns (temp: seq<Container>)
    requires Valid(node.state) && node.children == []
    modifies node
    ensures node.score == old(node.score)
    ensures temp == [node] + node.children
    ensures ChildStates(node.state, node.children)
    ensures forall x :: x in node.children ==> fresh(x)
    ensures Leaves(node.children) && Outside(node.children, known + {node}) && NoRepeats(node.children)
  {
    var lastState := node.state;
    temp := [node];
    var moves := PossibleMoves(lastState);
    for j := 0 to |moves|
      invariant temp == [node] + node.children
      invariant node.score == old(node.score)
      invariant |node.children| == j && Follow(lastState, moves, node.children)
      invariant forall x :: x in node.children ==> fresh(x)
      invariant Leaves(node.children) && Outside(node.children, known + {node}) && NoRepeats(node.children)
    {
      var childrenContainer := AddChild(node, moves, known);
      temp := temp + [childrenContainer];
    }
  }

  /** One turn of Expand's loop: the container for the state the next move
      leads to, appended to node.children. */
  method AddChild(node: Container, moves: seq<string>, ghost known: set<Container>) returns (c: Container)
    requires Valid(node.state) && |node.children| < |moves| && Follow(node.state, moves, node.children)
    requires Leaves(node.children) && Outside(node.children, known + {node}) && NoRepeats(node.children)
    modifies node
    ensures fresh(c) && node.children == old(node.children) + [c] && node.score == old(node.score)
    ensures Follow(node.state, moves, node.children)
    ensures Leaves(node.children) && Outside(node.children, known + {node}) && NoRepeats(node.children)
  {
    var childState := MakeMove(node.state, moves[|node.children|]);
    c := new Container(childState);
    LeafAppended(node.state, moves, node.children, c, known + {node});
    node.children := node.children + [c];
  }

  /** The states of `cs` are those the first |cs| of `moves` lead to from `s`. */
  ghost predicate Follow(s: State, moves: seq<string>, cs: seq<Container>)
    requires Valid(s)
  {
    |cs| <= |moves| && forall i :: 0 <= i < |cs| ==> cs[i].state == Next(s, moves[i])
  }

  /** Appending a new, unexpanded node for the next move keeps a list of
      leaves a list of distinct leaves outside `S` that follows `moves`. */
  lemma LeafAppended(s: State, moves: seq<string>, cs: seq<Container>, c: Container, S: set<Container>)
    requires Valid(s) && Follow(s, moves, cs) && |cs| < |moves| && c.state == Next(s, moves[|cs|])
    requires Leaves(cs) && Outside(cs, S) && NoRepeats(cs)
    requires c !in cs && c !in S && |c.children| == 0 && c.score.None?
    ensures Follow(s, moves, cs + [c])
    ensures Leaves(cs + [c]) && Outside(cs + [c], S) && NoRepeats(cs + [c])
  {
  }

  /** Every node of `cs` is unexpanded and unscored. */
  ghost predicate Leaves(cs: seq<Container>)
    reads set x | x in cs
  {
    forall i :: 0 <= i < |cs| ==> |cs[i].children| == 0 && cs[i].score.None?
  }

  /** No node of `cs` belongs to `S`. */
  predicate Outside(cs: seq<Container>, S: set<Container>) {
    forall i :: 0 <= i < |cs| ==> cs[i] !in S
  }

  /** Each node of `temp`, in order, inserted at the front of the stack. */
  method PushFront(temp: seq<Container>, stack: seq<Container>) returns (st: seq<Container>)
    ensures st == Reversed(temp) + stack
  {
    st := stack;
    for i := 0 to |temp|
      invariant st == Reversed(temp[..i]) + stack
    {
      assert temp[..i + 1][..i] == temp[..i];
      st := [temp[i]] + st;
    }
    assert temp[..|temp|] == temp;
  }

  /** The negation of each child's score, in the order of the children. */
  function NegatedScores(cs: seq<Container>): (r: seq<int>)
    requires forall i :: 0 <= i < |cs| ==> cs[i].score.Some?
    reads set x | x in cs
    ensures |r| == |cs| && forall i :: 0 <= i < |cs| ==> r[i] == cs[i].score.value * -1
  {
    if cs == [] then [] else [cs[0].score.value * -1] + NegatedScores(cs[1..])
  }

  /** The index of the last entry of `vs` equal to `target`, or -1. */
  function LastIndex(vs: seq<int>, target: int): (i: int)
    ensures -1 <= i < |vs|
    ensures i >= 0 ==> vs[i] == target && forall k :: i < k < |vs| ==> vs[k] != target
    ensures i == -1 ==> forall k :: 0 <= k < |vs| ==> vs[k] != target
  {
    if vs == [] then -1
    else if vs[|vs| - 1] == target then |vs| - 1
    else LastIndex(vs[..|vs| - 1], target)
  }

  /** minimax_iter's choice among the move scores: the last one equal to the
      root's score, else the last move. */
  function LastBest(vs: seq<int>, target: int): (i: nat)
    requires |vs| > 0
    ensures i < |vs|
  {
    var k := LastIndex(vs, target);
    if k >= 0 then k else |vs| - 1
  }

  // ---------------------------------------------------------------------------
  // The stack discipline

  /** Every node of `S` is Good. Only a Good(c) the proof mentions is unfolded. */
  ghost predicate AllGood(S: set<Container>)
    reads S
  {
    forall c {:trigger Good(c)} :: c in S ==> Good(c)
  }

  /** The children of the nodes of `S` lie in `T`. */
  ghost predicate ChildrenIn(S: set<Container>, T: set<Container>)
    reads S
  {
    forall c, x :: c in S && x in c.children ==> x in T
  }

  ghost function Nodes(cs: seq<Container>): set<Container> {
    set x | x in cs
  }

  ghost predicate NoRepeats(st: seq<Container>) {
    forall i, j :: 0 <= i < j < |st| ==> st[i] != st[j]
  }

  /** A child on the stack sits above its parent. */
  ghost predicate ChildrenAbove(st: seq<Container>)
    reads set x | x in st
  {
    forall i, j :: 0 <= i < |st| && 0 <= j < |st| && st[i] in st[j].children ==> i < j
  }

  /** A child in `S` that is not yet scored is still on the stack. */
  ghost predicate PendingOnStack(S: set<Container>, st: seq<Container>)
    reads S, set x | x in st
  {
    forall j, x :: 0 <= j < |st| && x in st[j].children && x in S && x.score.None? ==> x in st
  }

  /** The shape of the stack over the nodes `S`: distinct nodes of `S` with
      the root at the bottom, a child on the stack above its parent, and a
      child in `S` not yet scored still on the stack. */
  ghost predicate Layout(root: Container, S: set<Container>, stack: seq<Container>)
    reads S
  {
    && (forall j :: 0 <= j < |stack| ==> stack[j] in S)
    && NoRepeats(stack)
    && (stack != [] ==> stack[|stack| - 1] == root)
    && ChildrenAbove(stack)
    && PendingOnStack(S, stack)
  }

  /** What holds each time minimax_iter's loop comes round: every node built
      so far is Good and lies in `Repr` with its children, and the stack is
      laid out over `Repr`. */
  ghost predicate StackInv(root: Container, Repr: set<Container>, stack: seq<Container>)
    reads Repr
  {
    root in Repr && AllGood(Repr) && ChildrenIn(Repr, Repr) && Layout(root, Repr, stack)
  }

  lemma InTail<T>(p: seq<T>, x: T)
    requires x in p && x != p[0]
    ensures x in p[1..]
  {
    var i :| 0 <= i < |p| && p[i] == x;
    assert p[1..][i - 1] == x;
  }

  /** Popping the top node leaves the rest laid out over the other nodes. */
  lemma LayoutTail(root: Container, S: set<Container>, stack: seq<Container>)
    requires Layout(root, S, stack) && stack != []
    ensures Layout(root, S - {stack[0]}, stack[1..])
  {
    var rest := stack[1..];
    forall j, x | 0 <= j < |rest| && x in rest[j].children && x in S - {stack[0]} && x.score.None?
      ensures x in rest
    {
      assert stack[j + 1] == rest[j];
      InTail(stack, x);
    }
  }

  /** When a node reaches the top of the stack, all of its children are scored,
      and it is not its own child. */
  lemma TopChildrenScored(root: Container, Repr: set<Container>, stack: seq<Container>)
    requires StackInv(root, Repr, stack) && stack != []
    ensures forall x :: x in stack[0].children ==> x.score.Some?
    ensures stack[0] !in stack[0].children
  {
    forall x | x in stack[0].children ensures x.score.Some? {
      if x.score.None? {
        var i :| 0 <= i < |stack| && stack[i] == x;
      }
    }
  }

  /** A scored node may join the nodes the layout speaks about. */
  lemma LayoutAddScored(root: Container, S: set<Container>, stack: seq<Container>, c: Container)
    requires Layout(root, S, stack) && c.score.Some?
    ensures Layout(root, S + {c}, stack)
  {
  }

  /** What holds right after the front node is popped: the popped node is Good,
      all its children are scored nodes of `Repr`, and the rest of the stack is
      laid out over the other nodes. */
  ghost predicate Popped(root: Container, Repr: set<Container>, last: Container, rest: seq<Container>)
    reads Repr
  {
    && last in Repr && last !in rest && (rest == [] ==> last == root)
    && Below(root, Repr - {last}, rest, Repr)
    && Good(last) && last !in last.children
    && forall x :: x in last.children ==> x in Repr && x.score.Some?
  }

  /** What the invariant says about the nodes other than the popped one; it
      reads only those nodes. */
  ghost predicate Below(root: Container, others: set<Container>, rest: seq<Container>, Repr: set<Container>)
    reads others
  {
    Layout(root, others, rest) && AllGood(others) && ChildrenIn(others, Repr)
  }

  /** Popping the top of the stack. */
  lemma PopTop(root: Container, Repr: set<Container>, popped: seq<Container>)
    requires StackInv(root, Repr, popped) && popped != []
    ensures Popped(root, Repr, popped[0], popped[1..])
    ensures StackWork(popped) == EntryWork(popped[0]) + StackWork(popped[1..])
  {
    var last, rest := popped[0], popped[1..];
    TopChildrenScored(root, Repr, popped);
    LayoutTail(root, Repr, popped);
    StackWorkCons(last, rest);
    assert popped == [last] + rest;
    assert Good(last);
    assert AllGood(Repr - {last});
  }

  /** A scored node goes back among the others without returning to the stack. */
  lemma Rejoin(root: Container, Repr: set<Container>, last: Container, rest: seq<Container>)
    requires last in Repr && (rest == [] ==> last == root)
    requires Below(root, Repr - {last}, rest, Repr)
    requires Good(last) && last.score.Some? && forall x :: x in last.children ==> x in Repr
    ensures StackInv(root, Repr, rest)
  {
    var others := Repr - {last};
    assert Repr == others + {last};
    forall c | c in Repr ensures Good(c) {
      if c != last {
        assert c in others;
      }
    }
    LayoutAddScored(root, others, rest, last);
  }

  /** Storing score `v` in the node just popped. */
  method SetScore(last: Container, v: int, ghost root: Container, ghost Repr: set<Container>, ghost rest: seq<Container>)
    requires Popped(root, Repr, last, rest)
    requires Sound(last.state) && v == Negamax(last.state)
    requires !IsOver(last.state) ==> last.children != []
    modifies last
    ensures last.score == Some(v)
    ensures StackInv(root, Repr, rest)
    ensures StackWork(rest) == old(StackWork(rest))
    ensures rest == [] ==> last == root && forall x :: x in root.children ==> x.score.Some?
  {
    ghost var others := Repr - {last};
    assert Good(last) && last !in last.children && last !in rest;
    assert forall x :: x in last.children ==> x in Repr && x.score.Some?;
    assert Below(root, others, rest, Repr);
    last.score := Some(v);
    assert Good(last);
    Rejoin(root, Repr, last, rest);
  }

  /** The cost of the stack after an expansion: one scoring pop for the
      expanded node and PopBound(f - 1) for each of its `f` new children. */
  lemma PushWork(last: Container, cs: seq<Container>, rest: seq<Container>, f: nat)
    requires last.children == cs != [] && |cs| == f
    requires forall i :: 0 <= i < |cs| ==>
      cs[i].children == [] && SupportedLength(cs[i].state.length) && FreeCount(cs[i].state) == f - 1
    ensures StackWork(Reversed([last] + cs) + rest) == 1 + Times(f, PopBound(f - 1)) + StackWork(rest)
  {
    FreshChildrenWork(cs, f - 1);
    StackWorkAppend(Reversed([last] + cs), rest);
    StackWorkReversed([last] + cs);
    StackWorkCons(last, cs);
  }

  /** Where pushing each node of `temp` onto the front puts everything, for
      `temp = [last] + cs`. */
  lemma PushedIndex(last: Container, cs: seq<Container>, rest: seq<Container>)
    ensures var st := Reversed([last] + cs) + rest;
      && |st| == |cs| + 1 + |rest|
      && (forall p :: 0 <= p < |cs| ==> st[p] == cs[|cs| - 1 - p])
      && st[|cs|] == last
      && (forall p :: |cs| < p < |st| ==> st[p] == rest[p - |cs| - 1])
  {
  }

  lemma PushNoRepeats(last: Container, cs: seq<Container>, rest: seq<Container>)
    requires NoRepeats(rest) && NoRepeats(cs) && last !in rest && last !in cs
    requires forall i :: 0 <= i < |cs| ==> cs[i] !in rest
    ensures NoRepeats(Reversed([last] + cs) + rest)
  {
    var st := Reversed([last] + cs) + rest;
    var k := |cs|;
    PushedIndex(last, cs, rest);
    forall i, j | 0 <= i < j < |st| ensures st[i] != st[j] {
      if j > k && i > k {
        assert rest[i - k - 1] != rest[j - k - 1];
      } else if j > k && i < k {
        assert cs[k - 1 - i] !in rest;
      } else if j < k {
        assert cs[k - 1 - i] != cs[k - 1 - j];
      }
    }
  }

  lemma PushChildrenAbove(last: Container, cs: seq<Container>, rest: seq<Container>)
    requires ChildrenAbove(rest) && last.children == cs
    requires forall i :: 0 <= i < |cs| ==> cs[i].children == [] && cs[i] !in rest && cs[i] != last
    requires forall j, x :: 0 <= j < |rest| && x in rest[j].children ==> x !in Nodes(cs)
    ensures ChildrenAbove(Reversed([last] + cs) + rest)
  {
    var st := Reversed([last] + cs) + rest;
    forall i, j | 0 <= i < |st| && 0 <= j < |st| && st[i] in st[j].children ensures i < j {
      PushedParent(last, cs, rest, i, j);
    }
  }

  lemma PushedParent(last: Container, cs: seq<Container>, rest: seq<Container>, i: int, j: int)
    requires ChildrenAbove(rest) && last.children == cs
    requires forall i :: 0 <= i < |cs| ==> cs[i].children == [] && cs[i] !in rest && cs[i] != last
    requires forall j, x :: 0 <= j < |rest| && x in rest[j].children ==> x !in Nodes(cs)
    requires var st := Reversed([last] + cs) + rest;
      0 <= i < |st| && 0 <= j < |st| && st[i] in st[j].children
    ensures i < j
  {
    var st := Reversed([last] + cs) + rest;
    var k := |cs|;
    PushedIndex(last, cs, rest);
    if j > k {
      if i < k {
        assert st[i] in Nodes(cs);
      } else if i > k {
        assert rest[i - k - 1] in rest[j - k - 1].children;
      }
    } else if j == k {
      var m :| 0 <= m < k && cs[m] == st[i];
    }
  }

  lemma PushPending(S: set<Container>, last: Container, cs: seq<Container>, rest: seq<Container>)
    requires PendingOnStack(S, rest) && last.children == cs
    requires forall i :: 0 <= i < |cs| ==> cs[i].children == []
    ensures PendingOnStack(S + {last} + Nodes(cs), Reversed([last] + cs) + rest)
  {
    var st := Reversed([last] + cs) + rest;
    var k := |cs|;
    PushedIndex(last, cs, rest);
    forall j, x | 0 <= j < |st| && x in st[j].children && x in S + {last} + Nodes(cs) && x.score.None?
      ensures x in st
    {
      if j == k {
        var m :| 0 <= m < k && cs[m] == x;
        assert st[k - 1 - m] == x;
      } else if j > k {
        if x == last {
          assert st[k] == x;
        } else if x in Nodes(cs) {
          var m :| 0 <= m < k && cs[m] == x;
          assert st[k - 1 - m] == x;
        } else {
          assert rest[j - k - 1] == st[j];
          var m :| 0 <= m < |rest| && rest[m] == x;
          assert st[m + k + 1] == x;
        }
      }
    }
  }

  /** The layout after an expansion: the new children, then the expanded
      node, then the rest of the stack. */
  lemma PushLayout(root: Container, S: set<Container>, rest: seq<Container>, last: Container, cs: seq<Container>)
    requires Layout(root, S, rest)
    requires rest == [] ==> last == root
    requires last !in S && last !in cs && last.children == cs
    requires forall i :: 0 <= i < |cs| ==> cs[i] !in S && cs[i].children == [] && cs[i].score == None
    requires NoRepeats(cs)
    requires forall j, x :: 0 <= j < |rest| && x in rest[j].children ==> x !in Nodes(cs)
    ensures Layout(root, S + {last} + Nodes(cs), Reversed([last] + cs) + rest)
  {
    PushNoRepeats(last, cs, rest);
    PushChildrenAbove(last, cs, rest);
    PushPending(S, last, cs, rest);
    PushMembers(root, S, rest, last, cs);
  }

  lemma PushMembers(root: Container, S: set<Container>, rest: seq<Container>, last: Container, cs: seq<Container>)
    requires forall j :: 0 <= j < |rest| ==> rest[j] in S
    requires rest != [] ==> rest[|rest| - 1] == root
    requires rest == [] ==> last == root
    ensures var st := Reversed([last] + cs) + rest;
      && (forall j :: 0 <= j < |st| ==> st[j] in S + {last} + Nodes(cs))
      && st[|st| - 1] == root
  {
    PushedIndex(last, cs, rest);
  }

  /** The branch for a popped node without children: expand it and
      push it back under its new children. */
  method ExpandAndPush(last: Container, rest: seq<Container>, ghost root: Container, ghost Repr: set<Container>)
    returns (stack: seq<Container>, ghost Repr': set<Container>)
    requires Popped(root, Repr, last, rest)
    requires Sound(last.state) && !IsOver(last.state) && last.children == []
    modifies last
    ensures Repr <= Repr' && fresh(Repr' - Repr)
    ensures StackInv(root, Repr', stack) && stack != []
    ensures StackWork(stack) < PopBound(FreeCount(last.state)) + old(StackWork(rest))
  {
    var temp := ExpandPopped(last, rest, root, Repr);
    ghost var cs := last.children;
    Repr' := Repr + Nodes(cs);
    stack := PushFront(temp, rest);
    AfterExpand(root, Repr, rest, last, cs, stack);
  }

  /** Expand applied to the node just popped: the nodes below it on the stack
      and the work they hold are untouched. */
  method ExpandPopped(last: Container, rest: seq<Container>, ghost root: Container, ghost Repr: set<Container>)
    returns (temp: seq<Container>)
    requires Popped(root, Repr, last, rest)
    requires Valid(last.state) && last.children == []
    modifies last
    ensures last.score == old(last.score) && temp == [last] + last.children
    ensures ChildStates(last.state, last.children)
    ensures forall x :: x in last.children ==> fresh(x)
    ensures Leaves(last.children) && Outside(last.children, Repr + {last}) && NoRepeats(last.children)
    ensures Below(root, Repr - {last}, rest, Repr)
    ensures StackWork(rest) == old(StackWork(rest))
  {
    ghost var others := Repr - {last};
    assert last !in rest && last !in others;
    temp := Expand(last, Repr);
  }

  /** The children an expansion creates are Good and one cell closer to a full board. */
  lemma ChildrenGood(s: State, cs: seq<Container>)
    requires Sound(s) && !IsOver(s) && ChildStates(s, cs) && Leaves(cs)
    ensures forall i :: 0 <= i < |cs| ==> Good(cs[i]) && FreeCount(cs[i].state) == FreeCount(s) - 1
  {
    forall i | 0 <= i < |cs| ensures Good(cs[i]) && FreeCount(cs[i].state) == FreeCount(s) - 1 {
      SoundNext(s, PossibleMoves(s)[i]);
      LegalMoveDecreases(s, PossibleMoves(s)[i]);
      FreshGood(cs[i]);
    }
  }

  /** An expansion lowers the work measure: the expanded node's PopBound(f)
      becomes 1 plus PopBound(f - 1) for each of its f children. */
  lemma ExpansionWork(last: Container, cs: seq<Container>, rest: seq<Container>, stack: seq<Container>)
    requires Sound(last.state) && !IsOver(last.state)
    requires last.children == cs && ChildStates(last.state, cs) && Leaves(cs)
    requires stack == Reversed([last] + cs) + rest
    ensures StackWork(stack) < PopBound(FreeCount(last.state)) + StackWork(rest)
  {
    var f := FreeCount(last.state);
    ChildrenGood(last.state, cs);
    MovesEmptyIffOver(last.state);
    PushWork(last, cs, rest, f);
  }

  /** The invariant and the work measure after an expansion, from what the
      expansion leaves behind. */
  lemma AfterExpand(root: Container, Repr: set<Container>, rest: seq<Container>, last: Container, cs: seq<Container>,
                    stack: seq<Container>)
    requires last in Repr && (rest == [] ==> last == root)
    requires Below(root, Repr - {last}, rest, Repr)
    requires Sound(last.state) && !IsOver(last.state)
    requires last.children == cs && last.score.None? && ChildStates(last.state, cs)
    requires Leaves(cs) && Outside(cs, Repr + {last}) && NoRepeats(cs)
    requires stack == Reversed([last] + cs) + rest
    ensures StackInv(root, Repr + Nodes(cs), stack)
    ensures StackWork(stack) < PopBound(FreeCount(last.state)) + StackWork(rest)
  {
    ExpansionWork(last, cs, rest, stack);
    var others := Repr - {last};
    assert Repr == others + {last};
    assert forall i :: 0 <= i < |cs| ==> cs[i] !in Repr && cs[i] != last && cs[i].children == [] && cs[i].score == None;
    ChildrenGood(last.state, cs);
    assert Good(last);
    forall j, x | 0 <= j < |rest| && x in rest[j].children ensures x !in Nodes(cs) {
      assert rest[j] in others;
    }
    PushLayout(root, others, rest, last, cs);
    GrowGood(others, last, cs);
    GrowChildrenIn(others, Repr, last, cs);
    assert others + {last} + Nodes(cs) == Repr + Nodes(cs);
  }

  /** A fresh node for a reachable state is Good. */
  lemma FreshGood(c: Container)
    requires Sound(c.state) && c.children == [] && c.score == None
    ensures Good(c)
  {
  }

  lemma GrowGood(others: set<Container>, last: Container, cs: seq<Container>)
    requires AllGood(others) && Good(last)
    requires forall i :: 0 <= i < |cs| ==> Good(cs[i])
    ensures AllGood(others + {last} + Nodes(cs))
  {
    forall c | c in others + {last} + Nodes(cs) ensures Good(c) {
      if c in Nodes(cs) {
        var i :| 0 <= i < |cs| && cs[i] == c;
      }
    }
  }

  lemma GrowChildrenIn(others: set<Container>, Repr: set<Container>, last: Container, cs: seq<Container>)
    requires ChildrenIn(others, Repr) && Repr == others + {last}
    requires last.children == cs && forall i :: 0 <= i < |cs| ==> cs[i].children == []
    ensures ChildrenIn(others + {last} + Nodes(cs), Repr + Nodes(cs))
  {
    forall c, x | c in others + {last} + Nodes(cs) && x in c.children ensures x in Repr + Nodes(cs) {
    }
  }

  /** `last_children_final`: the last child whose negated score equals
      `target`, or the last child when there is none. */
  method LastMatchingChild(children: seq<Container>, target: int) returns (final: Container, ghost pick: nat)
    requires |children| > 0 && forall i :: 0 <= i < |children| ==> children[i].score.Some?
    ensures pick == LastBest(NegatedScores(children), target) && final == children[pick]
  {
    ghost var vs := NegatedScores(children);
    final := children[|children| - 1];
    pick := |children| - 1;
    for j := 0 to |children|
      invariant pick < |children| && final == children[pick]
      invariant || (pick == |children| - 1 && forall k :: 0 <= k < j ==> vs[k] != target)
                || (pick < j && vs[pick] == target && forall k :: pick < k < j ==> vs[k] != target)
    {
      var c := children[j];
      if c.score.value * -1 == target {
        final := c;
        pick := j;
      }
    }
  }

  /** The first legal move of `s` whose successor is `target` (the source
      compares the two states' repr strings). */
  method FirstMoveTo(s: State, target: State) returns (move: Option<string>)
    requires Valid(s)
    ensures move.Some? ==> move.value in PossibleMoves(s) && Next(s, move.value) == target
    ensures move.None? ==> forall k :: 0 <= k < |PossibleMoves(s)| ==> Next(s, PossibleMoves(s)[k]) != target
  {
    var moves := PossibleMoves(s);
    for j := 0 to |moves|
      invariant forall k :: 0 <= k < j ==> Next(s, moves[k]) != target
    {
      var mm := moves[j];
      var ns := MakeMove(s, mm);
      if ns == target {
        return Some(mm);
      }
    }
    return None;
  }

  /** Children that are Good, scored and hold the successors of `s` in move
      order read their negated scores off as the values of the moves of `s`. */
  lemma ScoresAreValues(s: State, cs: seq<Container>)
    requires Sound(s) && !IsOver(s) && ChildStates(s, cs)
    requires forall i :: 0 <= i < |cs| ==> Good(cs[i]) && cs[i].score.Some?
    ensures NegatedScores(cs) == MoveValues(s)
  {
    forall i | 0 <= i < |cs| ensures NegatedScores(cs)[i] == MoveValues(s)[i] {
      assert Good(cs[i]);
    }
  }

  /** The moves after the loop: the last child whose negated score equals the
      root's (else the last child), then the first legal move of the root
      whose successor is that child's state. */
  method ChooseMove(root: Container) returns (move: Option<string>)
    requires Searched(root)
    ensures move == Some(PossibleMoves(root.state)[LastBest(MoveValues(root.state), Negamax(root.state))])
  {
    var s := root.state;
    var final, pick := LastMatchingChild(root.children, root.score.value);
    ChosenChild(root, pick);
    move := FirstMoveTo(s, final.state);
    MoveReached(s, pick, final.state, move);
  }

  /** The root once the stack is empty: unfinished, expanded and scored, with
      every child Good and scored. */
  ghost predicate Searched(root: Container)
    reads root, set x | x in root.children
  {
    && Good(root) && !IsOver(root.state) && root.score.Some?
    && Expanded(root.state, root.children) && |root.children| > 0
    && forall i :: 0 <= i < |root.children| ==> Good(root.children[i]) && root.children[i].score.Some?
  }

  /** The child minimax_iter settles on stands for the move LastBest picks
      among the root's move values. */
  lemma ChosenChild(root: Container, pick: nat)
    requires Searched(root) && pick == LastBest(NegatedScores(root.children), root.score.value)
    ensures pick == LastBest(MoveValues(root.state), Negamax(root.state))
    ensures root.children[pick].state == Next(root.state, PossibleMoves(root.state)[pick])
  {
    ScoresAreValues(root.state, root.children);
  }

  /** minimax_iter's move always achieves the position's value: the root's
      value is the largest move value, so some move scores exactly that. */
  lemma IterChoiceOptimal(s: State)
    requires Sound(s) && !IsOver(s)
    ensures MoveValues(s)[LastBest(MoveValues(s), Negamax(s))] == Negamax(s)
  {
  }

  /** The first legal move reaching the state of move `pick` is that move:
      distinct legal moves lead to distinct states. */
  lemma MoveReached(s: State, pick: nat, target: State, move: Option<string>)
    requires Valid(s) && pick < |PossibleMoves(s)| && target == Next(s, PossibleMoves(s)[pick])
    requires move.Some? ==> move.value in PossibleMoves(s) && Next(s, move.value) == target
    requires move.None? ==> forall k :: 0 <= k < |PossibleMoves(s)| ==> Next(s, PossibleMoves(s)[k]) != target
    ensures move == Some(PossibleMoves(s)[pick])
  {
    if move.Some? && move.value != PossibleMoves(s)[pick] {
      LegalMovesDistinct(s, move.value, PossibleMoves(s)[pick]);
    }
  }

  /** An expanded node at the top of the stack reads its children's scores
      off as the values of its moves. */
  lemma ChildScores(root: Container, Repr: set<Container>, last: Container, rest: seq<Container>)
    requires Popped(root, Repr, last, rest) && last.children != []
    ensures forall x :: x in last.children ==> x.score.Some?
    ensures Sound(last.state) && !IsOver(last.state)
    ensures NegatedScores(last.children) == MoveValues(last.state)
  {
    var cs := last.children;
    forall i | 0 <= i < |cs| ensures Good(cs[i]) && cs[i].score.Some? {
      assert cs[i] in Repr - {last};
    }
    assert Good(last);
    ScoresAreValues(last.state, cs);
  }

  /** Once the stack is empty the root is searched: every node is Good. */
  lemma RootReady(root: Container, Repr: set<Container>)
    requires StackInv(root, Repr, []) && Sound(root.state) && !IsOver(root.state) && root.score.Some?
    requires forall x :: x in root.children ==> x.score.Some?
    ensures Searched(root)
  {
    assert Good(root);
    forall i | 0 <= i < |root.children| ensures Good(root.children[i]) {
      assert root.children[i] in Repr;
    }
  }

  // ---------------------------------------------------------------------------
  // minimax_iter

  /** One turn of minimax_iter's `while stack != []` loop: pop the front
      node, then score it if its game is over, expand it if it has no
      children yet, and otherwise score it from its children. */
  method Step(game: Game, root: Container, stack: seq<Container>, ghost Repr: set<Container>)
    returns (last: Container, stack': seq<Container>, ghost Repr': set<Container>)
    requires StackInv(root, Repr, stack) && stack != []
    modifies game, Repr
    ensures game.current == old(game.current)
    ensures Repr <= Repr' && fresh(Repr' - Repr)
    ensures StackInv(root, Repr', stack')
    ensures StackWork(stack') < old(StackWork(stack))
    ensures stack' == [] ==> last == root && root.score.Some? && forall x :: x in root.children ==> x.score.Some?
  {
    last := stack[0];
    stack' := stack[1..];
    Repr' := Repr;
    PopTop(root, Repr, stack);
    var over := game.IsOver(last.state);
    if over {
      ScoreFinished(game, last, root, Repr, stack');
    } else if last.children == [] {
      stack', Repr' := ExpandAndPush(last, stack', root, Repr);
    } else {
      ScoreFromChildren(last, root, Repr, stack');
    }
  }

  /** The branch for a popped node whose game is over: score it as
      helper_isover would. */
  method ScoreFinished(game: Game, last: Container, ghost root: Container, ghost Repr: set<Container>, ghost rest: seq<Container>)
    requires Popped(root, Repr, last, rest) && IsOver(last.state)
    modifies game, last
    ensures game.current == old(game.current)
    ensures last.score == Some(TerminalScore(last.state)) == Some(Negamax(last.state))
    ensures StackInv(root, Repr, rest) && StackWork(rest) == old(StackWork(rest))
    ensures rest == [] ==> last == root && forall x :: x in root.children ==> x.score.Some?
  {
    // minimax_iter repeats helper_isover's code here.
    var v := HelperIsOver(game, last.state);
    SetScore(last, v, root, Repr, rest);
  }

  /** The final `else` branch: every child is scored, and the popped node
      takes the largest negated child score. */
  method ScoreFromChildren(last: Container, ghost root: Container, ghost Repr: set<Container>, ghost rest: seq<Container>)
    requires Popped(root, Repr, last, rest) && last.children != []
    modifies last
    ensures last.score == Some(MaxOf(MoveValues(last.state))) == Some(Negamax(last.state))
    ensures StackInv(root, Repr, rest) && StackWork(rest) == old(StackWork(rest))
    ensures rest == [] ==> last == root && forall x :: x in root.children ==> x.score.Some?
  {
    ChildScores(root, Repr, last, rest);
    var scores := NegatedScores(last.children);
    SetScore(last, MaxOf(scores), root, Repr, rest);
  }

  /** minimax_iter: score the whole game tree below the current state with an
      explicit stack, then return the legal move leading to the last child
      whose negated score equals the root's. */
  method MinimaxIter(game: Game) returns (move: Option<string>)
    requires Sound(game.current) && !IsOver(game.current)
    modifies game
    ensures game.current == old(game.current)
    ensures move == Some(PossibleMoves(game.current)[LastBest(MoveValues(game.current), Negamax(game.current))])
  {
    var current := new Container(game.current);
    var stack: seq<Container> := [];
    stack := stack + [current];
    var last: Container := current;
    ghost var Repr: set<Container> := {current};
    assert Good(current);
    while stack != []
      invariant game.current == old(game.current) == current.state
      invariant fresh(Repr)
      invariant StackInv(current, Repr, stack)
      invariant stack == [] ==>
        last == current && current.score.Some? && forall x :: x in current.children ==> x.score.Some?
      decreases StackWork(stack)
    {
      last, stack, Repr := Step(game, current, stack, Repr);
    }
    RootReady(current, Repr);
    move := ChooseMove(last);
  }
}
