/**
 * `AbstractTree`: a tree given by its root, a parent function and a children
 * function, with depth-first (pre-order) and breadth-first (level-order)
 * iterators over it.
 *
 * The children function returns a finite sequence. To make the traversal
 * orders well defined, every specification below takes a ghost `rank` that
 * strictly decreases from a node to each of its children (`Ranked`): the tree
 * is finite in depth, which is what the source relies on for termination.
 */
module AbstractTree {
  import opened Wrappers

  /** The three components of a tree; `None` as root stands for `null`. */
  datatype Tree<!N(!new)> = Tree(root: Option<N>, parentFunction: N -> Option<N>, childrenFunction: N -> seq<N>)
  {
    /** `withParent`: the same root and children, another parent function. */
    function WithParent(parentFunction: N -> Option<N>): (t: Tree<N>)
      ensures t.root == root && t.childrenFunction == childrenFunction
      ensures forall n :: t.parentFunction(n) == parentFunction(n)
    {
      Tree(root, parentFunction, childrenFunction)
    }

    /** `withChildren`: the same root and parent function, another children function. */
    function WithChildren(childrenFunction: N -> seq<N>): (t: Tree<N>)
      ensures t.root == root && t.parentFunction == parentFunction
      ensures forall n :: t.childrenFunction(n) == childrenFunction(n)
    {
      Tree(root, parentFunction, childrenFunction)
    }
  }

  /** The default parent function `{ null }`. */
  function NoParent<N(!new)>(n: N): Option<N>
  {
    None
  }

  /** The default children function `{ emptySet() }`. */
  function NoChildren<N(!new)>(n: N): seq<N>
  {
    []
  }

  /**
   * The constructor with its defaults: no root, no parents, no children.
   * Whatever is not given is the default.
   */
  function NewTree<N(!new)>(root: Option<N> := None, parentFunction: N -> Option<N> := NoParent,
                      childrenFunction: N -> seq<N> := NoChildren): (t: Tree<N>)
    ensures t.root == root
    ensures forall n :: t.parentFunction(n) == parentFunction(n) && t.childrenFunction(n) == childrenFunction(n)
  {
    Tree(root, parentFunction, childrenFunction)
  }

  /** A tree built from a root alone has no parent links and no children. */
  lemma RootOnlyTree<N(!new)>(root: N, n: N)
    ensures NewTree(Some(root)).root == Some(root)
    ensures NewTree(Some(root)).parentFunction(n) == None
    ensures NewTree(Some(root)).childrenFunction(n) == []
  {
  }

  // ---------------------------------------------------------------------------
  // Traversal orders, as specifications

  /** Every child ranks strictly below its parent. */
  ghost predicate Ranked<N(!new)>(ch: N -> seq<N>, rank: N -> nat)
  {
    forall n, i {:trigger rank(ch(n)[i])} :: 0 <= i < |ch(n)| ==> rank(ch(n)[i]) < rank(n)
  }

  /** One more than the largest rank in `ns` (0 for none). */
  ghost function RankBound<N(!new)>(rank: N -> nat, ns: seq<N>): nat
  {
    if ns == [] then 0
    else
      var rest := RankBound(rank, ns[1..]);
      if rank(ns[0]) + 1 < rest then rest else rank(ns[0]) + 1
  }

  lemma {:induction false} RankBoundBelow<N(!new)>(rank: N -> nat, ns: seq<N>, r: nat)
    requires forall i :: 0 <= i < |ns| ==> rank(ns[i]) < r
    ensures RankBound(rank, ns) <= r
  {
    if ns != [] {
      RankBoundBelow(rank, ns[1..], r);
    }
  }

  /** The pre-order listing of the subtree under `n`: `n`, then each child's subtree in turn. */
  ghost function Preorder<N(!new)>(ch: N -> seq<N>, rank: N -> nat, n: N): (r: seq<N>)
    requires Ranked(ch, rank)
    ensures |r| >= 1 && r[0] == n
    decreases rank(n) + 1, 0
  {
    RankBoundBelow(rank, ch(n), rank(n));
    [n] + Forest(ch, rank, ch(n))
  }

  /** The pre-order listings of the subtrees under `ns`, one after the other. */
  ghost function Forest<N(!new)>(ch: N -> seq<N>, rank: N -> nat, ns: seq<N>): (r: seq<N>)
    requires Ranked(ch, rank)
    ensures |r| >= |ns|
    decreases RankBound(rank, ns), |ns|
  {
    if ns == [] then [] else Preorder(ch, rank, ns[0]) + Forest(ch, rank, ns[1..])
  }

  lemma {:induction false} ForestConcat<N(!new)>(ch: N -> seq<N>, rank: N -> nat, a: seq<N>, b: seq<N>)
    requires Ranked(ch, rank)
    ensures Forest(ch, rank, a + b) == Forest(ch, rank, a) + Forest(ch, rank, b)
  {
    if a == [] {
      assert a + b == b;
    } else {
      assert (a + b)[0] == a[0];
      assert (a + b)[1..] == a[1..] + b;
      ForestConcat(ch, rank, a[1..], b);
    }
  }

  /** The children of the nodes of `q`, in the order of `q`: the next level down. */
  function Kids<N(!new)>(ch: N -> seq<N>, q: seq<N>): seq<N>
  {
    if q == [] then [] else ch(q[0]) + Kids(ch, q[1..])
  }

  lemma {:induction false} ForestKids<N(!new)>(ch: N -> seq<N>, rank: N -> nat, q: seq<N>)
    requires Ranked(ch, rank)
    ensures |Forest(ch, rank, q)| == |q| + |Forest(ch, rank, Kids(ch, q))|
  {
    if q != [] {
      ForestKids(ch, rank, q[1..]);
      ForestConcat(ch, rank, ch(q[0]), Kids(ch, q[1..]));
    }
  }

  /** Taking the head off a queue and appending its children leaves one node fewer in the subtrees it spans. */
  lemma ForestShrinks<N(!new)>(ch: N -> seq<N>, rank: N -> nat, q: seq<N>)
    requires Ranked(ch, rank) && q != []
    ensures Forest(ch, rank, q) == [q[0]] + Forest(ch, rank, ch(q[0])) + Forest(ch, rank, q[1..])
    ensures |Forest(ch, rank, q[1..] + ch(q[0]))| + 1 == |Forest(ch, rank, q)|
    ensures multiset(Forest(ch, rank, q[1..] + ch(q[0]))) + multiset{q[0]} == multiset(Forest(ch, rank, q))
  {
    ForestConcat(ch, rank, q[1..], ch(q[0]));
  }

  /**
   * What a breadth-first iterator whose queue holds `q` returns: the head of
   * the queue, then what the queue holds once the head's children are
   * appended to the rest.
   */
  ghost function BfsOrder<N(!new)>(ch: N -> seq<N>, rank: N -> nat, q: seq<N>): (r: seq<N>)
    requires Ranked(ch, rank)
    ensures r == [] <==> q == []
    ensures q != [] ==> r[0] == q[0]
    decreases |Forest(ch, rank, q)|
  {
    if q == [] then []
    else
      ForestShrinks(ch, rank, q);
      [q[0]] + BfsOrder(ch, rank, q[1..] + ch(q[0]))
  }

  /** Level order, independently of any queue: a whole level, then the level below it. */
  ghost function Levels<N(!new)>(ch: N -> seq<N>, rank: N -> nat, q: seq<N>): (r: seq<N>)
    requires Ranked(ch, rank)
    decreases |Forest(ch, rank, q)|
  {
    if q == [] then []
    else
      ForestKids(ch, rank, q);
      q + Levels(ch, rank, Kids(ch, q))
  }

  /** Draining a queue `q + r` returns `q` first, then works on `r` with the children of `q` behind it. */
  lemma {:induction false} BfsConcat<N(!new)>(ch: N -> seq<N>, rank: N -> nat, q: seq<N>, r: seq<N>)
    requires Ranked(ch, rank)
    ensures BfsOrder(ch, rank, q + r) == q + BfsOrder(ch, rank, r + Kids(ch, q))
    decreases |q|
  {
    if q == [] {
      assert q + r == r && r + Kids(ch, q) == r;
    } else {
      var r' := r + ch(q[0]);
      BfsHead(ch, rank, q, r);
      BfsConcat(ch, rank, q[1..], r');
      KidsStep(ch, q, r);
      ConsTail(q, BfsOrder(ch, rank, r + Kids(ch, q)));
    }
  }

  /** Queueing the head's children, then the next level of the tail, queues the next level of the whole. */
  lemma KidsStep<N(!new)>(ch: N -> seq<N>, q: seq<N>, r: seq<N>)
    requires q != []
    ensures r + ch(q[0]) + Kids(ch, q[1..]) == r + Kids(ch, q)
  {
    assert Kids(ch, q) == ch(q[0]) + Kids(ch, q[1..]);
  }

  lemma ConsTail<T>(q: seq<T>, b: seq<T>)
    requires q != []
    ensures [q[0]] + (q[1..] + b) == q + b
  {
    assert q == [q[0]] + q[1..];
  }

  /** One step of a drain of `q + r`, for a non-empty `q`. */
  lemma BfsHead<N(!new)>(ch: N -> seq<N>, rank: N -> nat, q: seq<N>, r: seq<N>)
    requires Ranked(ch, rank) && q != []
    ensures BfsOrder(ch, rank, q + r) == [q[0]] + BfsOrder(ch, rank, q[1..] + (r + ch(q[0])))
  {
    var qr := q + r;
    BfsUnfold(ch, rank, qr);
    assert qr[1..] + ch(qr[0]) == q[1..] + (r + ch(q[0])) by {
      assert qr[0] == q[0] && qr[1..] == q[1..] + r;
    }
  }

  lemma BfsUnfold<N(!new)>(ch: N -> seq<N>, rank: N -> nat, q: seq<N>)
    requires Ranked(ch, rank) && q != []
    ensures BfsOrder(ch, rank, q) == [q[0]] + BfsOrder(ch, rank, q[1..] + ch(q[0]))
  {
  }

  /** The breadth-first iterator returns the nodes level by level. */
  lemma {:induction false} BfsIsLevelOrder<N(!new)>(ch: N -> seq<N>, rank: N -> nat, q: seq<N>)
    requires Ranked(ch, rank)
    ensures BfsOrder(ch, rank, q) == Levels(ch, rank, q)
    decreases |Forest(ch, rank, q)|
  {
    if q != [] {
      BfsConcat(ch, rank, q, []);
      assert q + [] == q && [] + Kids(ch, q) == Kids(ch, q);
      ForestKids(ch, rank, q);
      BfsIsLevelOrder(ch, rank, Kids(ch, q));
    }
  }

  /** Both traversals of a forest return the same nodes, each as often. */
  lemma {:induction false} BfsSameNodesAsPreorder<N(!new)>(ch: N -> seq<N>, rank: N -> nat, q: seq<N>)
    requires Ranked(ch, rank)
    ensures multiset(BfsOrder(ch, rank, q)) == multiset(Forest(ch, rank, q))
    decreases |Forest(ch, rank, q)|
  {
    if q != [] {
      ForestShrinks(ch, rank, q);
      BfsSameNodesAsPreorder(ch, rank, q[1..] + ch(q[0]));
    }
  }

  /** From one start node, depth-first and breadth-first return the same nodes, each as often. */
  lemma SameNodesBothWays<N(!new)>(ch: N -> seq<N>, rank: N -> nat, n: N)
    requires Ranked(ch, rank)
    ensures multiset(BfsOrder(ch, rank, [n])) == multiset(Preorder(ch, rank, n))
  {
    BfsSameNodesAsPreorder(ch, rank, [n]);
    assert Forest(ch, rank, [n]) == Preorder(ch, rank, n) + Forest(ch, rank, []);
  }

  // ---------------------------------------------------------------------------
  // Each node exactly once

  /**
   * The parent function agrees with the children function, and no children
   * list names a node twice: the nodes form a tree rather than a graph with
   * shared subtrees.
   */
  ghost predicate TreeShaped<N(!new)>(ch: N -> seq<N>, parent: N -> Option<N>)
  {
    && (forall n, i :: 0 <= i < |ch(n)| ==> parent(ch(n)[i]) == Some(n))
    && (forall n, i, j :: 0 <= i < j < |ch(n)| ==> ch(n)[i] != ch(n)[j])
  }

  /** Every node of `s` occurs in it exactly once. */
  ghost predicate EachOnce<N>(s: seq<N>)
  {
    forall x :: x in s ==> multiset(s)[x] == 1
  }

  lemma EachOnceConcat<N>(a: seq<N>, b: seq<N>)
    requires EachOnce(a) && EachOnce(b)
    requires forall x :: x in a ==> x !in b
    ensures EachOnce(a + b)
  {
    forall x | x in a + b
      ensures multiset(a + b)[x] == 1
    {
      assert multiset(a + b) == multiset(a) + multiset(b);
      if x in a {
        assert x !in multiset(b);
      } else {
        assert x !in multiset(a);
      }
    }
  }

  /** A node in the listing of several subtrees is in the listing of one of them. */
  lemma {:induction false} InForest<N(!new)>(ch: N -> seq<N>, rank: N -> nat, ns: seq<N>, x: N)
    requires Ranked(ch, rank) && x in Forest(ch, rank, ns)
    ensures exists j :: 0 <= j < |ns| && x in Preorder(ch, rank, ns[j])
  {
    if x !in Preorder(ch, rank, ns[0]) {
      InForest(ch, rank, ns[1..], x);
      var j :| 0 <= j < |ns[1..]| && x in Preorder(ch, rank, ns[1..][j]);
      assert ns[1..][j] == ns[j + 1];
    }
  }

  /** Each of several subtrees is part of their listing. */
  lemma {:induction false} ForestContains<N(!new)>(ch: N -> seq<N>, rank: N -> nat, ns: seq<N>, j: nat, x: N)
    requires Ranked(ch, rank) && j < |ns| && x in Preorder(ch, rank, ns[j])
    ensures x in Forest(ch, rank, ns)
  {
    if j > 0 {
      assert ns[1..][j - 1] == ns[j];
      ForestContains(ch, rank, ns[1..], j - 1, x);
    }
  }

  /** A subtree holds no node ranked above its top. */
  lemma {:induction false} RankBelowTop<N(!new)>(ch: N -> seq<N>, rank: N -> nat, n: N, x: N)
    requires Ranked(ch, rank) && x in Preorder(ch, rank, n)
    ensures rank(x) <= rank(n)
    decreases rank(n)
  {
    if x != n {
      InForest(ch, rank, ch(n), x);
      var j :| 0 <= j < |ch(n)| && x in Preorder(ch, rank, ch(n)[j]);
      RankBelowTop(ch, rank, ch(n)[j], x);
    }
  }

  /** Below its top, a subtree holds the parent of each of its nodes, which ranks higher. */
  lemma {:induction false} ParentInSubtree<N(!new)>(ch: N -> seq<N>, rank: N -> nat, parent: N -> Option<N>, n: N, x: N)
    requires Ranked(ch, rank) && TreeShaped(ch, parent)
    requires x in Preorder(ch, rank, n) && x != n
    ensures parent(x).Some? && parent(x).value in Preorder(ch, rank, n)
    ensures rank(x) < rank(parent(x).value)
    decreases rank(n)
  {
    InForest(ch, rank, ch(n), x);
    var j :| 0 <= j < |ch(n)| && x in Preorder(ch, rank, ch(n)[j]);
    var c := ch(n)[j];
    if x == c {
      assert parent(c) == Some(n);
    } else {
      ParentInSubtree(ch, rank, parent, c, x);
      ForestContains(ch, rank, ch(n), j, parent(x).value);
    }
  }

  /** Subtrees under two different children of one node have no node in common. */
  lemma SiblingsDisjoint<N(!new)>(ch: N -> seq<N>, rank: N -> nat, parent: N -> Option<N>, m: N, i: nat, j: nat, x: N)
    requires Ranked(ch, rank) && TreeShaped(ch, parent)
    requires i < |ch(m)| && j < |ch(m)| && i != j
    ensures !(x in Preorder(ch, rank, ch(m)[i]) && x in Preorder(ch, rank, ch(m)[j]))
    decreases if x in Preorder(ch, rank, ch(m)[i]) then rank(ch(m)[i]) - rank(x) else 0
  {
    var c1, c2 := ch(m)[i], ch(m)[j];
    assert c1 != c2 by {
      if i < j { assert ch(m)[i] != ch(m)[j]; } else { assert ch(m)[j] != ch(m)[i]; }
    }
    if x in Preorder(ch, rank, c1) && x in Preorder(ch, rank, c2) {
      if x == c1 {
        ParentInSubtree(ch, rank, parent, c2, c1);
        RankBelowTop(ch, rank, c2, m);
      } else if x == c2 {
        ParentInSubtree(ch, rank, parent, c1, c2);
        RankBelowTop(ch, rank, c1, m);
      } else {
        ParentInSubtree(ch, rank, parent, c1, x);
        ParentInSubtree(ch, rank, parent, c2, x);
        var p := parent(x).value;
        RankBelowTop(ch, rank, c1, p);
        RankBelowTop(ch, rank, c1, x);
        SiblingsDisjoint(ch, rank, parent, m, i, j, p);
      }
    }
  }

  /** In a tree, the pre-order listing of a subtree names each of its nodes once. */
  lemma {:induction false} PreorderEachOnce<N(!new)>(ch: N -> seq<N>, rank: N -> nat, parent: N -> Option<N>, n: N)
    requires Ranked(ch, rank) && TreeShaped(ch, parent)
    ensures EachOnce(Preorder(ch, rank, n))
    decreases rank(n), |ch(n)| + 1
  {
    ChildrenEachOnce(ch, rank, parent, n, 0);
    assert ch(n)[0..] == ch(n);
    forall y | y in Forest(ch, rank, ch(n))
      ensures y != n
    {
      InForest(ch, rank, ch(n), y);
      var j :| 0 <= j < |ch(n)| && y in Preorder(ch, rank, ch(n)[j]);
      RankBelowTop(ch, rank, ch(n)[j], y);
    }
    EachOnceConcat([n], Forest(ch, rank, ch(n)));
  }

  /** The listing of the subtrees under the children of `m` from the `k`-th on names each node once. */
  lemma {:induction false} ChildrenEachOnce<N(!new)>(ch: N -> seq<N>, rank: N -> nat, parent: N -> Option<N>, m: N, k: nat)
    requires Ranked(ch, rank) && TreeShaped(ch, parent) && k <= |ch(m)|
    ensures EachOnce(Forest(ch, rank, ch(m)[k..]))
    decreases rank(m), |ch(m)| - k
  {
    if k < |ch(m)| {
      var ns := ch(m)[k..];
      assert ns[0] == ch(m)[k] && ns[1..] == ch(m)[k + 1..];
      PreorderEachOnce(ch, rank, parent, ch(m)[k]);
      ChildrenEachOnce(ch, rank, parent, m, k + 1);
      forall y | y in Preorder(ch, rank, ch(m)[k])
        ensures y !in Forest(ch, rank, ns[1..])
      {
        if y in Forest(ch, rank, ns[1..]) {
          InForest(ch, rank, ns[1..], y);
          var j :| 0 <= j < |ns[1..]| && y in Preorder(ch, rank, ns[1..][j]);
          assert ns[1..][j] == ch(m)[k + 1 + j];
          SiblingsDisjoint(ch, rank, parent, m, k, k + 1 + j, y);
        }
      }
      EachOnceConcat(Preorder(ch, rank, ch(m)[k]), Forest(ch, rank, ns[1..]));
    }
  }

  /** In a tree, a breadth-first traversal also names each node of the subtree once. */
  lemma BfsEachOnce<N(!new)>(ch: N -> seq<N>, rank: N -> nat, parent: N -> Option<N>, n: N)
    requires Ranked(ch, rank) && TreeShaped(ch, parent)
    ensures EachOnce(BfsOrder(ch, rank, [n]))
  {
    PreorderEachOnce(ch, rank, parent, n);
    SameNodesBothWays(ch, rank, n);
  }

  /** A node has at most one child: the tree is a chain. */
  ghost predicate Chain<N(!new)>(ch: N -> seq<N>)
  {
    forall n :: |ch(n)| <= 1
  }

  /** On a chain, both traversals return the same sequence. */
  lemma {:induction false} ChainOrdersAgree<N(!new)>(ch: N -> seq<N>, rank: N -> nat, n: N)
    requires Ranked(ch, rank) && Chain(ch)
    ensures Preorder(ch, rank, n) == BfsOrder(ch, rank, [n])
    decreases rank(n)
  {
    assert [n][1..] + ch(n) == ch(n);
    if ch(n) != [] {
      var c := ch(n)[0];
      assert ch(n) == [c];
      assert rank(c) < rank(n);
      ChainOrdersAgree(ch, rank, c);
      assert Forest(ch, rank, ch(n)) == Preorder(ch, rank, c) + Forest(ch, rank, []);
    }
  }

  /** With the default children function, either traversal returns its start node alone. */
  lemma LeafAlone<N(!new)>(rank: N -> nat, n: N)
    ensures Ranked(NoChildren, rank)
    ensures Preorder(NoChildren, rank, n) == [n]
    ensures BfsOrder(NoChildren, rank, [n]) == [n]
  {
    assert Ranked(NoChildren, rank);
    assert [n][1..] + NoChildren(n) == [];
  }

  // ---------------------------------------------------------------------------
  // The depth-first iterator

  /** A child iterator: the children sequence and how many of them were returned. */
  datatype Cursor<N(!new)> = Cursor(items: seq<N>, pos: nat)
  {
    ghost predicate Valid()
    {
      pos <= |items|
    }

    predicate HasNext()
    {
      pos < |items|
    }
  }

  /** The pre-order listings of the subtrees a cursor has still to visit. */
  ghost function Rest<N(!new)>(ch: N -> seq<N>, rank: N -> nat, c: Cursor<N>): seq<N>
    requires Ranked(ch, rank) && c.Valid()
  {
    Forest(ch, rank, c.items[c.pos..])
  }

  /** Advancing a cursor splits off the next sibling's subtree. */
  lemma RestStep<N(!new)>(ch: N -> seq<N>, rank: N -> nat, c: Cursor<N>)
    requires Ranked(ch, rank) && c.HasNext()
    ensures Rest(ch, rank, c) == Preorder(ch, rank, c.items[c.pos]) + Rest(ch, rank, Cursor(c.items, c.pos + 1))
  {
    var s := c.items[c.pos..];
    assert s[0] == c.items[c.pos] && s[1..] == c.items[c.pos + 1..];
  }

  ghost function OptionRest<N(!new)>(ch: N -> seq<N>, rank: N -> nat, c: Option<Cursor<N>>): seq<N>
    requires Ranked(ch, rank) && (c.Some? ==> c.value.Valid())
  {
    if c.Some? then Rest(ch, rank, c.value) else []
  }

  ghost predicate AllValid<N(!new)>(stack: seq<Cursor<N>>)
  {
    forall i :: 0 <= i < |stack| ==> stack[i].Valid()
  }

  /** What the cursors of a stack have still to visit, the top (last) one first. */
  ghost function StackRest<N(!new)>(ch: N -> seq<N>, rank: N -> nat, stack: seq<Cursor<N>>): seq<N>
    requires Ranked(ch, rank) && AllValid(stack)
  {
    if stack == [] then []
    else Rest(ch, rank, stack[|stack| - 1]) + StackRest(ch, rank, stack[..|stack| - 1])
  }

  /**
   * What a depth-first iterator still returns: the subtree under the current
   * node, the rest of the siblings it came from, then what the stacked child
   * iterators still hold, the innermost first. Nothing once there is no
   * current node.
   */
  ghost function Pending<N(!new)>(ch: N -> seq<N>, rank: N -> nat, currNode: Option<N>,
                                  currIterator: Option<Cursor<N>>, stack: seq<Cursor<N>>): seq<N>
    requires Ranked(ch, rank) && (currIterator.Some? ==> currIterator.value.Valid()) && AllValid(stack)
  {
    if currNode.None? then []
    else Preorder(ch, rank, currNode.value) + OptionRest(ch, rank, currIterator) + StackRest(ch, rank, stack)
  }

  lemma DropHead<T>(x: T, a: seq<T>, b: seq<T>)
    ensures ([x] + a + b)[1..] == a + b
  {
  }

  lemma TakeHead<T>(list: seq<T>, rest: seq<T>)
    requires rest != []
    ensures list + [rest[0]] + rest[1..] == list + rest
  {
    assert rest == [rest[0]] + rest[1..];
  }

  /** A node's pre-order listing: the node, its first child's subtree, then what the rest of its children hold. */
  lemma EnterFirst<N(!new)>(ch: N -> seq<N>, rank: N -> nat, n: N)
    requires Ranked(ch, rank) && ch(n) != []
    ensures Preorder(ch, rank, n) == [n] + (Preorder(ch, rank, ch(n)[0]) + Rest(ch, rank, Cursor(ch(n), 1)))
  {
    RestStep(ch, rank, Cursor(ch(n), 0));
    assert ch(n)[0..] == ch(n);
  }

  lemma Shift<T>(x: T, a: seq<T>, b: seq<T>, c: seq<T>)
    ensures (([x] + a) + b + c)[1..] == a + (b + c)
  {
  }

  /** Entering the first child: the iterator the current node came from is pushed. */
  lemma EnterStep<N(!new)>(ch: N -> seq<N>, rank: N -> nat, n: N, currIterator: Option<Cursor<N>>, stack: seq<Cursor<N>>)
    requires Ranked(ch, rank) && (currIterator.Some? ==> currIterator.value.Valid()) && AllValid(stack)
    requires ch(n) != []
    ensures var stack' := if currIterator.Some? then stack + [currIterator.value] else stack;
            AllValid(stack') &&
            Pending(ch, rank, Some(n), currIterator, stack)[1..]
            == Pending(ch, rank, Some(ch(n)[0]), Some(Cursor(ch(n), 1)), stack')
  {
    EnterFirst(ch, rank, n);
    PushRest(ch, rank, currIterator, stack);
    Shift(n, Preorder(ch, rank, ch(n)[0]) + Rest(ch, rank, Cursor(ch(n), 1)),
          OptionRest(ch, rank, currIterator), StackRest(ch, rank, stack));
  }

  /** Pushing the current iterator puts what it still holds before the rest of the stack. */
  lemma PushRest<N(!new)>(ch: N -> seq<N>, rank: N -> nat, currIterator: Option<Cursor<N>>, stack: seq<Cursor<N>>)
    requires Ranked(ch, rank) && (currIterator.Some? ==> currIterator.value.Valid()) && AllValid(stack)
    ensures var stack' := if currIterator.Some? then stack + [currIterator.value] else stack;
            AllValid(stack') && StackRest(ch, rank, stack') == OptionRest(ch, rank, currIterator) + StackRest(ch, rank, stack)
  {
    if currIterator.Some? {
      var stack' := stack + [currIterator.value];
      assert stack'[..|stack'| - 1] == stack;
    }
  }

  /** Moving on to the next sibling. */
  lemma SiblingStep<N(!new)>(ch: N -> seq<N>, rank: N -> nat, n: N, c: Cursor<N>, stack: seq<Cursor<N>>)
    requires Ranked(ch, rank) && AllValid(stack)
    requires ch(n) == [] && c.HasNext()
    ensures Pending(ch, rank, Some(n), Some(c), stack)[1..]
            == Pending(ch, rank, Some(c.items[c.pos]), Some(Cursor(c.items, c.pos + 1)), stack)
  {
    RestStep(ch, rank, c);
    var p := Preorder(ch, rank, c.items[c.pos]);
    var r1 := Rest(ch, rank, Cursor(c.items, c.pos + 1));
    var t := StackRest(ch, rank, stack);
    assert Preorder(ch, rank, n) == [n];
    assert Pending(ch, rank, Some(n), Some(c), stack) == [n] + (p + r1) + t;
    DropHead(n, p + r1, t);
  }

  /** At a leaf with no sibling left, what remains is what the stack holds. */
  lemma LeaveStep<N(!new)>(ch: N -> seq<N>, rank: N -> nat, n: N, currIterator: Option<Cursor<N>>, stack: seq<Cursor<N>>)
    requires Ranked(ch, rank) && (currIterator.Some? ==> currIterator.value.Valid()) && AllValid(stack)
    requires ch(n) == [] && !(currIterator.Some? && currIterator.value.HasNext())
    ensures Pending(ch, rank, Some(n), currIterator, stack)[1..] == StackRest(ch, rank, stack)
  {
    assert Forest(ch, rank, ch(n)) == [];
    if currIterator.Some? {
      var c := currIterator.value;
      assert c.items[c.pos..] == [];
    }
  }

  /** Popping an iterator: one that is exhausted adds nothing, one that is not yields the next node. */
  lemma PopStep<N(!new)>(ch: N -> seq<N>, rank: N -> nat, stack: seq<Cursor<N>>, currIterator: Option<Cursor<N>>)
    requires Ranked(ch, rank) && AllValid(stack) && stack != []
    ensures var last := stack[|stack| - 1];
            var rest := stack[..|stack| - 1];
            AllValid(rest) &&
            (last.HasNext() ==> StackRest(ch, rank, stack)
                                == Pending(ch, rank, Some(last.items[last.pos]), Some(Cursor(last.items, last.pos + 1)), rest)) &&
            (!last.HasNext() ==> StackRest(ch, rank, stack) == StackRest(ch, rank, rest))
  {
    var last := stack[|stack| - 1];
    StackTop(ch, rank, stack);
    if last.HasNext() {
      RestStep(ch, rank, last);
    } else {
      assert last.items[last.pos..] == [];
    }
  }

  /** The top of a stack comes first in what the stack holds. */
  lemma StackTop<N(!new)>(ch: N -> seq<N>, rank: N -> nat, stack: seq<Cursor<N>>)
    requires Ranked(ch, rank) && AllValid(stack) && stack != []
    ensures AllValid(stack[..|stack| - 1]) && stack[|stack| - 1].Valid()
    ensures StackRest(ch, rank, stack) == Rest(ch, rank, stack[|stack| - 1]) + StackRest(ch, rank, stack[..|stack| - 1])
  {
  }

  /**
   * `DFSIterator`: `currNode` is the node the next call of `next()` returns
   * (`None` at the end), `currIterator` the child iterator it came from and
   * `stack` the child iterators of the levels above. Child iterators are
   * cursor values: once pushed, an iterator is not advanced until it is popped
   * again, so a copy behaves as the shared object does.
   */
  class DepthFirstIterator<N(!new)> {
    const children: N -> seq<N>
    ghost const rank: N -> nat
    var currNode: Option<N>
    var currIterator: Option<Cursor<N>>
    var stack: seq<Cursor<N>>

    ghost predicate Valid()
      reads this
    {
      && Ranked(children, rank)
      && (currIterator.Some? ==> currIterator.value.Valid())
      && AllValid(stack)
    }

    /** The nodes that `next()` will still return, in order. */
    ghost function Remaining(): seq<N>
      reads this
      requires Valid()
    {
      Pending(children, rank, currNode, currIterator, stack)
    }

    /** `DFSIterator(root)`; a `None` start is the empty iterator of a tree with no root. */
    constructor (children: N -> seq<N>, ghost rank: N -> nat, start: Option<N>)
      requires Ranked(children, rank)
      ensures Valid() && this.children == children && this.rank == rank
      ensures currNode == start && currIterator == None && stack == []
      ensures Remaining() == if start.Some? then Preorder(children, rank, start.value) else []
    {
      this.children := children;
      this.rank := rank;
      currNode := start;
      currIterator := None;
      stack := [];
    }

    /**
     * `processNext`: moves to the first child if there is one, otherwise to the
     * next sibling, otherwise pops the stack until an iterator with a node left
     * turns up. Exactly the node just returned is consumed.
     */
    method ProcessNext()
      requires Valid()
      modifies this
      ensures Valid()
      ensures old(currNode).None? ==> currNode == old(currNode) && currIterator == old(currIterator) && stack == old(stack)
      ensures old(currNode).Some? ==> Remaining() == old(Remaining())[1..]
    {
      if currNode.None? {
        return;
      }
      var theNode := currNode.value;
      var curr := currIterator;
      ghost var rest := Remaining()[1..];
      var newChildren := Cursor(children(theNode), 0);
      if newChildren.HasNext() {
        // enter into the lower level
        EnterStep(children, rank, theNode, curr, stack);
        if curr.Some? {
          stack := stack + [curr.value];
        }
        currNode := Some(newChildren.items[0]);
        currIterator := Some(Cursor(newChildren.items, 1));
        assert Remaining() == rest;
      } else if curr.Some? && curr.value.HasNext() {
        // traverse to the next node
        SiblingStep(children, rank, theNode, curr.value, stack);
        currNode := Some(curr.value.items[curr.value.pos]);
        currIterator := Some(Cursor(curr.value.items, curr.value.pos + 1));
        assert Remaining() == rest;
      } else {
        // return to the upper level
        LeaveStep(children, rank, theNode, curr, stack);
        currNode := None;
        while stack != []
          invariant AllValid(stack)
          invariant currNode.None? && currIterator == curr
          invariant StackRest(children, rank, stack) == rest
          decreases |stack|
        {
          var lastIterator := stack[|stack| - 1];
          PopStep(children, rank, stack, currIterator);
          stack := stack[..|stack| - 1];
          if lastIterator.HasNext() {
            currNode := Some(lastIterator.items[lastIterator.pos]);
            currIterator := Some(Cursor(lastIterator.items, lastIterator.pos + 1));
            assert Remaining() == rest;
            break;
          }
        }
        assert Remaining() == rest;
      }
    }

    method HasNext() returns (b: bool)
      requires Valid()
      ensures b <==> Remaining() != []
    {
      b := currNode.Some?;
    }

    /** `next()`: the current node, or `NoSuchElementException` at the end. */
    method Next() returns (r: Result<N>)
      requires Valid()
      modifies this
      ensures Valid()
      ensures old(Remaining()) == [] ==> r == Err(NoSuchElement) && Remaining() == []
      ensures old(Remaining()) != [] ==> r == Ok(old(Remaining())[0]) && Remaining() == old(Remaining())[1..]
    {
      if currNode.None? {
        return Err(NoSuchElement);
      }
      var node := currNode.value;
      ProcessNext();
      r := Ok(node);
    }
  }

  // ---------------------------------------------------------------------------
  // The breadth-first iterator

  /** `BFSIterator`: the queue of nodes returned by no call of `next()` yet. */
  class BreadthFirstIterator<N(!new)> {
    const children: N -> seq<N>
    ghost const rank: N -> nat
    var queue: seq<N>

    ghost predicate Valid()
      reads this
    {
      Ranked(children, rank)
    }

    /** The nodes that `next()` will still return, in order. */
    ghost function Remaining(): seq<N>
      reads this
      requires Valid()
    {
      BfsOrder(children, rank, queue)
    }

    /** `BFSIterator(root)`; a `None` start is the empty iterator of a tree with no root. */
    constructor (children: N -> seq<N>, ghost rank: N -> nat, start: Option<N>)
      requires Ranked(children, rank)
      ensures Valid() && this.children == children && this.rank == rank
      ensures queue == if start.Some? then [start.value] else []
    {
      this.children := children;
      this.rank := rank;
      queue := if start.Some? then [start.value] else [];
    }

    method HasNext() returns (b: bool)
      requires Valid()
      ensures b <==> queue != []
      ensures b <==> Remaining() != []
    {
      b := queue != [];
    }

    /**
     * `next()`: removes the head of the queue (`NoSuchElementException` when
     * the queue is empty) and appends its children.
     */
    method Next() returns (r: Result<N>)
      requires Valid()
      modifies this
      ensures Valid()
      ensures old(queue) == [] ==> r == Err(NoSuchElement) && queue == []
      ensures old(queue) != [] ==> r == Ok(old(queue)[0]) && queue == old(queue)[1..] + children(old(queue)[0])
      ensures old(Remaining()) == [] ==> r == Err(NoSuchElement) && Remaining() == []
      ensures old(Remaining()) != [] ==> r == Ok(old(Remaining())[0]) && Remaining() == old(Remaining())[1..]
    {
      if queue == [] {
        return Err(NoSuchElement);
      }
      var node := queue[0];
      queue := queue[1..] + children(node);
      r := Ok(node);
    }
  }

  // ---------------------------------------------------------------------------
  // Traversing a tree

  /** `traverseDepthFirst()`: from the root, or the empty iterator when there is none. */
  method TraverseDepthFirst<N(!new)>(t: Tree<N>, ghost rank: N -> nat) returns (it: DepthFirstIterator<N>)
    requires Ranked(t.childrenFunction, rank)
    ensures fresh(it) && it.Valid() && it.children == t.childrenFunction && it.rank == rank
    ensures it.Remaining() == if t.root.Some? then Preorder(t.childrenFunction, rank, t.root.value) else []
  {
    it := new DepthFirstIterator(t.childrenFunction, rank, t.root);
  }

  /** `traverseDepthFirst(fromNode)`: the subtree under `fromNode`, in pre-order. */
  method TraverseDepthFirstFrom<N(!new)>(t: Tree<N>, ghost rank: N -> nat, fromNode: N) returns (it: DepthFirstIterator<N>)
    requires Ranked(t.childrenFunction, rank)
    ensures fresh(it) && it.Valid() && it.children == t.childrenFunction && it.rank == rank
    ensures it.Remaining() == Preorder(t.childrenFunction, rank, fromNode)
  {
    it := new DepthFirstIterator(t.childrenFunction, rank, Some(fromNode));
  }

  /** `traverseBreadthFirst()`: from the root, or the empty iterator when there is none. */
  method TraverseBreadthFirst<N(!new)>(t: Tree<N>, ghost rank: N -> nat) returns (it: BreadthFirstIterator<N>)
    requires Ranked(t.childrenFunction, rank)
    ensures fresh(it) && it.Valid() && it.children == t.childrenFunction && it.rank == rank
    ensures it.Remaining() == if t.root.Some? then BfsOrder(t.childrenFunction, rank, [t.root.value]) else []
  {
    it := new BreadthFirstIterator(t.childrenFunction, rank, t.root);
  }

  /** `traverseBreadthFirst(fromNode)`: the subtree under `fromNode`, level by level. */
  method TraverseBreadthFirstFrom<N(!new)>(t: Tree<N>, ghost rank: N -> nat, fromNode: N) returns (it: BreadthFirstIterator<N>)
    requires Ranked(t.childrenFunction, rank)
    ensures fresh(it) && it.Valid() && it.children == t.childrenFunction && it.rank == rank
    ensures it.Remaining() == BfsOrder(t.childrenFunction, rank, [fromNode])
  {
    it := new BreadthFirstIterator(t.childrenFunction, rank, Some(fromNode));
  }

  /** Every node a depth-first traversal of the tree yields, collected by calling `next()` while `hasNext()`. */
  method DepthFirstList<N(!new)>(t: Tree<N>, ghost rank: N -> nat) returns (list: seq<N>)
    requires Ranked(t.childrenFunction, rank)
    ensures list == if t.root.Some? then Preorder(t.childrenFunction, rank, t.root.value) else []
  {
    var it := TraverseDepthFirst(t, rank);
    list := [];
    var more := it.HasNext();
    while more
      invariant it.Valid()
      invariant list + it.Remaining() == if t.root.Some? then Preorder(t.childrenFunction, rank, t.root.value) else []
      invariant more <==> it.Remaining() != []
      decreases |it.Remaining()|
    {
      ghost var before := it.Remaining();
      var x := it.Next();
      TakeHead(list, before);
      list := list + [x.value];
      more := it.HasNext();
    }
  }

  /** Every node a breadth-first traversal of the tree yields, collected by calling `next()` while `hasNext()`. */
  method BreadthFirstList<N(!new)>(t: Tree<N>, ghost rank: N -> nat) returns (list: seq<N>)
    requires Ranked(t.childrenFunction, rank)
    ensures list == if t.root.Some? then Levels(t.childrenFunction, rank, [t.root.value]) else []
  {
    var it := TraverseBreadthFirst(t, rank);
    list := [];
    var more := it.HasNext();
    while more
      invariant it.Valid()
      invariant list + it.Remaining() == if t.root.Some? then BfsOrder(t.childrenFunction, rank, [t.root.value]) else []
      invariant more <==> it.Remaining() != []
      decreases |it.Remaining()|
    {
      ghost var before := it.Remaining();
      var x := it.Next();
      TakeHead(list, before);
      list := list + [x.value];
      more := it.HasNext();
    }
    if t.root.Some? {
      BfsIsLevelOrder(t.childrenFunction, rank, [t.root.value]);
    }
  }
}
