/**
 * The internal-node counter of find-internal-nodes.py.
 *
 * A tree of n nodes is given as a parent array: entry i holds the index of
 * node i's parent, and an entry outside 0..n-1 (the root's -1 marker) means
 * "no parent". A node is internal when it has at least one child, that is
 * when its index occurs as an entry of the array.
 */
module InternalNodes {

  /** The distinct entries of `tree` that are valid node indices. */
  ghost function InternalSet(tree: seq<int>): set<int>
  {
    set v | 0 <= v < |tree| && v in tree
  }

  /** The number of internal nodes: the specification of the counter. */
  ghost function InternalCount(tree: seq<int>): nat
  {
    |InternalSet(tree)|
  }

  /**
   * `find_internal_nodes_num`: one pass over the indices, adding every
   * in-range parent entry to a set, then the size of that set.
   */
  method FindInternalNodesNum(tree: seq<int>) returns (count: nat)
    ensures count == InternalCount(tree)
  {
    var internalNodes: set<int> := {};
    var i := 0;
    while i < |tree|
      invariant 0 <= i <= |tree|
      invariant internalNodes == set v | 0 <= v < |tree| && v in tree[..i]
    {
      if 0 <= tree[i] < |tree| {
        internalNodes := internalNodes + {tree[i]};
      }
      assert tree[..i + 1] == tree[..i] + [tree[i]];
      i := i + 1;
    }
    assert tree[..i] == tree;
    count := |internalNodes|;
  }

  // ---------------------------------------------------------------------
  // General facts about the count
  // ---------------------------------------------------------------------

  /** The distinct values of a sequence. */
  ghost function Values(s: seq<int>): set<int>
  {
    set x | x in s
  }

  lemma {:induction false} ValuesBound(s: seq<int>)
    ensures |Values(s)| <= |s|
  {
    if s != [] {
      ValuesBound(s[1..]);
      assert Values(s) == Values(s[1..]) + {s[0]};
    }
  }

  /** An entry outside the index range, such as the root marker -1, is never counted. */
  lemma OutOfRangeNeverCounted(tree: seq<int>, i: int)
    requires 0 <= i < |tree|
    requires tree[i] < 0 || tree[i] >= |tree|
    ensures tree[i] !in InternalSet(tree)
  {
  }

  /** A node index is counted exactly when some node names it as its parent. */
  lemma CountedIffParent(tree: seq<int>, v: int)
    ensures v in InternalSet(tree) <==> exists i :: 0 <= i < |tree| && tree[i] == v && v < |tree| && 0 <= v
  {
    if v in InternalSet(tree) {
      var i :| 0 <= i < |tree| && tree[i] == v;
    }
  }

  /**
   * The count is at most the number of nodes, and at most one less when the
   * array holds a root marker (an entry that is not a node index).
   */
  lemma {:induction false} CountBound(tree: seq<int>)
    ensures InternalCount(tree) <= |tree|
    ensures (exists r :: 0 <= r < |tree| && (tree[r] < 0 || tree[r] >= |tree|)) ==> InternalCount(tree) <= |tree| - 1
  {
    assert InternalSet(tree) <= Values(tree);
    ValuesBound(tree);
    SubsetCard(InternalSet(tree), Values(tree));
    if r :| 0 <= r < |tree| && (tree[r] < 0 || tree[r] >= |tree|) {
      var rest := tree[..r] + tree[r + 1..];
      assert tree == tree[..r] + [tree[r]] + tree[r + 1..];
      forall v | v in InternalSet(tree) ensures v in Values(rest) {
        var i :| 0 <= i < |tree| && tree[i] == v;
        assert i != r;
        if i < r { assert rest[i] == v; } else { assert rest[i - 1] == v; }
      }
      ValuesBound(rest);
      SubsetCard(InternalSet(tree), Values(rest));
    }
  }

  lemma SubsetCard(a: set<int>, b: set<int>)
    requires a <= b
    ensures |a| <= |b|
  {
    assert b == a + (b - a);
  }

  /**
   * A parent index that occurs several times is counted once: the count is
   * the number of in-range entries minus the repeats, so two nodes sharing a
   * parent make the count smaller than the number of in-range entries.
   */
  lemma {:induction false} RepeatedParentCountedOnce(tree: seq<int>, i: int, j: int)
    requires 0 <= i < j < |tree|
    requires tree[i] == tree[j] && 0 <= tree[i] < |tree|
    ensures InternalCount(tree) < |InRangePositions(tree)|
  {
    var p := InRangePositions(tree);
    ImageBound(tree, p - {j});
    assert InternalSet(tree) <= Image(tree, p - {j}) by {
      forall v | v in InternalSet(tree) ensures v in Image(tree, p - {j}) {
        var k :| 0 <= k < |tree| && tree[k] == v;
        if k == j { assert i in p - {j} && tree[i] == v; } else { assert k in p - {j}; }
      }
    }
    SubsetCard(InternalSet(tree), Image(tree, p - {j}));
    assert p == (p - {j}) + {j};
  }

  /** The positions whose entry is a valid node index. */
  ghost function InRangePositions(tree: seq<int>): set<int>
  {
    set i | 0 <= i < |tree| && 0 <= tree[i] < |tree|
  }

  ghost function Image(tree: seq<int>, positions: set<int>): set<int>
    requires forall i :: i in positions ==> 0 <= i < |tree|
  {
    set i | i in positions :: tree[i]
  }

  lemma {:induction false} ImageBound(tree: seq<int>, positions: set<int>)
    requires forall i :: i in positions ==> 0 <= i < |tree|
    ensures |Image(tree, positions)| <= |positions|
    decreases positions
  {
    if i :| i in positions {
      var rest := positions - {i};
      ImageBound(tree, rest);
      assert Image(tree, positions) == Image(tree, rest) + {tree[i]};
    }
  }

  // ---------------------------------------------------------------------
  // The worst case: a straight-line tree
  // ---------------------------------------------------------------------

  /** [-1, 0, 1, ..., n-2]: every node is the child of the one before it. */
  ghost function StraightLine(n: nat): (tree: seq<int>)
    ensures |tree| == n
    ensures forall i :: 0 <= i < n ==> tree[i] == i - 1
  {
    seq(n, i => i - 1)
  }

  /** The node indices 0..m-1. */
  ghost function Below(m: nat): (r: set<int>)
    ensures forall v :: v in r <==> 0 <= v < m
  {
    if m == 0 then {} else Below(m - 1) + {m - 1}
  }

  lemma {:induction false} BelowCard(m: nat)
    ensures |Below(m)| == m
  {
    if m > 0 {
      BelowCard(m - 1);
      assert m - 1 !in Below(m - 1);
    }
  }

  /** A straight-line tree of n >= 1 nodes has n - 1 internal nodes, the bound of CountBound. */
  lemma StraightLineCount(n: nat)
    requires n >= 1
    ensures InternalCount(StraightLine(n)) == n - 1
  {
    var t := StraightLine(n);
    forall v | v in Below(n - 1) ensures v in InternalSet(t) {
      assert t[v + 1] == v;
    }
    forall v | v in InternalSet(t) ensures v in Below(n - 1) {
      var i :| 0 <= i < |t| && t[i] == v;
    }
    assert InternalSet(t) == Below(n - 1);
    BelowCard(n - 1);
  }

  // ---------------------------------------------------------------------
  // The examples asserted at the end of the script
  // ---------------------------------------------------------------------

  lemma EmptyTreeCount()
    ensures InternalCount([]) == 0
  {
    assert InternalSet([]) == {};
  }

  lemma RootOnlyCount()
    ensures InternalCount([-1]) == 0
  {
    assert InternalSet([-1]) == {};
  }

  lemma SampleTreeCount()
    ensures InternalCount([4, 4, 1, 5, -1, 4, 5]) == 3
  {
    var t := [4, 4, 1, 5, -1, 4, 5];
    assert t[2] == 1 && t[0] == 4 && t[3] == 5;
    assert InternalSet(t) == {1, 4, 5};
  }

  lemma StraightLineTreeCount()
    ensures InternalCount([-1, 0, 1, 2, 3, 4, 5]) == 6
  {
    assert [-1, 0, 1, 2, 3, 4, 5] == StraightLine(7);
    StraightLineCount(7);
  }

  /** `big_tree` of the script, as the concatenation of its rows of nine entries. */
  ghost function BigTree(): seq<int>
  {
    BigTreeRow(0) + BigTreeRow(1) + BigTreeRow(2) + BigTreeRow(3) + BigTreeRow(4) + BigTreeRow(5) + BigTreeRow(6) + BigTreeRow(7)
  }

  ghost function BigTreeRow(k: nat): seq<int>
  {
    if k == 0 then [-1, 0, 0, 0, 0, 0, 0, 1, 1]
    else if k == 1 then [1, 1, 1, 1, 1, 1, 2, 2, 2]
    else if k == 2 then [2, 2, 2, 2, 3, 3, 3, 3, 3]
    else if k == 3 then [3, 3, 3, 3, 3, 4, 4, 4, 4]
    else if k == 4 then [4, 4, 4, 4, 5, 5, 5, 5, 5]
    else if k == 5 then [5, 5, 6, 6, 6, 6, 6, 6, 6]
    else if k == 6 then [6, 6, 12, 9, 8, 7, 11, 10, 7]
    else [12, 8, 5, 1, 3, 4, 5, 2]
  }

  lemma ValuesConcat(a: seq<int>, b: seq<int>)
    ensures Values(a + b) == Values(a) + Values(b)
  {
  }

  lemma BigTreeRowValues(k: nat)
    requires k < 8
    ensures |BigTreeRow(k)| == if k < 7 then 9 else 8
    ensures Values(BigTreeRow(k)) == (
      if k == 0 then {-1, 0, 1}
      else if k == 1 then {1, 2}
      else if k == 2 then {2, 3}
      else if k == 3 then {3, 4}
      else if k == 4 then {4, 5}
      else if k == 5 then {5, 6}
      else if k == 6 then {6, 7, 8, 9, 10, 11, 12}
      else {1, 2, 3, 4, 5, 8, 12})
  {
    if k == 0 {
      var s := BigTreeRow(0);
      forall x ensures x in s <==> x in Values(BigTreeRow(0)) { }
    } else if k == 1 {
      var s := BigTreeRow(1);
      forall x ensures x in s <==> x in Values(BigTreeRow(1)) { }
    } else if k == 2 {
      var s := BigTreeRow(2);
      forall x ensures x in s <==> x in Values(BigTreeRow(2)) { }
    } else if k == 3 {
      var s := BigTreeRow(3);
      forall x ensures x in s <==> x in Values(BigTreeRow(3)) { }
    } else if k == 4 {
      var s := BigTreeRow(4);
      forall x ensures x in s <==> x in Values(BigTreeRow(4)) { }
    } else if k == 5 {
      var s := BigTreeRow(5);
      forall x ensures x in s <==> x in Values(BigTreeRow(5)) { }
    } else if k == 6 {
      var s := BigTreeRow(6);
      forall x ensures x in s <==> x in Values(BigTreeRow(6)) { }
    } else {
      var s := BigTreeRow(7);
      forall x ensures x in s <==> x in Values(BigTreeRow(7)) { }
    }
  }

  lemma BigTreeValues()
    ensures Values(BigTree()) == {-1, 0, 1, 2, 3, 4, 5, 6, 7, 8, 9, 10, 11, 12}
  {
    BigTreeRowValues(0);
    BigTreeRowValues(1);
    ValuesConcat(BigTreeRow(0), BigTreeRow(1));
    assert Values(BigTreeRow(0) + BigTreeRow(1)) == {-1, 0, 1, 2};
    BigTreeRowValues(2);
    ValuesConcat(BigTreeRow(0) + BigTreeRow(1), BigTreeRow(2));
    assert Values(BigTreeRow(0) + BigTreeRow(1) + BigTreeRow(2)) == {-1, 0, 1, 2, 3};
    BigTreeRowValues(3);
    ValuesConcat(BigTreeRow(0) + BigTreeRow(1) + BigTreeRow(2), BigTreeRow(3));
    assert Values(BigTreeRow(0) + BigTreeRow(1) + BigTreeRow(2) + BigTreeRow(3)) == {-1, 0, 1, 2, 3, 4};
    BigTreeRowValues(4);
    ValuesConcat(BigTreeRow(0) + BigTreeRow(1) + BigTreeRow(2) + BigTreeRow(3), BigTreeRow(4));
    assert Values(BigTreeRow(0) + BigTreeRow(1) + BigTreeRow(2) + BigTreeRow(3) + BigTreeRow(4)) == {-1, 0, 1, 2, 3, 4, 5};
    BigTreeRowValues(5);
    ValuesConcat(BigTreeRow(0) + BigTreeRow(1) + BigTreeRow(2) + BigTreeRow(3) + BigTreeRow(4), BigTreeRow(5));
    assert Values(BigTreeRow(0) + BigTreeRow(1) + BigTreeRow(2) + BigTreeRow(3) + BigTreeRow(4) + BigTreeRow(5)) == {-1, 0, 1, 2, 3, 4, 5, 6};
    BigTreeRowValues(6);
    ValuesConcat(BigTreeRow(0) + BigTreeRow(1) + BigTreeRow(2) + BigTreeRow(3) + BigTreeRow(4) + BigTreeRow(5), BigTreeRow(6));
    assert Values(BigTreeRow(0) + BigTreeRow(1) + BigTreeRow(2) + BigTreeRow(3) + BigTreeRow(4) + BigTreeRow(5) + BigTreeRow(6)) == {-1, 0, 1, 2, 3, 4, 5, 6, 7, 8, 9, 10, 11, 12};
    BigTreeRowValues(7);
    ValuesConcat(BigTreeRow(0) + BigTreeRow(1) + BigTreeRow(2) + BigTreeRow(3) + BigTreeRow(4) + BigTreeRow(5) + BigTreeRow(6), BigTreeRow(7));
    assert Values(BigTreeRow(0) + BigTreeRow(1) + BigTreeRow(2) + BigTreeRow(3) + BigTreeRow(4) + BigTreeRow(5) + BigTreeRow(6) + BigTreeRow(7)) == {-1, 0, 1, 2, 3, 4, 5, 6, 7, 8, 9, 10, 11, 12};
  }

  lemma BigTreeLength()
    ensures |BigTree()| == 71
  {
    BigTreeRowValues(0); BigTreeRowValues(1); BigTreeRowValues(2); BigTreeRowValues(3);
    BigTreeRowValues(4); BigTreeRowValues(5); BigTreeRowValues(6); BigTreeRowValues(7);
  }

  /** When every entry is -1 or an index below m, and every index below m occurs, the count is m. */
  lemma CountFromValues(tree: seq<int>, m: nat)
    requires m <= |tree|
    requires Values(tree) == Below(m) + {-1}
    ensures InternalCount(tree) == m
  {
    assert InternalSet(tree) == Below(m) by {
      forall v ensures v in InternalSet(tree) <==> v in Below(m) {
        assert v in tree <==> v in Values(tree);
      }
    }
    BelowCard(m);
  }

  lemma BelowThirteen()
    ensures Below(13) + {-1} == {-1, 0, 1, 2, 3, 4, 5, 6, 7, 8, 9, 10, 11, 12}
  {
    forall v ensures v in Below(13) <==> 0 <= v < 13 { }
  }

  lemma BigTreeCount()
    ensures InternalCount(BigTree()) == 13
  {
    BigTreeValues();
    BigTreeLength();
    BelowThirteen();
    CountFromValues(BigTree(), 13);
  }
}
