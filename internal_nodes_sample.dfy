/**
 * FindInternalNodes.py: the same counter as find-internal-nodes.py, kept in
 * a file of its own with a single sample call. Its specification is the one
 * of module InternalNodes.
 */
module InternalNodesSample {
  import InternalNodes

  /** `find_internal_nodes_num` of FindInternalNodes.py. */
  method FindInternalNodesNum(tree: seq<int>) returns (count: nat)
    ensures count == InternalNodes.InternalCount(tree)
    ensures count <= |tree|
  {
    var internalNodes: set<int> := {};
    for i := 0 to |tree|
      invariant internalNodes == set v | 0 <= v < |tree| && v in tree[..i]
    {
      if 0 <= tree[i] < |tree| {
        internalNodes := internalNodes + {tree[i]};
      }
      assert tree[..i + 1] == tree[..i] + [tree[i]];
    }
    assert tree[..|tree|] == tree;
    count := |internalNodes|;
    InternalNodes.CountBound(tree);
  }

  /**
   * Both files compute the same number on every input: each result is the
   * count of distinct in-range parent entries.
   */
  method BothFilesAgree(tree: seq<int>) returns (here: nat, there: nat)
    ensures here == there
    ensures here == InternalNodes.InternalCount(tree)
  {
    here := FindInternalNodesNum(tree);
    there := InternalNodes.FindInternalNodesNum(tree);
  }

  /** The sample call at the end of the file: `[4, 4, 1, 5, -1, 4, 5]` has three internal nodes. */
  method SampleCall() returns (result: nat)
    ensures result == 3
  {
    result := FindInternalNodesNum([4, 4, 1, 5, -1, 4, 5]);
    InternalNodes.SampleTreeCount();
  }
}
