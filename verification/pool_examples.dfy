/**
 * The pool operations on the concrete trees the repository's tests build:
 * a root branch over four full leaves, and a root leaf filled by three
 * insertions.
 */
module PoolExamples {
  import opened Wrappers
  import opened Bits
  import opened BtreePool
  import Stuck

  /** Sixteen slots of four pairs, eight-bit keys and data. */
  const G: Geometry := Geometry(16, 4, 8, 8)

  /** The keys of each slot of the tree below. */
  function TreeKeys(n: nat): seq<nat>
  {
    if n == 0 then [10, 20, 30, 0] else if n == 1 then [1, 2, 3, 4] else if n == 2 then [11, 12, 13, 14]
    else if n == 3 then [21, 22, 23, 24] else if n == 4 then [31, 32, 33, 34] else [0, 0, 0, 0]
  }

  /** The data of each slot of the tree below: the branch's child slots, the leaves' data. */
  function TreeData(n: nat): seq<nat>
  {
    if n == 0 then [1, 2, 3, 4] else if n == 1 then [2, 4, 6, 8] else if n == 2 then [12, 14, 16, 18]
    else if n == 3 then [22, 24, 26, 28] else if n == 4 then [32, 34, 36, 38] else [0, 0, 0, 0]
  }

  /**
   * Root slot 0 a branch with keys 10, 20, 30 over slots 1 to 3 and top
   * pointer 4; slots 1 to 4 leaves with keys 1-4, 11-14, 21-24, 31-34; slots
   * 5 to 15 still on the free chain.
   */
  function Tree(): Pool
  {
    Pool(5,
      seq(16, n => if 1 <= n <= 4 then 1 else 0),
      seq(16, n => if n >= 5 then 1 else 0),
      seq(16, n => if n >= 5 then n + 1 else 0),
      seq(16, n => if n == 0 then 3 else if n <= 4 then 4 else 0),
      seq(16, n requires 0 <= n => TreeKeys(n)),
      seq(16, n requires 0 <= n => TreeData(n)))
  }

  lemma TreeFits()
    ensures Fits(G, Tree())
  {
    var p := Tree();
    assert Pow2(Width(8)) == 256;
    forall n | 0 <= n < 16
      ensures |p.keys[n]| == 4 && FitsWidth(p.keys[n], 8) && |p.data[n]| == 4 && FitsWidth(p.data[n], 8)
    {
      assert p.keys[n] == TreeKeys(n) && p.data[n] == TreeData(n);
    }
  }

  /** The root branch: keys 10, 20, 30 in use, child slots 1 to 3 and top pointer 4. */
  lemma TreeRoot()
    ensures Fits(G, Tree())
    ensures NodeAt(G, Tree(), 0) == Node(3, [10, 20, 30, 0], [1, 2, 3, 4]) && Tree().isLeaf[0] == 0
  {
    TreeFits();
  }

  /** One descent: the root passes `key` to leaf `n`, which holds `keys` and `data`. */
  lemma Descend(key: int, n: nat, keys: seq<nat>, data: seq<nat>)
    requires 1 <= n <= 4 && keys == TreeKeys(n) && data == TreeData(n)
    requires (Stuck.FirstGe([10, 20, 30, 0], 3, key).Some? && n == Stuck.FirstGe([10, 20, 30, 0], 3, key).value + 1) ||
             (Stuck.FirstGe([10, 20, 30, 0], 3, key).None? && n == 4)
    ensures Fits(G, Tree())
    ensures Find(G, Tree(), key, 2) == Ok(LeafLookup(G, Tree(), key, n))
    ensures NodeAt(G, Tree(), n) == Node(4, keys, data) && Tree().isLeaf[n] == 1
  {
    TreeRoot();
    assert Tree().keys[n] == keys && Tree().data[n] == data;
  }

  /** Key 5 is not in leaf 1, where it belongs. */
  lemma FindMissing()
    ensures Fits(G, Tree()) && Find(G, Tree(), 5, 2) == Ok(Missing(1))
  {
    assert Stuck.FirstGe([10, 20, 30, 0], 3, 5) == Some(0);
    Descend(5, 1, [1, 2, 3, 4], [2, 4, 6, 8]);
    assert Stuck.FirstEq([1, 2, 3, 4], 4, 5) == None;
  }

  /** Key 4 is found in leaf 1 at position 3 with datum 8. */
  lemma FindFirstLeaf()
    ensures Fits(G, Tree()) && Find(G, Tree(), 4, 2) == Ok(Found(1, 3, 8))
  {
    assert Stuck.FirstGe([10, 20, 30, 0], 3, 4) == Some(0);
    Descend(4, 1, [1, 2, 3, 4], [2, 4, 6, 8]);
    assert Stuck.FirstEq([1, 2, 3, 4], 4, 4) == Some(3);
  }

  /** Key 14 is found in leaf 2 at position 3 with datum 18. */
  lemma FindSecondLeaf()
    ensures Fits(G, Tree()) && Find(G, Tree(), 14, 2) == Ok(Found(2, 3, 18))
  {
    assert Stuck.FirstGe([10, 20, 30, 0], 3, 14) == Some(1);
    Descend(14, 2, [11, 12, 13, 14], [12, 14, 16, 18]);
    assert Stuck.FirstEq([11, 12, 13, 14], 4, 14) == Some(3);
  }

  /** Key 23 is found in leaf 3 at position 2 with datum 26. */
  lemma FindThirdLeaf()
    ensures Fits(G, Tree()) && Find(G, Tree(), 23, 2) == Ok(Found(3, 2, 26))
  {
    assert Stuck.FirstGe([10, 20, 30, 0], 3, 23) == Some(2);
    Descend(23, 3, [21, 22, 23, 24], [22, 24, 26, 28]);
    assert Stuck.FirstEq([21, 22, 23, 24], 4, 23) == Some(2);
  }

  /** Key 32, above every branch key, follows the top pointer to leaf 4 and is found at position 1 with datum 34. */
  lemma FindTopPointer()
    ensures Fits(G, Tree()) && Find(G, Tree(), 32, 2) == Ok(Found(4, 1, 34))
  {
    assert Stuck.FirstGe([10, 20, 30, 0], 3, 32) == None;
    Descend(32, 4, [31, 32, 33, 34], [32, 34, 36, 38]);
    assert Stuck.FirstEq([31, 32, 33, 34], 4, 32) == Some(1);
  }

  /** Every element of s is below 256: s fits a field of eight bits. */
  lemma ByteFits(s: seq<nat>)
    requires forall i :: 0 <= i < |s| ==> s[i] < 256
    ensures FitsWidth(s, 8)
  {
    assert Pow2(Width(8)) == 256;
  }

  /** A new pool whose root leaf holds `count` pairs with the given rows. */
  function RootLeaf(count: nat, keys: seq<nat>, data: seq<nat>): (p: Pool)
    requires count <= 4 && |keys| == 4 && |data| == 4
    requires forall i :: 0 <= i < 4 ==> keys[i] < 256 && data[i] < 256
    ensures Fits(G, p) && NodeAt(G, p, 0) == Node(count, keys, data) && p.isLeaf[0] == 1
  {
    ByteFits(keys);
    ByteFits(data);
    SaveThenCopy(G, Initial(G), 0, Node(count, keys, data));
    SaveNode(G, Initial(G), 0, Node(count, keys, data))
  }

  /** The pool after construction is the one whose root leaf is empty. */
  lemma InitialIsEmptyRoot()
    ensures Initial(G) == RootLeaf(0, [0, 0, 0, 0], [0, 0, 0, 0])
  {
    var p := Initial(G);
    assert p.keys[0] == [0, 0, 0, 0] && p.data[0] == [0, 0, 0, 0];
    assert p.sizes[0 := 0] == p.sizes;
    assert p.keys[0 := [0, 0, 0, 0]] == p.keys;
    assert p.data[0 := [0, 0, 0, 0]] == p.data;
  }

  /** Find-and-insert into such a pool saves the root with the pair inserted. */
  lemma RootPlace(count: nat, keys: seq<nat>, data: seq<nat>, key: nat, datum: nat, f: Found, node: Node)
    requires count <= 4 && |keys| == 4 && |data| == 4
    requires forall i :: 0 <= i < 4 ==> keys[i] < 256 && data[i] < 256
    requires node.count <= 4 && |node.keys| == 4 && |node.data| == 4
    requires forall i :: 0 <= i < 4 ==> node.keys[i] < 256 && node.data[i] < 256
    requires PairFits(G, key, datum)
    requires f == LeafLookup(G, RootLeaf(count, keys, data), key, 0) && (f.Missing? ==> count < 4)
    requires Inserted(G, NodeAt(G, RootLeaf(count, keys, data), 0), key, datum, f) == node
    ensures FindAndInsert(G, RootLeaf(count, keys, data), key, datum, 1) == Ok((true, RootLeaf(node.count, node.keys, node.data)))
  {
    var p := Initial(G);
    assert p.sizes[0 := count][0 := node.count] == p.sizes[0 := node.count];
    assert p.keys[0 := keys][0 := node.keys] == p.keys[0 := node.keys];
    assert p.data[0 := data][0 := node.data] == p.data[0 := node.data];
  }

  /** Into an empty root leaf: (20, 21) is pushed. */
  lemma InsertFirst()
    ensures FindAndInsert(G, Initial(G), 20, 21, 1) == Ok((true, RootLeaf(1, [20, 0, 0, 0], [21, 0, 0, 0])))
  {
    InitialIsEmptyRoot();
    assert Stuck.FirstEq([0, 0, 0, 0], 0, 20) == None;
    assert Stuck.FirstGe([0, 0, 0, 0], 0, 20) == None;
    RootPlace(0, [0, 0, 0, 0], [0, 0, 0, 0], 20, 21, Missing(0), Node(1, [20, 0, 0, 0], [21, 0, 0, 0]));
  }

  /** Then (10, 1) goes in front of 20. */
  lemma InsertSecond()
    ensures FindAndInsert(G, RootLeaf(1, [20, 0, 0, 0], [21, 0, 0, 0]), 10, 1, 1) ==
            Ok((true, RootLeaf(2, [10, 20, 0, 0], [1, 21, 0, 0])))
  {
    assert Stuck.FirstEq([20, 0, 0, 0], 1, 10) == None;
    assert Stuck.FirstGe([20, 0, 0, 0], 1, 10) == Some(0);
    assert Stuck.Shifted([20, 0, 0, 0], 0, 1, 10) == [10, 20, 0, 0];
    assert Stuck.Shifted([21, 0, 0, 0], 0, 1, 1) == [1, 21, 0, 0];
    RootPlace(1, [20, 0, 0, 0], [21, 0, 0, 0], 10, 1, Missing(0), Node(2, [10, 20, 0, 0], [1, 21, 0, 0]));
  }

  /** Then (30, 31) is pushed after 20. */
  lemma InsertThird()
    ensures FindAndInsert(G, RootLeaf(2, [10, 20, 0, 0], [1, 21, 0, 0]), 30, 31, 1) ==
            Ok((true, RootLeaf(3, [10, 20, 30, 0], [1, 21, 31, 0])))
  {
    assert Stuck.FirstEq([10, 20, 0, 0], 2, 30) == None;
    assert Stuck.FirstGe([10, 20, 0, 0], 2, 30) == None;
    RootPlace(2, [10, 20, 0, 0], [1, 21, 0, 0], 30, 31, Missing(0), Node(3, [10, 20, 30, 0], [1, 21, 31, 0]));
  }

  /** As written, giving 20 the datum 99 changes nothing: 20 keeps 21. */
  lemma UpdateTwentyIsLost()
    ensures FindAndInsertAsWritten(G, RootLeaf(1, [20, 0, 0, 0], [21, 0, 0, 0]), 20, 99, 1) ==
            Ok((true, RootLeaf(1, [20, 0, 0, 0], [21, 0, 0, 0])))
    ensures FindAndInsert(G, RootLeaf(1, [20, 0, 0, 0], [21, 0, 0, 0]), 20, 99, 1) ==
            Ok((true, RootLeaf(1, [20, 0, 0, 0], [99, 0, 0, 0])))
  {
    var p := RootLeaf(1, [20, 0, 0, 0], [21, 0, 0, 0]);
    assert Stuck.FirstEq([20, 0, 0, 0], 1, 20) == Some(0);
    assert Find(G, p, 20, 1) == Ok(Found(0, 0, 21));
    UpdateIsLost(G, p, 20, 99, 1);
    RootPlace(1, [20, 0, 0, 0], [21, 0, 0, 0], 20, 99, Found(0, 0, 21), Node(1, [20, 0, 0, 0], [99, 0, 0, 0]));
  }
}
