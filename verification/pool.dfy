/**
 * The B-tree's block of memory as a value: a fixed pool of `size` node
 * slots ("stucks").  Each slot has a leaf bit, a free bit, a link to the next
 * slot on the free chain, the count of its pairs in use, and a row of
 * `stuckSize` key cells and one of data cells.
 *
 * This module gives the meaning of every pool operation as a function, and
 * proves what the operations promise: the free chain is a LIFO stack of the
 * free slots, saving a node and copying it back reproduces it, find descends
 * by first-key-greater-or-equal to a leaf, and find-and-insert rewrites only
 * the target leaf, keeps its keys ascending and leaves the key findable.
 */
module BtreePool {
  import opened Wrappers
  import opened Bits
  import Stuck

  /** The constructor's parameters: slots, pairs per slot, key and data widths. */
  datatype Geometry = Geometry(size: nat, stuckSize: nat, bitsPerKey: nat, bitsPerData: nat)
  {
    /** The width of a slot index: freeStart, freeNext and every node reference. */
    function IndexBits(): nat { LogTwo(size) + 1 }

    /** The width of a slot's pair count. */
    function SizeBits(): nat { LogTwo(stuckSize) + 1 }
  }

  /** Construction halts unless a data cell is wide enough to hold a slot index. */
  function LayoutCheck(g: Geometry): (r: Option<string>)
    ensures r == None <==> LogTwo(g.size) < g.bitsPerData
    ensures r.Some? ==> r.value == "Bits per data too small for tree of this size"
  {
    if LogTwo(g.size) >= g.bitsPerData then Some("Bits per data too small for tree of this size") else None
  }

  /** A data cell can hold any slot index, and the index fields can hold every index up to `size`. */
  lemma LayoutCheckMeans(g: Geometry, x: nat)
    requires LayoutCheck(g) == None && x < g.size <= IntMax
    ensures Truncate(x, g.bitsPerData) == x && Truncate(x, g.IndexBits()) == x
  {
    FitsInLogTwoPlusOne(g.size, x);
    var w := Width(g.bitsPerData);
    if w == 31 {
      Pow2Of31();
    } else {
      Pow2Monotone(LogTwo(g.size), w);
    }
    assert x < Pow2(w);
    TruncateBounds(x, g.bitsPerData);
  }

  /** The whole pool: the head of the free chain and the per-slot fields, keys and data indexed [slot][position]. */
  datatype Pool = Pool(freeStart: nat, isLeaf: seq<nat>, isFree: seq<nat>, freeNext: seq<nat>,
                       sizes: seq<nat>, keys: seq<seq<nat>>, data: seq<seq<nat>>)

  /** The contents of one slot, as copied into a stuck. */
  datatype Node = Node(count: nat, keys: seq<nat>, data: seq<nat>)

  /** The shape of the pool, and every value within the width of its field and within the pool. */
  predicate Fits(g: Geometry, p: Pool)
  {
    |p.isLeaf| == g.size && |p.isFree| == g.size && |p.freeNext| == g.size && |p.sizes| == g.size &&
    |p.keys| == g.size && |p.data| == g.size &&
    p.freeStart <= g.size &&
    (forall n :: 0 <= n < g.size ==> p.isLeaf[n] <= 1) &&
    (forall n :: 0 <= n < g.size ==> p.isFree[n] <= 1) &&
    (forall n :: 0 <= n < g.size ==> p.freeNext[n] <= g.size) &&
    (forall n :: 0 <= n < g.size ==> p.sizes[n] <= g.stuckSize) &&
    (forall n :: 0 <= n < g.size ==> |p.keys[n]| == g.stuckSize && FitsWidth(p.keys[n], g.bitsPerKey)) &&
    (forall n :: 0 <= n < g.size ==> |p.data[n]| == g.stuckSize && FitsWidth(p.data[n], g.bitsPerData))
  }

  /** A node that fits in a slot. */
  predicate NodeFits(g: Geometry, node: Node)
  {
    |node.keys| == g.stuckSize && |node.data| == g.stuckSize && node.count <= g.stuckSize &&
    FitsWidth(node.keys, g.bitsPerKey) && FitsWidth(node.data, g.bitsPerData)
  }

  /** Slot n as a node: its count and its rows of keys and data. */
  function NodeAt(g: Geometry, p: Pool, n: nat): (r: Node)
    requires Fits(g, p) && n < g.size
    ensures NodeFits(g, r)
  {
    Node(p.sizes[n], p.keys[n], p.data[n])
  }

  /** Write a node into slot n: its count and its rows of keys and data. */
  function SaveNode(g: Geometry, p: Pool, n: nat, node: Node): (r: Pool)
    requires Fits(g, p) && n < g.size && NodeFits(g, node)
    ensures Fits(g, r)
    ensures r.freeStart == p.freeStart && r.isLeaf == p.isLeaf && r.isFree == p.isFree && r.freeNext == p.freeNext
  {
    p.(sizes := p.sizes[n := node.count], keys := p.keys[n := node.keys], data := p.data[n := node.data])
  }

  /** Saving a node into a slot and copying that slot out gives the node back. */
  lemma SaveThenCopy(g: Geometry, p: Pool, n: nat, node: Node)
    requires Fits(g, p) && n < g.size && NodeFits(g, node)
    ensures NodeAt(g, SaveNode(g, p, n, node), n) == node
  {
  }

  /** Saving a node into a slot leaves every other slot as it was. */
  lemma SaveLeavesOthers(g: Geometry, p: Pool, n: nat, node: Node, m: nat)
    requires Fits(g, p) && n < g.size && NodeFits(g, node) && m < g.size && m != n
    ensures NodeAt(g, SaveNode(g, p, n, node), m) == NodeAt(g, p, m)
  {
  }

  /** Copying a slot out and saving it back changes nothing. */
  lemma CopyThenSave(g: Geometry, p: Pool, n: nat)
    requires Fits(g, p) && n < g.size
    ensures SaveNode(g, p, n, NodeAt(g, p, n)) == p
  {
    var q := SaveNode(g, p, n, NodeAt(g, p, n));
    assert q.keys == p.keys;
    assert q.data == p.data;
    assert q.sizes == p.sizes;
  }

  // The free chain

  /** The link after position i of a chain whose last link is `end`. */
  function Link(l: seq<nat>, i: nat, end: nat): nat
  {
    if i + 1 < |l| then l[i + 1] else end
  }

  /**
   * l is the free chain: distinct slots other than the root, exactly the
   * slots whose free bit is set, linked from freeStart through freeNext; the
   * last link is `size`, which is not a slot.
   */
  predicate FreeList(g: Geometry, p: Pool, l: seq<nat>)
    requires Fits(g, p)
  {
    (forall i :: 0 <= i < |l| ==> 1 <= l[i] < g.size) &&
    (forall i, j :: 0 <= i < j < |l| ==> l[i] != l[j]) &&
    (forall n :: 0 <= n < g.size ==> (p.isFree[n] == 1 <==> n in l)) &&
    p.freeStart == (if |l| == 0 then g.size else l[0]) &&
    (forall i :: 0 <= i < |l| ==> p.freeNext[l[i]] == Link(l, i, g.size))
  }

  /** The pool after construction: freeStart 1, slots 1 to size-1 chained in order, the root an in-use leaf. */
  function Initial(g: Geometry): (p: Pool)
    requires 1 <= g.size
    ensures Fits(g, p)
  {
    var zeros := seq(g.size, _ => seq(g.stuckSize, _ => 0));
    Pool(1,
         seq(g.size, n => if n == 0 then 1 else 0),
         seq(g.size, n => if n == 0 then 0 else 1),
         seq(g.size, n => if n == 0 then 0 else n + 1),
         seq(g.size, _ => 0),
         zeros, zeros)
  }

  /** The slots 1 to size-1 in order. */
  function Slots(size: nat): (l: seq<nat>)
    requires 1 <= size
    ensures |l| == size - 1 && forall i :: 0 <= i < |l| ==> l[i] == i + 1
  {
    seq(size - 1, i => i + 1)
  }

  /** After construction every slot but the root is on the chain, in ascending order. */
  lemma InitialChain(g: Geometry)
    requires 1 <= g.size
    ensures FreeList(g, Initial(g), Slots(g.size))
  {
    var p := Initial(g);
    var l := Slots(g.size);
    forall n | 0 <= n < g.size ensures p.isFree[n] == 1 <==> n in l {
      if n > 0 {
        assert l[n - 1] == n;
      }
    }
  }

  /**
   * Allocation as written: freeStart 0 halts with "Out of memory"; otherwise
   * the head of the chain is taken, its free bit and link cleared, and its
   * link becomes the new head.  A head of `size`, the last link of the chain
   * built at construction, is not a slot: the first access to slot `size`,
   * the write that clears its free bit, faults.
   */
  function AllocateAsWritten(g: Geometry, p: Pool): (r: Result<(nat, Pool), string>)
    requires Fits(g, p)
    ensures r.Ok? ==> Fits(g, r.value.1)
  {
    if p.freeStart == 0 then Err("Out of memory")
    else if p.freeStart >= g.size then Err("Array index out of bounds")
    else
      var n := p.freeStart;
      Ok((n, p.(freeStart := p.freeNext[n], isFree := p.isFree[n := 0], freeNext := p.freeNext[n := 0])))
  }

  /** Allocation that treats either end marker, 0 or `size`, as an empty chain. */
  function Allocate(g: Geometry, p: Pool): (r: Result<(nat, Pool), string>)
    requires Fits(g, p)
    ensures r.Ok? ==> Fits(g, r.value.1)
  {
    if p.freeStart == 0 || p.freeStart >= g.size then Err("Out of memory")
    else
      var n := p.freeStart;
      Ok((n, p.(freeStart := p.freeNext[n], isFree := p.isFree[n := 0], freeNext := p.freeNext[n := 0])))
  }

  /** Allocation hands out the head of the chain, which was free and is now in use, and leaves the rest of the chain. */
  lemma AllocateTakesHead(g: Geometry, p: Pool, l: seq<nat>)
    requires Fits(g, p) && FreeList(g, p, l) && |l| > 0
    ensures Allocate(g, p).Ok?
    ensures var (n, q) := Allocate(g, p).value;
      n == l[0] && p.isFree[n] == 1 && q.isFree[n] == 0 && FreeList(g, q, l[1..]) &&
      q.isLeaf == p.isLeaf && q.sizes == p.sizes && q.keys == p.keys && q.data == p.data
  {
    var (n, q) := Allocate(g, p).value;
    var t := l[1..];
    forall m | 0 <= m < g.size ensures q.isFree[m] == 1 <==> m in t {
      if m in t {
        var j :| 0 <= j < |t| && t[j] == m;
        assert l[j + 1] == m;
      }
    }
    forall i | 0 <= i < |t| ensures q.freeNext[t[i]] == Link(t, i, g.size) {
      assert t[i] == l[i + 1];
    }
  }

  /** With the chain empty the head is `size`: the corrected allocation reports "Out of memory". */
  lemma AllocateExhausted(g: Geometry, p: Pool)
    requires Fits(g, p) && FreeList(g, p, []) && g.size >= 1
    ensures Allocate(g, p) == Err("Out of memory")
  {
  }

  /** With the chain empty, allocation as written accesses slot `size`, past the last slot, instead of reporting "Out of memory". */
  lemma AllocateAsWrittenFaults(g: Geometry, p: Pool)
    requires Fits(g, p) && FreeList(g, p, []) && g.size >= 1
    ensures AllocateAsWritten(g, p) == Err("Array index out of bounds")
  {
  }

  /** A pool of two slots: the first allocation succeeds and the second faults as written. */
  lemma TwoSlotPoolFaults()
    ensures var g := Geometry(2, 4, 8, 8);
      AllocateAsWritten(g, Initial(g)).Ok? &&
      AllocateAsWritten(g, AllocateAsWritten(g, Initial(g)).value.1) == Err("Array index out of bounds") &&
      Allocate(g, Allocate(g, Initial(g)).value.1) == Err("Out of memory")
  {
    var g := Geometry(2, 4, 8, 8);
    var p := Initial(g);
    assert p.freeNext[1] == 2;
  }

  /** Freeing: the root cannot be freed; otherwise the slot is marked free, linked to the old head and becomes the head. */
  function Free(g: Geometry, p: Pool, n: nat): (r: Result<Pool, string>)
    requires Fits(g, p)
    ensures r.Ok? ==> Fits(g, r.value)
  {
    if n == 0 then Err("Cannot free the root stuck")
    else if n >= g.size then Err("Array index out of bounds")
    else Ok(p.(freeNext := p.freeNext[n := p.freeStart], freeStart := n, isFree := p.isFree[n := 1]))
  }

  /** Freeing an in-use slot pushes it on the front of the chain. */
  lemma FreePushes(g: Geometry, p: Pool, l: seq<nat>, n: nat)
    requires Fits(g, p) && FreeList(g, p, l) && 1 <= n < g.size && n !in l
    ensures Free(g, p, n).Ok? && FreeList(g, Free(g, p, n).value, [n] + l)
  {
    ConsDistinct(l, n, g.size);
    FreedBits(p.isFree, l, n);
    FreedLinks(p.freeNext, l, n, p.freeStart, g.size);
  }

  /** A slot not on a chain of distinct slots, put in front of it, gives a chain of distinct slots. */
  lemma ConsDistinct(l: seq<nat>, n: nat, size: nat)
    requires (forall i, j :: 0 <= i < j < |l| ==> l[i] != l[j]) && n !in l
    requires (forall i :: 0 <= i < |l| ==> 1 <= l[i] < size) && 1 <= n < size
    ensures var t := [n] + l; forall i, j :: 0 <= i < j < |t| ==> t[i] != t[j]
    ensures var t := [n] + l; forall i :: 0 <= i < |t| ==> 1 <= t[i] < size
  {
    var t := [n] + l;
    forall i, j | 0 <= i < j < |t| ensures t[i] != t[j] {
      if i == 0 {
        assert t[j] == l[j - 1];
      }
    }
    forall i | 0 <= i < |t| ensures 1 <= t[i] < size {
      if i > 0 {
        assert t[i] == l[i - 1];
      }
    }
  }

  /** Setting n's free bit adds exactly n to the slots whose bit is set. */
  lemma FreedBits(isFree: seq<nat>, l: seq<nat>, n: nat)
    requires n < |isFree| && forall m :: 0 <= m < |isFree| ==> (isFree[m] == 1 <==> m in l)
    ensures forall m :: 0 <= m < |isFree| ==> (isFree[n := 1][m] == 1 <==> m in [n] + l)
  {
    var t := [n] + l;
    forall m | 0 <= m < |isFree| ensures isFree[n := 1][m] == 1 <==> m in t {
      if m in l {
        var j :| 0 <= j < |l| && l[j] == m;
        assert t[j + 1] == m;
      }
      if m in t && m != n {
        var j :| 0 <= j < |t| && t[j] == m;
        assert l[j - 1] == m;
      }
    }
  }

  /** Linking n to the old head puts n in front of the chain and keeps the old chain's links. */
  lemma FreedLinks(freeNext: seq<nat>, l: seq<nat>, n: nat, head: nat, end: nat)
    requires n < |freeNext| && n !in l && forall i :: 0 <= i < |l| ==> l[i] < |freeNext|
    requires head == (if |l| == 0 then end else l[0])
    requires forall i :: 0 <= i < |l| ==> freeNext[l[i]] == Link(l, i, end)
    ensures forall i :: 0 <= i < |[n] + l| ==> freeNext[n := head][([n] + l)[i]] == Link([n] + l, i, end)
  {
    var t := [n] + l;
    forall i | 0 <= i < |t| ensures freeNext[n := head][t[i]] == Link(t, i, end) {
      if i > 0 {
        assert t[i] == l[i - 1];
      }
    }
  }

  /** Freeing a slot just allocated restores the pool exactly. */
  lemma AllocateThenFree(g: Geometry, p: Pool, l: seq<nat>)
    requires Fits(g, p) && FreeList(g, p, l) && |l| > 0
    ensures Allocate(g, p).Ok?
    ensures Free(g, Allocate(g, p).value.1, Allocate(g, p).value.0) == Ok(p)
  {
    AllocateTakesHead(g, p, l);
    var (n, q) := Allocate(g, p).value;
    var r := Free(g, q, n).value;
    assert r.isFree == p.isFree;
    assert r.freeNext == p.freeNext;
  }

  /** Two allocations from a new pool give slots 1 and 2 and leave 3 at the head; freeing them puts 2 at the head, linked to 1, linked to 3. */
  lemma AllocateAndFreeTwice(g: Geometry)
    requires g.size >= 4
    ensures var (x, p1) := Allocate(g, Initial(g)).value;
      var (y, p2) := Allocate(g, p1).value;
      x == 1 && y == 2 && p2.freeStart == 3 && p2.freeNext[1] == 0 && p2.freeNext[2] == 0 &&
      var p3 := Free(g, p2, x).value;
      var p4 := Free(g, p3, y).value;
      p4.freeStart == 2 && p4.freeNext[2] == 1 && p4.freeNext[1] == 3 && p4.freeNext[3] == 4
  {
    var p0 := Initial(g);
    InitialChain(g);
    var l := Slots(g.size);
    AllocateTakesHead(g, p0, l);
    var (x, p1) := Allocate(g, p0).value;
    AllocateTakesHead(g, p1, l[1..]);
    var (y, p2) := Allocate(g, p1).value;
    assert l[1..][1..] == l[2..];
    assert x == 1 && y == 2 && p2.freeStart == l[2];
    FreePushes(g, p2, l[2..], x);
  }

  // Find

  /** The outcome of a find: the key's leaf, position and datum, or the leaf where it would go. */
  datatype Found = Found(node: nat, index: nat, datum: nat) | Missing(node: nat)

  /** The Leaf arm of find: an exact-match search of the slot's pairs in use. */
  function LeafLookup(g: Geometry, p: Pool, key: int, n: nat): (r: Found)
    requires Fits(g, p) && n < g.size
    ensures r.node == n
    ensures r.Found? ==> var node := NodeAt(g, p, n);
      r.index < node.count && node.keys[r.index] == key && r.datum == node.data[r.index]
    ensures r.Missing? <==> Stuck.FirstEq(NodeAt(g, p, n).keys, NodeAt(g, p, n).count, key).None?
  {
    var node := NodeAt(g, p, n);
    match Stuck.FirstEq(node.keys, node.count, key)
    case Some(i) => Found(n, i, node.data[i])
    case None => Missing(n)
  }

  /** What a visit to one slot decides: the search ends at this leaf, or goes down to a child slot. */
  datatype Visit = Arrived(found: Found) | Descend(child: nat)

  /**
   * One visit: a leaf is searched for the key; a branch passes the search to
   * the slot named by the datum of its first key greater than or equal to the
   * key, or, past all its keys, by the top pointer held in the slot just
   * after those in use, which a full branch does not have.
   */
  function VisitSlot(g: Geometry, p: Pool, key: int, n: nat): (r: Result<Visit, string>)
    requires Fits(g, p) && n < g.size
    ensures r.Ok? && r.value.Arrived? <==> p.isLeaf[n] != 0
    ensures r.Ok? && r.value.Arrived? ==> r.value.found == LeafLookup(g, p, key, n)
    ensures r.Ok? && r.value.Descend? ==> var node := NodeAt(g, p, n);
      match Stuck.FirstGe(node.keys, node.count, key)
      case Some(i) => r.value.child == node.data[i] && key <= node.keys[i]
      case None => node.count < g.stuckSize && r.value.child == node.data[node.count]
  {
    if p.isLeaf[n] != 0 then Ok(Arrived(LeafLookup(g, p, key, n)))
    else
      var node := NodeAt(g, p, n);
      match Stuck.FirstGe(node.keys, node.count, key)
      case Some(i) => Ok(Descend(node.data[i]))
      case None =>
        if node.count < g.stuckSize then Ok(Descend(node.data[node.count]))
        else Err("Array index out of bounds")
  }

  /** Find from slot n, each slot visited costing one of `visits`. */
  function FindFrom(g: Geometry, p: Pool, key: int, n: nat, visits: nat): (r: Result<Found, string>)
    requires Fits(g, p)
    ensures r.Ok? ==> r.value.node < g.size && p.isLeaf[r.value.node] != 0 && r.value == LeafLookup(g, p, key, r.value.node)
    decreases visits
  {
    if visits == 0 then Err("Out of steps")
    else if n >= g.size then Err("Array index out of bounds")
    else
      match VisitSlot(g, p, key, n)
      case Err(e) => Err(e)
      case Ok(Arrived(f)) => Ok(f)
      case Ok(Descend(c)) => FindFrom(g, p, key, c, visits - 1)
  }

  /** Find starts at the root. */
  function Find(g: Geometry, p: Pool, key: int, visits: nat): (r: Result<Found, string>)
    requires Fits(g, p)
    ensures r.Ok? ==> r.value.node < g.size && p.isLeaf[r.value.node] != 0
    ensures r.Ok? && r.value.Found? ==> r.value.index < p.sizes[r.value.node] && p.keys[r.value.node][r.value.index] == key
  {
    FindFrom(g, p, key, 0, visits)
  }

  /** A find that ends at leaf n gives the same answer in a pool that differs only in slot n's contents. */
  lemma {:induction false} FindFrame(g: Geometry, p: Pool, q: Pool, key: int, m: nat, visits: nat, n: nat)
    requires Fits(g, p) && Fits(g, q) && n < g.size && q.isLeaf == p.isLeaf
    requires FindFrom(g, p, key, m, visits).Ok? && FindFrom(g, p, key, m, visits).value.node == n
    requires forall k :: 0 <= k < g.size && k != n ==> NodeAt(g, q, k) == NodeAt(g, p, k)
    ensures FindFrom(g, q, key, m, visits) == Ok(LeafLookup(g, q, key, n))
    decreases visits
  {
    if p.isLeaf[m] != 0 {
      assert m == n;
    } else {
      assert m != n;
      assert NodeAt(g, q, m) == NodeAt(g, p, m);
      assert VisitSlot(g, q, key, m) == VisitSlot(g, p, key, m);
      FindFrame(g, p, q, key, VisitSlot(g, p, key, m).value.child, visits - 1, n);
    }
  }

  // Find and insert

  /** A key and datum that the key and data fields can hold. */
  predicate PairFits(g: Geometry, key: nat, datum: nat)
  {
    key < Pow2(Width(g.bitsPerKey)) && datum < Pow2(Width(g.bitsPerData))
  }

  /**
   * Leaf `node` after the pair goes in, given find's answer f for the key:
   * a found key has its pair rewritten at its position; a missing key is
   * inserted at the first key greater than or equal to it, moving the rest up,
   * or pushed at the end.
   */
  function Inserted(g: Geometry, node: Node, key: nat, datum: nat, f: Found): (r: Node)
    requires NodeFits(g, node) && PairFits(g, key, datum)
    requires f.Found? ==> f.index < node.count
    requires f.Missing? ==> node.count < g.stuckSize
    ensures NodeFits(g, r)
  {
    if f.Found? then node.(keys := node.keys[f.index := key], data := node.data[f.index := datum])
    else
      match Stuck.FirstGe(node.keys, node.count, key)
      case Some(i) =>
        Stuck.ShiftedAt(node.keys, i, node.count, key);
        Stuck.ShiftedAt(node.data, i, node.count, datum);
        Node(node.count + 1, Stuck.Shifted(node.keys, i, node.count, key), Stuck.Shifted(node.data, i, node.count, datum))
      case None => Node(node.count + 1, node.keys[node.count := key], node.data[node.count := datum])
  }

  /** The new leaf holds the pair: the key is found at a position whose datum is the new one. */
  lemma InsertedHolds(g: Geometry, node: Node, key: nat, datum: nat, f: Found)
    requires NodeFits(g, node) && PairFits(g, key, datum)
    requires f.Found? ==> (f.index < node.count && node.keys[f.index] == key &&
      Stuck.FirstEq(node.keys, node.count, key) == Some(f.index))
    requires f.Missing? ==> node.count < g.stuckSize && Stuck.FirstEq(node.keys, node.count, key).None?
    ensures var r := Inserted(g, node, key, datum, f);
      var at := Stuck.FirstEq(r.keys, r.count, key);
      at.Some? && r.data[at.value] == datum
  {
    var r := Inserted(g, node, key, datum, f);
    if f.Found? {
      FirstEqAt(r.keys, r.count, key, f.index);
    } else {
      match Stuck.FirstGe(node.keys, node.count, key)
      case Some(i) =>
        Stuck.ShiftedAt(node.keys, i, node.count, key);
        Stuck.ShiftedAt(node.data, i, node.count, datum);
        FirstEqAt(r.keys, r.count, key, i);
      case None =>
        FirstEqAt(r.keys, r.count, key, node.count);
    }
  }

  /** The new leaf's keys stay ascending, and its pairs in use are the old ones plus the new one. */
  lemma InsertedAscending(g: Geometry, node: Node, key: nat, datum: nat, f: Found)
    requires NodeFits(g, node) && PairFits(g, key, datum) && Stuck.Ascending(node.keys, node.count)
    requires f.Found? ==> f.index < node.count && node.keys[f.index] == key
    requires f.Missing? ==> node.count < g.stuckSize && Stuck.FirstEq(node.keys, node.count, key).None?
    ensures var r := Inserted(g, node, key, datum, f);
      Stuck.Ascending(r.keys, r.count) &&
      (f.Missing? ==> multiset(r.keys[..r.count]) == multiset(node.keys[..node.count]) + multiset{key})
  {
    var r := Inserted(g, node, key, datum, f);
    if f.Found? {
      assert r.keys == node.keys[f.index := key] == node.keys;
    } else {
      InsertedMissingAscending(g, node, key, datum, f.node);
    }
  }

  /** InsertedAscending for a key that is missing: it goes in at its place, or at the end. */
  lemma InsertedMissingAscending(g: Geometry, node: Node, key: nat, datum: nat, n: nat)
    requires NodeFits(g, node) && PairFits(g, key, datum) && Stuck.Ascending(node.keys, node.count)
    requires node.count < g.stuckSize && Stuck.FirstEq(node.keys, node.count, key).None?
    ensures var r := Inserted(g, node, key, datum, Missing(n));
      Stuck.Ascending(r.keys, r.count) &&
      multiset(r.keys[..r.count]) == multiset(node.keys[..node.count]) + multiset{key}
  {
    var r := Inserted(g, node, key, datum, Missing(n));
    match Stuck.FirstGe(node.keys, node.count, key)
    case Some(i) =>
      ShiftedKeys(node.keys, node.count, key, i, r.keys, r.count);
    case None =>
      PushedKeys(node.keys, node.count, key, r.keys, r.count);
  }

  /** Keys shifted up to make room for a missing key at its place stay ascending and gain exactly that key. */
  lemma ShiftedKeys(keys: seq<nat>, k: nat, key: nat, i: nat, after: seq<nat>, count: nat)
    requires k < |keys| && Stuck.Ascending(keys, k) && Stuck.FirstEq(keys, k, key).None?
    requires Stuck.FirstGe(keys, k, key) == Some(i)
    requires after == Stuck.Shifted(keys, i, k, key) && count == k + 1
    ensures Stuck.Ascending(after, count)
    ensures multiset(after[..count]) == multiset(keys[..k]) + multiset{key}
  {
    Stuck.InsertKeepsAscending(keys, k, key, i);
    Stuck.InsertAddsOne(keys, i, k, key);
  }

  /** Keys with a larger key pushed at the end stay ascending and gain exactly that key. */
  lemma PushedKeys(keys: seq<nat>, k: nat, key: nat, after: seq<nat>, count: nat)
    requires k < |keys| && Stuck.Ascending(keys, k) && Stuck.FirstGe(keys, k, key).None?
    requires after == keys[k := key] && count == k + 1
    ensures Stuck.Ascending(after, count)
    ensures multiset(after[..count]) == multiset(keys[..k]) + multiset{key}
  {
    Stuck.PushKeepsAscending(keys, k, key);
    assert after[..count] == keys[..k] + [key];
  }

  /**
   * The rest of find-and-insert once find has answered f, with `datum` the
   * value then held by the data field: a full leaf without the key is left
   * alone and reported as not inserted; otherwise the leaf is rewritten.
   */
  function Place(g: Geometry, p: Pool, key: nat, datum: nat, f: Found): (r: (bool, Pool))
    requires Fits(g, p) && f.node < g.size && PairFits(g, key, datum)
    requires f.Found? ==> f.index < NodeAt(g, p, f.node).count
    ensures Fits(g, r.1)
  {
    var node := NodeAt(g, p, f.node);
    if f.Missing? && node.count >= g.stuckSize then (false, p)
    else (true, SaveNode(g, p, f.node, Inserted(g, node, key, datum, f)))
  }

  /** Rewriting the pair at a found position is inserting it. */
  lemma RewriteIsInserted(g: Geometry, node: Node, key: nat, datum: nat, f: Found, keys: seq<nat>, data: seq<nat>)
    requires NodeFits(g, node) && PairFits(g, key, datum) && f.Found? && f.index < node.count
    requires keys == node.keys[f.index := key] && data == node.data[f.index := datum]
    ensures Inserted(g, node, key, datum, f) == Node(node.count, keys, data)
  {
  }

  /** Adding a missing key's pair where AddToStuck puts it is inserting it. */
  lemma AddIsInserted(g: Geometry, node: Node, key: nat, datum: nat, f: Found, count: nat, keys: seq<nat>, data: seq<nat>)
    requires NodeFits(g, node) && PairFits(g, key, datum) && f.Missing? && node.count < g.stuckSize
    requires count == node.count + 1
    requires match Stuck.FirstGe(node.keys, node.count, key)
      case Some(i) => keys == Stuck.Shifted(node.keys, i, node.count, key) && data == Stuck.Shifted(node.data, i, node.count, datum)
      case None => keys == node.keys[node.count := key] && data == node.data[node.count := datum]
    ensures Inserted(g, node, key, datum, f) == Node(count, keys, data)
  {
  }

  /** When the pair goes in, placing it saves its leaf with the pair inserted. */
  lemma PlaceSaves(g: Geometry, p: Pool, key: nat, datum: nat, f: Found, leaf: Node)
    requires Fits(g, p) && f.node < g.size && PairFits(g, key, datum)
    requires f.Found? ==> f.index < NodeAt(g, p, f.node).count
    requires f.Missing? ==> NodeAt(g, p, f.node).count < g.stuckSize
    requires leaf == Inserted(g, NodeAt(g, p, f.node), key, datum, f)
    ensures Place(g, p, key, datum, f) == (true, SaveNode(g, p, f.node, leaf))
  {
  }

  /**
   * Find-and-insert as written: find overwrites the data field with the
   * datum already stored under a key it finds, so the rewrite stores that
   * old datum again.
   */
  function FindAndInsertAsWritten(g: Geometry, p: Pool, key: nat, datum: nat, visits: nat): (r: Result<(bool, Pool), string>)
    requires Fits(g, p) && PairFits(g, key, datum)
    ensures r.Ok? ==> Fits(g, r.value.1)
  {
    match Find(g, p, key, visits)
    case Err(e) => Err(e)
    case Ok(f) => Ok(Place(g, p, key, if f.Found? then f.datum else datum, f))
  }

  /** Find-and-insert with the new datum kept: an existing key is updated with it. */
  function FindAndInsert(g: Geometry, p: Pool, key: nat, datum: nat, visits: nat): (r: Result<(bool, Pool), string>)
    requires Fits(g, p) && PairFits(g, key, datum)
    ensures r.Ok? ==> Fits(g, r.value.1)
    ensures r.Err? <==> Find(g, p, key, visits).Err?
  {
    match Find(g, p, key, visits)
    case Err(e) => Err(e)
    case Ok(f) => Ok(Place(g, p, key, datum, f))
  }

  /** As written, updating a key that is present leaves the pool exactly as it was, whatever the new datum. */
  lemma UpdateIsLost(g: Geometry, p: Pool, key: nat, datum: nat, visits: nat)
    requires Fits(g, p) && PairFits(g, key, datum)
    requires Find(g, p, key, visits).Ok? && Find(g, p, key, visits).value.Found?
    ensures FindAndInsertAsWritten(g, p, key, datum, visits) == Ok((true, p))
  {
    var f := Find(g, p, key, visits).value;
    var node := NodeAt(g, p, f.node);
    assert node.keys[f.index := key] == node.keys;
    assert node.data[f.index := f.datum] == node.data;
    CopyThenSave(g, p, f.node);
  }

  /** Find-and-insert rewrites at most the leaf find reached: the free chain, the leaf bits and every other slot stay. */
  lemma OnlyTargetLeaf(g: Geometry, p: Pool, key: nat, datum: nat, visits: nat, m: nat)
    requires Fits(g, p) && PairFits(g, key, datum)
    requires FindAndInsert(g, p, key, datum, visits).Ok? && m < g.size && m != Find(g, p, key, visits).value.node
    ensures var q := FindAndInsert(g, p, key, datum, visits).value.1;
      q.freeStart == p.freeStart && q.isLeaf == p.isLeaf && q.isFree == p.isFree && q.freeNext == p.freeNext &&
      NodeAt(g, q, m) == NodeAt(g, p, m)
  {
  }

  /** Every slot's keys in use are ascending. */
  predicate Ordered(g: Geometry, p: Pool)
    requires Fits(g, p)
  {
    forall n :: 0 <= n < g.size ==> Stuck.Ascending(p.keys[n], p.sizes[n])
  }

  /** Find-and-insert keeps every slot's keys ascending. */
  lemma InsertKeepsOrder(g: Geometry, p: Pool, key: nat, datum: nat, visits: nat)
    requires Fits(g, p) && PairFits(g, key, datum)
    requires Ordered(g, p) && FindAndInsert(g, p, key, datum, visits).Ok?
    ensures Ordered(g, FindAndInsert(g, p, key, datum, visits).value.1)
  {
    var f := Find(g, p, key, visits).value;
    var node := NodeAt(g, p, f.node);
    var q := FindAndInsert(g, p, key, datum, visits).value.1;
    if !(f.Missing? && node.count >= g.stuckSize) {
      var r := Inserted(g, node, key, datum, f);
      assert q == SaveNode(g, p, f.node, r);
      InsertedAscending(g, node, key, datum, f);
      forall n | 0 <= n < g.size ensures Stuck.Ascending(q.keys[n], q.sizes[n]) {
        if n != f.node {
          assert q.keys[n] == p.keys[n] && q.sizes[n] == p.sizes[n];
        }
      }
    }
  }

  /** After an insertion that succeeds, find reaches the same leaf and finds the key with the new datum. */
  lemma InsertThenFind(g: Geometry, p: Pool, key: nat, datum: nat, visits: nat)
    requires Fits(g, p) && PairFits(g, key, datum)
    requires FindAndInsert(g, p, key, datum, visits).Ok? && FindAndInsert(g, p, key, datum, visits).value.0
    ensures var q := FindAndInsert(g, p, key, datum, visits).value.1;
      var f := Find(g, q, key, visits);
      f.Ok? && f.value.Found? && f.value.node == Find(g, p, key, visits).value.node && f.value.datum == datum
  {
    var f := Find(g, p, key, visits).value;
    assert FindAndInsert(g, p, key, datum, visits) == Ok(Place(g, p, key, datum, f));
    PlacedHolds(g, p, key, datum, f);
    FindAfterSave(g, p, key, visits, Inserted(g, NodeAt(g, p, f.node), key, datum, f));
  }

  /** A placed pair sits in the leaf it was placed in, with its datum. */
  lemma PlacedHolds(g: Geometry, p: Pool, key: nat, datum: nat, f: Found)
    requires Fits(g, p) && f.node < g.size && PairFits(g, key, datum)
    requires f == LeafLookup(g, p, key, f.node) && Place(g, p, key, datum, f).0
    ensures var q := Place(g, p, key, datum, f).1;
      var l := LeafLookup(g, q, key, f.node);
      q == SaveNode(g, p, f.node, Inserted(g, NodeAt(g, p, f.node), key, datum, f)) &&
      l.Found? && l.datum == datum
  {
    var node := NodeAt(g, p, f.node);
    var r := Inserted(g, node, key, datum, f);
    SaveThenCopy(g, p, f.node, r);
    InsertedHolds(g, node, key, datum, f);
  }

  /** Saving a node into the leaf a find reaches leaves the find reaching that leaf. */
  lemma FindAfterSave(g: Geometry, p: Pool, key: int, visits: nat, r: Node)
    requires Fits(g, p) && Find(g, p, key, visits).Ok? && NodeFits(g, r)
    ensures var n := Find(g, p, key, visits).value.node;
      var q := SaveNode(g, p, n, r);
      Find(g, q, key, visits) == Ok(LeafLookup(g, q, key, n))
  {
    var n := Find(g, p, key, visits).value.node;
    var q := SaveNode(g, p, n, r);
    forall k | 0 <= k < g.size && k != n ensures NodeAt(g, q, k) == NodeAt(g, p, k) {
      SaveLeavesOthers(g, p, n, r, k);
    }
    FindFrame(g, p, q, key, 0, visits, n);
  }

  /** The position of a key that sits at i with no equal key before it. */
  lemma FirstEqAt(keys: seq<nat>, k: nat, key: int, i: nat)
    requires k <= |keys| && i < k && keys[i] == key && forall j :: 0 <= j < i ==> keys[j] != key
    ensures Stuck.FirstEq(keys, k, key) == Some(i)
  {
  }

  /** A find-and-insert that reaches a full leaf without the key changes nothing and reports false. */
  lemma FullLeafUnchanged(g: Geometry, p: Pool, key: nat, datum: nat, visits: nat)
    requires Fits(g, p) && PairFits(g, key, datum)
    requires Find(g, p, key, visits).Ok? && Find(g, p, key, visits).value.Missing?
    requires p.sizes[Find(g, p, key, visits).value.node] == g.stuckSize
    ensures FindAndInsert(g, p, key, datum, visits) == Ok((false, p))
    ensures FindAndInsertAsWritten(g, p, key, datum, visits) == Ok((false, p))
  {
  }
}
