/**
 * The B-tree's block of memory as mutable state: per-slot arrays for the
 * leaf bit, the free bit, the free-chain link and the pair count, and
 * two-dimensional key and data arrays indexed [slot, position].  Each
 * routine is proved to leave the block as the matching function of the Pool
 * module says, so everything proved there holds of this class.
 */
module Btree {
  import opened Wrappers
  import opened Bits
  import opened BtreePool
  import Stuck

  class Btree {
    const size: nat
    const stuckSize: nat
    const bitsPerKey: nat
    const bitsPerData: nat
    var freeStart: nat
    const isLeaf: array<nat>
    const isFree: array<nat>
    const freeNext: array<nat>
    const sizes: array<nat>
    const keys: array<seq<nat>>
    const data: array<seq<nat>>

    function Geo(): Geometry
    {
      Geometry(size, stuckSize, bitsPerKey, bitsPerData)
    }

    /** The block as a Pool value. */
    function Snapshot(): Pool
      reads this, isLeaf, isFree, freeNext, sizes, keys, data
    {
      Pool(freeStart, isLeaf[..], isFree[..], freeNext[..], sizes[..], keys[..], data[..])
    }

    /** The one-dimensional arrays, which a stuck's arrays must not be. */
    function Columns(): set<array<nat>>
    {
      {isLeaf, isFree, freeNext, sizes}
    }

    ghost predicate Valid()
      reads this, isLeaf, isFree, freeNext, sizes, keys, data
    {
      isLeaf != isFree && isLeaf != freeNext && isLeaf != sizes && isFree != freeNext && isFree != sizes &&
      freeNext != sizes && keys != data && 1 <= size &&
      Fits(Geo(), Snapshot())
    }

    /** A stuck of this tree's shape, kept apart from the block. */
    ghost predicate Matches(S: Stuck.Stuck)
      reads S, S.keys, S.data
    {
      S.Valid() && S.size == stuckSize && S.bitsPerKey == bitsPerKey && S.bitsPerData == bitsPerData &&
      S.keys !in Columns() && S.data !in Columns()
    }

    /**
     * Construction: every slot but the root on the free chain in ascending
     * order, its last link `size`; the root an in-use leaf.
     */
    constructor (size: nat, stuckSize: nat, bitsPerKey: nat, bitsPerData: nat)
      requires 1 <= size
      ensures this.size == size && this.stuckSize == stuckSize && this.bitsPerKey == bitsPerKey && this.bitsPerData == bitsPerData
      ensures Valid() && Snapshot() == Initial(Geo())
    {
      this.size := size;
      this.stuckSize := stuckSize;
      this.bitsPerKey := bitsPerKey;
      this.bitsPerData := bitsPerData;
      freeStart := 0;
      isLeaf := new nat[size](_ => 0);
      isFree := new nat[size](_ => 0);
      freeNext := new nat[size](_ => 0);
      sizes := new nat[size](_ => 0);
      keys := new seq<nat>[size](_ => seq(stuckSize, _ => 0));
      data := new seq<nat>[size](_ => seq(stuckSize, _ => 0));
      new;
      CreateFreeChain();
    }

    /** Chain slots 1 to size-1 in order and mark the root a leaf. */
    method CreateFreeChain()
      requires keys != data && keys.Length == size && data.Length == size
      requires isLeaf != isFree && isLeaf != freeNext && isLeaf != sizes && isFree != freeNext && isFree != sizes
      requires freeNext != sizes && 1 <= size
      requires isLeaf.Length == size && isFree.Length == size && freeNext.Length == size && sizes.Length == size
      requires forall n :: 0 <= n < size ==> isLeaf[n] == 0 && isFree[n] == 0 && freeNext[n] == 0 && sizes[n] == 0
      requires forall n :: 0 <= n < size ==> keys[n] == seq(stuckSize, _ => 0) && data[n] == seq(stuckSize, _ => 0)
      modifies this, isLeaf, isFree, freeNext
      ensures Snapshot() == Initial(Geo())
    {
      freeStart := 1;
      isLeaf[0] := 1;
      for i := 1 to size
        invariant freeStart == 1 && isLeaf[..] == old(isLeaf[..])[0 := 1]
        invariant forall n :: 0 <= n < size ==> freeNext[n] == if 1 <= n < i then n + 1 else 0
        invariant forall n :: 0 <= n < size ==> isFree[n] == if 1 <= n < i then 1 else 0
      {
        freeNext[i] := i + 1;
        isFree[i] := 1;
      }
      var p := Initial(Geo());
      assert isLeaf[..] == p.isLeaf;
      assert isFree[..] == p.isFree;
      assert freeNext[..] == p.freeNext;
      assert sizes[..] == p.sizes;
      assert keys[..] == p.keys;
      assert data[..] == p.data;
    }

    /**
     * Construction through the layout: halts with "Bits per data too small
     * for tree of this size" unless a data cell can hold a slot index.
     */
    static method Make(size: nat, stuckSize: nat, bitsPerKey: nat, bitsPerData: nat) returns (r: Result<Btree, string>)
      requires 1 <= size
      ensures r.Err? <==> LogTwo(size) >= bitsPerData
      ensures r.Err? ==> r.error == "Bits per data too small for tree of this size"
      ensures r.Ok? ==> (fresh(r.value) && r.value.Geo() == Geometry(size, stuckSize, bitsPerKey, bitsPerData) &&
        r.value.Valid() && r.value.Snapshot() == Initial(r.value.Geo()))
    {
      if LogTwo(size) >= bitsPerData {
        return Err("Bits per data too small for tree of this size");
      }
      var b := new Btree(size, stuckSize, bitsPerKey, bitsPerData);
      return Ok(b);
    }

    /**
     * Take the head of the free chain: clear its free bit and link and make
     * its link the new head.  An empty chain, whichever end marker it shows,
     * halts with "Out of memory".
     */
    method Allocate() returns (r: Result<nat, string>)
      requires Valid()
      modifies this, isFree, freeNext
      ensures Valid()
      ensures var spec := BtreePool.Allocate(Geo(), old(Snapshot()));
        (spec.Ok? ==> r == Ok(spec.value.0) && Snapshot() == spec.value.1) &&
        (spec.Err? ==> r == Err(spec.error) && Snapshot() == old(Snapshot()))
    {
      if freeStart == 0 || freeStart >= size {
        return Err("Out of memory");
      }
      var n := freeStart;
      isFree[n] := 0;
      freeStart := freeNext[n];
      freeNext[n] := 0;
      assert Snapshot() == BtreePool.Allocate(Geo(), old(Snapshot())).value.1;
      return Ok(n);
    }

    /** Put a slot back on the front of the free chain; the root cannot be freed. */
    method Free(n: nat) returns (r: Result<(), string>)
      requires Valid()
      modifies this, isFree, freeNext
      ensures Valid()
      ensures var spec := BtreePool.Free(Geo(), old(Snapshot()), n);
        (spec.Ok? ==> r.Ok? && Snapshot() == spec.value) &&
        (spec.Err? ==> r == Err(spec.error) && Snapshot() == old(Snapshot()))
    {
      if n == 0 {
        return Err("Cannot free the root stuck");
      }
      if n >= size {
        return Err("Array index out of bounds");
      }
      freeNext[n] := freeStart;
      freeStart := n;
      isFree[n] := 1;
      assert Snapshot() == BtreePool.Free(Geo(), old(Snapshot()), n).value;
      return Ok(());
    }

    /**
     * Copy slot n out into a stuck: its count and all its key and data
     * cells.  Each pair passes through the stuck's key and data fields, which
     * are left holding the last one.
     */
    method CopyStuckFrom(S: Stuck.Stuck, n: nat) returns (r: Result<(), string>)
      requires Valid() && Matches(S)
      modifies S, S.keys, S.data
      ensures Matches(S)
      ensures r.Ok? <==> n < size
      ensures r.Err? ==> r.error == "Array index out of bounds" && S.key == old(S.key) && S.datum == old(S.datum)
      ensures r.Ok? ==> NodeAt(Geo(), Snapshot(), n) == Node(S.count, S.keys[..], S.data[..])
      ensures r.Ok? && S.size > 0 ==> S.key == S.keys[S.size - 1] && S.datum == S.data[S.size - 1]
      ensures r.Ok? && S.size == 0 ==> S.key == old(S.key) && S.datum == old(S.datum)
      ensures unchanged(this, isLeaf, isFree, freeNext, sizes, keys, data)
    {
      if n >= size {
        return Err("Array index out of bounds");
      }
      S.count := sizes[n];
      WritePairs(S, keys[n], data[n]);
      assert S.keys[..] == Snapshot().keys[n];
      assert S.data[..] == Snapshot().data[n];
      return Ok(());
    }

    /**
     * Write rows of keys and data into a stuck, in order, through its key
     * and data fields, which are left holding the last pair.
     */
    static method WritePairs(S: Stuck.Stuck, keyRow: seq<nat>, dataRow: seq<nat>)
      requires S.Valid() && |keyRow| == S.size && |dataRow| == S.size
      requires FitsWidth(keyRow, S.bitsPerKey) && FitsWidth(dataRow, S.bitsPerData)
      modifies S, S.keys, S.data
      ensures S.Valid() && S.count == old(S.count)
      ensures S.keys[..] == keyRow && S.data[..] == dataRow
      ensures S.size > 0 ==> S.key == S.keys[S.size - 1] && S.datum == S.data[S.size - 1]
      ensures S.size == 0 ==> S.key == old(S.key) && S.datum == old(S.datum)
    {
      for i := 0 to S.size
        invariant S.Valid() && S.count == old(S.count)
        invariant i == 0 ==> S.key == old(S.key) && S.datum == old(S.datum)
        invariant i > 0 ==> S.key == S.keys[i - 1] && S.datum == S.data[i - 1]
        invariant S.keys[..i] == keyRow[..i] && S.data[..i] == dataRow[..i]
      {
        S.key, S.datum := keyRow[i], dataRow[i];
        S.keys[i] := keyRow[i];
        S.data[i] := dataRow[i];
      }
    }

    /**
     * Save a stuck into slot n: its count and all its key and data cells.
     * Each pair is read through the stuck's key and data fields, which are
     * left holding the last one; nothing else in the stuck changes.
     */
    method SaveStuckInto(S: Stuck.Stuck, n: nat) returns (r: Result<(), string>)
      requires Valid() && Matches(S)
      modifies S, sizes, keys, data
      ensures Valid() && Matches(S) && S.count == old(S.count)
      ensures r.Ok? <==> n < size
      ensures r.Err? ==> r.error == "Array index out of bounds" && Snapshot() == old(Snapshot())
      ensures r.Err? ==> S.key == old(S.key) && S.datum == old(S.datum)
      ensures r.Ok? ==> Snapshot() == SaveNode(Geo(), old(Snapshot()), n, old(Node(S.count, S.keys[..], S.data[..])))
      ensures S.keys[..] == old(S.keys[..]) && S.data[..] == old(S.data[..])
      ensures r.Ok? && S.size > 0 ==> S.key == S.keys[S.size - 1] && S.datum == S.data[S.size - 1]
      ensures r.Ok? && S.size == 0 ==> S.key == old(S.key) && S.datum == old(S.datum)
    {
      if n >= size {
        return Err("Array index out of bounds");
      }
      sizes[n] := S.count;
      var keyRow, dataRow := ReadPairs(S);
      keys[n] := keyRow;
      data[n] := dataRow;
      return Ok(());
    }

    /**
     * Read every pair of a stuck, in order, through its key and data fields,
     * which are left holding the last one.
     */
    static method ReadPairs(S: Stuck.Stuck) returns (keyRow: seq<nat>, dataRow: seq<nat>)
      requires S.Valid()
      modifies S
      ensures S.Valid() && S.count == old(S.count)
      ensures S.keys[..] == old(S.keys[..]) && S.data[..] == old(S.data[..])
      ensures keyRow == S.keys[..] && dataRow == S.data[..]
      ensures S.size > 0 ==> S.key == S.keys[S.size - 1] && S.datum == S.data[S.size - 1]
      ensures S.size == 0 ==> S.key == old(S.key) && S.datum == old(S.datum)
    {
      keyRow, dataRow := [], [];
      for i := 0 to S.size
        invariant S.Valid() && S.count == old(S.count)
        invariant i == 0 ==> S.key == old(S.key) && S.datum == old(S.datum)
        invariant i > 0 ==> S.key == S.keys[i - 1] && S.datum == S.data[i - 1]
        invariant keyRow == S.keys[..i] && dataRow == S.data[..i]
      {
        S.key, S.datum := S.keys[i], S.data[i];
        keyRow := keyRow + [S.key];
        dataRow := dataRow + [S.datum];
      }
    }

    /** Set slot n's leaf bit. */
    method SetLeaf(n: nat) returns (r: Result<(), string>)
      requires Valid()
      modifies isLeaf
      ensures Valid()
      ensures r.Ok? <==> n < size
      ensures r.Ok? ==> isLeaf[..] == old(isLeaf[..])[n := 1]
      ensures r.Err? ==> r.error == "Array index out of bounds" && isLeaf[..] == old(isLeaf[..])
    {
      if n >= size {
        return Err("Array index out of bounds");
      }
      isLeaf[n] := 1;
      return Ok(());
    }

    /** Clear slot n's leaf bit: it becomes a branch. */
    method SetBranch(n: nat) returns (r: Result<(), string>)
      requires Valid()
      modifies isLeaf
      ensures Valid()
      ensures r.Ok? <==> n < size
      ensures r.Ok? ==> isLeaf[..] == old(isLeaf[..])[n := 0]
      ensures r.Err? ==> r.error == "Array index out of bounds" && isLeaf[..] == old(isLeaf[..])
    {
      if n >= size {
        return Err("Array index out of bounds");
      }
      isLeaf[n] := 0;
      return Ok(());
    }

    /** Whether slot n is a leaf: the choice the leaf-or-branch dispatch makes, Leaf exactly when the bit is set. */
    method IsLeaf(n: nat) returns (r: Result<bool, string>)
      requires Valid()
      ensures r.Ok? <==> n < size
      ensures r.Ok? ==> (r.value <==> Snapshot().isLeaf[n] == 1)
    {
      if n >= size {
        return Err("Array index out of bounds");
      }
      return Ok(isLeaf[n] != 0);
    }

    /** Whether the root is a leaf. */
    method IsRootLeaf() returns (leaf: bool)
      requires Valid()
      ensures leaf <==> Snapshot().isLeaf[0] == 1
    {
      leaf := isLeaf[0] != 0;
    }

    /** Visit slot n: copy it into the stuck and search it for the key as a leaf or as a branch. */
    method Visit(S: Stuck.Stuck, n: nat, key: int) returns (r: Result<Visit, string>)
      requires Valid() && Matches(S) && n < size
      modifies S, S.keys, S.data
      ensures Valid() && Matches(S) && Snapshot() == old(Snapshot())
      ensures r == VisitSlot(Geo(), Snapshot(), key, n)
    {
      var c := CopyStuckFrom(S, n);
      S.key := key;
      if isLeaf[n] != 0 {
        var found, i := S.SearchEq();
        if !found {
          return Ok(Arrived(Missing(n)));
        }
        S.ElementAt(i);
        return Ok(Arrived(Found(n, i, S.datum)));
      }
      var le := S.SearchLe();
      if le.Err? {
        return Err(le.error);
      }
      return Ok(Descend(S.datum));
    }

    /**
     * Find a key: starting at the root, visit slots until a leaf answers,
     * each visit costing one of `visits`.
     */
    method Find(key: int, visits: nat) returns (r: Result<Found, string>)
      requires Valid()
      ensures r == BtreePool.Find(Geo(), Snapshot(), key, visits)
    {
      var S := new Stuck.Stuck(stuckSize, bitsPerKey, bitsPerData);
      var n: nat := 0;
      var left := visits;
      while true
        invariant Valid() && Matches(S) && fresh(S.keys) && fresh(S.data)
        invariant FindFrom(Geo(), Snapshot(), key, n, left) == BtreePool.Find(Geo(), Snapshot(), key, visits)
        decreases left
      {
        if left == 0 {
          return Err("Out of steps");
        }
        if n >= size {
          return Err("Array index out of bounds");
        }
        var v := Visit(S, n, key);
        match v
        case Err(e) => return Err(e);
        case Ok(Arrived(f)) => return Ok(f);
        case Ok(Descend(c)) => n, left := c, left - 1;
      }
    }

    /** Rewrite the pair at position i of a stuck. */
    static method RewriteInStuck(S: Stuck.Stuck, i: nat, key: nat, datum: nat)
      requires S.Valid() && i < S.count && key < Pow2(Width(S.bitsPerKey)) && datum < Pow2(Width(S.bitsPerData))
      modifies S, S.keys, S.data
      ensures S.Valid() && S.count == old(S.count) && S.key == key && S.datum == datum
      ensures S.keys[..] == old(S.keys[..])[i := key] && S.data[..] == old(S.data[..])[i := datum]
    {
      TruncateBounds(key, S.bitsPerKey);
      TruncateBounds(datum, S.bitsPerData);
      S.key, S.datum := key, datum;
      S.SetElementAt(i);
    }

    /**
     * Add a pair to a stuck unless it is full: at the first key greater than
     * or equal to it, moving the rest up, or pushed at the end.
     */
    static method AddToStuck(S: Stuck.Stuck, key: nat, datum: nat) returns (placed: bool)
      requires S.Valid() && key < Pow2(Width(S.bitsPerKey)) && datum < Pow2(Width(S.bitsPerData))
      modifies S, S.keys, S.data
      ensures S.Valid()
      ensures placed <==> old(S.count) < S.size
      ensures placed ==> S.count == old(S.count) + 1 && S.key == key && S.datum == datum
      ensures !placed ==> (S.count == old(S.count) && S.key == old(S.key) && S.datum == old(S.datum) &&
        S.keys[..] == old(S.keys[..]) && S.data[..] == old(S.data[..]))
      ensures placed ==> match Stuck.FirstGe(old(S.keys[..]), old(S.count), key)
        case Some(i) =>
          S.keys[..] == Stuck.Shifted(old(S.keys[..]), i, old(S.count), key) &&
          S.data[..] == Stuck.Shifted(old(S.data[..]), i, old(S.count), datum)
        case None =>
          S.keys[..] == old(S.keys[..])[old(S.count) := key] && S.data[..] == old(S.data[..])[old(S.count) := datum]
    {
      var full := S.IsFull();
      if full {
        return false;
      }
      PlaceInStuck(S, key, datum);
      return true;
    }

    /** The pair goes into a stuck that is not full, at the first key greater than or equal to it or at the end. */
    static method PlaceInStuck(S: Stuck.Stuck, key: nat, datum: nat)
      requires S.Valid() && S.count < S.size && key < Pow2(Width(S.bitsPerKey)) && datum < Pow2(Width(S.bitsPerData))
      modifies S, S.keys, S.data
      ensures S.Valid() && S.count == old(S.count) + 1 && S.key == key && S.datum == datum
      ensures match Stuck.FirstGe(old(S.keys[..]), old(S.count), key)
        case Some(i) =>
          S.keys[..] == Stuck.Shifted(old(S.keys[..]), i, old(S.count), key) &&
          S.data[..] == Stuck.Shifted(old(S.data[..]), i, old(S.count), datum)
        case None =>
          S.keys[..] == old(S.keys[..])[old(S.count) := key] && S.data[..] == old(S.data[..])[old(S.count) := datum]
    {
      S.key := key;
      var le := S.SearchLe();
      if le.value.0 {
        InsertInStuck(S, le.value.1, key, datum);
      } else {
        PushOnStuck(S, key, datum);
      }
    }

    /** Insert a pair at position i of a stuck that is not full, moving the later pairs up. */
    static method InsertInStuck(S: Stuck.Stuck, i: nat, key: nat, datum: nat)
      requires S.Valid() && i <= S.count < S.size && key < Pow2(Width(S.bitsPerKey)) && datum < Pow2(Width(S.bitsPerData))
      modifies S, S.keys, S.data
      ensures S.Valid() && S.count == old(S.count) + 1 && S.key == key && S.datum == datum
      ensures S.keys[..] == Stuck.Shifted(old(S.keys[..]), i, old(S.count), key)
      ensures S.data[..] == Stuck.Shifted(old(S.data[..]), i, old(S.count), datum)
    {
      TruncateBounds(key, S.bitsPerKey);
      TruncateBounds(datum, S.bitsPerData);
      S.key, S.datum := key, datum;
      S.InsertElementAt(i);
    }

    /** Push a pair onto a stuck that is not full. */
    static method PushOnStuck(S: Stuck.Stuck, key: nat, datum: nat)
      requires S.Valid() && S.count < S.size && key < Pow2(Width(S.bitsPerKey)) && datum < Pow2(Width(S.bitsPerData))
      modifies S, S.keys, S.data
      ensures S.Valid() && S.count == old(S.count) + 1 && S.key == key && S.datum == datum
      ensures S.keys[..] == old(S.keys[..])[old(S.count) := key] && S.data[..] == old(S.data[..])[old(S.count) := datum]
    {
      TruncateBounds(key, S.bitsPerKey);
      TruncateBounds(datum, S.bitsPerData);
      S.key, S.datum := key, datum;
      var h := S.Push(key, datum);
    }

    /** A new stuck holding a copy of slot n. */
    method LoadStuck(n: nat) returns (S: Stuck.Stuck)
      requires Valid() && n < size
      ensures fresh(S) && fresh(S.keys) && fresh(S.data) && Matches(S)
      ensures NodeAt(Geo(), Snapshot(), n) == Node(S.count, S.keys[..], S.data[..])
    {
      S := new Stuck.Stuck(stuckSize, bitsPerKey, bitsPerData);
      var c := CopyStuckFrom(S, n);
    }

    /** Put a pair at a found key's position in a stuck holding its leaf, and save the leaf. */
    method PlaceFound(S: Stuck.Stuck, f: Found, key: nat, datum: nat)
      requires Valid() && Matches(S) && PairFits(Geo(), key, datum) && f.node < size
      requires f.Found? && f.index < S.count
      requires NodeAt(Geo(), Snapshot(), f.node) == Node(S.count, S.keys[..], S.data[..])
      modifies S, S.keys, S.data, sizes, keys, data
      ensures Valid()
      ensures (true, Snapshot()) == Place(Geo(), old(Snapshot()), key, datum, f)
    {
      ghost var p := Snapshot();
      ghost var node := NodeAt(Geo(), p, f.node);
      RewriteInStuck(S, f.index, key, datum);
      assert Snapshot() == p;
      RewriteIsInserted(Geo(), node, key, datum, f, S.keys[..], S.data[..]);
      SavePlaced(S, f, key, datum, p);
    }

    /** Save a stuck that holds the target leaf with the pair placed: the pool becomes what Place gives. */
    method SavePlaced(S: Stuck.Stuck, f: Found, key: nat, datum: nat, ghost p: Pool)
      requires Valid() && Matches(S) && PairFits(Geo(), key, datum) && f.node < size && p == Snapshot()
      requires f.Found? ==> f.index < NodeAt(Geo(), p, f.node).count
      requires f.Missing? ==> NodeAt(Geo(), p, f.node).count < stuckSize
      requires Inserted(Geo(), NodeAt(Geo(), p, f.node), key, datum, f) == Node(S.count, S.keys[..], S.data[..])
      modifies S, sizes, keys, data
      ensures Valid()
      ensures (true, Snapshot()) == Place(Geo(), p, key, datum, f)
    {
      PlaceSaves(Geo(), p, key, datum, f, Node(S.count, S.keys[..], S.data[..]));
      var s := SaveStuckInto(S, f.node);
    }

    /** Add a missing key's pair to a stuck holding its leaf and save the leaf, unless the leaf is full. */
    method PlaceMissing(S: Stuck.Stuck, f: Found, key: nat, datum: nat) returns (placed: bool)
      requires Valid() && Matches(S) && PairFits(Geo(), key, datum) && f.node < size
      requires f.Missing?
      requires NodeAt(Geo(), Snapshot(), f.node) == Node(S.count, S.keys[..], S.data[..])
      modifies S, S.keys, S.data, sizes, keys, data
      ensures Valid()
      ensures (placed, Snapshot()) == Place(Geo(), old(Snapshot()), key, datum, f)
    {
      ghost var p := Snapshot();
      ghost var node := NodeAt(Geo(), p, f.node);
      placed := AddToStuck(S, key, datum);
      assert Snapshot() == p;
      if placed {
        AddIsInserted(Geo(), node, key, datum, f, S.count, S.keys[..], S.data[..]);
        SavePlaced(S, f, key, datum, p);
      }
    }

    /**
     * Find the leaf for a key and put the pair there, saving the leaf back
     * only when it changed.  The result says whether the pair is now in the
     * tree.  The datum stored is the new one.
     */
    method FindAndInsert(key: nat, datum: nat, visits: nat) returns (r: Result<bool, string>)
      requires Valid() && PairFits(Geo(), key, datum)
      modifies sizes, keys, data
      ensures Valid()
      ensures var spec := BtreePool.FindAndInsert(Geo(), old(Snapshot()), key, datum, visits);
        (spec.Ok? ==> r == Ok(spec.value.0) && Snapshot() == spec.value.1) &&
        (spec.Err? ==> r == Err(spec.error) && Snapshot() == old(Snapshot()))
    {
      var f := Find(key, visits);
      if f.Err? {
        return Err(f.error);
      }
      ghost var p := Snapshot();
      assert BtreePool.FindAndInsert(Geo(), p, key, datum, visits) == Ok(Place(Geo(), p, key, datum, f.value));
      var S := LoadStuck(f.value.node);
      var placed := true;
      if f.value.Found? {
        PlaceFound(S, f.value, key, datum);
      } else {
        placed := PlaceMissing(S, f.value, key, datum);
      }
      return Ok(placed);
    }
  }
}
