/**
 * A stuck: a bounded array of key/data pairs with a count of the pairs in
 * use.  Keys and data are held in fixed-width fields, so what is stored is
 * the low bits of what is written.  Keys pushed in ascending order stay
 * ordered, which lets a search stop at the first key that is greater than or
 * equal to the one sought.
 */
module Stuck {
  import opened Wrappers
  import opened Bits

  /** The first k keys strictly increase. */
  predicate Ascending(keys: seq<nat>, k: nat)
    requires k <= |keys|
  {
    forall i, j :: 0 <= i < j < k ==> keys[i] < keys[j]
  }

  /** The first of the first k keys equal to the key sought. */
  function FirstEq(keys: seq<nat>, k: nat, key: int): (r: Option<nat>)
    requires k <= |keys|
    ensures r.Some? ==> r.value < k && keys[r.value] == key && forall j :: 0 <= j < r.value ==> keys[j] != key
    ensures r.None? ==> forall j :: 0 <= j < k ==> keys[j] != key
  {
    if k == 0 then None
    else
      match FirstEq(keys, k - 1, key)
      case Some(i) => Some(i)
      case None => if keys[k - 1] == key then Some(k - 1) else None
  }

  /** The first of the first k keys greater than or equal to the key sought. */
  function FirstGe(keys: seq<nat>, k: nat, key: int): (r: Option<nat>)
    requires k <= |keys|
    ensures r.Some? ==> r.value < k && keys[r.value] >= key && forall j :: 0 <= j < r.value ==> keys[j] < key
    ensures r.None? ==> forall j :: 0 <= j < k ==> keys[j] < key
  {
    if k == 0 then None
    else
      match FirstGe(keys, k - 1, key)
      case Some(i) => Some(i)
      case None => if keys[k - 1] >= key then Some(k - 1) else None
  }

  /** In ascending keys, a key that is present is found by the first-greater-or-equal search too. */
  lemma FirstGeFindsPresent(keys: seq<nat>, k: nat, key: int)
    requires k <= |keys| && Ascending(keys, k) && FirstEq(keys, k, key).Some?
    ensures FirstGe(keys, k, key) == FirstEq(keys, k, key)
  {
  }

  /** s with x put at i and the entries from i up to k moved up one place; the rest untouched. */
  function Shifted(s: seq<nat>, i: nat, k: nat, x: nat): (r: seq<nat>)
    requires i <= k < |s|
    ensures |r| == |s|
  {
    s[..i] + [x] + s[i..k] + s[k + 1..]
  }

  lemma ShiftedAt(s: seq<nat>, i: nat, k: nat, x: nat)
    requires i <= k < |s|
    ensures var r := Shifted(s, i, k, x);
      (forall j :: 0 <= j < i ==> r[j] == s[j]) && r[i] == x &&
      (forall j :: i < j <= k ==> r[j] == s[j - 1]) &&
      (forall j :: k < j < |s| ==> r[j] == s[j])
  {
  }

  /** Shifting values that fit a width, with one more that fits, gives values that fit it. */
  lemma ShiftedFits(s: seq<nat>, i: nat, k: nat, x: nat, rep: nat)
    requires i <= k < |s| && FitsWidth(s, rep) && x < Pow2(Width(rep))
    ensures FitsWidth(Shifted(s, i, k, x), rep)
  {
    ShiftedAt(s, i, k, x);
    var r := Shifted(s, i, k, x);
    forall j | 0 <= j < |r| ensures r[j] < Pow2(Width(rep)) {
      if j < i || k < j {
        assert r[j] == s[j];
      } else if i < j {
        assert r[j] == s[j - 1];
      }
    }
  }

  /** Inserting a key that is absent at its first-greater-or-equal position keeps the keys ascending. */
  lemma InsertKeepsAscending(keys: seq<nat>, k: nat, x: nat, i: nat)
    requires k < |keys| && Ascending(keys, k)
    requires FirstEq(keys, k, x).None?
    requires (FirstGe(keys, k, x).Some? && i == FirstGe(keys, k, x).value) || (FirstGe(keys, k, x).None? && i == k)
    ensures Ascending(Shifted(keys, i, k, x), k + 1)
  {
    ShiftedAt(keys, i, k, x);
    var r := Shifted(keys, i, k, x);
    forall a, b | 0 <= a < b < k + 1 ensures r[a] < r[b] {
      if b == i {
        assert keys[a] < x;
      } else if a == i {
        assert keys[b - 1] >= x && keys[b - 1] != x;
      }
    }
  }

  /** The pairs in use after an insertion are the old ones plus the new one. */
  lemma InsertAddsOne(s: seq<nat>, i: nat, k: nat, x: nat)
    requires i <= k < |s|
    ensures multiset(Shifted(s, i, k, x)[..k + 1]) == multiset(s[..k]) + multiset{x}
  {
    var r := Shifted(s, i, k, x);
    assert r[..k + 1] == s[..i] + [x] + s[i..k];
    assert s[..k] == s[..i] + s[i..k];
  }

  /** Pushing a key above every key in use keeps the keys ascending. */
  lemma PushKeepsAscending(keys: seq<nat>, k: nat, x: nat)
    requires k < |keys| && Ascending(keys, k)
    requires k > 0 ==> keys[k - 1] < x
    ensures Ascending(keys[k := x], k + 1)
  {
    var r := keys[k := x];
    forall a, b | 0 <= a < b < k + 1 ensures r[a] < r[b] {
      if b == k && a < k - 1 {
        assert keys[a] < keys[k - 1];
      }
    }
  }

  /**
   * The stuck: `size` key and data slots of widths bitsPerKey and
   * bitsPerData, the count of slots in use, and the current values of its
   * key and data fields, through which pairs are read and written.
   */
  class Stuck {
    const size: nat
    const bitsPerKey: nat
    const bitsPerData: nat
    const keys: array<nat>
    const data: array<nat>
    var count: int
    var key: int
    var datum: int

    ghost predicate Valid()
      reads this, keys, data
    {
      keys.Length == size && data.Length == size && keys != data && 0 <= count <= size &&
      FitsWidth(keys[..], bitsPerKey) && FitsWidth(data[..], bitsPerData)
    }

    /** An empty stuck: every slot zero. */
    constructor (size: nat, bitsPerKey: nat, bitsPerData: nat)
      ensures Valid() && fresh(keys) && fresh(data)
      ensures this.size == size && this.bitsPerKey == bitsPerKey && this.bitsPerData == bitsPerData
      ensures count == 0 && key == 0 && datum == 0
      ensures keys[..] == seq(size, _ => 0) && data[..] == seq(size, _ => 0)
    {
      this.size := size;
      this.bitsPerKey := bitsPerKey;
      this.bitsPerData := bitsPerData;
      keys := new nat[size](_ => 0);
      data := new nat[size](_ => 0);
      count := 0;
      key := 0;
      datum := 0;
    }

    /**
     * Push a pair: the key goes into keys[count] and the datum into
     * data[count], each cut to its width, and the count goes up by one.  A
     * full stuck halts the program with a message instead and goes no
     * further, where the source falls through to a faulting write
     * (PushAsWritten).
     */
    method Push(k: int, d: int) returns (halted: Option<string>)
      requires Valid()
      modifies this, keys, data
      ensures Valid()
      ensures old(count) >= size ==> (halted == Some("Cannot push to a full stuck") &&
        count == old(count) && key == old(key) && datum == old(datum) &&
        keys[..] == old(keys[..]) && data[..] == old(data[..]))
      ensures old(count) < size ==> (halted == None && count == old(count) + 1 &&
        keys[..] == old(keys[..])[old(count) := Truncate(k, bitsPerKey)] &&
        data[..] == old(data[..])[old(count) := Truncate(d, bitsPerData)] &&
        key == Truncate(k, bitsPerKey) && datum == Truncate(d, bitsPerData))
    {
      if count >= size {
        return Some("Cannot push to a full stuck");
      }
      key, datum := k, d;
      SetElementAt(count);
      key, datum := keys[count], data[count];
      count := count + 1;
      return None;
    }

    /**
     * Push as the source writes it: on a full stuck the action records the
     * halt message as the result code but does not return, so it goes on to
     * write the pair at index count, which is then `size`, one past the last
     * slot.  That write faults and leaves the stuck as it was.
     */
    method PushAsWritten(k: int, d: int) returns (rc: Option<string>, r: Result<(), string>)
      requires Valid()
      modifies this, keys, data
      ensures Valid()
      ensures old(count) >= size ==> (rc == Some("Cannot push to a full stuck") && r == Err("Array index out of bounds") &&
        count == old(count) && key == old(key) && datum == old(datum) &&
        keys[..] == old(keys[..]) && data[..] == old(data[..]))
      ensures old(count) < size ==> (rc == None && r == Ok(()) && count == old(count) + 1 &&
        keys[..] == old(keys[..])[old(count) := Truncate(k, bitsPerKey)] &&
        data[..] == old(data[..])[old(count) := Truncate(d, bitsPerData)] &&
        key == Truncate(k, bitsPerKey) && datum == Truncate(d, bitsPerData))
    {
      rc := None;
      if count >= size {
        rc := Some("Cannot push to a full stuck");
      }
      if count >= keys.Length {
        return rc, Err("Array index out of bounds");
      }
      var h := Push(k, d);
      r := Ok(());
    }

    /** Whether every slot is in use. */
    method IsFull() returns (full: bool)
      requires Valid()
      ensures full <==> count == size
    {
      return count >= size;
    }

    /** Search the pairs in use for the current key: its first position, or not found. */
    method SearchEq() returns (found: bool, index: nat)
      requires Valid()
      ensures found <==> FirstEq(keys[..], count, key).Some?
      ensures found ==> index == FirstEq(keys[..], count, key).value && keys[index] == key
      ensures !found ==> index == count
    {
      var i := 0;
      while i < count
        invariant 0 <= i <= count
        invariant FirstEq(keys[..], i, key).None?
      {
        if keys[i] == key {
          assert FirstEq(keys[..], i + 1, key) == Some(i);
          return true, i;
        }
        i := i + 1;
      }
      return false, count;
    }

    /**
     * Search the pairs in use for the first key greater than or equal to the
     * current key, loading its datum; when there is none, load the datum of
     * the slot just past the pairs in use (a branch's top pointer), which a
     * full stuck does not have.
     */
    method SearchLe() returns (r: Result<(bool, nat), string>)
      requires Valid()
      modifies this
      ensures Valid() && count == old(count) && key == old(key)
      ensures r.Ok? <==> FirstGe(keys[..], count, key).Some? || count < size
      ensures r.Ok? && r.value.0 ==> FirstGe(keys[..], count, key).Some? && r.value.1 == FirstGe(keys[..], count, key).value
      ensures r.Ok? && !r.value.0 ==> FirstGe(keys[..], count, key).None? && r.value.1 == count
      ensures r.Ok? ==> r.value.1 < size && datum == data[r.value.1]
      ensures r.Err? ==> r.error == "Array index out of bounds" && datum == old(datum)
    {
      var i := 0;
      while i < count
        invariant 0 <= i <= count
        invariant FirstGe(keys[..], i, key).None?
      {
        if keys[i] >= key {
          assert FirstGe(keys[..], i + 1, key) == Some(i);
          datum := data[i];
          return Ok((true, i));
        }
        i := i + 1;
      }
      if count >= size {
        return Err("Array index out of bounds");
      }
      datum := data[count];
      return Ok((false, count));
    }

    /** Load the pair at an index into the current key and datum. */
    method ElementAt(i: nat)
      requires Valid() && i < size
      modifies this
      ensures Valid() && count == old(count)
      ensures key == keys[i] && datum == data[i]
    {
      key, datum := keys[i], data[i];
    }

    /** Overwrite the pair at an index with the current key and datum, cut to width. */
    method SetElementAt(i: nat)
      requires Valid() && i < size
      modifies keys, data
      ensures Valid()
      ensures keys[..] == old(keys[..])[i := Truncate(key, bitsPerKey)]
      ensures data[..] == old(data[..])[i := Truncate(datum, bitsPerData)]
    {
      var k := SetBitsFromInt(key, bitsPerKey);
      var d := SetBitsFromInt(datum, bitsPerData);
      TruncateBounds(key, bitsPerKey);
      TruncateBounds(datum, bitsPerData);
      keys[i] := k;
      data[i] := d;
    }

    /** Write the current pair into the slot just past those in use, without counting it: a branch's top pointer. */
    method SetPastLastElement()
      requires Valid() && count < size
      modifies keys, data
      ensures Valid()
      ensures keys[..] == old(keys[..])[count := Truncate(key, bitsPerKey)]
      ensures data[..] == old(data[..])[count := Truncate(datum, bitsPerData)]
    {
      SetElementAt(count);
    }

    /** Insert the current pair at an index, moving the pairs from there on up one slot. */
    method InsertElementAt(i: nat)
      requires Valid() && i <= count < size
      modifies this, keys, data
      ensures Valid() && count == old(count) + 1 && key == old(key) && datum == old(datum)
      ensures keys[..] == Shifted(old(keys[..]), i, old(count), Truncate(key, bitsPerKey))
      ensures data[..] == Shifted(old(data[..]), i, old(count), Truncate(datum, bitsPerData))
    {
      var k := SetBitsFromInt(key, bitsPerKey);
      var d := SetBitsFromInt(datum, bitsPerData);
      TruncateBounds(key, bitsPerKey);
      TruncateBounds(datum, bitsPerData);
      ShiftedFits(keys[..], i, count, k, bitsPerKey);
      ShiftedFits(data[..], i, count, d, bitsPerData);
      ShiftUp(keys, i, count, k);
      ShiftUp(data, i, count, d);
      count := count + 1;
    }
  }

  /** Move a[i..k] up one place and put x at i. */
  method ShiftUp(a: array<nat>, i: nat, k: nat, x: nat)
    requires i <= k < a.Length
    modifies a
    ensures a[..] == Shifted(old(a[..]), i, k, x)
  {
    var j := k;
    while j > i
      invariant i <= j <= k
      invariant forall t :: 0 <= t <= j ==> a[t] == old(a[t])
      invariant forall t :: j < t <= k ==> a[t] == old(a[t - 1])
      invariant forall t :: k < t < a.Length ==> a[t] == old(a[t])
    {
      a[j] := a[j - 1];
      j := j - 1;
    }
    a[i] := x;
    ShiftedAt(old(a[..]), i, k, x);
    assert a[..] == Shifted(old(a[..]), i, k, x);
  }

  /** Four pushes into an empty stuck of four slots fill it in order. */
  method PushFour() returns (keys: seq<nat>, data: seq<nat>)
    ensures keys == [1, 2, 3, 4] && data == [2, 4, 6, 8]
  {
    var s := new Stuck(4, 4, 4);
    FourBitsKept();
    var h := s.Push(1, 2);
    h := s.Push(2, 4);
    assert s.keys[..2] == [1, 2] && s.data[..2] == [2, 4];
    h := s.Push(3, 6);
    h := s.Push(4, 8);
    return s.keys[..], s.data[..];
  }

  /** The keys and data the example pushes fit four bits unchanged. */
  lemma FourBitsKept()
    ensures Truncate(1, 4) == 1 && Truncate(2, 4) == 2 && Truncate(3, 4) == 3 && Truncate(4, 4) == 4
    ensures Truncate(6, 4) == 6 && Truncate(8, 4) == 8
  {
    assert Pow2(Width(4)) == 16;
    TruncateBounds(1, 4);
    TruncateBounds(2, 4);
    TruncateBounds(3, 4);
    TruncateBounds(4, 4);
    TruncateBounds(6, 4);
    TruncateBounds(8, 4);
  }

  /**
   * A fifth push into that stuck, as written: the full-stuck message becomes
   * the result code, and then the write one past the last slot faults.
   */
  method PushFullAsWritten() returns (rc: Option<string>, r: Result<(), string>)
    ensures rc == Some("Cannot push to a full stuck") && r == Err("Array index out of bounds")
  {
    var s := new Stuck(4, 4, 4);
    var h := s.Push(1, 2);
    h := s.Push(2, 4);
    h := s.Push(3, 6);
    h := s.Push(4, 8);
    rc, r := s.PushAsWritten(5, 10);
  }

  /** A fifth push into that stuck, corrected: it halts with the full-stuck message and goes no further. */
  method PushFull() returns (halted: Option<string>)
    ensures halted == Some("Cannot push to a full stuck")
  {
    var s := new Stuck(4, 4, 4);
    var h := s.Push(1, 2);
    h := s.Push(2, 4);
    h := s.Push(3, 6);
    h := s.Push(4, 8);
    halted := s.Push(5, 10);
  }
}
