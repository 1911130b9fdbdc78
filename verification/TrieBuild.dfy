/** The secure-trie builder over sorted leaves, and what its root commits to. */
module TrieBuild {
  import opened Wrappers
  import opened Bytes
  import opened Hashing
  import opened Rlp
  import opened HexPrefix
  import opened TrieNode
  import opened TrieBinding

  type Value = v: Bytes | |v| <= MAX_VECTOR

  datatype Entry = Entry(key: Nibbles, value: Value)

  // ----- sorted ranges sharing a prefix -----

  predicate Sorted(es: seq<Entry>) {
    && (forall i | 0 <= i < |es| :: |es[i].key| == SECURE_KEY_NIBBLES)
    && forall i, j | 0 <= i < j < |es| :: LexLess(es[i].key, es[j].key)
  }

  predicate SharePrefix(es: seq<Entry>, depth: nat)
    requires depth <= SECURE_KEY_NIBBLES && Sorted(es)
  {
    forall i | 0 <= i < |es| :: es[i].key[..depth] == es[0].key[..depth]
  }

  /** What `build_node` is called on: a non-empty sorted range whose keys agree up to `depth`. */
  predicate Range(es: seq<Entry>, depth: nat) {
    es != [] && depth <= SECURE_KEY_NIBBLES && Sorted(es) && SharePrefix(es, depth)
  }

  function CommonLength(a: Nibbles, b: Nibbles): (r: nat)
    ensures r <= |a| && r <= |b| && a[..r] == b[..r]
    ensures r < |a| && r < |b| ==> a[r] != b[r]
  {
    if a == [] || b == [] || a[0] != b[0] then 0 else
    var r := CommonLength(a[1..], b[1..]);
    assert a[..r + 1] == [a[0]] + a[1..][..r];
    assert b[..r + 1] == [b[0]] + b[1..][..r];
    r + 1
  }

  /** `common_prefix`: only the first and the last key are compared. */
  function CommonPrefix(es: seq<Entry>, depth: nat): (r: nat)
    requires Range(es, depth)
    ensures depth + r <= SECURE_KEY_NIBBLES
  {
    CommonLength(es[0].key[depth..], es[|es| - 1].key[depth..])
  }

  lemma PrefixAt(a: Nibbles, b: Nibbles, n: nat)
    requires n <= |a| && n <= |b| && a[..n] == b[..n]
    ensures forall i | 0 <= i < n :: a[i] == b[i]
  {
    assert forall i | 0 <= i < n :: a[i] == a[..n][i] && b[i] == b[..n][i];
  }

  /** A key between two keys that share a prefix has that prefix. */
  lemma Between(a: Nibbles, b: Nibbles, c: Nibbles, n: nat)
    requires |a| == |b| == |c| && n <= |a| && a[..n] == c[..n]
    requires LexLess(a, b) && LexLess(b, c)
    ensures a[..n] == b[..n]
  {
    var i :| 0 <= i < |a| && a[..i] == b[..i] && a[i] < b[i];
    var j :| 0 <= j < |b| && b[..j] == c[..j] && b[j] < c[j];
    PrefixAt(a, c, n);
    PrefixAt(a, b, i);
    PrefixAt(b, c, j);
    assert n <= i;
    assert a[..n] == a[..i][..n] == b[..i][..n] == b[..n];
  }

  /** So the first/last comparison finds the prefix of the whole range. */
  lemma CommonPrefixShared(es: seq<Entry>, depth: nat)
    requires Range(es, depth)
    ensures Range(es, depth + CommonPrefix(es, depth))
    ensures |es| > 1 ==> depth + CommonPrefix(es, depth) < SECURE_KEY_NIBBLES
    ensures |es| > 1 ==> var d := depth + CommonPrefix(es, depth); es[0].key[d] < es[|es| - 1].key[d]
  {
    var c := CommonPrefix(es, depth);
    var d := depth + c;
    var first, last := es[0].key, es[|es| - 1].key;
    assert first[..d] == first[..depth] + first[depth..][..c];
    assert last[..d] == last[..depth] + last[depth..][..c];
    forall i | 0 <= i < |es|
      ensures es[i].key[..d] == first[..d]
    {
      if 0 < i < |es| - 1 {
        Between(first, es[i].key, last, d);
      }
    }
    if |es| > 1 {
      SplitAfterPrefix(first, last, d);
    }
  }

  lemma SplitAfterPrefix(a: Nibbles, b: Nibbles, d: nat)
    requires |a| == |b| && d <= |a| && a[..d] == b[..d] && LexLess(a, b)
    ensures d < |a| && a[d] <= b[d]
  {
    var i :| 0 <= i < |a| && a[..i] == b[..i] && a[i] < b[i];
    PrefixAt(a, b, d);
    PrefixAt(a, b, i);
  }

  /** `partition_point` of the entries whose nibble at `depth` is below `limit`. */
  function Below(es: seq<Entry>, depth: nat, limit: nat): (r: nat)
    requires depth < SECURE_KEY_NIBBLES && Sorted(es)
    ensures r <= |es|
    ensures forall i | 0 <= i < r :: es[i].key[depth] < limit
    ensures r < |es| ==> es[r].key[depth] >= limit
  {
    if es == [] || es[0].key[depth] >= limit then 0 else 1 + Below(es[1..], depth, limit)
  }

  /** Nibbles right after the shared prefix never decrease along a range. */
  lemma NibblesOrdered(es: seq<Entry>, depth: nat, i: nat, j: nat)
    requires Range(es, depth) && depth < SECURE_KEY_NIBBLES && i <= j < |es|
    ensures es[i].key[depth] <= es[j].key[depth]
  {
    if i < j {
      SplitAfterPrefix(es[i].key, es[j].key, depth);
    }
  }

  function Slot(es: seq<Entry>, depth: nat, n: nibble): (r: seq<Entry>)
    requires Range(es, depth) && depth < SECURE_KEY_NIBBLES
  {
    SlotBounds(es, depth, n);
    es[Below(es, depth, n)..Below(es, depth, n + 1)]
  }

  lemma SlotBounds(es: seq<Entry>, depth: nat, n: nibble)
    requires Range(es, depth) && depth < SECURE_KEY_NIBBLES
    ensures Below(es, depth, n) <= Below(es, depth, n + 1)
    ensures forall i | 0 <= i < |es| ::
              Below(es, depth, n) <= i < Below(es, depth, n + 1) <==> es[i].key[depth] == n
  {
    var lo, hi := Below(es, depth, n), Below(es, depth, n + 1);
    assert lo <= hi;
    forall i | 0 <= i < |es|
      ensures lo <= i < hi <==> es[i].key[depth] == n
    {
      if lo <= i {
        NibblesOrdered(es, depth, lo, i);
      }
      if hi <= i {
        NibblesOrdered(es, depth, hi, i);
      }
    }
  }

  lemma SlotIsRange(es: seq<Entry>, depth: nat, n: nibble)
    requires Range(es, depth) && depth < SECURE_KEY_NIBBLES
    ensures var slot := Slot(es, depth, n);
            slot != [] ==> Range(slot, depth + 1) && slot[0].key[..depth + 1] == es[0].key[..depth] + [n]
  {
    hide LexLess;
    SlotBounds(es, depth, n);
    var slot := Slot(es, depth, n);
    var lo := Below(es, depth, n);
    forall i | 0 <= i < |slot|
      ensures slot[i].key[..depth + 1] == es[0].key[..depth] + [n]
    {
      var key := es[lo + i].key;
      assert slot[i] == es[lo + i] && key[depth] == n;
      assert key[..depth + 1] == key[..depth] + [key[depth]];
    }
  }

  // ----- the shape -----

  function Shape(es: seq<Entry>, depth: nat): Node
    requires Range(es, depth)
    decreases SECURE_KEY_NIBBLES - depth, 1
  {
    if |es| == 1 then
      Leaf(es[0].key[depth..], es[0].value)
    else
      var common := CommonPrefix(es, depth);
      CommonPrefixShared(es, depth);
      if common > 0 then
        Extension(es[0].key[depth..depth + common], Shape(es, depth + common))
      else
        Branch(seq(16, i requires 0 <= i < 16 => ShapeOfSlot(es, depth, i)))
  }

  function ShapeOfSlot(es: seq<Entry>, depth: nat, n: nibble): Option<Node>
    requires Range(es, depth) && depth < SECURE_KEY_NIBBLES
    decreases SECURE_KEY_NIBBLES - depth, 0
  {
    SlotIsRange(es, depth, n);
    if Slot(es, depth, n) == [] then None else Some(Shape(Slot(es, depth, n), depth + 1))
  }

  lemma {:induction false} ShapeIsCanonical(es: seq<Entry>, depth: nat)
    requires Range(es, depth)
    ensures WellFormed(Shape(es, depth))
    ensures Canonical(Shape(es, depth), SECURE_KEY_NIBBLES - depth)
    decreases SECURE_KEY_NIBBLES - depth, 1
  {
    if |es| > 1 {
      CommonPrefixShared(es, depth);
      if CommonPrefix(es, depth) > 0 {
        ShapeIsCanonical(es, depth + CommonPrefix(es, depth));
        NoFurtherPrefix(es, depth);
      } else {
        BranchIsCanonical(es, depth);
      }
    }
  }

  lemma {:induction false} BranchIsCanonical(es: seq<Entry>, depth: nat)
    requires Range(es, depth) && |es| > 1 && CommonPrefix(es, depth) == 0
    ensures WellFormed(Shape(es, depth))
    ensures Canonical(Shape(es, depth), SECURE_KEY_NIBBLES - depth)
    decreases SECURE_KEY_NIBBLES - depth, 1, 0
  {
    ForkedSlots(es, depth);
    var children := Shape(es, depth).children;
    forall i: nibble
      ensures WellFormedChild(children[i]) && CanonicalChild(children[i], SECURE_KEY_NIBBLES - depth - 1)
    {
      SlotIsCanonical(es, depth, i);
    }
    var i, j :| 0 <= i < j < 16 && ShapeOfSlot(es, depth, i).Some? && ShapeOfSlot(es, depth, j).Some?;
    assert children[i].Some? && children[j].Some?;
  }

  lemma {:induction false} SlotIsCanonical(es: seq<Entry>, depth: nat, n: nibble)
    requires Range(es, depth) && depth < SECURE_KEY_NIBBLES
    ensures WellFormedChild(ShapeOfSlot(es, depth, n))
    ensures CanonicalChild(ShapeOfSlot(es, depth, n), SECURE_KEY_NIBBLES - depth - 1)
    decreases SECURE_KEY_NIBBLES - depth, 0
  {
    SlotIsRange(es, depth, n);
    if Slot(es, depth, n) != [] {
      ShapeIsCanonical(Slot(es, depth, n), depth + 1);
    }
  }

  /** A branch is built only where two slots are in use. */
  lemma ForkedSlots(es: seq<Entry>, depth: nat)
    requires Range(es, depth) && |es| > 1 && CommonPrefix(es, depth) == 0
    ensures depth < SECURE_KEY_NIBBLES
    ensures exists i, j | 0 <= i < j < 16 :: ShapeOfSlot(es, depth, i).Some? && ShapeOfSlot(es, depth, j).Some?
  {
    CommonPrefixShared(es, depth);
    var first, last := es[0].key[depth], es[|es| - 1].key[depth];
    SlotBounds(es, depth, first);
    SlotBounds(es, depth, last);
    assert ShapeOfSlot(es, depth, first).Some? && ShapeOfSlot(es, depth, last).Some?;
  }

  lemma NoFurtherPrefix(es: seq<Entry>, depth: nat)
    requires Range(es, depth) && |es| > 1
    ensures var d := depth + CommonPrefix(es, depth);
            d <= SECURE_KEY_NIBBLES && Range(es, d) && CommonPrefix(es, d) == 0
  {
    CommonPrefixShared(es, depth);
    var d := depth + CommonPrefix(es, depth);
    assert es[0].key[d..][0] != es[|es| - 1].key[d..][0];
  }

  // ----- what the shape holds -----

  ghost function Find(es: seq<Entry>, key: Nibbles): Option<Bytes>
    requires Sorted(es)
  {
    if i :| 0 <= i < |es| && es[i].key == key then Some(es[i].value) else None
  }

  lemma FindAt(es: seq<Entry>, i: nat)
    requires Sorted(es) && i < |es|
    ensures Find(es, es[i].key) == Some(es[i].value)
  {
    forall j | 0 <= j < |es| && es[j].key == es[i].key
      ensures j == i
    {
      LexIrreflexive(es[i].key);
    }
  }

  lemma FindInSlot(es: seq<Entry>, depth: nat, key: Nibbles)
    requires Range(es, depth) && depth < SECURE_KEY_NIBBLES && |key| == SECURE_KEY_NIBBLES
    ensures Sorted(Slot(es, depth, key[depth]))
    ensures Find(es, key) == Find(Slot(es, depth, key[depth]), key)
  {
    hide LexLess;
    var n := key[depth];
    SlotBounds(es, depth, n);
    SlotIsRange(es, depth, n);
    var slot := Slot(es, depth, n);
    var lo := Below(es, depth, n);
    assert forall i | 0 <= i < |slot| :: slot[i] == es[lo + i];
    if i :| 0 <= i < |es| && es[i].key == key {
      FindAt(es, i);
      assert slot[i - lo] == es[i];
      FindAt(slot, i - lo);
    }
  }

  /** The built tree answers exactly as the sorted leaves do, for present and absent keys. */
  lemma {:induction false} ShapeHolds(es: seq<Entry>, depth: nat, key: Nibbles)
    requires Range(es, depth) && |key| == SECURE_KEY_NIBBLES
    requires key[..depth] == es[0].key[..depth]
    ensures WellFormed(Shape(es, depth))
    ensures Get(Shape(es, depth), key[depth..]) == Find(es, key)
    decreases SECURE_KEY_NIBBLES - depth, 1
  {
    ShapeIsCanonical(es, depth);
    if |es| == 1 {
      SingleLeaf(es, depth, key);
    } else {
      CommonPrefixShared(es, depth);
      if CommonPrefix(es, depth) > 0 {
        ShapeHoldsExtension(es, depth, key);
      } else {
        FindInSlot(es, depth, key);
        SlotHolds(es, depth, key);
        assert key[depth..][1..] == key[depth + 1..];
      }
    }
  }

  lemma {:induction false} SlotHolds(es: seq<Entry>, depth: nat, key: Nibbles)
    requires Range(es, depth) && |key| == SECURE_KEY_NIBBLES && depth < SECURE_KEY_NIBBLES
    requires key[..depth] == es[0].key[..depth]
    ensures WellFormedChild(ShapeOfSlot(es, depth, key[depth]))
    ensures Sorted(Slot(es, depth, key[depth]))
    ensures GetChild(ShapeOfSlot(es, depth, key[depth]), key[depth + 1..]) == Find(Slot(es, depth, key[depth]), key)
    decreases SECURE_KEY_NIBBLES - depth, 0
  {
    SlotIsCanonical(es, depth, key[depth]);
    SlotIsRange(es, depth, key[depth]);
    var slot := Slot(es, depth, key[depth]);
    if slot != [] {
      assert key[..depth + 1] == key[..depth] + [key[depth]];
      ShapeHolds(slot, depth + 1, key);
    }
  }

  lemma SingleLeaf(es: seq<Entry>, depth: nat, key: Nibbles)
    requires Range(es, depth) && |es| == 1 && |key| == SECURE_KEY_NIBBLES
    requires key[..depth] == es[0].key[..depth]
    ensures Get(Shape(es, depth), key[depth..]) == Find(es, key)
  {
    assert key == key[..depth] + key[depth..];
    assert es[0].key == es[0].key[..depth] + es[0].key[depth..];
    if es[0].key == key {
      FindAt(es, 0);
    }
  }

  lemma {:induction false} ShapeHoldsExtension(es: seq<Entry>, depth: nat, key: Nibbles)
    requires Range(es, depth) && |es| > 1 && |key| == SECURE_KEY_NIBBLES
    requires key[..depth] == es[0].key[..depth]
    requires CommonPrefix(es, depth) > 0
    ensures WellFormed(Shape(es, depth))
    ensures Get(Shape(es, depth), key[depth..]) == Find(es, key)
    decreases SECURE_KEY_NIBBLES - depth, 0
  {
    ShapeIsCanonical(es, depth);
    CommonPrefixShared(es, depth);
    var common := CommonPrefix(es, depth);
    var d := depth + common;
    var stem := es[0].key[depth..d];
    assert es[0].key[..d] == es[0].key[..depth] + stem;
    assert key[..d] == key[..depth] + key[depth..d];
    assert key[depth..][..common] == key[depth..d];
    assert key[depth..][common..] == key[d..];
    if stem <= key[depth..] {
      ShapeHolds(es, d, key);
    } else {
      assert key[depth..d] != stem;
      forall i | 0 <= i < |es|
        ensures es[i].key != key
      {
        assert es[i].key[..d][depth..] == es[0].key[..d][depth..];
        assert key[..d][depth..] == key[depth..d];
        assert es[0].key[..d][depth..] == stem;
      }
    }
  }
}
