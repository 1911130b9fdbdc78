/** Failure-compatible results shared by every component. */
module Wrappers {

  datatype Option<+T> = None | Some(value: T)

  datatype Result<+T, +E> = Ok(value: T) | Err(error: E) {
    predicate IsFailure() {
      Err?
    }

    function PropagateFailure<U>(): Result<U, E>
      requires Err?
    {
      Err(error)
    }

    function Extract(): T
      requires Ok?
    {
      value
    }
  }
}

/** Bytes, fixed-width big-endian integers, and the order `BTreeMap` keys are kept in. */
module Bytes {

  type byte = x: int | 0 <= x < 256
  type nibble = x: int | 0 <= x < 16
  type Bytes = seq<byte>
  type Nibbles = seq<nibble>

  /** A 32-byte word: hashes, domain identifiers, secure trie keys. */
  type B256 = s: Bytes | |s| == 32 witness seq(32, _ => 0)

  const U16_MAX: nat := 0xFFFF
  const U32_MAX: nat := 0xFFFF_FFFF
  const U64_MAX: nat := 0xFFFF_FFFF_FFFF_FFFF
  const U128_MAX: nat := 0xFFFF_FFFF_FFFF_FFFF_FFFF_FFFF_FFFF_FFFF

  type u16 = n: nat | n <= 0xFFFF
  type u32 = n: nat | n <= 0xFFFF_FFFF
  type u64 = n: nat | n <= 0xFFFF_FFFF_FFFF_FFFF
  type u256 = n: nat | n < 0x1_0000_0000_0000_0000_0000_0000_0000_0000_0000_0000_0000_0000_0000_0000_0000_0000
  type u128 = n: nat | n <= 0xFFFF_FFFF_FFFF_FFFF_FFFF_FFFF_FFFF_FFFF

  function Pow256(width: nat): (r: nat)
    ensures r > 0
  {
    if width == 0 then 1 else 256 * Pow256(width - 1)
  }

  lemma Pow256Values()
    ensures Pow256(1) == 0x100
    ensures Pow256(2) == 0x1_0000
    ensures Pow256(4) == 0x1_0000_0000
    ensures Pow256(8) == 0x1_0000_0000_0000_0000
    ensures Pow256(16) == 0x1_0000_0000_0000_0000_0000_0000_0000_0000
  {
    assert Pow256(2) == 256 * Pow256(1);
    assert Pow256(3) == 256 * Pow256(2);
    assert Pow256(4) == 256 * Pow256(3);
    assert Pow256(5) == 256 * Pow256(4);
    assert Pow256(6) == 256 * Pow256(5);
    assert Pow256(7) == 256 * Pow256(6);
    assert Pow256(8) == 256 * Pow256(7);
    assert Pow256(9) == 256 * Pow256(8);
    assert Pow256(10) == 256 * Pow256(9);
    assert Pow256(11) == 256 * Pow256(10);
    assert Pow256(12) == 256 * Pow256(11);
    assert Pow256(13) == 256 * Pow256(12);
    assert Pow256(14) == 256 * Pow256(13);
    assert Pow256(15) == 256 * Pow256(14);
    assert Pow256(16) == 256 * Pow256(15);
  }

  function Min(a: nat, b: nat): nat {
    if a < b then a else b
  }

  function Pow2(n: nat): (r: nat)
    ensures r > 0
  {
    if n == 0 then 1 else 2 * Pow2(n - 1)
  }

  lemma Pow2Of8()
    ensures Pow2(8) == 256
  {
    assert Pow2(4) == 16;
    assert Pow2(6) == 2 * (2 * Pow2(4));
    assert Pow2(8) == 2 * (2 * Pow2(6));
  }

  /** Bytes of a tag. */
  function Ascii(text: string): (r: Bytes)
    ensures |r| == |text|
  {
    seq(|text|, i requires 0 <= i < |text| => text[i] as int % 256)
  }

  /** `to_be_bytes` at a fixed width; wider values lose their high bytes. */
  function BigEndian(n: nat, width: nat): (r: Bytes)
    ensures |r| == width
  {
    if width == 0 then [] else BigEndian(n / 256, width - 1) + [n % 256]
  }

  /** `from_be_bytes`: the left fold `value * 256 + byte`. */
  function FromBigEndian(s: Bytes): nat {
    if s == [] then 0 else 256 * FromBigEndian(s[..|s| - 1]) + s[|s| - 1]
  }

  lemma {:induction false} DecodeBigEndian(n: nat, width: nat)
    requires n < Pow256(width)
    ensures FromBigEndian(BigEndian(n, width)) == n
  {
    if width > 0 {
      DecodeBigEndian(n / 256, width - 1);
      var s := BigEndian(n, width);
      assert s[..|s| - 1] == BigEndian(n / 256, width - 1);
    }
  }

  lemma {:induction false} EncodeBigEndian(s: Bytes)
    ensures FromBigEndian(s) < Pow256(|s|)
    ensures BigEndian(FromBigEndian(s), |s|) == s
  {
    if s != [] {
      var init := s[..|s| - 1];
      EncodeBigEndian(init);
      assert s == init + [s[|s| - 1]];
    }
  }

  /** Strict lexicographic order on sequences, as `BTreeMap` orders equal-length byte keys. */
  predicate LexLess(a: seq<int>, b: seq<int>) {
    exists i | 0 <= i < |a| && i < |b| :: a[..i] == b[..i] && a[i] < b[i]
  }

  lemma LexTransitive(a: seq<int>, b: seq<int>, c: seq<int>)
    requires LexLess(a, b) && LexLess(b, c)
    ensures LexLess(a, c)
  {
    var i :| 0 <= i < |a| && i < |b| && a[..i] == b[..i] && a[i] < b[i];
    var j :| 0 <= j < |b| && j < |c| && b[..j] == c[..j] && b[j] < c[j];
    var m := if i < j then i else j;
    assert a[..m] == a[..i][..m] == b[..i][..m] == b[..m] == b[..j][..m] == c[..m];
    if i < j {
      assert b[..j][i] == c[..j][i];
    } else if j < i {
      assert a[..i][j] == b[..i][j];
    }
    assert a[m] < c[m];
  }

  lemma LexIrreflexive(a: seq<int>)
    ensures !LexLess(a, a)
  {
  }

  lemma LexAsymmetric(a: seq<int>, b: seq<int>)
    requires LexLess(a, b)
    ensures !LexLess(b, a)
  {
    if LexLess(b, a) {
      LexTransitive(a, b, a);
    }
  }

  /** Distinct keys of one length are comparable. */
  lemma LexTotal(a: seq<int>, b: seq<int>)
    requires |a| == |b| && a != b
    ensures LexLess(a, b) || LexLess(b, a)
  {
    var i := 0;
    while a[i] == b[i]
      invariant 0 <= i < |a|
      invariant a[..i] == b[..i]
      invariant exists j | i <= j < |a| :: a[j] != b[j]
      decreases |a| - i
    {
      assert a[..i + 1] == a[..i] + [a[i]];
      assert b[..i + 1] == b[..i] + [b[i]];
      i := i + 1;
    }
  }
}

/** `BTreeMap` iteration over 32-byte keys: every key once, in byte order. */
module Ordered {
  import opened Bytes

  predicate StrictlySorted(keys: seq<B256>) {
    forall i, j | 0 <= i < j < |keys| :: LexLess(keys[i], keys[j])
  }

  predicate IsLeast(m: B256, s: set<B256>) {
    m in s && forall x | x in s && x != m :: LexLess(m, x)
  }

  lemma {:induction false} LeastExists(s: set<B256>) returns (m: B256)
    requires s != {}
    ensures IsLeast(m, s)
  {
    var first :| first in s;
    var rest := s - {first};
    assert forall x | x in s && x != first :: x in rest;
    m := first;
    if rest != {} {
      var least := LeastExists(rest);
      LexTotal(first, least);
      if LexLess(first, least) {
        forall x | x in s && x != first
          ensures LexLess(first, x)
        {
          if x != least {
            LexTransitive(first, least, x);
          }
        }
      } else {
        m := least;
      }
    }
  }

  lemma LeastIsUnique(m: B256, n: B256, s: set<B256>)
    requires IsLeast(m, s) && IsLeast(n, s)
    ensures m == n
  {
    if m != n {
      LexAsymmetric(m, n);
      assert false;
    }
  }

  function Least(s: set<B256>): (m: B256)
    requires s != {}
    ensures IsLeast(m, s)
  {
    assert exists m :: IsLeast(m, s) by {
      var m := LeastExists(s);
    }
    assert forall m, n | IsLeast(m, s) && IsLeast(n, s) :: m == n by {
      forall m, n | IsLeast(m, s) && IsLeast(n, s)
        ensures m == n
      {
        LeastIsUnique(m, n, s);
      }
    }
    var m :| m in s && IsLeast(m, s);
    m
  }

  function SortedKeys(s: set<B256>): (r: seq<B256>)
    ensures StrictlySorted(r)
    ensures forall x :: x in r <==> x in s
    ensures |r| == |s|
  {
    if s == {} then [] else
    var m := Least(s);
    [m] + SortedKeys(s - {m})
  }
}

/** Keccak as a parameter, with collision-freeness stated on the preimages in play. */
module Hashing {
  import opened Bytes

  type Keccak = Bytes -> B256

  ghost predicate CollisionFree(k: Keccak, preimages: set<Bytes>) {
    forall x, y | x in preimages && y in preimages :: k(x) == k(y) ==> x == y
  }

  lemma FewerCollide(k: Keccak, some: set<Bytes>, all: set<Bytes>)
    requires CollisionFree(k, all) && some <= all
    ensures CollisionFree(k, some)
  {
  }
}
