/** The 256-level sparse Merkle map of finalized domain heads. */
module DomainHeads {
  import opened Wrappers
  import opened Bytes
  import opened Ordered
  import opened Hashing
  import opened HeadsTree

  /** Right shift, one bit at a time. */
  function Shift(x: nat, n: nat): nat {
    if n == 0 then x else Shift(x / 2, n - 1)
  }

  /** `(byte >> (7 - i)) & 1`. */
  function ShiftBit(key: B256, depth: nat): bit
    requires depth < SMT_DEPTH
  {
    Shift(key[depth / 8], 7 - depth % 8) % 2
  }

  lemma {:induction false} BitAt(x: nat, n: nat, i: nat)
    requires i < n
    ensures BitsOf(x, n)[i] == Shift(x, n - 1 - i) % 2
  {
    if i < n - 1 {
      BitAt(x / 2, n - 1, i);
    }
  }

  /** Shifting the byte reads the bit the tree is split by. */
  lemma BitIsShift(key: B256, depth: nat)
    requires depth < SMT_DEPTH
    ensures ShiftBit(key, depth) == Bit(key, depth)
  {
    BitAt(key[depth / 8], 8, depth % 8);
  }

  lemma {:induction false} BitsOrdered(x: nat, y: nat, n: nat, i: nat)
    requires x <= y < Pow2(n) && i < n
    requires BitsOf(x, n)[..i] == BitsOf(y, n)[..i]
    ensures BitsOf(x, n)[i] <= BitsOf(y, n)[i]
  {
    var a, b := BitsOf(x / 2, n - 1), BitsOf(y / 2, n - 1);
    if i < n - 1 {
      assert BitsOf(x, n)[..i] == a[..i] && BitsOf(y, n)[..i] == b[..i];
      BitsOrdered(x / 2, y / 2, n - 1, i);
    } else {
      assert BitsOf(x, n)[..i] == a && BitsOf(y, n)[..i] == b;
      BitsInjective(x / 2, y / 2, n - 1);
    }
  }

  lemma {:induction false} BitsInjective(x: nat, y: nat, n: nat)
    requires x < Pow2(n) && y < Pow2(n) && BitsOf(x, n) == BitsOf(y, n)
    ensures x == y
  {
    if n > 0 {
      var a, b := BitsOf(x, n), BitsOf(y, n);
      assert a[n - 1] == x % 2 && b[n - 1] == y % 2;
      assert a[..n - 1] == BitsOf(x / 2, n - 1) && b[..n - 1] == BitsOf(y / 2, n - 1);
      BitsInjective(x / 2, y / 2, n - 1);
    }
  }

  /** Two keys agree on their first `depth` bits. */
  predicate Agree(a: B256, b: B256, depth: nat)
    requires depth <= SMT_DEPTH
  {
    forall i | 0 <= i < depth :: Bit(a, i) == Bit(b, i)
  }

  lemma AgreeOnByte(a: B256, b: B256, depth: nat, j: nat)
    requires depth <= SMT_DEPTH && j < 32 && Agree(a, b, depth)
    ensures forall i | 0 <= i < 8 && 8 * j + i < depth :: BitsOf(a[j], 8)[i] == BitsOf(b[j], 8)[i]
    ensures 8 * j + 8 <= depth ==> a[j] == b[j]
  {
    hide BitsOf;
    forall i | 0 <= i < 8 && 8 * j + i < depth
      ensures BitsOf(a[j], 8)[i] == BitsOf(b[j], 8)[i]
    {
      var d := 8 * j + i;
      assert d / 8 == j && d % 8 == i;
      assert Bit(a, d) == Bit(b, d);
    }
    if 8 * j + 8 <= depth {
      assert BitsOf(a[j], 8) == BitsOf(b[j], 8);
      Pow2Of8();
      BitsInjective(a[j], b[j], 8);
    }
  }

  /** Keys that agree on all bits are equal. */
  lemma AgreeAll(a: B256, b: B256)
    requires Agree(a, b, SMT_DEPTH)
    ensures a == b
  {
    forall j | 0 <= j < 32
      ensures a[j] == b[j]
    {
      AgreeOnByte(a, b, SMT_DEPTH, j);
    }
  }

  /** Byte order of keys is bit order after a shared bit prefix. */
  lemma KeyBitOrder(a: B256, b: B256, depth: nat)
    requires depth < SMT_DEPTH && Agree(a, b, depth) && LexLess(a, b)
    ensures Bit(a, depth) <= Bit(b, depth)
  {
    hide BitsOf;
    var j :| 0 <= j < 32 && a[..j] == b[..j] && a[j] < b[j];
    var d := depth / 8;
    AgreeOnByte(a, b, depth, j);
    if d < j {
      assert a[d] == a[..j][d] == b[..j][d] == b[d];
    } else {
      assert d == j;
      assert BitsOf(a[j], 8)[..depth % 8] == BitsOf(b[j], 8)[..depth % 8];
      Pow2Of8();
      BitsOrdered(a[j], b[j], 8, depth % 8);
    }
  }

  function Prefix(key: B256, depth: nat): (r: seq<bit>)
    requires depth <= SMT_DEPTH
    ensures |r| == depth && HasPrefix(key, r)
  {
    seq(depth, i requires 0 <= i < depth => Bit(key, i))
  }

  lemma OneKeyPerPath(a: B256, b: B256, path: seq<bit>)
    requires |path| == SMT_DEPTH && HasPrefix(a, path) && HasPrefix(b, path)
    ensures a == b
  {
    AgreeAll(a, b);
  }

  /** The full binary tree with 2^256 leaves, read literally. */
  ghost function FullTree(k: Keccak, table: Table, prefix: seq<bit>): B256
    requires |prefix| <= SMT_DEPTH
    decreases SMT_DEPTH - |prefix|
  {
    if |prefix| == SMT_DEPTH then
      if key :| key in table && HasPrefix(key, prefix) then k(LeafPreimage(k, key, table[key])) else k(EMPTY_PREIMAGE)
    else
      k(BranchPreimage(|prefix|, FullTree(k, table, prefix + [0]), FullTree(k, table, prefix + [1])))
  }

  ghost function LeafHash(k: Keccak, key: B256, head: Option<DomainHead>): B256 {
    if head.Some? then k(LeafPreimage(k, key, head.value)) else k(EMPTY_PREIMAGE)
  }

  function HeadAt(table: Table, key: B256): Option<DomainHead> {
    if key in table then Some(table[key]) else None
  }

  lemma FullTreeLeaf(k: Keccak, table: Table, key: B256)
    ensures FullTree(k, table, Prefix(key, SMT_DEPTH)) == LeafHash(k, key, HeadAt(table, key))
  {
    hide Bit, LeafPreimage;
    var path := Prefix(key, SMT_DEPTH);
    forall other | other in table && HasPrefix(other, path)
      ensures other == key
    {
      OneKeyPerPath(other, key, path);
    }
  }

  lemma ExtendPrefix(key: B256, prefix: seq<bit>, b: bit)
    requires |prefix| < SMT_DEPTH
    ensures HasPrefix(key, prefix + [b]) <==> HasPrefix(key, prefix) && Bit(key, |prefix|) == b
  {
    hide Bit;
    var longer := prefix + [b];
    if HasPrefix(key, longer) {
      assert Bit(key, |prefix|) == longer[|prefix|] == b;
      assert forall i | 0 <= i < |prefix| :: longer[i] == prefix[i];
    }
  }

  /** After a shared prefix the sorted range is split by its next bit. */
  lemma SplitByBit(k: Keccak, es: seq<Entry>, table: Table, prefix: seq<bit>)
    requires |prefix| < SMT_DEPTH && Covers(k, es, table, prefix)
    ensures forall i | 0 <= i < |es| :: Bit(es[i].key, |prefix|) == 0 <==> i < Zeros(es, |prefix|)
  {
    hide Bit, LexLess, LeafPreimage;
    var d := |prefix|;
    var split := Zeros(es, d);
    forall i | split < i < |es|
      ensures Bit(es[i].key, d) == 1
    {
      assert Agree(es[split].key, es[i].key, d);
      KeyBitOrder(es[split].key, es[i].key, d);
    }
  }

  lemma CoversHalves(k: Keccak, es: seq<Entry>, table: Table, prefix: seq<bit>)
    requires |prefix| < SMT_DEPTH && Covers(k, es, table, prefix)
    ensures Covers(k, es[..Zeros(es, |prefix|)], table, prefix + [0])
    ensures Covers(k, es[Zeros(es, |prefix|)..], table, prefix + [1])
  {
    CoversHalf(k, es, table, prefix, 0);
    CoversHalf(k, es, table, prefix, 1);
  }

  lemma CoversHalf(k: Keccak, es: seq<Entry>, table: Table, prefix: seq<bit>, b: bit)
    requires |prefix| < SMT_DEPTH && Covers(k, es, table, prefix)
    ensures var split := Zeros(es, |prefix|);
            Covers(k, if b == 0 then es[..split] else es[split..], table, prefix + [b])
  {
    hide Bit, LexLess, LeafPreimage, HasPrefix, Zeros, SortedEntries;
    SplitByBit(k, es, table, prefix);
    var split := Zeros(es, |prefix|);
    SortedHalves(es, split);
    var shift := if b == 0 then 0 else split;
    var half := if b == 0 then es[..split] else es[split..];
    assert forall i | 0 <= i < |half| :: half[i] == es[shift + i];
    forall i | 0 <= i < |half|
      ensures HasPrefix(half[i].key, prefix + [b])
    {
      assert half[i] == es[shift + i];
      ExtendPrefix(half[i].key, prefix, b);
    }
    forall key | key in table && HasPrefix(key, prefix + [b])
      ensures exists i | 0 <= i < |half| :: half[i].key == key
    {
      ExtendPrefix(key, prefix, b);
      InHalf(es, half, shift, split, prefix, b, key);
    }
  }

  lemma SortedHalves(es: seq<Entry>, split: nat)
    requires SortedEntries(es) && split <= |es|
    ensures SortedEntries(es[..split]) && SortedEntries(es[split..])
  {
    hide LexLess;
  }

  lemma InHalf(es: seq<Entry>, half: seq<Entry>, shift: nat, split: nat, prefix: seq<bit>, b: bit, key: B256)
    requires |prefix| < SMT_DEPTH && split <= |es|
    requires shift == (if b == 0 then 0 else split) && half == (if b == 0 then es[..split] else es[split..])
    requires forall i | 0 <= i < |es| :: Bit(es[i].key, |prefix|) == 0 <==> i < split
    requires exists i | 0 <= i < |es| :: es[i].key == key
    requires Bit(key, |prefix|) == b
    ensures exists i | 0 <= i < |half| :: half[i].key == key
  {
    hide Bit;
    var i :| 0 <= i < |es| && es[i].key == key;
    assert half[i - shift] == es[i];
  }

  /** The recursion that skips empty ranges computes the full tree's hash. */
  lemma {:induction false} SubtreeIsFullTree(k: Keccak, es: seq<Entry>, table: Table, prefix: seq<bit>)
    requires |prefix| <= SMT_DEPTH && Covers(k, es, table, prefix)
    ensures SubtreeRoot(k, es, |prefix|) == FullTree(k, table, prefix)
    decreases SMT_DEPTH - |prefix|
  {
    if |prefix| == SMT_DEPTH {
      LeafRange(k, es, table, prefix);
    } else {
      var split := Zeros(es, |prefix|);
      CoversHalves(k, es, table, prefix);
      SubtreeIsFullTree(k, es[..split], table, prefix + [0]);
      SubtreeIsFullTree(k, es[split..], table, prefix + [1]);
    }
  }

  lemma LeafRange(k: Keccak, es: seq<Entry>, table: Table, path: seq<bit>)
    requires |path| == SMT_DEPTH && Covers(k, es, table, path)
    ensures SubtreeRoot(k, es, SMT_DEPTH) == FullTree(k, table, path)
  {
    hide Bit, LexLess, LeafPreimage;
    if es != [] {
      var key := es[0].key;
      forall other | other in table && HasPrefix(other, path)
        ensures other == key
      {
        OneKeyPerPath(other, key, path);
      }
    }
  }

  // ----- proofs -----

  datatype HeadProof = HeadProof(root: B256, domain: B256, value: Option<DomainHead>, siblings: seq<B256>)

  datatype ProofError = WrongDepth | RootMismatch

  function ProofBranch(key: B256, depth: nat, below: B256, sibling: B256): Bytes
    requires depth < SMT_DEPTH
  {
    if Bit(key, depth) == 0 then BranchPreimage(depth, below, sibling) else BranchPreimage(depth, sibling, below)
  }

  /** The hash a proof reconstructs at `depth` on the way up. */
  ghost function Climb(k: Keccak, key: B256, leaf: B256, siblings: seq<B256>, depth: nat): B256
    requires |siblings| == SMT_DEPTH && depth <= SMT_DEPTH
    decreases SMT_DEPTH - depth
  {
    if depth == SMT_DEPTH then leaf
    else k(ProofBranch(key, depth, Climb(k, key, leaf, siblings, depth + 1), siblings[depth]))
  }

  ghost predicate Verifies(k: Keccak, p: HeadProof) {
    var key := HeadKey(k, p.domain);
    |p.siblings| == SMT_DEPTH && Climb(k, key, LeafHash(k, key, p.value), p.siblings, 0) == p.root
  }

  /** `DomainHeadProof::verify`. */
  method Verify(k: Keccak, p: HeadProof) returns (r: Result<(), ProofError>)
    ensures r.Ok? <==> Verifies(k, p)
    ensures r == Err(WrongDepth) <==> |p.siblings| != SMT_DEPTH
  {
    hide BranchPreimage, LeafPreimage, Bit, ShiftBit, EmptyHash;
    if |p.siblings| != SMT_DEPTH {
      return Err(WrongDepth);
    }
    var key := HeadKey(k, p.domain);
    var empties := EmptyHashes(k);
    var hash := match p.value case Some(value) => k(LeafPreimage(k, key, value)) case None => empties[SMT_DEPTH];
    EmptyLeaf(k);
    ghost var leaf := hash;
    for depth := SMT_DEPTH downto 0
      invariant hash == Climb(k, key, leaf, p.siblings, depth)
    {
      var sibling := p.siblings[depth];
      BitIsShift(key, depth);
      if ShiftBit(key, depth) == 0 {
        hash := k(BranchPreimage(depth, hash, sibling));
      } else {
        hash := k(BranchPreimage(depth, sibling, hash));
      }
    }
    return if hash != p.root then Err(RootMismatch) else Ok(());
  }

  lemma EmptyLeaf(k: Keccak)
    ensures EmptyHash(k, SMT_DEPTH) == k(EMPTY_PREIMAGE)
  {
  }

  /** `empty_hashes`: filled from the leaf level up. */
  method EmptyHashes(k: Keccak) returns (hashes: seq<B256>)
    ensures |hashes| == SMT_DEPTH + 1
    ensures forall depth | 0 <= depth <= SMT_DEPTH :: hashes[depth] == EmptyHash(k, depth)
  {
    hide BranchPreimage;
    hashes := seq(SMT_DEPTH + 1, _ => seq(32, _ => 0));
    hashes := hashes[SMT_DEPTH := k(EMPTY_PREIMAGE)];
    for depth := SMT_DEPTH downto 0
      invariant |hashes| == SMT_DEPTH + 1
      invariant forall d | depth <= d <= SMT_DEPTH :: hashes[d] == EmptyHash(k, d)
    {
      hashes := hashes[depth := k(BranchPreimage(depth, hashes[depth + 1], hashes[depth + 1]))];
    }
  }

  lemma NextPrefix(key: B256, depth: nat)
    requires depth < SMT_DEPTH
    ensures Prefix(key, depth + 1) == Prefix(key, depth) + [Bit(key, depth)]
  {
    hide Bit;
  }

  ghost function SiblingTree(k: Keccak, table: Table, key: B256, depth: nat): B256
    requires depth < SMT_DEPTH
  {
    FullTree(k, table, Prefix(key, depth) + [1 - Bit(key, depth)])
  }

  /** One level of the tree along a key's path. */
  lemma TreeStep(k: Keccak, table: Table, key: B256, depth: nat)
    requires depth < SMT_DEPTH
    ensures FullTree(k, table, Prefix(key, depth)) ==
            k(ProofBranch(key, depth, FullTree(k, table, Prefix(key, depth + 1)), SiblingTree(k, table, key, depth)))
  {
    hide Bit, BranchPreimage;
    NextPrefix(key, depth);
  }

  /** With the tree's own siblings, the climb follows the tree. */
  lemma {:induction false} ClimbFollowsTree(k: Keccak, table: Table, key: B256, siblings: seq<B256>, depth: nat)
    requires |siblings| == SMT_DEPTH && depth <= SMT_DEPTH
    requires forall d | 0 <= d < SMT_DEPTH :: siblings[d] == SiblingTree(k, table, key, d)
    ensures Climb(k, key, LeafHash(k, key, HeadAt(table, key)), siblings, depth) ==
      FullTree(k, table, Prefix(key, depth))
    decreases SMT_DEPTH - depth
  {
    hide Bit, BranchPreimage, FullTree, LeafHash, SiblingTree, Prefix;
    if depth == SMT_DEPTH {
      FullTreeLeaf(k, table, key);
    } else {
      TreeStep(k, table, key, depth);
      ClimbFollowsTree(k, table, key, siblings, depth + 1);
    }
  }

  // ----- binding -----

  ghost function TreeBranch(k: Keccak, table: Table, key: B256, depth: nat): Bytes
    requires depth < SMT_DEPTH
  {
    ProofBranch(key, depth, FullTree(k, table, Prefix(key, depth + 1)), SiblingTree(k, table, key, depth))
  }

  ghost function ClaimBranch(k: Keccak, key: B256, leaf: B256, siblings: seq<B256>, depth: nat): Bytes
    requires |siblings| == SMT_DEPTH && depth < SMT_DEPTH
  {
    ProofBranch(key, depth, Climb(k, key, leaf, siblings, depth + 1), siblings[depth])
  }

  ghost function LeafPreimages(k: Keccak, key: B256, head: Option<DomainHead>): set<Bytes> {
    if head.Some? then {LeafPreimage(k, key, head.value), ValuePreimage(head.value)} else {EMPTY_PREIMAGE}
  }

  /** What the tree hashes along the key's path. */
  ghost function PathPreimages(k: Keccak, table: Table, key: B256): set<Bytes> {
    (set d | 0 <= d < SMT_DEPTH :: TreeBranch(k, table, key, d)) + LeafPreimages(k, key, HeadAt(table, key))
  }

  /** What checking a proof hashes. */
  ghost function ClaimPreimages(k: Keccak, p: HeadProof): set<Bytes>
    requires |p.siblings| == SMT_DEPTH
  {
    var key := HeadKey(k, p.domain);
    (set d | 0 <= d < SMT_DEPTH :: ClaimBranch(k, key, LeafHash(k, key, p.value), p.siblings, d))
    + LeafPreimages(k, key, p.value)
  }

  lemma BranchInjective(depth: nat, l1: B256, r1: B256, l2: B256, r2: B256)
    requires BranchPreimage(depth, l1, r1) == BranchPreimage(depth, l2, r2)
    ensures l1 == l2 && r1 == r2
  {
    var p, q := BranchPreimage(depth, l1, r1), BranchPreimage(depth, l2, r2);
    var n := |BRANCH_TAG| + 2;
    assert p[n..n + 32] == l1 && q[n..n + 32] == l2;
    assert p[n + 32..] == r1 && q[n + 32..] == r2;
  }

  lemma ProofBranchInjective(key: B256, depth: nat, a: B256, s: B256, b: B256, t: B256)
    requires depth < SMT_DEPTH && ProofBranch(key, depth, a, s) == ProofBranch(key, depth, b, t)
    ensures a == b && s == t
  {
    hide Bit, BranchPreimage;
    if Bit(key, depth) == 0 {
      BranchInjective(depth, a, s, b, t);
    } else {
      BranchInjective(depth, s, a, t, b);
    }
  }

  /** From the root down, the claimed hashes are the tree's hashes. */
  lemma {:induction false} ClaimFollowsTree(k: Keccak, table: Table, p: HeadProof, depth: nat)
    requires |p.siblings| == SMT_DEPTH && depth <= SMT_DEPTH
    requires var key := HeadKey(k, p.domain);
             && Climb(k, key, LeafHash(k, key, p.value), p.siblings, 0) == FullTree(k, table, Prefix(key, 0))
             && CollisionFree(k, PathPreimages(k, table, key) + ClaimPreimages(k, p))
    ensures var key := HeadKey(k, p.domain);
            Climb(k, key, LeafHash(k, key, p.value), p.siblings, depth) == FullTree(k, table, Prefix(key, depth))
  {
    hide Bit, BranchPreimage, LeafHash, Prefix, SiblingTree, ProofBranch, FullTree, LeafPreimages;
    if depth > 0 {
      var d := depth - 1;
      ClaimFollowsTree(k, table, p, d);
      var key := HeadKey(k, p.domain);
      var leaf := LeafHash(k, key, p.value);
      TreeStep(k, table, key, d);
      assert TreeBranch(k, table, key, d) in PathPreimages(k, table, key);
      assert ClaimBranch(k, key, leaf, p.siblings, d) in ClaimPreimages(k, p);
      ProofBranchInjective(key, d, Climb(k, key, leaf, p.siblings, depth), p.siblings[d],
                           FullTree(k, table, Prefix(key, depth)), SiblingTree(k, table, key, d));
    }
  }

  lemma LeafInjective(k: Keccak, key: B256, a: Option<DomainHead>, b: Option<DomainHead>)
    requires CollisionFree(k, LeafPreimages(k, key, a) + LeafPreimages(k, key, b))
    requires LeafHash(k, key, a) == LeafHash(k, key, b)
    ensures a == b
  {
    if a.Some? && b.Some? {
      var p, q := LeafPreimage(k, key, a.value), LeafPreimage(k, key, b.value);
      var n := |LEAF_TAG| + 33;
      assert p[n..] == k(ValuePreimage(a.value)) && q[n..] == k(ValuePreimage(b.value));
      var x, y := ValuePreimage(a.value), ValuePreimage(b.value);
      var m := |VALUE_TAG|;
      assert x[m..m + 32] == a.value.domainBlockHash && y[m..m + 32] == b.value.domainBlockHash;
      assert x[m + 32..] == a.value.stateRoot && y[m + 32..] == b.value.stateRoot;
    }
  }

  /** A proof that verifies against the table's root carries exactly the table's head for its
      domain, or its absence, unless two preimages hashed on that path collide. */
  lemma ProofBinds(k: Keccak, table: Table, p: HeadProof)
    requires Verifies(k, p) && p.root == FullTree(k, table, [])
    requires CollisionFree(k, PathPreimages(k, table, HeadKey(k, p.domain)) + ClaimPreimages(k, p))
    ensures p.value == HeadAt(table, HeadKey(k, p.domain))
  {
    hide FullTree, Bit, Climb, LeafHash, HeadKey, LeafPreimages;
    var key := HeadKey(k, p.domain);
    assert Prefix(key, 0) == [];
    ClaimFollowsTree(k, table, p, SMT_DEPTH);
    ClimbStartsAtLeaf(k, key, LeafHash(k, key, p.value), p.siblings);
    FullTreeLeaf(k, table, key);
    LeafInjective(k, key, p.value, HeadAt(table, key));
  }

  lemma ClimbStartsAtLeaf(k: Keccak, key: B256, leaf: B256, siblings: seq<B256>)
    requires |siblings| == SMT_DEPTH
    ensures Climb(k, key, leaf, siblings, SMT_DEPTH) == leaf
  {
  }

  class DomainHeadsCommitment {
    const k: Keccak
    var heads: Heads

    constructor (k: Keccak)
      ensures this.k == k && heads == map[] && Table() == map[]
    {
      this.k := k;
      heads := map[];
    }

    ghost function Table(): Table
      reads this
    {
      TableOf(heads)
    }

    method Insert(domain: B256, head: DomainHead)
      modifies this
      ensures Table() == old(Table())[HeadKey(k, domain) := head]
    {
      heads := heads[HeadKey(k, domain) := (domain, head)];
    }

    method Remove(domain: B256) returns (head: Option<DomainHead>)
      modifies this
      ensures head == HeadAt(old(Table()), HeadKey(k, domain))
      ensures Table() == old(Table()) - {HeadKey(k, domain)}
    {
      var key := HeadKey(k, domain);
      head := if key in heads then Some(heads[key].1) else None;
      heads := heads - {key};
    }

    function Entries(): seq<Entry>
      reads this
    {
      EntriesOf(k, heads)
    }

    /** The root of the literal 256-level tree over the current heads. */
    method Root() returns (root: B256)
      ensures root == FullTree(k, Table(), [])
    {
      hide FullTree;
      EntriesCover(k, heads);
      SubtreeIsFullTree(k, Entries(), Table(), []);
      root := SubtreeRoot(k, Entries(), 0);
    }

    /** Produces a membership or absence proof; it always verifies against the current root. */
    method Proof(domain: B256) returns (p: HeadProof)
      ensures p.domain == domain && p.value == HeadAt(Table(), HeadKey(k, domain))
      ensures p.root == FullTree(k, Table(), [])
      ensures Verifies(k, p)
    {
      hide FullTree, Climb, LeafHash, Bit, HeadKey, Covers, SiblingTree, SubtreeRoot;
      var target := HeadKey(k, domain);
      var siblings := Siblings(target);
      var value := if target in heads then Some(heads[target].1) else None;
      var root := Root();
      p := HeadProof(root, domain, value, siblings);
      assert Prefix(target, 0) == [];
      ClimbFollowsTree(k, Table(), target, siblings, 0);
    }

    /** The narrowing loop of `proof`: the other half of each split is a sibling. */
    method Siblings(target: B256) returns (siblings: seq<B256>)
      ensures |siblings| == SMT_DEPTH
      ensures forall d | 0 <= d < SMT_DEPTH :: siblings[d] == SiblingTree(k, Table(), target, d)
    {
      hide FullTree, Bit, ShiftBit, Covers, SiblingTree, SubtreeRoot;
      siblings := [];
      var range := Entries();
      EntriesCover(k, heads);
      assert Prefix(target, 0) == [];
      for depth := 0 to SMT_DEPTH
        invariant |siblings| == depth
        invariant Covers(k, range, Table(), Prefix(target, depth))
        invariant forall d | 0 <= d < depth :: siblings[d] == SiblingTree(k, Table(), target, d)
      {
        var split := Zeros(range, depth);
        var left, right := range[..split], range[split..];
        SiblingOf(k, range, Table(), target, depth);
        BitIsShift(target, depth);
        if ShiftBit(target, depth) == 0 {
          siblings := siblings + [SubtreeRoot(k, right, depth + 1)];
          range := left;
        } else {
          siblings := siblings + [SubtreeRoot(k, left, depth + 1)];
          range := right;
        }
      }
    }
  }

  lemma SiblingOf(k: Keccak, range: seq<Entry>, table: Table, target: B256, depth: nat)
    requires depth < SMT_DEPTH && Covers(k, range, table, Prefix(target, depth))
    ensures var split := Zeros(range, depth);
            var (near, far) := if Bit(target, depth) == 0 then (range[..split], range[split..])
                               else (range[split..], range[..split]);
            && Covers(k, near, table, Prefix(target, depth + 1))
            && SubtreeRoot(k, far, depth + 1) == SiblingTree(k, table, target, depth)
  {
    hide Bit, Covers, FullTree, SubtreeRoot;
    var split := Zeros(range, depth);
    NextPrefix(target, depth);
    CoversHalves(k, range, table, Prefix(target, depth));
    SubtreeIsFullTree(k, range[..split], table, Prefix(target, depth) + [0]);
    SubtreeIsFullTree(k, range[split..], table, Prefix(target, depth) + [1]);
  }
}
