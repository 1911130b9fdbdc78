/** The binary Merkle tree over the ordered batches and results of one block. */
module CollectionTree {
  import opened Wrappers
  import opened Bytes
  import opened Hashing
  import opened Layout
  import opened Canonical
  import opened BlockBody
  import opened CollectionRoots

  function Height(width: nat): nat
    decreases width
  {
    if width <= 1 then 0 else 1 + Height(Halved(width))
  }

  lemma {:induction false} HeightBound(width: nat, bits: nat)
    requires width <= Pow2(bits)
    ensures Height(width) <= bits
    decreases bits
  {
    if width > 1 {
      HeightBound(Halved(width), bits - 1);
    }
  }

  /** No tree over a 32-bit count is taller than 32 levels, so the 16-bit depth never saturates. */
  lemma DepthFits(count: u32)
    ensures Height(count) <= 32
  {
    Pow2Of8();
    assert Pow2(12) == 4096 by {
      assert Pow2(10) == 2 * (2 * Pow2(8));
    }
    PowSum(12, 12);
    PowSum(24, 8);
    HeightBound(count, 32);
  }

  lemma {:induction false} PowSum(a: nat, b: nat)
    ensures Pow2(a + b) == Pow2(a) * Pow2(b)
    decreases b
  {
    if b > 0 {
      PowSum(a, b - 1);
    }
  }

  function NextDepth(depth: u16): u16 {
    if depth == U16_MAX then depth else depth + 1
  }

  /** `merkle_collection_root`: the level-by-level loop. */
  method ComputeRoot(k: Keccak, tag: Bytes, values: seq<Bytes>) returns (root: B256)
    requires Committable(values)
    ensures root == CollectionRoot(k, tag, values)
  {
    hide BranchPreimage, LeafPreimage, RootPreimage;
    var level := BottomLevel(k, tag, values);
    var depth: u16 := 0;
    DepthFits(|values|);
    while |level| > 1
      invariant level != [] && depth + Height(|level|) == Height(|values|)
      invariant TreeHash(k, tag, depth, level) == TreeHash(k, tag, 0, BottomLevel(k, tag, values))
      decreases |level|
    {
      var next: seq<B256> := [];
      for i := 0 to Halved(|level|)
        invariant |next| == i && forall j | 0 <= j < i :: next[j] == k(Pair(k, tag, depth, level, j))
      {
        var right := if 2 * i + 1 < |level| then level[2 * i + 1] else k(EmptyPreimage(tag, depth));
        next := next + [k(BranchPreimage(tag, depth, level[2 * i], right))];
      }
      assert next == Above(k, tag, depth, level);
      level := next;
      depth := NextDepth(depth);
    }
    root := k(RootPreimage(tag, |values|, level[0]));
  }

  // ----- proofs -----

  /** Branch over a claimed hash and its sibling, by the parity of the position. */
  function ClaimedPair(tag: Bytes, depth: nat, hash: B256, cursor: nat, sibling: B256): Bytes {
    if cursor % 2 == 0 then BranchPreimage(tag, depth, hash, sibling) else BranchPreimage(tag, depth, sibling, hash)
  }

  function Climb(k: Keccak, tag: Bytes, depth: nat, hash: B256, cursor: nat, siblings: seq<B256>): B256
    decreases |siblings|
  {
    if siblings == [] then hash else
    Climb(k, tag, depth + 1, k(ClaimedPair(tag, depth, hash, cursor, siblings[0])), cursor / 2, siblings[1..])
  }

  function SiblingIndex(cursor: nat): nat {
    if cursor % 2 == 0 then cursor + 1 else cursor - 1
  }

  function SiblingsOf(k: Keccak, tag: Bytes, depth: nat, level: seq<B256>, cursor: nat): (r: seq<B256>)
    requires cursor < |level|
    ensures |r| == Height(|level|)
    decreases |level|
  {
    if |level| == 1 then [] else
    [NodeAt(k, tag, depth, level, SiblingIndex(cursor))]
    + SiblingsOf(k, tag, depth + 1, Above(k, tag, depth, level), cursor / 2)
  }

  /** The pair over a real node and its sibling is the tree's own pair. */
  lemma PairOfNode(k: Keccak, tag: Bytes, depth: nat, level: seq<B256>, cursor: nat)
    requires cursor < |level|
    ensures ClaimedPair(tag, depth, level[cursor], cursor, NodeAt(k, tag, depth, level, SiblingIndex(cursor)))
         == Pair(k, tag, depth, level, cursor / 2)
  {
    hide BranchPreimage, EmptyPreimage;
    assert cursor == 2 * (cursor / 2) + cursor % 2;
  }

  /** The tree's own siblings climb to the tree's hash. */
  lemma {:induction false} ClimbReachesRoot(k: Keccak, tag: Bytes, depth: nat, level: seq<B256>, cursor: nat)
    requires cursor < |level|
    ensures Climb(k, tag, depth, level[cursor], cursor, SiblingsOf(k, tag, depth, level, cursor))
         == TreeHash(k, tag, depth, level)
    decreases |level|
  {
    hide ClaimedPair, Pair, NodeAt;
    if |level| > 1 {
      PairOfNode(k, tag, depth, level, cursor);
      var above := Above(k, tag, depth, level);
      ClimbReachesRoot(k, tag, depth + 1, above, cursor / 2);
      var siblings := SiblingsOf(k, tag, depth, level, cursor);
      assert siblings[1..] == SiblingsOf(k, tag, depth + 1, above, cursor / 2);
    }
  }

  /** Everything hashed above one level of the tree. */
  ghost function TreePreimages(k: Keccak, tag: Bytes, depth: nat, level: seq<B256>): set<Bytes>
    requires level != []
    decreases |level|
  {
    if |level| == 1 then {} else
    (set i | 0 <= i < Halved(|level|) :: Pair(k, tag, depth, level, i))
    + TreePreimages(k, tag, depth + 1, Above(k, tag, depth, level))
  }

  /** Everything hashed while climbing. */
  ghost function ClimbPreimages(k: Keccak, tag: Bytes, depth: nat, hash: B256, cursor: nat, siblings: seq<B256>)
    : set<Bytes>
    decreases |siblings|
  {
    if siblings == [] then {} else
    var pair := ClaimedPair(tag, depth, hash, cursor, siblings[0]);
    {pair} + ClimbPreimages(k, tag, depth + 1, k(pair), cursor / 2, siblings[1..])
  }

  lemma BranchInjective(tag: Bytes, depth: nat, l1: B256, r1: B256, l2: B256, r2: B256)
    requires BranchPreimage(tag, depth, l1, r1) == BranchPreimage(tag, depth, l2, r2)
    ensures l1 == l2 && r1 == r2
  {
    var p, q := BranchPreimage(tag, depth, l1, r1), BranchPreimage(tag, depth, l2, r2);
    var n := |MERKLE_BRANCH_TAG| + 1 + |tag| + 2;
    assert p[n..n + 32] == l1 && q[n..n + 32] == l2;
    assert p[n + 32..] == r1 && q[n + 32..] == r2;
  }

  lemma ClaimMatches(k: Keccak, tag: Bytes, depth: nat, level: seq<B256>, cursor: nat, hash: B256, sibling: B256)
    requires cursor < |level|
    requires ClaimedPair(tag, depth, hash, cursor, sibling) == Pair(k, tag, depth, level, cursor / 2)
    ensures hash == level[cursor]
  {
    hide BranchPreimage, EmptyPreimage;
    var i := cursor / 2;
    assert cursor == 2 * i + cursor % 2;
    var left, right := NodeAt(k, tag, depth, level, 2 * i), NodeAt(k, tag, depth, level, 2 * i + 1);
    if cursor % 2 == 0 {
      BranchInjective(tag, depth, hash, sibling, left, right);
    } else {
      BranchInjective(tag, depth, sibling, hash, left, right);
    }
  }

  /** A climb of the right height that ends at the tree's hash started at the tree's node. */
  lemma {:induction false} ClimbBinds(k: Keccak, tag: Bytes, depth: nat, level: seq<B256>, cursor: nat,
                                      hash: B256, siblings: seq<B256>)
    requires cursor < |level| && |siblings| == Height(|level|)
    requires Climb(k, tag, depth, hash, cursor, siblings) == TreeHash(k, tag, depth, level)
    requires CollisionFree(k, TreePreimages(k, tag, depth, level) +
      ClimbPreimages(k, tag, depth, hash, cursor, siblings))
    ensures hash == level[cursor]
    decreases |level|
  {
    hide ClaimedPair, Pair;
    if |level| > 1 {
      var pair := ClaimedPair(tag, depth, hash, cursor, siblings[0]);
      var above := Above(k, tag, depth, level);
      ClimbBinds(k, tag, depth + 1, above, cursor / 2, k(pair), siblings[1..]);
      assert Pair(k, tag, depth, level, cursor / 2) in TreePreimages(k, tag, depth, level);
      assert pair in ClimbPreimages(k, tag, depth, hash, cursor, siblings);
      ClaimMatches(k, tag, depth, level, cursor, hash, siblings[0]);
    }
  }

  lemma RootInjective(tag: Bytes, c1: u32, t1: B256, c2: u32, t2: B256)
    requires RootPreimage(tag, c1, t1) == RootPreimage(tag, c2, t2)
    ensures c1 == c2 && t1 == t2
  {
    var p, q := RootPreimage(tag, c1, t1), RootPreimage(tag, c2, t2);
    var n := |MERKLE_ROOT_TAG| + 1 + |tag|;
    assert p[n..n + 4] == PutU32(c1) && q[n..n + 4] == PutU32(c2);
    assert p[n + 4..] == t1 && q[n + 4..] == t2;
  }

  lemma LeafInjective(tag: Bytes, count: u32, index: u32, a: Bytes, b: Bytes)
    requires |a| <= U32_MAX && |b| <= U32_MAX
    requires LeafPreimage(tag, count, index, a) == LeafPreimage(tag, count, index, b)
    ensures a == b
  {
    var p, q := LeafPreimage(tag, count, index, a), LeafPreimage(tag, count, index, b);
    var n := |tag| + 13;
    assert p[n..] == a && q[n..] == b;
  }

  // ----- inclusion of one domain result -----

  datatype ResultProof = ResultProof(root: B256, result: DomainHeader, index: u32, count: u32, siblings: seq<B256>)

  datatype ProofError = WrongPosition | WrongDepth | Unencodable | RootMismatch

  function ClaimedLeaf(p: ResultProof): Bytes
    requires EncodeDomainHeader(p.result).Ok?
  {
    ResultFits(p.result);
    LeafPreimage(RESULT_LEAF_TAG, p.count, p.index, EncodeDomainHeader(p.result).value)
  }

  predicate Verifies(k: Keccak, p: ResultProof) {
    && p.index < p.count && |p.siblings| == Height(p.count) && EncodeDomainHeader(p.result).Ok?
    && k(RootPreimage(RESULT_LEAF_TAG, p.count,
                      Climb(k, RESULT_LEAF_TAG, 0, k(ClaimedLeaf(p)), p.index, p.siblings))) == p.root
  }

  /** `DomainResultProof::verify`. */
  method Verify(k: Keccak, p: ResultProof) returns (r: Result<(), ProofError>)
    ensures r.Ok? <==> Verifies(k, p)
    ensures r.Err? ==> r.error == if p.index >= p.count then WrongPosition
                                  else if |p.siblings| != Height(p.count) then WrongDepth
                                  else if EncodeDomainHeader(p.result).Err? then Unencodable
                                  else RootMismatch
  {
    hide BranchPreimage, RootPreimage, EncodeDomainHeader, LeafPreimage;
    if p.count == 0 || p.index >= p.count {
      return Err(WrongPosition);
    }
    var expected := 0;
    var width: nat := p.count;
    while width > 1
      invariant expected + Height(width) == Height(p.count)
    {
      expected := expected + 1;
      width := Halved(width);
    }
    if |p.siblings| != expected {
      return Err(WrongDepth);
    }
    if EncodeDomainHeader(p.result).Err? {
      return Err(Unencodable);
    }
    var hash := k(ClaimedLeaf(p));
    var cursor: nat := p.index;
    ghost var goal := Climb(k, RESULT_LEAF_TAG, 0, hash, cursor, p.siblings);
    assert p.siblings[0..] == p.siblings;
    for depth := 0 to |p.siblings|
      invariant goal == Climb(k, RESULT_LEAF_TAG, depth, hash, cursor, p.siblings[depth..])
    {
      var sibling := p.siblings[depth];
      assert p.siblings[depth..][1..] == p.siblings[depth + 1..];
      if cursor % 2 == 0 {
        hash := k(BranchPreimage(RESULT_LEAF_TAG, depth, hash, sibling));
      } else {
        hash := k(BranchPreimage(RESULT_LEAF_TAG, depth, sibling, hash));
      }
      cursor := cursor / 2;
    }
    return if k(RootPreimage(RESULT_LEAF_TAG, p.count, hash)) != p.root then Err(RootMismatch) else Ok(());
  }

  /** `domain_result_proof` for one position: the loop collects siblings while folding the level. */
  method Prove(k: Keccak, root: B256, results: seq<DomainHeader>, index: nat) returns (p: ResultProof)
    requires Encodable(results) && index < |results|
    ensures p.root == root && p.result == results[index] && p.index == index && p.count == |results|
    ensures p.siblings == SiblingsOf(k, RESULT_LEAF_TAG, 0, Leaves(k, RESULT_LEAF_TAG, Encodings(results)), index)
  {
    hide BranchPreimage, LeafPreimage, Encodings, Encodable, EncodeDomainHeader;
    var tag := RESULT_LEAF_TAG;
    EncodableCount(results);
    var level := Leaves(k, tag, Encodings(results));
    var cursor: nat := index;
    var depth: u16 := 0;
    DepthFits(|results|);
    var siblings: seq<B256> := [];
    ghost var goal := SiblingsOf(k, tag, 0, level, index);
    assert siblings + goal == goal;
    while |level| > 1
      invariant cursor < |level| && depth + Height(|level|) == Height(|results|)
      invariant goal == siblings + SiblingsOf(k, tag, depth, level, cursor)
      decreases |level|
    {
      var sibling := if cursor % 2 == 0 then NodeAt(k, tag, depth, level, cursor + 1) else level[cursor - 1];
      SiblingStep(k, tag, depth, level, cursor, siblings);
      siblings := siblings + [sibling];
      level := Above(k, tag, depth, level);
      cursor := cursor / 2;
      depth := NextDepth(depth);
    }
    assert siblings + [] == siblings;
    p := ResultProof(root, results[index], index, |results|, siblings);
  }

  /** No result of this domain among the first ones. */
  ghost predicate Missing(results: seq<DomainHeader>, n: nat, d: B256)
    requires n <= |results|
  {
    forall i | 0 <= i < n :: results[i].domainId != d
  }

  /** `domain_result_proof`: the proof of the first result of a domain, None when the block has none. */
  method ProveDomain(k: Keccak, root: B256, results: seq<DomainHeader>, d: B256)
    returns (r: Result<Option<ResultProof>, ProofError>)
    ensures Missing(results, |results|, d) ==> r == Ok(None)
    ensures !Missing(results, |results|, d) && !Encodable(results) ==> r == Err(Unencodable)
    ensures !Missing(results, |results|, d) && Encodable(results) ==>
              && r.Ok? && r.value.Some?
              && var p := r.value.value;
                 && p.index < |results| && Missing(results, p.index, d) && p.result.domainId == d
                 && p == ResultProof(root, results[p.index], p.index, |results|,
                                     SiblingsOf(k, RESULT_LEAF_TAG, 0, Leaves(k, RESULT_LEAF_TAG, Encodings(results)),
                                                p.index))
  {
    hide Encodings, Leaves, SiblingsOf;
    var index := 0;
    while index < |results| && results[index].domainId != d
      invariant index <= |results| && Missing(results, index, d)
    {
      index := index + 1;
    }
    if index == |results| {
      return Ok(None);
    }
    if !Encodable(results) {
      return Err(Unencodable);
    }
    EncodableCount(results);
    var p := Prove(k, root, results, index);
    return Ok(Some(p));
  }

  lemma EncodableCount(results: seq<DomainHeader>)
    requires Encodable(results)
    ensures |results| <= U32_MAX
  {
  }

  lemma SiblingStep(k: Keccak, tag: Bytes, depth: nat, level: seq<B256>, cursor: nat, before: seq<B256>)
    requires cursor < |level| && |level| > 1
    ensures before + SiblingsOf(k, tag, depth, level, cursor)
         == (before + [NodeAt(k, tag, depth, level, SiblingIndex(cursor))])
            + SiblingsOf(k, tag, depth + 1, Above(k, tag, depth, level), cursor / 2)
  {
    hide NodeAt, Above;
  }

  /** The proof for every position of a committed result list verifies. */
  lemma ProofVerifies(k: Keccak, results: seq<DomainHeader>, index: nat)
    requires Encodable(results) && index < |results|
    ensures var siblings := SiblingsOf(k, RESULT_LEAF_TAG, 0, Leaves(k, RESULT_LEAF_TAG, Encodings(results)), index);
            Verifies(k, ResultProof(ResultsRoot(k, results), results[index], index, |results|, siblings))
  {
    hide BranchPreimage, LeafPreimage, RootPreimage, EncodeDomainHeader, Climb, SiblingsOf, TreeHash;
    var values := Encodings(results);
    var level := Leaves(k, RESULT_LEAF_TAG, values);
    ClimbReachesRoot(k, RESULT_LEAF_TAG, 0, level, index);
    assert values[index] == EncodeDomainHeader(results[index]).value;
    assert level[index] == k(LeafPreimage(RESULT_LEAF_TAG, |values|, index, values[index]));
  }

  /** Everything hashed for the list and for checking the proof. */
  ghost function ProofPreimages(k: Keccak, results: seq<DomainHeader>, p: ResultProof): set<Bytes>
    requires Encodable(results) && EncodeDomainHeader(p.result).Ok?
  {
    var tag, values := RESULT_LEAF_TAG, Encodings(results);
    var level := BottomLevel(k, tag, values);
    var claimed := Climb(k, tag, 0, k(ClaimedLeaf(p)), p.index, p.siblings);
    {RootPreimage(tag, |values|, TreeHash(k, tag, 0, level)), RootPreimage(tag, p.count, claimed), ClaimedLeaf(p)}
    + (set i | 0 <= i < |values| :: LeafPreimage(tag, |values|, i, values[i]))
    + TreePreimages(k, tag, 0, level)
    + ClimbPreimages(k, tag, 0, k(ClaimedLeaf(p)), p.index, p.siblings)
  }

  /** Any proof accepted against the root of a result list has the true count and carries the true
      header at its index, unless two preimages in play collide. */
  lemma ProofBinds(k: Keccak, results: seq<DomainHeader>, p: ResultProof)
    requires Encodable(results) && Verifies(k, p) && p.root == ResultsRoot(k, results)
    requires CollisionFree(k, ProofPreimages(k, results, p))
    ensures p.count == |results| && p.result == results[p.index]
  {
    hide BranchPreimage, LeafPreimage, RootPreimage, EncodeDomainHeader, Climb, TreeHash, TreePreimages, ClimbPreimages;
    var tag, values := RESULT_LEAF_TAG, Encodings(results);
    var level := BottomLevel(k, tag, values);
    var leaf := k(ClaimedLeaf(p));
    var claimed := Climb(k, tag, 0, leaf, p.index, p.siblings);
    RootInjective(tag, |values|, TreeHash(k, tag, 0, level), p.count, claimed);
    assert level == Leaves(k, tag, values);
    ClimbBinds(k, tag, 0, level, p.index, leaf, p.siblings);
    assert level[p.index] == k(LeafPreimage(tag, |values|, p.index, values[p.index]));
    assert LeafPreimage(tag, |values|, p.index, values[p.index]) in ProofPreimages(k, results, p);
    ResultFits(p.result);
    LeafInjective(tag, |values|, p.index, EncodeDomainHeader(p.result).value, values[p.index]);
    DomainHeaderExact(p.result, []);
    DomainHeaderExact(results[p.index], []);
  }
}
