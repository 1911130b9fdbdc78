/** The padded binary tree over batches or results: preimages and the root. */
module CollectionRoots {
  import opened Wrappers
  import opened Bytes
  import opened Hashing
  import opened Layout
  import opened Canonical
  import opened BlockBody

  const MERKLE_ROOT_TAG: Bytes := Ascii("ARBOR_MERKLE_ROOT_V1")
  const MERKLE_BRANCH_TAG: Bytes := Ascii("ARBOR_MERKLE_BRANCH_V1")
  const MERKLE_EMPTY_TAG: Bytes := Ascii("ARBOR_MERKLE_EMPTY_V1")
  const BATCH_LEAF_TAG: Bytes := Ascii("ARBOR_BATCH_LEAF_V1")
  const RESULT_LEAF_TAG: Bytes := Ascii("ARBOR_RESULT_LEAF_V1")

  /** A list the commitment accepts: its count and every value length fit 32 bits. */
  predicate Committable(values: seq<Bytes>) {
    |values| <= U32_MAX && forall i | 0 <= i < |values| :: |values[i]| <= U32_MAX
  }

  function LeafPreimage(tag: Bytes, count: u32, index: u32, value: Bytes): Bytes
    requires |value| <= U32_MAX
  {
    tag + [CANONICAL_CODEC_VERSION] + PutU32(count) + PutU32(index) + PutU32(|value|) + value
  }

  function BranchPreimage(tag: Bytes, depth: nat, left: B256, right: B256): Bytes {
    MERKLE_BRANCH_TAG + [CANONICAL_CODEC_VERSION] + tag + BigEndian(depth, 2) + left + right
  }

  function RootPreimage(tag: Bytes, count: u32, tree: B256): Bytes {
    MERKLE_ROOT_TAG + [CANONICAL_CODEC_VERSION] + tag + PutU32(count) + tree
  }

  function EmptyPreimage(tag: Bytes, depth: nat): Bytes {
    MERKLE_EMPTY_TAG + [CANONICAL_CODEC_VERSION] + tag + BigEndian(depth, 2)
  }

  // ----- levels -----

  function Halved(width: nat): nat {
    (width + 1) / 2
  }

  /** A position past the end of a level is filled with the level's empty hash. */
  function NodeAt(k: Keccak, tag: Bytes, depth: nat, level: seq<B256>, i: nat): B256 {
    if i < |level| then level[i] else k(EmptyPreimage(tag, depth))
  }

  function Above(k: Keccak, tag: Bytes, depth: nat, level: seq<B256>): (r: seq<B256>)
    ensures |r| == Halved(|level|)
    ensures forall i | 0 <= i < |r| :: r[i] == k(Pair(k, tag, depth, level, i))
  {
    seq<B256>(Halved(|level|), i requires 0 <= i => k(Pair(k, tag, depth, level, i)))
  }

  /** The branch over positions `2i` and `2i + 1`. */
  function Pair(k: Keccak, tag: Bytes, depth: nat, level: seq<B256>, i: nat): Bytes {
    BranchPreimage(tag, depth, NodeAt(k, tag, depth, level, 2 * i), NodeAt(k, tag, depth, level, 2 * i + 1))
  }

  function TreeHash(k: Keccak, tag: Bytes, depth: nat, level: seq<B256>): B256
    requires level != []
    decreases |level|
  {
    if |level| == 1 then level[0] else TreeHash(k, tag, depth + 1, Above(k, tag, depth, level))
  }

  function Leaves(k: Keccak, tag: Bytes, values: seq<Bytes>): (r: seq<B256>)
    requires Committable(values)
    ensures |r| == |values|
  {
    seq<B256>(|values|, i requires 0 <= i < |values| => k(LeafPreimage(tag, |values|, i, values[i])))
  }

  function BottomLevel(k: Keccak, tag: Bytes, values: seq<Bytes>): (r: seq<B256>)
    requires Committable(values)
    ensures r != []
  {
    if values == [] then [k(EmptyPreimage(tag, 0))] else Leaves(k, tag, values)
  }

  function CollectionRoot(k: Keccak, tag: Bytes, values: seq<Bytes>): B256
    requires Committable(values)
  {
    k(RootPreimage(tag, |values|, TreeHash(k, tag, 0, BottomLevel(k, tag, values))))
  }

  predicate Encodable(results: seq<DomainHeader>) {
    |results| <= U32_MAX && forall i | 0 <= i < |results| :: EncodeDomainHeader(results[i]).Ok?
  }

  function Encodings(results: seq<DomainHeader>): (r: seq<Bytes>)
    requires Encodable(results)
    ensures Committable(r) && |r| == |results|
  {
    var r := seq(|results|, i requires 0 <= i < |results| => EncodeDomainHeader(results[i]).value);
    assert forall i | 0 <= i < |r| :: |r[i]| <= U32_MAX by {
      forall i | 0 <= i < |r|
        ensures |r[i]| <= U32_MAX
      {
        ResultFits(results[i]);
      }
    }
    r
  }

  function ResultsRoot(k: Keccak, results: seq<DomainHeader>): B256
    requires Encodable(results)
  {
    CollectionRoot(k, RESULT_LEAF_TAG, Encodings(results))
  }
}
