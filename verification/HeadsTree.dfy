/** The sparse tree over domain heads: keys, preimages and the root. */
module HeadsTree {
  import opened Wrappers
  import opened Bytes
  import opened Ordered
  import opened Hashing

  const SMT_DEPTH: nat := 256
  const KEY_TAG: Bytes := Ascii("ARBOR_DOMAIN_HEAD_KEY_V1")
  const VALUE_TAG: Bytes := Ascii("ARBOR_DOMAIN_HEAD_VALUE_V1")
  const LEAF_TAG: Bytes := Ascii("ARBOR_SMT_LEAF_V1")
  const BRANCH_TAG: Bytes := Ascii("ARBOR_SMT_BRANCH_V1")
  datatype DomainHead = DomainHead(domainBlockHash: B256, stateRoot: B256)

  function KeyPreimage(domain: B256): Bytes {
    KEY_TAG + domain
  }

  function HeadKey(k: Keccak, domain: B256): B256 {
    k(KeyPreimage(domain))
  }

  function ValuePreimage(head: DomainHead): Bytes {
    VALUE_TAG + head.domainBlockHash + head.stateRoot
  }

  function LeafPreimage(k: Keccak, key: B256, head: DomainHead): Bytes {
    LEAF_TAG + [1] + key + k(ValuePreimage(head))
  }

  const EMPTY_PREIMAGE: Bytes := LEAF_TAG + [0]

  function BranchPreimage(depth: nat, left: B256, right: B256): Bytes {
    BRANCH_TAG + BigEndian(depth, 2) + left + right
  }

  // ----- key bits -----

  type bit = b: int | 0 <= b < 2

  /** The low `n` bits of `x`, most significant first. */
  function BitsOf(x: nat, n: nat): (r: seq<bit>)
    ensures |r| == n
  {
    if n == 0 then [] else BitsOf(x / 2, n - 1) + [x % 2]
  }

  /** Bit `depth` of a key, most significant first. */
  function Bit(key: B256, depth: nat): bit
    requires depth < SMT_DEPTH
  {
    BitsOf(key[depth / 8], 8)[depth % 8]
  }

  // ----- the tree the root stands for -----

  /** Finalized heads under their hashed keys. */
  type Table = map<B256, DomainHead>

  predicate HasPrefix(key: B256, prefix: seq<bit>)
    requires |prefix| <= SMT_DEPTH
  {
    forall i | 0 <= i < |prefix| :: Bit(key, i) == prefix[i]
  }

  /** Empty subtrees have one hash per depth. */
  function EmptyHash(k: Keccak, depth: nat): B256
    requires depth <= SMT_DEPTH
    decreases SMT_DEPTH - depth
  {
    if depth == SMT_DEPTH then k(EMPTY_PREIMAGE)
    else k(BranchPreimage(depth, EmptyHash(k, depth + 1), EmptyHash(k, depth + 1)))
  }

  // ----- the skip-empty recursion over sorted ranges -----

  datatype Entry = Entry(key: B256, leaf: B256)

  predicate SortedEntries(es: seq<Entry>) {
    forall i, j | 0 <= i < j < |es| :: LexLess(es[i].key, es[j].key)
  }

  /** The range holds exactly the table's entries below a prefix. */
  ghost predicate Covers(k: Keccak, es: seq<Entry>, table: Table, prefix: seq<bit>)
    requires |prefix| <= SMT_DEPTH
  {
    && SortedEntries(es)
    && (forall i | 0 <= i < |es| ::
          && es[i].key in table && HasPrefix(es[i].key, prefix)
          && es[i].leaf == k(LeafPreimage(k, es[i].key, table[es[i].key])))
    && forall key | key in table && HasPrefix(key, prefix) :: exists i | 0 <= i < |es| :: es[i].key == key
  }

  /** `partition_point`: entries before the first whose bit is set. */
  function Zeros(es: seq<Entry>, depth: nat): (r: nat)
    requires depth < SMT_DEPTH
    ensures r <= |es|
    ensures forall i | 0 <= i < r :: Bit(es[i].key, depth) == 0
    ensures r < |es| ==> Bit(es[r].key, depth) == 1
  {
    if es == [] || Bit(es[0].key, depth) == 1 then 0 else 1 + Zeros(es[1..], depth)
  }

  function SubtreeRoot(k: Keccak, es: seq<Entry>, depth: nat): B256
    requires depth <= SMT_DEPTH
    decreases SMT_DEPTH - depth
  {
    if es == [] then
      EmptyHash(k, depth)
    else if depth == SMT_DEPTH then
      es[0].leaf
    else
      var split := Zeros(es, depth);
      k(BranchPreimage(depth, SubtreeRoot(k, es[..split], depth + 1), SubtreeRoot(k, es[split..], depth + 1)))
  }

  // ----- the commitment object -----

  type Heads = map<B256, (B256, DomainHead)>

  ghost function TableOf(heads: Heads): Table {
    map key | key in heads :: heads[key].1
  }

  function EntriesOf(k: Keccak, heads: Heads): (r: seq<Entry>) {
    var keys := SortedKeys(heads.Keys);
    seq(|keys|, i requires 0 <= i < |keys| => Entry(keys[i], k(LeafPreimage(k, keys[i], heads[keys[i]].1))))
  }

  lemma EntriesCover(k: Keccak, heads: Heads)
    ensures Covers(k, EntriesOf(k, heads), TableOf(heads), [])
  {
    hide LeafPreimage, LexLess, SortedKeys;
    var keys := SortedKeys(heads.Keys);
    var es := EntriesOf(k, heads);
    assert forall i | 0 <= i < |es| :: es[i].key == keys[i] && keys[i] in keys;
    forall key | key in TableOf(heads)
      ensures exists i | 0 <= i < |es| :: es[i].key == key
    {
      assert key in keys;
      var i :| 0 <= i < |keys| && keys[i] == key;
      assert es[i].key == key;
    }
  }
}
