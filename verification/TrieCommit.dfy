/** `EthereumStateCommitment::build`: snapshots, their node stores, and root binding. */
module TrieCommit {
  import opened Wrappers
  import opened Bytes
  import opened Ordered
  import opened Hashing
  import opened Rlp
  import opened HexPrefix
  import opened TrieNode
  import opened TrieBinding
  import opened TrieBuild

  type Leaves = map<B256, Value>

  /** RLP of the empty string; its hash is the root of the empty trie. */
  const EMPTY_TRIE: Bytes := [0x80]

  datatype TrieSnapshot = TrieSnapshot(root: B256, nodes: map<B256, Bytes>, leaves: Leaves)

  // ----- leaves in key order -----

  function Entries(leaves: Leaves): (r: seq<Entry>)
    ensures Sorted(r) && |r| == |leaves|
  {
    EntriesSorted(SortedKeys(leaves.Keys), leaves);
    EntriesFor(SortedKeys(leaves.Keys), leaves)
  }

  function EntriesFor(keys: seq<B256>, leaves: Leaves): (r: seq<Entry>)
    requires forall key | key in keys :: key in leaves
    ensures |r| == |keys|
  {
    seq(|keys|, i requires 0 <= i < |keys| => Entry(Unpack(keys[i]), leaves[keys[i]]))
  }

  lemma EntriesSorted(keys: seq<B256>, leaves: Leaves)
    requires StrictlySorted(keys) && forall key | key in keys :: key in leaves
    ensures Sorted(EntriesFor(keys, leaves))
  {
    var r := EntriesFor(keys, leaves);
    forall i, j | 0 <= i < j < |r|
      ensures LexLess(r[i].key, r[j].key)
    {
      UnpackKeepsOrder(keys[i], keys[j]);
    }
  }

  function Lookup(leaves: Leaves, key: B256): Option<Bytes> {
    if key in leaves then Some(leaves[key]) else None
  }

  lemma EntriesFind(leaves: Leaves, key: B256)
    ensures Find(Entries(leaves), Unpack(key)) == Lookup(leaves, key)
  {
    var keys := SortedKeys(leaves.Keys);
    var es := Entries(leaves);
    if key in leaves {
      var i :| 0 <= i < |keys| && keys[i] == key;
      FindAt(es, i);
    } else {
      forall i | 0 <= i < |es|
        ensures es[i].key != Unpack(key)
      {
        PackUnpack(keys[i]);
        PackUnpack(key);
      }
    }
  }

  function Trie(leaves: Leaves): (r: Node)
    requires leaves != map[]
    ensures WellFormed(r)
  {
    assert Range(Entries(leaves), 0);
    ShapeIsCanonical(Entries(leaves), 0);
    Shape(Entries(leaves), 0)
  }

  lemma BuiltTrie(leaves: Leaves)
    requires leaves != map[]
    ensures Range(Entries(leaves), 0) && Trie(leaves) == Shape(Entries(leaves), 0)
    ensures Canonical(Trie(leaves), SECURE_KEY_NIBBLES)
  {
    assert Range(Entries(leaves), 0);
    ShapeIsCanonical(Entries(leaves), 0);
  }

  lemma TrieHolds(leaves: Leaves, key: B256)
    requires leaves != map[]
    ensures Get(Trie(leaves), Unpack(key)) == Lookup(leaves, key)
  {
    var es := Entries(leaves);
    assert Range(es, 0);
    ShapeHolds(es, 0, Unpack(key));
    assert Unpack(key)[0..] == Unpack(key);
    EntriesFind(leaves, key);
  }

  function RootHash(k: Keccak, leaves: Leaves): B256 {
    if leaves == map[] then k(EMPTY_TRIE) else k(Encode(k, Trie(leaves)))
  }

  /** Everything hashed to obtain the root. */
  ghost function Preimages(k: Keccak, leaves: Leaves): set<Bytes> {
    if leaves == map[] then {EMPTY_TRIE} else Encodings(k, Trie(leaves))
  }

  /** The root binds the whole state: leaf maps with equal roots are equal, unless two of the
      preimages hashed for them collide. */
  lemma RootBindsLeaves(k: Keccak, a: Leaves, b: Leaves)
    requires CollisionFree(k, Preimages(k, a) + Preimages(k, b))
    requires RootHash(k, a) == RootHash(k, b)
    ensures a == b
  {
    if a != map[] && b != map[] {
      EncodeInjective(k, Trie(a), Trie(b));
      forall key: B256
        ensures Lookup(a, key) == Lookup(b, key)
      {
        TrieHolds(a, key);
        TrieHolds(b, key);
      }
      SameLookups(a, b);
    } else if a != map[] {
      EncodingIsNotEmptyTrie(k, Trie(a));
    } else if b != map[] {
      EncodingIsNotEmptyTrie(k, Trie(b));
    }
  }

  lemma EncodingIsNotEmptyTrie(k: Keccak, n: Node)
    requires WellFormed(n)
    ensures Encode(k, n) != EMPTY_TRIE
  {
    assert Encode(k, n)[0] >= 0xC0;
  }

  lemma SameLookups(a: Leaves, b: Leaves)
    requires forall key: B256 :: Lookup(a, key) == Lookup(b, key)
    ensures a == b
  {
    forall key: B256
      ensures key in a <==> key in b
      ensures key in a ==> a[key] == b[key]
    {
      assert Lookup(a, key) == Lookup(b, key);
    }
  }

  /** Any canonical tree with the same contents has the same root: the builder's choices
      (extensions, slots, order) leave no freedom. */
  lemma RootIsCanonical(k: Keccak, leaves: Leaves, other: Node)
    requires leaves != map[]
    requires WellFormed(other) && Canonical(other, SECURE_KEY_NIBBLES)
    requires forall key: B256 :: Get(other, Unpack(key)) == Lookup(leaves, key)
    ensures RootHash(k, leaves) == k(Encode(k, other))
  {
    hide Get, WellFormed, Canonical, Lookup, Shape, Unpack, Pack, Entries;
    BuiltTrie(leaves);
    forall path: Nibbles | |path| == SECURE_KEY_NIBBLES
      ensures Get(Trie(leaves), path) == Get(other, path)
    {
      UnpackPack(path);
      TrieHolds(leaves, Pack(path));
    }
    CanonicalUnique(Trie(leaves), other, SECURE_KEY_NIBBLES);
  }

  // ----- the node store -----

  type NodeMap = map<B256, Bytes>

  /** The insertions `build_node` makes for a subtree: children before their parent. */
  function Store(k: Keccak, n: Node, nodes: NodeMap): NodeMap
    requires WellFormed(n)
  {
    var below :=
      match n
      case Leaf(_, _) => nodes
      case Extension(_, child) => Store(k, child, nodes)
      case Branch(children) => StoreAll(k, children, nodes);
    below[k(Encode(k, n)) := Encode(k, n)]
  }

  function StoreAll(k: Keccak, children: seq<Option<Node>>, nodes: NodeMap): NodeMap
    requires WellFormedAll(children)
  {
    if children == [] then nodes else
    StoreChild(k, children[|children| - 1], StoreAll(k, children[..|children| - 1], nodes))
  }

  function StoreChild(k: Keccak, child: Option<Node>, nodes: NodeMap): NodeMap
    requires WellFormedChild(child)
  {
    if child.None? then nodes else Store(k, child.value, nodes)
  }

  /** The store holds these bytes under their own hash. */
  ghost predicate Holds(k: Keccak, nodes: NodeMap, encodings: set<Bytes>) {
    forall e | e in encodings :: k(e) in nodes && nodes[k(e)] == e
  }

  /** Every stored node is one of these byte strings, under its own hash. */
  ghost predicate HoldsOnly(k: Keccak, nodes: NodeMap, encodings: set<Bytes>) {
    forall h | h in nodes :: nodes[h] in encodings && k(nodes[h]) == h
  }

  /** Storing a subtree adds exactly its encodings and, when hashes do not collide, loses nothing
      that was stored before. */
  lemma {:induction false} StoreHolds(k: Keccak, n: Node, nodes: NodeMap, before: set<Bytes>)
    requires WellFormed(n)
    requires HoldsOnly(k, nodes, before) && Holds(k, nodes, before)
    requires CollisionFree(k, before + Encodings(k, n))
    ensures HoldsOnly(k, Store(k, n, nodes), before + Encodings(k, n))
    ensures Holds(k, Store(k, n, nodes), before + Encodings(k, n))
    decreases n
  {
    match n
    case Leaf(_, _) =>
    case Extension(_, child) => StoreHolds(k, child, nodes, before);
    case Branch(children) => StoreAllHolds(k, children, nodes, before);
  }

  lemma {:induction false} StoreAllHolds(k: Keccak, children: seq<Option<Node>>, nodes: NodeMap, before: set<Bytes>)
    requires WellFormedAll(children)
    requires HoldsOnly(k, nodes, before) && Holds(k, nodes, before)
    requires CollisionFree(k, before + EncodingsOfAll(k, children))
    ensures HoldsOnly(k, StoreAll(k, children, nodes), before + EncodingsOfAll(k, children))
    ensures Holds(k, StoreAll(k, children, nodes), before + EncodingsOfAll(k, children))
    decreases children
  {
    if children != [] {
      var init, last := children[..|children| - 1], children[|children| - 1];
      EncodingsSplit(k, children);
      StoreAllHolds(k, init, nodes, before);
      StoreChildHolds(k, last, StoreAll(k, init, nodes), before + EncodingsOfAll(k, init));
    }
  }

  lemma {:induction false} StoreChildHolds(k: Keccak, child: Option<Node>, nodes: NodeMap, before: set<Bytes>)
    requires WellFormedChild(child)
    requires HoldsOnly(k, nodes, before) && Holds(k, nodes, before)
    requires CollisionFree(k, before + EncodingsOfChild(k, child))
    ensures HoldsOnly(k, StoreChild(k, child, nodes), before + EncodingsOfChild(k, child))
    ensures Holds(k, StoreChild(k, child, nodes), before + EncodingsOfChild(k, child))
    decreases child
  {
    if child.Some? {
      StoreHolds(k, child.value, nodes, before);
    }
  }

  lemma {:induction false} EncodingsSplit(k: Keccak, children: seq<Option<Node>>)
    requires WellFormedAll(children) && children != []
    ensures EncodingsOfAll(k, children) ==
            EncodingsOfAll(k, children[..|children| - 1]) + EncodingsOfChild(k, children[|children| - 1])
  {
    if |children| > 1 {
      EncodingsSplit(k, children[1..]);
      assert children[1..][..|children| - 2] == children[..|children| - 1][1..];
    }
  }

  // ----- the builder: recursion over ranges that grows one shared node map -----

  datatype BuiltNode = BuiltNode(encoded: Bytes, hash: B256)

  datatype EncodedItem = Text(text: Value) | Raw(raw: Value)

  function ItemBytes(item: EncodedItem): Bytes {
    match item
    case Text(text) => EncodeBytes(text)
    case Raw(raw) => raw
  }

  function ItemsPayload(items: seq<EncodedItem>): Bytes {
    if items == [] then [] else ItemsPayload(items[..|items| - 1]) + ItemBytes(items[|items| - 1])
  }

  function ChildItemFor(child: BuiltNode): EncodedItem {
    if |child.encoded| < 32 then Raw(child.encoded) else Text(child.hash)
  }

  method EncodeList(items: seq<EncodedItem>) returns (out: Bytes)
    requires |ItemsPayload(items)| <= U64_MAX
    ensures out == EncodePayload(ItemsPayload(items))
  {
    var payload := [];
    for i := 0 to |items|
      invariant payload == ItemsPayload(items[..i])
    {
      assert items[..i + 1][..i] == items[..i];
      payload := payload + ItemBytes(items[i]);
    }
    assert items[..|items|] == items;
    out := EncodePayload(payload);
  }

  /** Items the branch loop has pushed for a run of children. */
  ghost function ItemsFor(k: Keccak, children: seq<Option<Node>>): (r: seq<EncodedItem>)
    requires WellFormedAll(children)
    ensures |r| == |children|
  {
    seq(|children|, i requires 0 <= i < |children| => ItemForChild(k, children[i]))
  }

  ghost function ItemForChild(k: Keccak, child: Option<Node>): EncodedItem
    requires WellFormedChild(child)
  {
    if child.None? then Text([]) else ChildItemFor(BuiltNode(Encode(k, child.value), k(Encode(k, child.value))))
  }

  lemma {:induction false} ItemsArePayload(k: Keccak, children: seq<Option<Node>>)
    requires WellFormedAll(children)
    ensures ItemsPayload(ItemsFor(k, children)) == ChildrenBytes(k, children)
  {
    hide ChildrenBytes;
    if children != [] {
      var init, last := children[..|children| - 1], children[|children| - 1];
      ItemsArePayload(k, init);
      ChildrenBytesSplit(k, children);
      assert ItemsFor(k, children)[..|children| - 1] == ItemsFor(k, init);
    }
  }

  lemma {:induction false} ChildrenBytesSplit(k: Keccak, children: seq<Option<Node>>)
    requires WellFormedAll(children) && children != []
    ensures ChildrenBytes(k, children) ==
            ChildrenBytes(k, children[..|children| - 1]) + ChildBytes(k, children[|children| - 1])
  {
    hide ChildBytes;
    if |children| > 1 {
      ChildrenBytesSplit(k, children[1..]);
      assert children[1..][..|children| - 2] == children[..|children| - 1][1..];
    } else {
      assert children[1..] == [] && children[..0] == [];
    }
  }

  /** `build_node`: splits the sorted range, recurses, and inserts every encoding into `nodes`.
      On the ranges it is called with it cannot fail. */
  method BuildNode(k: Keccak, entries: seq<Entry>, depth: nat, nodes: NodeMap)
    returns (r: Result<BuiltNode, StateError>, nodes': NodeMap)
    requires entries == [] || depth > SECURE_KEY_NIBBLES || Range(entries, depth)
    ensures entries == [] || depth > SECURE_KEY_NIBBLES ==>
              r == Err(InvalidPath("invalid recursive trie range")) && nodes' == nodes
    ensures Range(entries, depth) ==>
              && WellFormed(Shape(entries, depth))
              && var e := Encode(k, Shape(entries, depth));
                 r == Ok(BuiltNode(e, k(e))) && nodes' == Store(k, Shape(entries, depth), nodes)
    decreases SECURE_KEY_NIBBLES - depth
  {
    hide LexLess, ItemsPayload, CompactEncode, EncodeBytes, EncodePayload, Canonical;
    nodes' := nodes;
    if entries == [] || depth > SECURE_KEY_NIBBLES {
      return Err(InvalidPath("invalid recursive trie range")), nodes;
    }
    ghost var shape := Shape(entries, depth);
    ShapeIsCanonical(entries, depth);
    var encoded: Bytes;
    if |entries| == 1 {
      var path := CompactEncodeLoop(entries[0].key[depth..], true);
      PairPayload(Text(path), Text(entries[0].value));
      encoded := EncodeList([Text(path), Text(entries[0].value)]);
    } else {
      CommonPrefixShared(entries, depth);
      if CommonPrefix(entries, depth) > 0 {
        encoded, nodes' := BuildExtension(k, entries, depth, nodes);
      } else {
        encoded, nodes' := BuildBranch(k, entries, depth, nodes);
      }
    }
    var hash := k(encoded);
    nodes' := nodes'[hash := encoded];
    return Ok(BuiltNode(encoded, hash)), nodes';
  }

  /** The extension arm of `build_node`. */
  method BuildExtension(k: Keccak, entries: seq<Entry>, depth: nat, nodes: NodeMap)
    returns (encoded: Bytes, nodes': NodeMap)
    requires Range(entries, depth) && |entries| > 1 && CommonPrefix(entries, depth) > 0
    ensures WellFormed(Shape(entries, depth)) && Shape(entries, depth).Extension?
    ensures encoded == Encode(k, Shape(entries, depth))
    ensures nodes' == Store(k, Shape(entries, depth).child, nodes)
    decreases SECURE_KEY_NIBBLES - depth, 0
  {
    hide LexLess, ItemsPayload, CompactEncode, EncodeBytes, EncodePayload, Canonical;
    CommonPrefixShared(entries, depth);
    ShapeIsCanonical(entries, depth);
    var common := CommonPrefix(entries, depth);
    var child;
    child, nodes' := BuildNode(k, entries, depth + common, nodes);
    var path := CompactEncodeLoop(entries[0].key[depth..depth + common], false);
    var item := ChildItemFor(child.value);
    PairPayload(Text(path), item);
    encoded := EncodeList([Text(path), item]);
  }

  lemma PairPayload(a: EncodedItem, b: EncodedItem)
    ensures ItemsPayload([a, b]) == ItemBytes(a) + ItemBytes(b)
  {
    assert [a, b][..1] == [a];
    assert [a][..0] == [];
    assert ItemsPayload([a]) == [] + ItemBytes(a) == ItemBytes(a);
  }

  /** The branch arm of `build_node`: one slot per nibble. */
  method BuildBranch(k: Keccak, entries: seq<Entry>, depth: nat, nodes: NodeMap)
    returns (encoded: Bytes, nodes': NodeMap)
    requires Range(entries, depth) && |entries| > 1 && CommonPrefix(entries, depth) == 0
    ensures WellFormed(Shape(entries, depth)) && Shape(entries, depth).Branch?
    ensures encoded == Encode(k, Shape(entries, depth))
    ensures nodes' == StoreAll(k, Shape(entries, depth).children, nodes)
    decreases SECURE_KEY_NIBBLES - depth, 0
  {
    ShapeIsCanonical(entries, depth);
    ForkedSlots(entries, depth);
    ghost var children := Shape(entries, depth).children;
    var items;
    items, nodes' := BuildSlots(k, entries, depth, nodes, children);
    encoded := EncodeBranch(k, items, children);
  }

  /** The branch loop: children are pushed and stored in nibble order. */
  method BuildSlots(k: Keccak, entries: seq<Entry>, depth: nat, nodes: NodeMap, ghost children: seq<Option<Node>>)
    returns (items: seq<EncodedItem>, nodes': NodeMap)
    requires Range(entries, depth) && depth < SECURE_KEY_NIBBLES
    requires |children| == 16 && WellFormedAll(children)
    requires forall i: nibble :: children[i] == ShapeOfSlot(entries, depth, i)
    ensures items == ItemsFor(k, children)
    ensures nodes' == StoreAll(k, children, nodes)
    decreases SECURE_KEY_NIBBLES - depth, 0, 1
  {
    items := [];
    nodes' := nodes;
    assert children[..0] == [];
    for nibble := 0 to 16
      invariant items == ItemsFor(k, children[..nibble])
      invariant nodes' == StoreAll(k, children[..nibble], nodes)
    {
      SlotStep(k, children, nibble, nodes);
      var item;
      item, nodes' := BuildSlot(k, entries, depth, nibble, nodes');
      items := items + [item];
    }
    assert children[..16] == children;
  }

  lemma SlotStep(k: Keccak, children: seq<Option<Node>>, i: nat, nodes: NodeMap)
    requires WellFormedAll(children) && i < |children|
    ensures WellFormedAll(children[..i]) && WellFormedAll(children[..i + 1]) && WellFormedChild(children[i])
    ensures ItemsFor(k, children[..i + 1]) == ItemsFor(k, children[..i]) + [ItemForChild(k, children[i])]
    ensures StoreAll(k, children[..i + 1], nodes) == StoreChild(k, children[i], StoreAll(k, children[..i], nodes))
  {
    assert children[..i + 1][..i] == children[..i];
  }

  /** A branch node carries its sixteen child items and an empty value. */
  method EncodeBranch(k: Keccak, items: seq<EncodedItem>, ghost children: seq<Option<Node>>) returns (encoded: Bytes)
    requires |children| == 16 && WellFormedAll(children) && items == ItemsFor(k, children)
    ensures encoded == Encode(k, Branch(children))
  {
    var all := items + [Text([])];
    assert all[..16] == items;
    ItemsArePayload(k, children);
    encoded := EncodeList(all);
  }

  /** One round of the branch loop: two partition points delimit the slot. */
  method BuildSlot(k: Keccak, entries: seq<Entry>, depth: nat, nibble: nibble, nodes: NodeMap)
    returns (item: EncodedItem, nodes': NodeMap)
    requires Range(entries, depth) && depth < SECURE_KEY_NIBBLES
    ensures WellFormedChild(ShapeOfSlot(entries, depth, nibble))
    ensures item == ItemForChild(k, ShapeOfSlot(entries, depth, nibble))
    ensures nodes' == StoreChild(k, ShapeOfSlot(entries, depth, nibble), nodes)
    decreases SECURE_KEY_NIBBLES - depth, 0, 0
  {
    SlotBounds(entries, depth, nibble);
    SlotIsRange(entries, depth, nibble);
    SlotIsCanonical(entries, depth, nibble);
    var start := Below(entries, depth, nibble);
    var end := Below(entries, depth, nibble + 1);
    if start == end {
      return Text([]), nodes;
    }
    var child;
    child, nodes' := BuildNode(k, entries[start..end], depth + 1, nodes);
    item := ChildItemFor(child.value);
  }

  /** `EthereumStateCommitment::build`: root, node store and leaves of one snapshot. */
  method Build(k: Keccak, leaves: Leaves) returns (r: Result<TrieSnapshot, StateError>)
    ensures r.Ok? <==> |leaves| <= U32_MAX
    ensures r.Ok? ==> r.value.root == RootHash(k, leaves) && r.value.leaves == leaves
    ensures r.Ok? ==> r.value.nodes == if leaves == map[] then map[] else Store(k, Trie(leaves), map[])
  {
    if leaves == map[] {
      return Ok(TrieSnapshot(k(EMPTY_TRIE), map[], map[]));
    }
    if |leaves| > U32_MAX {
      return Err(LimitExceeded("secure trie leaves"));
    }
    var entries := Entries(leaves);
    assert Range(entries, 0);
    var root, nodes := BuildNode(k, entries, 0, map[]);
    return Ok(TrieSnapshot(root.value.hash, nodes, leaves));
  }

  /** A snapshot carries exactly the encodings its root was computed from. */
  lemma SnapshotHolds(k: Keccak, leaves: Leaves)
    requires leaves != map[] && CollisionFree(k, Preimages(k, leaves))
    ensures Holds(k, Store(k, Trie(leaves), map[]), Preimages(k, leaves))
    ensures HoldsOnly(k, Store(k, Trie(leaves), map[]), Preimages(k, leaves))
  {
    assert {} + Encodings(k, Trie(leaves)) == Encodings(k, Trie(leaves));
    StoreHolds(k, Trie(leaves), map[], {});
  }
}
