/** The single-key walk of `EthereumStateCommitment::proof`, on any node store. */
module TrieLookup {
  import opened Wrappers
  import opened Bytes
  import opened Hashing
  import opened Rlp
  import opened HexPrefix
  import opened TrieNode
  import opened TrieBinding
  import opened TrieBuild
  import opened TrieCommit

  function LoadHashed(k: Keccak, store: NodeMap, expected: B256): (r: Result<Bytes, StateError>)
    ensures r.Ok? ==> expected in store && r.value == store[expected] && k(r.value) == expected
  {
    if expected !in store then
      Err(MissingNode(expected))
    else if k(store[expected]) != expected then
      Err(NodeHashMismatch(expected, k(store[expected])))
    else
      Ok(store[expected])
  }

  function ResolveChild(k: Keccak, store: NodeMap, child: ChildReference): Result<Bytes, StateError> {
    match child
    case Hash(hash) => LoadHashed(k, store, hash)
    case Embedded(encoded) => Ok(encoded)
  }

  /** From one node to the value of `target`; every step moves at least one nibble down. */
  function Descend(k: Keccak, store: NodeMap, encoded: Bytes, target: Nibbles, depth: nat)
    : Result<Option<Bytes>, StateError>
    requires |target| == SECURE_KEY_NIBBLES && depth <= SECURE_KEY_NIBBLES
    decreases SECURE_KEY_NIBBLES - depth
  {
    var node :- DecodeNode(encoded);
    match node
    case DecodedLeaf(path, value) => Ok(if target[depth..] == path then Some(value) else None)
    case DecodedExtension(path, child) =>
      if !(path <= target[depth..]) then
        Ok(None)
      else
        var next :- ResolveChild(k, store, child);
        Descend(k, store, next, target, depth + |path|)
    case DecodedBranch(children) =>
      if depth >= SECURE_KEY_NIBBLES then
        Err(InvalidPath("branch beyond secure key"))
      else if children[target[depth]].None? then
        Ok(None)
      else
        var next :- ResolveChild(k, store, children[target[depth]].value);
        Descend(k, store, next, target, depth + 1)
  }

  function ReadKey(k: Keccak, store: NodeMap, root: B256, key: B256): Result<Option<Bytes>, StateError> {
    if root == k(EMPTY_TRIE) then
      Ok(None)
    else
      var encoded :- LoadHashed(k, store, root);
      Descend(k, store, encoded, Unpack(key), 0)
  }

  /** The loop of `proof`: it visits at most 65 nodes on every store, built or not, and stops with
      the answer of the recursive walk. */
  method Proof(k: Keccak, store: NodeMap, root: B256, key: B256)
    returns (value: Result<Option<Bytes>, StateError>, nodes: seq<Bytes>)
    ensures value == ReadKey(k, store, root, key)
    ensures |nodes| <= SECURE_KEY_NIBBLES + 1
    ensures nodes != [] ==> k(nodes[0]) == root
  {
    hide DecodeNode, Unpack;
    nodes := [];
    if root == k(EMPTY_TRIE) {
      return Ok(None), [];
    }
    var target := Unpack(key);
    var loaded := LoadHashed(k, store, root);
    if loaded.Err? {
      return Err(loaded.error), [];
    }
    var encoded := loaded.value;
    var depth := 0;
    while true
      invariant depth <= SECURE_KEY_NIBBLES && |nodes| <= depth
      invariant Descend(k, store, encoded, target, depth) == ReadKey(k, store, root, key)
      invariant if nodes == [] then k(encoded) == root else k(nodes[0]) == root
      decreases SECURE_KEY_NIBBLES - depth
    {
      nodes := nodes + [encoded];
      var decoded := DecodeNode(encoded);
      if decoded.Err? {
        return Err(decoded.error), nodes;
      }
      var next: Result<Bytes, StateError>;
      match decoded.value {
        case DecodedLeaf(path, v) =>
          return Ok(if target[depth..] == path then Some(v) else None), nodes;
        case DecodedExtension(path, child) =>
          if !(path <= target[depth..]) {
            return Ok(None), nodes;
          }
          depth := depth + |path|;
          next := ResolveChild(k, store, child);
        case DecodedBranch(children) =>
          if depth >= SECURE_KEY_NIBBLES {
            return Err(InvalidPath("branch beyond secure key")), nodes;
          }
          var child := children[target[depth]];
          if child.None? {
            return Ok(None), nodes;
          }
          depth := depth + 1;
          next := ResolveChild(k, store, child.value);
      }
      if next.Err? {
        return Err(next.error), nodes;
      }
      encoded := next.value;
    }
  }

  // ----- on built tries -----

  /** The walk for `path` ends at a leaf that has no path left, which the decoder refuses. */
  predicate EndsAtEmptyLeaf(n: Node, path: Nibbles)
    requires WellFormed(n)
  {
    match n
    case Leaf(p, _) => p == []
    case Extension(p, child) => p <= path && EndsAtEmptyLeaf(child, path[|p|..])
    case Branch(children) => path != [] && ChildEndsAtEmptyLeaf(children[path[0]], path[1..])
  }

  predicate ChildEndsAtEmptyLeaf(child: Option<Node>, path: Nibbles)
    requires WellFormedChild(child)
  {
    child.Some? && EndsAtEmptyLeaf(child.value, path)
  }

  const EMPTY_PATH: StateError := InvalidPath("empty leaf/extension path")

  /** A store that answers a hash at all answers it with the one preimage in play. */
  lemma LoadReference(k: Keccak, store: NodeMap, n: Node)
    requires WellFormed(n) && CollisionFree(k, store.Values + {Encode(k, n)})
    ensures var r := ResolveChild(k, store, ReferenceTo(k, n));
            && (r.Ok? ==> r.value == Encode(k, n))
            && (Holds(k, store, {Encode(k, n)}) ==> r.Ok?)
  {
  }

  /** `complete` says the store holds every node the walk may ask for. */
  ghost predicate Answers(r: Result<Option<Bytes>, StateError>, expected: Option<Bytes>, refused: bool,
                          complete: bool) {
    && (r.Ok? ==> r.value == expected && !refused)
    && (complete ==> r.Ok? || (refused && r == Err(EMPTY_PATH)))
  }

  /** Whatever the store holds, a completed walk below a built node returns the tree's answer;
      with all nodes present it completes except at a leaf with an empty path. */
  lemma {:induction false} DescendBuilt(k: Keccak, store: NodeMap, n: Node, target: Nibbles, depth: nat)
    requires |target| == SECURE_KEY_NIBBLES && depth <= SECURE_KEY_NIBBLES
    requires WellFormed(n) && Canonical(n, SECURE_KEY_NIBBLES - depth)
    requires CollisionFree(k, store.Values + Encodings(k, n))
    ensures Answers(Descend(k, store, Encode(k, n), target, depth), Get(n, target[depth..]),
                    EndsAtEmptyLeaf(n, target[depth..]), Holds(k, store, Encodings(k, n)))
    decreases n
  {
    match n
    case Leaf(_, _) =>
      DescendBuiltLeaf(k, store, n, target, depth);
    case Extension(path, child) =>
      DescendBuiltExtension(k, store, n, target, depth);
    case Branch(children) =>
      DescendBuiltBranch(k, store, n, target, depth);
  }

  lemma {:induction false} DescendBuiltBranch(k: Keccak, store: NodeMap, n: Node, target: Nibbles, depth: nat)
    requires |target| == SECURE_KEY_NIBBLES && depth <= SECURE_KEY_NIBBLES
    requires WellFormed(n) && n.Branch? && Canonical(n, SECURE_KEY_NIBBLES - depth)
    requires CollisionFree(k, store.Values + Encodings(k, n))
    ensures Answers(Descend(k, store, Encode(k, n), target, depth), Get(n, target[depth..]),
                    EndsAtEmptyLeaf(n, target[depth..]), Holds(k, store, Encodings(k, n)))
    decreases n, 0
  {
    hide Descend, Encode;
    DescendThroughBranch(k, store, n, target, depth);
    var child := n.children[target[depth]];
    assert target[depth..][1..] == target[depth + 1..];
    assert EncodingsOfChild(k, child) <= Encodings(k, n);
    DescendIntoChild(k, store, child, target, depth + 1);
  }

  lemma DescendBuiltLeaf(k: Keccak, store: NodeMap, n: Node, target: Nibbles, depth: nat)
    requires |target| == SECURE_KEY_NIBBLES && depth <= SECURE_KEY_NIBBLES
    requires WellFormed(n) && n.Leaf?
    ensures Answers(Descend(k, store, Encode(k, n), target, depth), Get(n, target[depth..]),
                    EndsAtEmptyLeaf(n, target[depth..]), Holds(k, store, Encodings(k, n)))
  {
    hide Encode, DecodeNode, Holds;
    DecodeEncodedNode(k, n);
  }

  lemma {:induction false} DescendBuiltExtension(k: Keccak, store: NodeMap, n: Node, target: Nibbles, depth: nat)
    requires |target| == SECURE_KEY_NIBBLES && depth <= SECURE_KEY_NIBBLES
    requires WellFormed(n) && n.Extension? && Canonical(n, SECURE_KEY_NIBBLES - depth)
    requires CollisionFree(k, store.Values + Encodings(k, n))
    ensures Answers(Descend(k, store, Encode(k, n), target, depth), Get(n, target[depth..]),
                    EndsAtEmptyLeaf(n, target[depth..]), Holds(k, store, Encodings(k, n)))
    decreases n, 0
  {
    hide Descend, Encode;
    DescendThroughExtension(k, store, n, target, depth);
    if n.path <= target[depth..] {
      assert target[depth..][|n.path|..] == target[depth + |n.path|..];
      LoadReference(k, store, n.child);
      DescendBuilt(k, store, n.child, target, depth + |n.path|);
    }
  }

  /** What the walk does with a child slot. */
  function IntoChild(k: Keccak, store: NodeMap, child: Option<Node>, target: Nibbles, depth: nat)
    : Result<Option<Bytes>, StateError>
    requires |target| == SECURE_KEY_NIBBLES && depth <= SECURE_KEY_NIBBLES && WellFormedChild(child)
  {
    if child.None? then
      Ok(None)
    else
      var next :- ResolveChild(k, store, ReferenceTo(k, child.value));
      Descend(k, store, next, target, depth)
  }

  lemma DescendThroughExtension(k: Keccak, store: NodeMap, n: Node, target: Nibbles, depth: nat)
    requires |target| == SECURE_KEY_NIBBLES && depth <= SECURE_KEY_NIBBLES
    requires WellFormed(n) && n.Extension?
    ensures Descend(k, store, Encode(k, n), target, depth) ==
            if n.path <= target[depth..] then IntoChild(k, store, Some(n.child), target, depth + |n.path|) else Ok(None)
  {
    hide Encode, DecodeNode;
    DecodeEncodedNode(k, n);
  }

  lemma DescendThroughBranch(k: Keccak, store: NodeMap, n: Node, target: Nibbles, depth: nat)
    requires |target| == SECURE_KEY_NIBBLES && depth < SECURE_KEY_NIBBLES
    requires WellFormed(n) && n.Branch?
    ensures Descend(k, store, Encode(k, n), target, depth) ==
            IntoChild(k, store, n.children[target[depth]], target, depth + 1)
  {
    hide Encode, DecodeNode;
    DecodeEncodedNode(k, n);
  }

  lemma {:induction false} DescendIntoChild(k: Keccak, store: NodeMap, child: Option<Node>, target: Nibbles, depth: nat)
    requires |target| == SECURE_KEY_NIBBLES && depth <= SECURE_KEY_NIBBLES
    requires WellFormedChild(child) && CanonicalChild(child, SECURE_KEY_NIBBLES - depth)
    requires CollisionFree(k, store.Values + EncodingsOfChild(k, child))
    ensures Answers(IntoChild(k, store, child, target, depth), GetChild(child, target[depth..]),
                    ChildEndsAtEmptyLeaf(child, target[depth..]), Holds(k, store, EncodingsOfChild(k, child)))
    decreases child
  {
    if child.Some? {
      LoadReference(k, store, child.value);
      DescendBuilt(k, store, child.value, target, depth);
    }
  }

  // ----- in terms of keys -----

  /** Another leaf differs from `key` in the last nibble only. */
  ghost predicate HasTwin(leaves: Leaves, key: B256) {
    key in leaves && exists other :: other in leaves && other != key && Unpack(other)[..63] == Unpack(key)[..63]
  }

  ghost predicate EntryTwin(es: seq<Entry>, key: Nibbles)
    requires Sorted(es) && |key| == SECURE_KEY_NIBBLES
  {
    && (exists i | 0 <= i < |es| :: es[i].key == key)
    && exists j | 0 <= j < |es| :: TwinAt(es, j, key)
  }

  /** A walk runs into an empty leaf path exactly when its key has a twin. */
  lemma {:induction false} EmptyLeafIffTwin(es: seq<Entry>, depth: nat, key: Nibbles)
    requires Range(es, depth) && |key| == SECURE_KEY_NIBBLES && key[..depth] == es[0].key[..depth]
    ensures WellFormed(Shape(es, depth))
    ensures EndsAtEmptyLeaf(Shape(es, depth), key[depth..]) <==>
            (|es| == 1 && depth == SECURE_KEY_NIBBLES) || EntryTwin(es, key)
    decreases SECURE_KEY_NIBBLES - depth, 1
  {
    ShapeIsCanonical(es, depth);
    if |es| > 1 {
      CommonPrefixShared(es, depth);
      if CommonPrefix(es, depth) > 0 {
        EmptyLeafExtension(es, depth, key);
      } else {
        EmptyLeafBranch(es, depth, key);
      }
    }
  }

  lemma {:induction false} EmptyLeafExtension(es: seq<Entry>, depth: nat, key: Nibbles)
    requires Range(es, depth) && |key| == SECURE_KEY_NIBBLES && key[..depth] == es[0].key[..depth]
    requires |es| > 1 && CommonPrefix(es, depth) > 0
    ensures WellFormed(Shape(es, depth))
    ensures EndsAtEmptyLeaf(Shape(es, depth), key[depth..]) <==> EntryTwin(es, key)
    decreases SECURE_KEY_NIBBLES - depth, 0
  {
    ShapeIsCanonical(es, depth);
    CommonPrefixShared(es, depth);
    var common := CommonPrefix(es, depth);
    var d := depth + common;
    var stem := es[0].key[depth..d];
    assert es[0].key[..d] == es[0].key[..depth] + stem;
    assert key[..d] == key[..depth] + key[depth..d];
    assert key[depth..][..common] == key[depth..d];
    assert key[depth..][common..] == key[d..];
    if stem <= key[depth..] {
      EmptyLeafIffTwin(es, d, key);
    } else {
      forall i | 0 <= i < |es|
        ensures es[i].key != key
      {
        assert es[i].key[..d] == es[0].key[..d];
      }
    }
  }

  lemma {:induction false} EmptyLeafBranch(es: seq<Entry>, depth: nat, key: Nibbles)
    requires Range(es, depth) && |key| == SECURE_KEY_NIBBLES && key[..depth] == es[0].key[..depth]
    requires |es| > 1 && CommonPrefix(es, depth) == 0 && depth < SECURE_KEY_NIBBLES
    ensures WellFormed(Shape(es, depth))
    ensures EndsAtEmptyLeaf(Shape(es, depth), key[depth..]) <==> EntryTwin(es, key)
    decreases SECURE_KEY_NIBBLES - depth, 0
  {
    hide LexLess, Shape, EndsAtEmptyLeaf, Slot;
    BranchEnds(es, depth, key);
    SlotIsRange(es, depth, key[depth]);
    var slot := Slot(es, depth, key[depth]);
    if slot != [] {
      assert key[..depth + 1] == key[..depth] + [key[depth]];
      EmptyLeafIffTwin(slot, depth + 1, key);
      TwinInSlot(es, depth, key);
    } else {
      KeyInSlot(es, depth, key);
    }
  }

  lemma BranchEnds(es: seq<Entry>, depth: nat, key: Nibbles)
    requires Range(es, depth) && |key| == SECURE_KEY_NIBBLES
    requires |es| > 1 && CommonPrefix(es, depth) == 0 && depth < SECURE_KEY_NIBBLES
    ensures WellFormed(Shape(es, depth)) && WellFormedChild(ShapeOfSlot(es, depth, key[depth]))
    ensures EndsAtEmptyLeaf(Shape(es, depth), key[depth..]) <==>
            ChildEndsAtEmptyLeaf(ShapeOfSlot(es, depth, key[depth]), key[depth + 1..])
  {
    ShapeIsCanonical(es, depth);
    SlotIsCanonical(es, depth, key[depth]);
    assert key[depth..][0] == key[depth] && key[depth..][1..] == key[depth + 1..];
  }

  lemma KeyInSlot(es: seq<Entry>, depth: nat, key: Nibbles)
    requires Range(es, depth) && depth < SECURE_KEY_NIBBLES && |key| == SECURE_KEY_NIBBLES
    ensures (exists i | 0 <= i < |es| :: es[i].key == key) <==>
            (exists i | 0 <= i < |Slot(es, depth, key[depth])| :: Slot(es, depth, key[depth])[i].key == key)
  {
    hide LexLess;
    SlotBounds(es, depth, key[depth]);
    var slot := Slot(es, depth, key[depth]);
    var lo := Below(es, depth, key[depth]);
    assert forall i | 0 <= i < |slot| :: slot[i] == es[lo + i];
    if i :| 0 <= i < |es| && es[i].key == key {
      assert slot[i - lo] == es[i];
    }
  }

  /** Twins fall into one slot until the last nibble, where each gets its own. */
  lemma TwinInSlot(es: seq<Entry>, depth: nat, key: Nibbles)
    requires Range(es, depth) && |es| > 1 && depth < SECURE_KEY_NIBBLES && |key| == SECURE_KEY_NIBBLES
    requires key[..depth] == es[0].key[..depth]
    requires Slot(es, depth, key[depth]) != [] && Sorted(Slot(es, depth, key[depth]))
    ensures var slot := Slot(es, depth, key[depth]);
            EntryTwin(es, key) <==> (|slot| == 1 && depth + 1 == SECURE_KEY_NIBBLES) || EntryTwin(slot, key)
  {
    if depth == 63 {
      LastNibble(es, key);
    } else {
      KeyInSlot(es, depth, key);
      OtherInSlot(es, depth, key);
    }
  }

  predicate TwinAt(es: seq<Entry>, j: nat, key: Nibbles)
    requires Sorted(es) && |key| == SECURE_KEY_NIBBLES && j < |es|
  {
    es[j].key != key && es[j].key[..63] == key[..63]
  }

  lemma OtherInSlot(es: seq<Entry>, depth: nat, key: Nibbles)
    requires Range(es, depth) && depth < 63 && |key| == SECURE_KEY_NIBBLES
    requires Sorted(Slot(es, depth, key[depth]))
    ensures var slot := Slot(es, depth, key[depth]);
            (exists j | 0 <= j < |es| :: TwinAt(es, j, key)) <==> (exists j | 0 <= j < |slot| :: TwinAt(slot, j, key))
  {
    hide LexLess;
    SlotBounds(es, depth, key[depth]);
    var slot := Slot(es, depth, key[depth]);
    var lo := Below(es, depth, key[depth]);
    assert forall i | 0 <= i < |slot| :: slot[i] == es[lo + i];
    if j :| 0 <= j < |es| && TwinAt(es, j, key) {
      PrefixAt(es[j].key, key, 63);
      assert slot[j - lo] == es[j];
      assert TwinAt(slot, j - lo, key);
    }
    if j :| 0 <= j < |slot| && TwinAt(slot, j, key) {
      assert TwinAt(es, lo + j, key);
    }
  }

  lemma LastNibble(es: seq<Entry>, key: Nibbles)
    requires Range(es, 63) && |es| > 1 && |key| == SECURE_KEY_NIBBLES && key[..63] == es[0].key[..63]
    requires Slot(es, 63, key[63]) != []
    ensures |Slot(es, 63, key[63])| == 1 && EntryTwin(es, key)
  {
    hide LexLess, Below;
    var slot := Slot(es, 63, key[63]);
    SlotBounds(es, 63, key[63]);
    var lo := Below(es, 63, key[63]);
    forall i | lo <= i < lo + |slot|
      ensures es[i].key == key
    {
      var other := es[i].key;
      assert other == other[..63] + [other[63]];
      assert key == key[..63] + [key[63]];
    }
    LexIrreflexive(key);
    var last := lo + |slot| - 1;
    assert es[lo].key == es[last].key == key;
    assert lo == last;
    if lo == 0 {
      assert LexLess(es[0].key, es[1].key);
      assert TwinAt(es, 1, key);
    } else {
      assert LexLess(es[0].key, es[lo].key);
      assert TwinAt(es, 0, key);
    }
  }

  lemma UnpackInjective(a: B256, b: B256)
    requires Unpack(a) == Unpack(b)
    ensures a == b
  {
    PackUnpack(a);
    PackUnpack(b);
  }

  lemma TwinOfKey(leaves: Leaves, key: B256)
    ensures EntryTwin(Entries(leaves), Unpack(key)) <==> HasTwin(leaves, key)
  {
    hide Entries, Unpack, LexLess;
    if HasTwin(leaves, key) {
      var other :| other in leaves && other != key && Unpack(other)[..63] == Unpack(key)[..63];
      var i := EntryOf(leaves, key);
      var j := EntryOf(leaves, other);
      if Unpack(other) == Unpack(key) {
        UnpackInjective(other, key);
      }
      assert TwinAt(Entries(leaves), j, Unpack(key));
    }
    if EntryTwin(Entries(leaves), Unpack(key)) {
      TwinOfEntry(leaves, key);
    }
  }

  lemma EntryOf(leaves: Leaves, key: B256) returns (i: nat)
    requires key in leaves
    ensures i < |Entries(leaves)| && Entries(leaves)[i].key == Unpack(key)
  {
    var keys := Ordered.SortedKeys(leaves.Keys);
    i :| 0 <= i < |keys| && keys[i] == key;
  }

  lemma KeyOf(leaves: Leaves, i: nat) returns (key: B256)
    requires i < |Entries(leaves)|
    ensures key in leaves && Entries(leaves)[i].key == Unpack(key)
  {
    key := Ordered.SortedKeys(leaves.Keys)[i];
  }

  lemma TwinOfEntry(leaves: Leaves, key: B256)
    requires EntryTwin(Entries(leaves), Unpack(key))
    ensures HasTwin(leaves, key)
  {
    var es := Entries(leaves);
    var i :| 0 <= i < |es| && es[i].key == Unpack(key);
    var j :| 0 <= j < |es| && TwinAt(es, j, Unpack(key));
    var present := KeyOf(leaves, i);
    UnpackInjective(present, key);
    var other := KeyOf(leaves, j);
  }

  /** Reads are sound on every store: against the root of `leaves`, a completed read of any key,
      present or absent, returns what `leaves` holds, or two preimages in play collide. */
  lemma ReadIsSound(k: Keccak, store: NodeMap, leaves: Leaves, key: B256)
    requires CollisionFree(k, store.Values + Preimages(k, leaves) + {EMPTY_TRIE})
    requires ReadKey(k, store, RootHash(k, leaves), key).Ok?
    ensures ReadKey(k, store, RootHash(k, leaves), key).value == Lookup(leaves, key)
  {
    if leaves != map[] {
      ReadBuilt(k, store, leaves, key);
    }
  }

  /** Reads are complete on the built store: they fail for exactly the present keys with a twin,
      always with the decoder's refusal of an empty path. */
  lemma ReadIsComplete(k: Keccak, store: NodeMap, leaves: Leaves, key: B256)
    requires CollisionFree(k, store.Values + Preimages(k, leaves) + {EMPTY_TRIE})
    requires leaves != map[] ==> Holds(k, store, Preimages(k, leaves))
    ensures ReadKey(k, store, RootHash(k, leaves), key) ==
            if HasTwin(leaves, key) then Err(EMPTY_PATH) else Ok(Lookup(leaves, key))
  {
    if leaves != map[] {
      ReadBuilt(k, store, leaves, key);
    }
  }

  lemma ReadBuilt(k: Keccak, store: NodeMap, leaves: Leaves, key: B256)
    requires leaves != map[]
    requires CollisionFree(k, store.Values + Preimages(k, leaves) + {EMPTY_TRIE})
    ensures Answers(ReadKey(k, store, RootHash(k, leaves), key), Lookup(leaves, key), HasTwin(leaves, key),
                    Holds(k, store, Preimages(k, leaves)))
  {
    var es, path := Entries(leaves), Unpack(key);
    BuiltTrie(leaves);
    EncodingIsNotEmptyTrie(k, Trie(leaves));
    DescendBuilt(k, store, Trie(leaves), path, 0);
    assert path[0..] == path;
    TrieHolds(leaves, key);
    EmptyLeafIffTwin(es, 0, path);
    TwinOfKey(leaves, key);
    ReadStartsAtRoot(k, store, leaves, key);
  }

  lemma ReadStartsAtRoot(k: Keccak, store: NodeMap, leaves: Leaves, key: B256)
    requires leaves != map[] && Encode(k, Trie(leaves)) != EMPTY_TRIE
    requires CollisionFree(k, store.Values + Preimages(k, leaves) + {EMPTY_TRIE})
    ensures var root := RootHash(k, leaves);
            var r := ReadKey(k, store, root, key);
            if root in store && k(store[root]) == root then
              r == Descend(k, store, Encode(k, Trie(leaves)), Unpack(key), 0)
            else
              r.Err? && !Holds(k, store, Preimages(k, leaves))
  {
    hide Encode, Trie, Descend, Unpack;
    var e := Encode(k, Trie(leaves));
    assert e in Preimages(k, leaves);
    assert k(e) != k(EMPTY_TRIE);
    var root := RootHash(k, leaves);
    if root in store && k(store[root]) == root {
      assert store[root] in store.Values;
      assert store[root] == e;
    }
  }
}
