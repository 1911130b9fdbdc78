/** The walk over one shared path buffer, and two states its reads refuse. */
module TrieWalker {
  import opened Wrappers
  import opened Bytes
  import opened Hashing
  import opened Rlp
  import opened HexPrefix
  import opened TrieNode
  import opened TrieBinding
  import opened TrieBuild
  import opened TrieCommit
  import opened TrieLookup
  import opened TrieWalk

  /** The mutable arguments of the walk: one path buffer, the leaves and the visited hashes. */
  class Walker {
    const k: Keccak
    const store: NodeMap
    var path: Nibbles
    var leaves: map<B256, Bytes>
    var visited: set<B256>

    constructor (k: Keccak, store: NodeMap, root: B256)
      ensures this.k == k && this.store == store
      ensures path == [] && State() == Walked(map[], {root})
    {
      this.k, this.store := k, store;
      path, leaves, visited := [], map[], {root};
    }

    function State(): Walked
      reads this
    {
      Walked(leaves, visited)
    }

    /** Pushes, walks and truncates; on success the path buffer is back where it was. */
    method WalkEncoded(encoded: Bytes) returns (r: Result<(), StateError>)
      modifies this
      ensures var spec := WalkNode(k, store, encoded, old(path), old(State()));
              if spec.Ok? then r == Ok(()) && State() == spec.value && path == old(path) else r == Err(spec.error)
      decreases store.Keys - visited, |encoded|, 1, 0
    {
      hide DecodeNode, PackKey;
      var node :- DecodeNode(encoded);
      match node {
        case DecodedLeaf(suffix, value) =>
          path := path + suffix;
          var key :- PackKey(path);
          if key in leaves {
            return Err(DUPLICATE);
          }
          leaves := leaves[key := value];
          path := path[..|path| - |suffix|];
          assert path == old(path);
        case DecodedExtension(suffix, child) =>
          path := path + suffix;
          DecodedChildren(encoded);
          var walked :- WalkReferenced(Some(child));
          path := path[..|path| - |suffix|];
          assert path == old(path);
        case DecodedBranch(children) =>
          if |path| >= SECURE_KEY_NIBBLES {
            return Err(InvalidPath("branch depth"));
          }
          DecodedChildren(encoded);
          var walked :- WalkSlots(children, |encoded|);
      }
      return Ok(());
    }

    /** The branch loop: one push and pop per child. */
    method WalkSlots(children: seq<Option<ChildReference>>, ghost bound: nat) returns (r: Result<(), StateError>)
      requires |children| == 16 && forall i | 0 <= i < 16 :: Size(children[i]) < bound
      modifies this
      ensures var spec := WalkChildren(k, store, children, 0, old(path), old(State()), bound);
              if spec.Ok? then r == Ok(()) && State() == spec.value && path == old(path) else r == Err(spec.error)
      decreases store.Keys - visited, bound, 0, 0
    {
      hide WalkChild;
      ghost var goal := WalkChildren(k, store, children, 0, path, State(), bound);
      for nibble := 0 to 16
        invariant path == old(path)
        invariant old(visited) <= visited
        invariant goal == WalkChildren(k, store, children, nibble, path, State(), bound)
      {
        if children[nibble].Some? {
          path := path + [nibble];
          assert path[..|path| - 1] == old(path);
          var walked :- WalkReferenced(children[nibble]);
          path := path[..|path| - 1];
        } else {
          WalkNothing(k, store, path + [nibble], State());
        }
      }
      return Ok(());
    }

    method WalkReferenced(child: Option<ChildReference>) returns (r: Result<(), StateError>)
      requires child.Some?
      modifies this
      ensures var spec := WalkChild(k, store, child, old(path), old(State()));
              if spec.Ok? then r == Ok(()) && State() == spec.value && path == old(path) else r == Err(spec.error)
      decreases store.Keys - visited, Size(child), 2, 0
    {
      hide WalkNode;
      match child.value {
        case Embedded(encoded) =>
          r := WalkEncoded(encoded);
        case Hash(hash) =>
          if hash in visited {
            return Err(CYCLE);
          }
          visited := visited + {hash};
          var loaded := LoadHashed(k, store, hash);
          if loaded.Err? {
            return Err(loaded.error);
          }
          assert hash in store.Keys - old(visited) && hash !in store.Keys - visited;
          r := WalkEncoded(loaded.value);
      }
    }
  }

  lemma WalkNothing(k: Keccak, store: NodeMap, path: Nibbles, st: Walked)
    ensures WalkChild(k, store, None, path, st) == Ok(st)
  {
  }

  /** `collect_leaves` with its mutable walker. */
  method Collect(k: Keccak, store: NodeMap, root: B256) returns (r: Result<map<B256, Bytes>, StateError>)
    ensures r == CollectLeaves(k, store, root)
  {
    hide WalkNode;
    if root == k(EMPTY_TRIE) {
      return Ok(map[]);
    }
    var loaded := LoadHashed(k, store, root);
    if loaded.Err? {
      return Err(loaded.error);
    }
    var walker := new Walker(k, store, root);
    var walked :- walker.WalkEncoded(loaded.value);
    return Ok(walker.leaves);
  }

  // ----- refused states -----

  function TwoLeaves(a: B256, b: B256, value: Value): Leaves {
    map[a := value, b := value]
  }

  /** Two keys that differ in their first nibble only and hold one value give two identical leaf
      nodes; the second visit to their hash is taken for a cycle. */
  lemma EqualSubtreesRefused(k: Keccak, store: NodeMap, suffix: Nibbles, value: Value)
    requires |suffix| == 63
    requires var leaves := TwoLeaves(Pack([0] + suffix), Pack([1] + suffix), value);
             && Holds(k, store, Preimages(k, leaves))
             && CollisionFree(k, store.Values + Preimages(k, leaves) + {EMPTY_TRIE})
    ensures var leaves := TwoLeaves(Pack([0] + suffix), Pack([1] + suffix), value);
            CollectLeaves(k, store, RootHash(k, leaves)) == Err(CYCLE)
  {
    hide CollectLeaves, Holds, Preimages, RootHash, HasTwin, HashesBelow, Trie, Pack;
    var a, b := Pack([0] + suffix), Pack([1] + suffix);
    var leaves := TwoLeaves(a, b, value);
    var leaf := Leaf(suffix, value);
    assert a in leaves;
    TwoLeafTrie(suffix, value);
    TwoHashes(k, leaf);
    var hashes := HashesOf(k, leaves);
    assert hashes[1] == hashes[2];
    assert !Distinct(hashes);
    forall key | key in leaves
      ensures !HasTwin(leaves, key)
    {
      FirstNibbleApart(suffix, value, key);
    }
    HeldLoads(k, store, leaves);
    CollectIsExact(k, store, leaves);
  }

  lemma FirstNibbleApart(suffix: Nibbles, value: Value, key: B256)
    requires |suffix| == 63 && key in TwoLeaves(Pack([0] + suffix), Pack([1] + suffix), value)
    ensures !HasTwin(TwoLeaves(Pack([0] + suffix), Pack([1] + suffix), value), key)
  {
    hide Pack, Unpack;
    UnpackPack([0] + suffix);
    UnpackPack([1] + suffix);
    assert Unpack(Pack([0] + suffix))[..63][0] == 0 && Unpack(Pack([1] + suffix))[..63][0] == 1;
  }

  /** Two keys that differ in their last nibble only get leaves with an empty path below a branch: from
      the complete node set of their own root neither of them can be read and no walk completes. */
  lemma LastNibbleRefused(k: Keccak, store: NodeMap, prefix: Nibbles, value: Value)
    requires |prefix| == 63
    requires var leaves := TwoLeaves(Pack(prefix + [0]), Pack(prefix + [1]), value);
             && Holds(k, store, Preimages(k, leaves))
             && CollisionFree(k, store.Values + Preimages(k, leaves) + {EMPTY_TRIE})
    ensures var leaves := TwoLeaves(Pack(prefix + [0]), Pack(prefix + [1]), value);
            && ReadKey(k, store, RootHash(k, leaves), Pack(prefix + [0])) == Err(EMPTY_PATH)
            && ReadKey(k, store, RootHash(k, leaves), Pack(prefix + [1])) == Err(EMPTY_PATH)
            && CollectLeaves(k, store, RootHash(k, leaves)) == Err(EMPTY_PATH)
  {
    hide CollectLeaves, ReadKey, Holds, Preimages, RootHash, HashesOf, Pack, Unpack;
    var a, b := Pack(prefix + [0]), Pack(prefix + [1]);
    var leaves := TwoLeaves(a, b, value);
    UnpackPack(prefix + [0]);
    UnpackPack(prefix + [1]);
    assert Unpack(a)[..63] == prefix == Unpack(b)[..63];
    assert Unpack(a)[63] == 0 && Unpack(b)[63] == 1;
    assert a in leaves && b in leaves && a != b;
    assert HasTwin(leaves, a) && HasTwin(leaves, b);
    ReadIsComplete(k, store, leaves, a);
    ReadIsComplete(k, store, leaves, b);
    TwinWalkStops(k, store, prefix, value);
  }

  /** The tree of two keys that differ in their last nibble only. */
  function TwinTree(prefix: Nibbles, value: Value): Node {
    Extension(prefix, TwoLeafBranch(Leaf([], value)))
  }

  lemma TwinShape(prefix: Nibbles, value: Value)
    requires |prefix| == 63
    ensures WellFormed(TwinTree(prefix, value)) && Canonical(TwinTree(prefix, value), SECURE_KEY_NIBBLES)
  {
    var n := TwoLeafBranch(Leaf([], value));
    assert n.children[0].Some? && n.children[1].Some?;
    assert forall i | 0 <= i < 16 :: WellFormedChild(n.children[i]) && CanonicalChild(n.children[i], 0);
  }

  lemma TwinGet(prefix: Nibbles, value: Value, path: Nibbles)
    requires |prefix| == 63 && |path| == SECURE_KEY_NIBBLES && WellFormed(TwinTree(prefix, value))
    ensures Get(TwinTree(prefix, value), path) == if path[..63] == prefix && path[63] < 2 then Some(value) else None
  {
    var n := TwoLeafBranch(Leaf([], value));
    if prefix <= path {
      var rest := path[63..];
      assert path[..63] == prefix && rest[0] == path[63] && rest[1..] == [];
      assert Get(n, rest) == GetChild(n.children[rest[0]], rest[1..]);
    } else {
      assert path[..63] != prefix;
    }
  }

  lemma TwinLookup(prefix: Nibbles, value: Value, path: Nibbles)
    requires |prefix| == 63 && |path| == SECURE_KEY_NIBBLES
    ensures Lookup(TwoLeaves(Pack(prefix + [0]), Pack(prefix + [1]), value), Pack(path))
         == if path[..63] == prefix && path[63] < 2 then Some(value) else None
  {
    hide Pack, Unpack;
    UnpackPack(path);
    KeyOfPath(prefix, [0], Pack(path));
    KeyOfPath(prefix, [1], Pack(path));
    assert path[63..] == [path[63]];
  }

  lemma TwinTrie(prefix: Nibbles, value: Value)
    requires |prefix| == 63
    ensures var leaves := TwoLeaves(Pack(prefix + [0]), Pack(prefix + [1]), value);
            leaves != map[] && Trie(leaves) == TwinTree(prefix, value)
  {
    hide Trie, Pack, Unpack, Get, Lookup, Canonical, WellFormed, TwinTree;
    var leaves := TwoLeaves(Pack(prefix + [0]), Pack(prefix + [1]), value);
    assert Pack(prefix + [0]) in leaves;
    BuiltTrie(leaves);
    TwinShape(prefix, value);
    forall path: Nibbles | |path| == SECURE_KEY_NIBBLES
      ensures Get(Trie(leaves), path) == Get(TwinTree(prefix, value), path)
    {
      UnpackPack(path);
      TrieHolds(leaves, Pack(path));
      TwinLookup(prefix, value, path);
      TwinGet(prefix, value, path);
    }
    CanonicalUnique(Trie(leaves), TwinTree(prefix, value), SECURE_KEY_NIBBLES);
  }

  /** Different trees of one collision-free set have different hashes. */
  lemma HashesApart(k: Keccak, a: Node, b: Node, all: set<Bytes>)
    requires WellFormed(a) && WellFormed(b) && a != b
    requires CollisionFree(k, all) && Encodings(k, a) <= all && Encodings(k, b) <= all
    ensures k(Encode(k, a)) != k(Encode(k, b))
  {
    hide Encode, Encodings;
    if k(Encode(k, a)) == k(Encode(k, b)) {
      FewerCollide(k, Encodings(k, a) + Encodings(k, b), all);
      assert Encode(k, a) in Encodings(k, a) && Encode(k, b) in Encodings(k, b);
      EncodeInjective(k, a, b);
    }
  }

  /** Following an unvisited reference to a node that is stored is walking the node. */
  lemma FollowStored(k: Keccak, store: NodeMap, n: Node, path: Nibbles, st: Walked)
    requires WellFormed(n) && Holds(k, store, {Encode(k, n)}) && CollisionFree(k, store.Values + {Encode(k, n)})
    requires k(Encode(k, n)) !in st.visited
    ensures exists more: set<B256> | more <= {k(Encode(k, n))} ::
              WalkChild(k, store, Some(ReferenceTo(k, n)), path, st)
              == WalkNode(k, store, Encode(k, n), path, st.(visited := st.visited + more))
  {
    hide Encode, WalkNode;
    LoadReference(k, store, n);
    var e := Encode(k, n);
    if |e| < 32 {
      var none: set<B256> := {};
      assert st.(visited := st.visited + none) == st;
    } else {
      assert LoadHashed(k, store, k(e)) == Ok(e);
      assert {k(e)} <= {k(e)};
    }
  }

  lemma EmptyLeafStops(k: Keccak, store: NodeMap, value: Value, path: Nibbles, st: Walked)
    requires |value| <= MAX_VECTOR
    ensures WalkNode(k, store, Encode(k, Leaf([], value)), path, st) == Err(EMPTY_PATH)
  {
    hide Encode, DecodeNode;
    DecodeEncodedNode(k, Leaf([], value));
  }

  lemma BranchStops(k: Keccak, store: NodeMap, value: Value, path: Nibbles, st: Walked)
    requires |path| == 63 && WellFormed(TwoLeafBranch(Leaf([], value)))
    requires var leaf := Encode(k, Leaf([], value));
             Holds(k, store, {leaf}) && CollisionFree(k, store.Values + {leaf}) && k(leaf) !in st.visited
    ensures WalkNode(k, store, Encode(k, TwoLeafBranch(Leaf([], value))), path, st) == Err(EMPTY_PATH)
  {
    hide Encode, DecodeNode, WalkChild, Holds, CollisionFree;
    var n := TwoLeafBranch(Leaf([], value));
    DecodeEncodedNode(k, n);
    FollowStored(k, store, Leaf([], value), path + [0], st);
    var more: set<B256> :| more <= {k(Encode(k, Leaf([], value)))} &&
      WalkChild(k, store, Some(ReferenceTo(k, Leaf([], value))), path + [0], st)
      == WalkNode(k, store, Encode(k, Leaf([], value)), path + [0], st.(visited := st.visited + more));
    EmptyLeafStops(k, store, value, path + [0], st.(visited := st.visited + more));
    assert n.children[0] == Some(Leaf([], value));
  }

  /** The walk meets the first empty leaf before any hash a second time. */
  lemma TwinWalkStops(k: Keccak, store: NodeMap, prefix: Nibbles, value: Value)
    requires |prefix| == 63
    requires var leaves := TwoLeaves(Pack(prefix + [0]), Pack(prefix + [1]), value);
             && Holds(k, store, Preimages(k, leaves))
             && CollisionFree(k, store.Values + Preimages(k, leaves) + {EMPTY_TRIE})
    ensures var leaves := TwoLeaves(Pack(prefix + [0]), Pack(prefix + [1]), value);
            CollectLeaves(k, store, RootHash(k, leaves)) == Err(EMPTY_PATH)
  {
    hide Encode, DecodeNode, Pack, Unpack, Trie, WalkChild, WalkNode, Canonical;
    TwinTrie(prefix, value);
    TwinShape(prefix, value);
    var leaves := TwoLeaves(Pack(prefix + [0]), Pack(prefix + [1]), value);
    TwinRootStops(k, store, prefix, value, store.Values + Preimages(k, leaves) + {EMPTY_TRIE});
    CollectIsExact(k, store, leaves);
  }

  lemma TwinEncodings(k: Keccak, prefix: Nibbles, value: Value)
    requires WellFormed(TwinTree(prefix, value))
    ensures var branch := TwoLeafBranch(Leaf([], value));
            && WellFormed(branch) && Encodings(k, branch) <= Encodings(k, TwinTree(prefix, value))
            && Encodings(k, Leaf([], value)) <= Encodings(k, TwinTree(prefix, value))
  {
    hide Encode;
    var branch := TwoLeafBranch(Leaf([], value));
    assert EncodingsOfChild(k, branch.children[0]) <= EncodingsOfAll(k, branch.children);
  }

  lemma TwinRootStops(k: Keccak, store: NodeMap, prefix: Nibbles, value: Value, all: set<Bytes>)
    requires |prefix| == 63 && WellFormed(TwinTree(prefix, value)) && store.Values <= all && EMPTY_TRIE in all
    requires CollisionFree(k, all) && Encodings(k, TwinTree(prefix, value)) <= all
    requires Holds(k, store, Encodings(k, TwinTree(prefix, value)))
    ensures var root := k(Encode(k, TwinTree(prefix, value)));
            WalkNode(k, store, Encode(k, TwinTree(prefix, value)), [], Walked(map[], {root})) == Err(EMPTY_PATH)
  {
    hide Encode, DecodeNode, Encodings, WalkChild, Holds, CollisionFree;
    var root, branch, leaf := TwinTree(prefix, value), TwoLeafBranch(Leaf([], value)), Leaf([], value);
    TwinEncodings(k, prefix, value);
    HashesApart(k, root, branch, all);
    HashesApart(k, root, leaf, all);
    HashesApart(k, branch, leaf, all);
    FewerCollide(k, store.Values + {Encode(k, branch)}, all);
    FewerCollide(k, store.Values + {Encode(k, leaf)}, all);
    HoldsOne(k, store, Encodings(k, root), Encode(k, branch));
    HoldsOne(k, store, Encodings(k, root), Encode(k, leaf));
    var st := Walked(map[], {k(Encode(k, root))});
    DecodeEncodedNode(k, root);
    FollowStored(k, store, branch, [] + prefix, st);
    var more: set<B256> :| more <= {k(Encode(k, branch))} &&
      WalkChild(k, store, Some(ReferenceTo(k, branch)), [] + prefix, st)
      == WalkNode(k, store, Encode(k, branch), [] + prefix, st.(visited := st.visited + more));
    BranchStops(k, store, value, [] + prefix, st.(visited := st.visited + more));
  }

  lemma HoldsOne(k: Keccak, store: NodeMap, encodings: set<Bytes>, e: Bytes)
    requires Holds(k, store, encodings) && e in encodings
    ensures Holds(k, store, {e})
  {
  }

  function TwoLeafBranch(leaf: Node): Node {
    Branch(seq(16, i => if i < 2 then Some(leaf) else None))
  }

  lemma TwoLeafShape(leaf: Node)
    requires WellFormed(leaf) && leaf.Leaf? && |leaf.path| == 63
    ensures WellFormed(TwoLeafBranch(leaf)) && Canonical(TwoLeafBranch(leaf), SECURE_KEY_NIBBLES)
  {
    var n := TwoLeafBranch(leaf);
    assert n.children[0].Some? && n.children[1].Some?;
    assert forall i | 0 <= i < 16 :: WellFormedChild(n.children[i]) && CanonicalChild(n.children[i], 63);
  }

  lemma TwoLeafGet(leaf: Node, path: Nibbles)
    requires WellFormed(leaf) && leaf.Leaf? && |leaf.path| == 63 && |path| == SECURE_KEY_NIBBLES
    ensures WellFormed(TwoLeafBranch(leaf))
    ensures Get(TwoLeafBranch(leaf), path) == if path[0] < 2 && path[1..] == leaf.path then Some(leaf.value) else None
  {
    hide Canonical;
    TwoLeafShape(leaf);
    var n := TwoLeafBranch(leaf);
    assert Get(n, path) == GetChild(n.children[path[0]], path[1..]);
  }

  lemma TwoLeafLookup(suffix: Nibbles, value: Value, path: Nibbles)
    requires |suffix| == 63 && |path| == SECURE_KEY_NIBBLES
    ensures Lookup(TwoLeaves(Pack([0] + suffix), Pack([1] + suffix), value), Pack(path))
         == if path[0] < 2 && path[1..] == suffix then Some(value) else None
  {
    hide Pack, Unpack;
    UnpackPack(path);
    KeyOfPath([0], suffix, Pack(path));
    KeyOfPath([1], suffix, Pack(path));
    assert path[..1] == [path[0]];
  }

  lemma TwoLeafTrie(suffix: Nibbles, value: Value)
    requires |suffix| == 63
    ensures var leaves := TwoLeaves(Pack([0] + suffix), Pack([1] + suffix), value);
            leaves != map[] && Trie(leaves) == TwoLeafBranch(Leaf(suffix, value))
  {
    hide Trie, Pack, Unpack, Get, Lookup, Canonical, WellFormed, TwoLeafBranch;
    var leaves := TwoLeaves(Pack([0] + suffix), Pack([1] + suffix), value);
    var leaf := Leaf(suffix, value);
    LeafIsWellFormed(suffix, value);
    var n := TwoLeafBranch(leaf);
    assert Pack([0] + suffix) in leaves;
    BuiltTrie(leaves);
    TwoLeafShape(leaf);
    forall path: Nibbles | |path| == SECURE_KEY_NIBBLES
      ensures Get(Trie(leaves), path) == Get(n, path)
    {
      UnpackPack(path);
      TrieHolds(leaves, Pack(path));
      TwoLeafLookup(suffix, value, path);
      TwoLeafGet(leaf, path);
    }
    CanonicalUnique(Trie(leaves), n, SECURE_KEY_NIBBLES);
  }

  lemma LeafIsWellFormed(suffix: Nibbles, value: Value)
    requires |suffix| == 63
    ensures WellFormed(Leaf(suffix, value))
  {
  }

  lemma TwoHashes(k: Keccak, leaf: Node)
    requires WellFormed(leaf) && leaf.Leaf? && |leaf.path| == 63
    ensures WellFormed(TwoLeafBranch(leaf))
    ensures var below := HashesBelow(k, TwoLeafBranch(leaf)); |below| >= 2 && below[0] == below[1]
  {
    hide Encode, EncodeBytes, EncodePayload, CompactEncode;
    var n := TwoLeafBranch(leaf);
    assert forall i | 0 <= i < 16 :: WellFormedChild(n.children[i]);
    LeafIsHashed(k, leaf);
    var h := k(Encode(k, leaf));
    assert HashesOfChild(k, n.children[0]) == [h];
    assert HashesOfChild(k, n.children[1]) == [h];
    assert HashesFrom(k, n.children, 0) == [h] + ([h] + HashesFrom(k, n.children, 2));
  }

  lemma LeafIsHashed(k: Keccak, leaf: Node)
    requires WellFormed(leaf) && leaf.Leaf? && |leaf.path| == 63
    ensures |Encode(k, leaf)| >= 32
  {
    assert |CompactEncode(leaf.path, true)| == 32;
  }
}
