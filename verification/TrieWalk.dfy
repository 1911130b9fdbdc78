/** The full walk of `EthereumStateCommitment::collect_leaves`, on any node store. */
module TrieWalk {
  import opened Wrappers
  import opened Bytes
  import opened Hashing
  import opened Rlp
  import opened HexPrefix
  import opened TrieNode
  import opened TrieBinding
  import opened TrieBuild
  import opened TrieCommit
  import opened TrieLookup

  datatype Walked = Walked(leaves: map<B256, Bytes>, visited: set<B256>)

  type Walk = Result<Walked, StateError>

  const DUPLICATE: StateError := InvalidPath("duplicate leaf")
  const CYCLE: StateError := InvalidPath("trie node cycle")

  function Size(child: Option<ChildReference>): nat {
    if child.Some? && child.value.Embedded? then |child.value.encoded| else 0
  }

  /** The children of a decoded node are shorter than the node. */
  lemma DecodedChildren(encoded: Bytes)
    requires DecodeNode(encoded).Ok?
    ensures var n := DecodeNode(encoded).value;
            && (n.DecodedExtension? ==> Size(Some(n.child)) < |encoded|)
            && (n.DecodedBranch? ==> |n.children| == 16 && forall i | 0 <= i < 16 :: Size(n.children[i]) < |encoded|)
  {
  }

  /** Terminates on every store: a hash is followed once, an inline node is shorter than its parent. */
  function WalkNode(k: Keccak, store: NodeMap, encoded: Bytes, path: Nibbles, st: Walked): (r: Walk)
    ensures r.Ok? ==> st.visited <= r.value.visited
    decreases store.Keys - st.visited, |encoded|, 1, 0
  {
    var node :- DecodeNode(encoded);
    match node
    case DecodedLeaf(suffix, value) =>
      var key :- PackKey(path + suffix);
      if key in st.leaves then Err(DUPLICATE) else Ok(st.(leaves := st.leaves[key := value]))
    case DecodedExtension(suffix, child) =>
      WalkChild(k, store, Some(child), path + suffix, st)
    case DecodedBranch(children) =>
      if |path| >= SECURE_KEY_NIBBLES then
        Err(InvalidPath("branch depth"))
      else
        WalkChildren(k, store, children, 0, path, st, |encoded|)
  }

  function WalkChild(k: Keccak, store: NodeMap, child: Option<ChildReference>, path: Nibbles, st: Walked): (r: Walk)
    ensures r.Ok? ==> st.visited <= r.value.visited
    decreases store.Keys - st.visited, Size(child), 2, 0
  {
    match child
    case None => Ok(st)
    case Some(Embedded(encoded)) => WalkNode(k, store, encoded, path, st)
    case Some(Hash(hash)) =>
      if hash in st.visited then
        Err(CYCLE)
      else
        var encoded :- LoadHashed(k, store, hash);
        var next := st.(visited := st.visited + {hash});
        assert store.Keys - next.visited < store.Keys - st.visited by {
          assert hash in store.Keys - st.visited;
        }
        WalkNode(k, store, encoded, path, next)
  }

  function WalkChildren(k: Keccak, store: NodeMap, children: seq<Option<ChildReference>>, from: nat, path: Nibbles,
                        st: Walked, ghost bound: nat): (r: Walk)
    requires |children| == 16 && from <= 16
    requires forall i | 0 <= i < 16 :: Size(children[i]) < bound
    ensures r.Ok? ==> st.visited <= r.value.visited
    decreases store.Keys - st.visited, bound, 0, 16 - from
  {
    if from == 16 then
      Ok(st)
    else
      var next :- WalkChild(k, store, children[from], path + [from], st);
      WalkChildren(k, store, children, from + 1, path, next, bound)
  }

  function CollectLeaves(k: Keccak, store: NodeMap, root: B256): Result<map<B256, Bytes>, StateError> {
    if root == k(EMPTY_TRIE) then
      Ok(map[])
    else
      var encoded :- LoadHashed(k, store, root);
      var walked :- WalkNode(k, store, encoded, [], Walked(map[], {root}));
      Ok(walked.leaves)
  }

  // ----- what a built tree makes the walk do -----

  /** Hashes the walk follows below a node, in order. */
  ghost function HashesBelow(k: Keccak, n: Node): seq<B256>
    requires WellFormed(n)
    decreases n, 0
  {
    match n
    case Leaf(_, _) => []
    case Extension(_, child) => HashOf(k, child) + HashesBelow(k, child)
    case Branch(children) => HashesFrom(k, children, 0)
  }

  ghost function HashOf(k: Keccak, n: Node): seq<B256>
    requires WellFormed(n)
  {
    if |Encode(k, n)| < 32 then [] else [k(Encode(k, n))]
  }

  ghost function HashesOfChild(k: Keccak, child: Option<Node>): seq<B256>
    requires WellFormedChild(child)
    decreases child, 0
  {
    if child.None? then [] else HashOf(k, child.value) + HashesBelow(k, child.value)
  }

  ghost function HashesFrom(k: Keccak, children: seq<Option<Node>>, from: nat): seq<B256>
    requires WellFormedAll(children) && from <= |children|
    decreases children, |children| - from
  {
    if from == |children| then [] else HashesOfChild(k, children[from]) + HashesFrom(k, children, from + 1)
  }

  /** None of the hashes is in `visited` and none occurs twice. */
  ghost predicate Fresh(hashes: seq<B256>, visited: set<B256>) {
    hashes == [] || (hashes[0] !in visited && Fresh(hashes[1..], visited + {hashes[0]}))
  }

  ghost function Elements(hashes: seq<B256>): set<B256> {
    set h | h in hashes
  }

  lemma {:induction false} FreshSplit(a: seq<B256>, b: seq<B256>, visited: set<B256>)
    ensures Fresh(a + b, visited) <==> Fresh(a, visited) && Fresh(b, visited + Elements(a))
    ensures Elements(a + b) == Elements(a) + Elements(b)
  {
    if a == [] {
      assert a + b == b;
      assert visited + Elements(a) == visited;
    } else {
      FreshSplit(a[1..], b, visited + {a[0]});
      assert (a + b)[1..] == a[1..] + b;
      assert visited + {a[0]} + Elements(a[1..]) == visited + Elements(a);
    }
  }

  predicate NoEmptyLeaf(n: Node)
    requires WellFormed(n)
    decreases n, 0
  {
    match n
    case Leaf(path, _) => path != []
    case Extension(_, child) => NoEmptyLeaf(child)
    case Branch(children) => NoEmptyLeafFrom(children, 0)
  }

  predicate NoEmptyLeafChild(child: Option<Node>)
    requires WellFormedChild(child)
    decreases child, 0
  {
    child.Some? ==> NoEmptyLeaf(child.value)
  }

  predicate NoEmptyLeafFrom(children: seq<Option<Node>>, from: nat)
    requires WellFormedAll(children) && from <= |children|
    decreases children, |children| - from
  {
    from == |children| || (NoEmptyLeafChild(children[from]) && NoEmptyLeafFrom(children, from + 1))
  }

  function At(m: map<B256, Bytes>, key: B256): Option<Bytes> {
    if key in m then Some(m[key]) else None
  }

  /** What the subtree hanging at `path` holds for a full key. */
  ghost function LeafAt(child: Option<Node>, path: Nibbles, key: B256): Option<Bytes>
    requires WellFormedChild(child)
  {
    if child.Some? && path <= Unpack(key) then Get(child.value, Unpack(key)[|path|..]) else None
  }

  /** What the children from slot `from` on hold for a full key, for a branch at `path`. */
  ghost function LeafFrom(children: seq<Option<Node>>, from: nat, path: Nibbles, key: B256): Option<Bytes>
    requires |children| == 16 && WellFormedAll(children) && |path| < SECURE_KEY_NIBBLES
  {
    var p := Unpack(key);
    if path <= p && p[|path|] >= from then GetChild(children[p[|path|]], p[|path| + 1..]) else None
  }

  ghost predicate Collected(after: map<B256, Bytes>, before: map<B256, Bytes>, child: Option<Node>, path: Nibbles)
    requires WellFormedChild(child)
  {
    forall key: B256 :: At(after, key) == Or(LeafAt(child, path, key), At(before, key))
  }

  ghost predicate CollectedFrom(after: map<B256, Bytes>, before: map<B256, Bytes>,
                                children: seq<Option<Node>>, from: nat, path: Nibbles)
    requires |children| == 16 && WellFormedAll(children) && |path| < SECURE_KEY_NIBBLES
  {
    forall key: B256 :: At(after, key) == Or(LeafFrom(children, from, path, key), At(before, key))
  }

  function Or(a: Option<Bytes>, b: Option<Bytes>): Option<Bytes> {
    if a.Some? then a else b
  }

  /** Nothing was collected yet under `path`. */
  ghost predicate Clear(leaves: map<B256, Bytes>, path: Nibbles) {
    forall key | key in leaves :: !(path <= Unpack(key))
  }

  /** Every one of the hashes is stored, with bytes that hash to it. */
  ghost predicate Loadable(k: Keccak, store: NodeMap, hashes: seq<B256>) {
    forall h | h in hashes :: h in store && k(store[h]) == h
  }

  lemma LoadableSplit(k: Keccak, store: NodeMap, a: seq<B256>, b: seq<B256>)
    ensures Loadable(k, store, a + b) <==> Loadable(k, store, a) && Loadable(k, store, b)
  {
    assert forall h :: h in a + b <==> h in a || h in b;
  }

  /** The walk succeeds exactly when no leaf path is empty, no hash repeats and every hash can be
      loaded; with every hash loadable it reports which of the other two failed. */
  ghost predicate Outcome(k: Keccak, store: NodeMap, r: Walk, visited: set<B256>, hashes: seq<B256>, clean: bool) {
    && (r.Ok? <==> clean && Fresh(hashes, visited) && Loadable(k, store, hashes))
    && (r.Ok? ==> r.value.visited == visited + Elements(hashes))
    && (Loadable(k, store, hashes) && r.Err? ==>
          (r.error == EMPTY_PATH && !clean) || (r.error == CYCLE && !Fresh(hashes, visited)))
  }

  lemma KeyOfPath(path: Nibbles, suffix: Nibbles, key: B256)
    requires |path| + |suffix| == SECURE_KEY_NIBBLES
    ensures key == Pack(path + suffix) <==> path <= Unpack(key) && Unpack(key)[|path|..] == suffix
  {
    var p := path + suffix;
    UnpackPack(p);
    PackUnpack(key);
    assert p[|path|..] == suffix;
    if path <= Unpack(key) {
      assert Unpack(key) == path + Unpack(key)[|path|..];
    }
  }

  lemma CollectLeaf(before: map<B256, Bytes>, n: Node, path: Nibbles)
    requires |path| <= SECURE_KEY_NIBBLES
    requires WellFormed(n) && n.Leaf? && |path| + |n.path| == SECURE_KEY_NIBBLES
    requires Clear(before, path)
    ensures Pack(path + n.path) !in before
    ensures Collected(before[Pack(path + n.path) := n.value], before, Some(n), path)
  {
    hide Unpack, Pack;
    var leaf: B256 := Pack(path + n.path);
    KeyOfPath(path, n.path, leaf);
    forall key: B256
      ensures At(before[leaf := n.value], key) == Or(LeafAt(Some(n), path, key), At(before, key))
    {
      KeyOfPath(path, n.path, key);
    }
  }

  lemma WalkBuiltLeaf(k: Keccak, store: NodeMap, n: Node, path: Nibbles, st: Walked)
    requires |path| <= SECURE_KEY_NIBBLES
    requires WellFormed(n) && n.Leaf? && Canonical(n, SECURE_KEY_NIBBLES - |path|)
    requires Clear(st.leaves, path)
    ensures var r := WalkNode(k, store, Encode(k, n), path, st);
            && Outcome(k, store, r, st.visited, HashesBelow(k, n), NoEmptyLeaf(n))
            && (r.Ok? ==> Collected(r.value.leaves, st.leaves, Some(n), path))
  {
    hide Encode, DecodeNode, Holds, Unpack, Pack, Collected, Clear;
    DecodeEncodedNode(k, n);
    CollectLeaf(st.leaves, n, path);
    assert Elements([]) == {};
  }

  /** Walking a built node, on any store: it succeeds exactly when no leaf path is empty, no hash
      repeats and every hash can be loaded, and then collects exactly the leaves of the tree. */
  lemma {:induction false} WalkBuilt(k: Keccak, store: NodeMap, n: Node, path: Nibbles, st: Walked)
    requires |path| <= SECURE_KEY_NIBBLES
    requires WellFormed(n) && Canonical(n, SECURE_KEY_NIBBLES - |path|)
    requires CollisionFree(k, store.Values + Encodings(k, n))
    requires Clear(st.leaves, path)
    ensures var r := WalkNode(k, store, Encode(k, n), path, st);
            && Outcome(k, store, r, st.visited, HashesBelow(k, n), NoEmptyLeaf(n))
            && (r.Ok? ==> Collected(r.value.leaves, st.leaves, Some(n), path))
    decreases n, 1
  {
    match n
    case Leaf(_, _) => WalkBuiltLeaf(k, store, n, path, st);
    case Extension(_, _) => WalkBuiltExtension(k, store, n, path, st);
    case Branch(_) => WalkBuiltBranch(k, store, n, path, st);
  }

  /** The step from a reference to the node it stands for. */
  lemma {:induction false} WalkReference(k: Keccak, store: NodeMap, n: Node, path: Nibbles, st: Walked)
    requires |path| <= SECURE_KEY_NIBBLES
    requires WellFormed(n) && Canonical(n, SECURE_KEY_NIBBLES - |path|)
    requires CollisionFree(k, store.Values + Encodings(k, n))
    requires Clear(st.leaves, path)
    ensures var r := WalkChild(k, store, Some(ReferenceTo(k, n)), path, st);
            && Outcome(k, store, r, st.visited, HashOf(k, n) + HashesBelow(k, n), NoEmptyLeaf(n))
            && (r.Ok? ==> Collected(r.value.leaves, st.leaves, Some(n), path))
    decreases n, 2
  {
    hide WalkNode, Encode, Clear, Collected, NoEmptyLeaf, HashesBelow;
    var e := Encode(k, n);
    if |e| < 32 {
      WalkBuilt(k, store, n, path, st);
      assert HashOf(k, n) + HashesBelow(k, n) == HashesBelow(k, n);
    } else {
      LoadReference(k, store, n);
      FreshSplit([k(e)], HashesBelow(k, n), st.visited);
      LoadableSplit(k, store, [k(e)], HashesBelow(k, n));
      assert Loadable(k, store, [k(e)]) <==> LoadHashed(k, store, k(e)).Ok?;
      assert Elements([k(e)]) == {k(e)};
      assert Fresh([k(e)], st.visited) <==> k(e) !in st.visited;
      if k(e) !in st.visited && LoadHashed(k, store, k(e)).Ok? {
        WalkBuilt(k, store, n, path, st.(visited := st.visited + {k(e)}));
      }
    }
  }

  lemma {:induction false} WalkBuiltExtension(k: Keccak, store: NodeMap, n: Node, path: Nibbles, st: Walked)
    requires |path| <= SECURE_KEY_NIBBLES
    requires WellFormed(n) && n.Extension? && Canonical(n, SECURE_KEY_NIBBLES - |path|)
    requires CollisionFree(k, store.Values + Encodings(k, n))
    requires Clear(st.leaves, path)
    ensures var r := WalkNode(k, store, Encode(k, n), path, st);
            && Outcome(k, store, r, st.visited, HashesBelow(k, n), NoEmptyLeaf(n))
            && (r.Ok? ==> Collected(r.value.leaves, st.leaves, Some(n), path))
    decreases n, 0
  {
    hide Encode, DecodeNode, WalkChild, Fresh;
    DecodeEncodedNode(k, n);
    var down := path + n.path;
    assert Clear(st.leaves, down);
    WalkReference(k, store, n.child, down, st);
    ThroughExtension(n, path);
  }

  lemma ThroughExtension(n: Node, path: Nibbles)
    requires WellFormed(n) && n.Extension?
    ensures forall key: B256 :: LeafAt(Some(n), path, key) == LeafAt(Some(n.child), path + n.path, key)
  {
    hide Unpack;
    var down := path + n.path;
    forall key: B256
      ensures LeafAt(Some(n), path, key) == LeafAt(Some(n.child), down, key)
    {
      var p := Unpack(key);
      if path <= p {
        var rest := p[|path|..];
        assert p == path + rest;
        if n.path <= rest {
          assert rest == n.path + rest[|n.path|..];
          assert p[|down|..] == rest[|n.path|..];
        } else {
          assert down[|path|..] == n.path;
        }
      }
    }
  }

  lemma {:induction false} WalkBuiltBranch(k: Keccak, store: NodeMap, n: Node, path: Nibbles, st: Walked)
    requires |path| <= SECURE_KEY_NIBBLES
    requires WellFormed(n) && n.Branch? && Canonical(n, SECURE_KEY_NIBBLES - |path|)
    requires CollisionFree(k, store.Values + Encodings(k, n))
    requires Clear(st.leaves, path)
    ensures var r := WalkNode(k, store, Encode(k, n), path, st);
            && Outcome(k, store, r, st.visited, HashesBelow(k, n), NoEmptyLeaf(n))
            && (r.Ok? ==> Collected(r.value.leaves, st.leaves, Some(n), path))
    decreases n, 0
  {
    hide Encode, DecodeNode, WalkChildren, Fresh, Unpack;
    DecodeEncodedNode(k, n);
    assert forall key | key in st.leaves :: !InSlots(path, 0, key);
    WalkBuiltFrom(k, store, n.children, 0, path, st, |Encode(k, n)|);
    ThroughBranch(n, path);
  }

  lemma ThroughBranch(n: Node, path: Nibbles)
    requires WellFormed(n) && n.Branch? && |path| < SECURE_KEY_NIBBLES
    ensures forall key: B256 :: LeafAt(Some(n), path, key) == LeafFrom(n.children, 0, path, key)
  {
    hide Unpack;
    forall key: B256
      ensures LeafAt(Some(n), path, key) == LeafFrom(n.children, 0, path, key)
    {
      var p := Unpack(key);
      if path <= p {
        var rest := p[|path|..];
        assert rest[0] == p[|path|] && rest[1..] == p[|path| + 1..];
        assert Get(n, rest) == GetChild(n.children[rest[0]], rest[1..]);
      }
    }
  }

  /** The key runs through `path` and then a slot numbered `from` or higher. */
  predicate InSlots(path: Nibbles, from: nat, key: B256)
    requires |path| < SECURE_KEY_NIBBLES
  {
    path <= Unpack(key) && Unpack(key)[|path|] >= from
  }

  lemma {:induction false} WalkBuiltFrom(k: Keccak, store: NodeMap, children: seq<Option<Node>>, from: nat,
                                         path: Nibbles, st: Walked, bound: nat)
    requires |path| < SECURE_KEY_NIBBLES && |children| == 16 && from <= 16
    requires WellFormedAll(children)
    requires forall i | 0 <= i < 16 :: CanonicalChild(children[i], SECURE_KEY_NIBBLES - |path| - 1)
    requires CollisionFree(k, store.Values + EncodingsOfAll(k, children))
    requires forall key | key in st.leaves :: !InSlots(path, from, key)
    requires forall i | 0 <= i < 16 :: Size(ReferencesTo(k, children)[i]) < bound
    ensures var r := WalkChildren(k, store, ReferencesTo(k, children), from, path, st, bound);
            && Outcome(k, store, r, st.visited, HashesFrom(k, children, from), NoEmptyLeafFrom(children, from))
            && (r.Ok? ==> CollectedFrom(r.value.leaves, st.leaves, children, from, path))
    decreases children, 16 - from
  {
    hide WalkChild, Fresh, Unpack, HashesOfChild, NoEmptyLeafChild, Get, Encode;
    if from == 16 {
      NoHashes(st.visited);
    } else {
      var child := children[from];
      assert EncodingsOfChild(k, child) <= EncodingsOfAll(k, children);
      var first := WalkChild(k, store, ReferenceToChild(k, child), path + [from], st);
      ClearSlot(st.leaves, path, from);
      WalkBuiltChild(k, store, child, path + [from], st);
      FreshSplit(HashesOfChild(k, child), HashesFrom(k, children, from + 1), st.visited);
      LoadableSplit(k, store, HashesOfChild(k, child), HashesFrom(k, children, from + 1));
      if first.Ok? {
        NextSlots(first.value.leaves, st.leaves, children, from, path);
        WalkBuiltFrom(k, store, children, from + 1, path, first.value, bound);
        var r := WalkChildren(k, store, ReferencesTo(k, children), from + 1, path, first.value, bound);
        if r.Ok? {
          JoinSlots(r.value.leaves, first.value.leaves, st.leaves, children, from, path);
        }
      }
    }
  }

  lemma NoHashes(visited: set<B256>)
    ensures Fresh([], visited) && visited + Elements([]) == visited
  {
  }

  lemma {:induction false} WalkBuiltChild(k: Keccak, store: NodeMap, child: Option<Node>, path: Nibbles, st: Walked)
    requires |path| <= SECURE_KEY_NIBBLES
    requires WellFormedChild(child) && CanonicalChild(child, SECURE_KEY_NIBBLES - |path|)
    requires CollisionFree(k, store.Values + EncodingsOfChild(k, child))
    requires Clear(st.leaves, path)
    ensures var r := WalkChild(k, store, ReferenceToChild(k, child), path, st);
            && Outcome(k, store, r, st.visited, HashesOfChild(k, child), NoEmptyLeafChild(child))
            && (r.Ok? ==> Collected(r.value.leaves, st.leaves, child, path))
    decreases child
  {
    if child.Some? {
      WalkReference(k, store, child.value, path, st);
    } else {
      NoHashes(st.visited);
    }
  }

  lemma SlotPath(path: Nibbles, from: nibble, key: B256)
    requires |path| < SECURE_KEY_NIBBLES
    ensures path + [from] <= Unpack(key) <==> path <= Unpack(key) && Unpack(key)[|path|] == from
  {
    var p := Unpack(key);
    if path <= p && p[|path|] == from {
      assert p[..|path| + 1] == path + [from];
    }
    if path + [from] <= p {
      assert p[..|path| + 1] == path + [from];
      assert p[|path|] == p[..|path| + 1][|path|];
    }
  }

  lemma ClearSlot(leaves: map<B256, Bytes>, path: Nibbles, from: nibble)
    requires |path| < SECURE_KEY_NIBBLES
    requires forall key | key in leaves :: !InSlots(path, from, key)
    ensures Clear(leaves, path + [from])
  {
    hide Unpack;
    forall key | key in leaves
      ensures !(path + [from] <= Unpack(key))
    {
      SlotPath(path, from, key);
    }
  }

  /** After one slot, nothing collected so far lies in the later slots. */
  lemma NextSlots(after: map<B256, Bytes>, before: map<B256, Bytes>, children: seq<Option<Node>>, from: nibble,
                  path: Nibbles)
    requires |path| < SECURE_KEY_NIBBLES && |children| == 16 && WellFormedAll(children)
    requires forall key | key in before :: !InSlots(path, from, key)
    requires Collected(after, before, children[from], path + [from])
    ensures forall key | key in after :: !InSlots(path, from + 1, key)
  {
    hide Unpack, Get;
    forall key | key in after
      ensures !InSlots(path, from + 1, key)
    {
      SlotPath(path, from, key);
      assert At(after, key) == Or(LeafAt(children[from], path + [from], key), At(before, key));
    }
  }

  lemma JoinSlots(last: map<B256, Bytes>, mid: map<B256, Bytes>, before: map<B256, Bytes>,
                  children: seq<Option<Node>>, from: nibble, path: Nibbles)
    requires |path| < SECURE_KEY_NIBBLES && |children| == 16 && WellFormedAll(children)
    requires Collected(mid, before, children[from], path + [from])
    requires CollectedFrom(last, mid, children, from + 1, path)
    ensures CollectedFrom(last, before, children, from, path)
  {
    hide Unpack, Get;
    forall key: B256
      ensures At(last, key) == Or(LeafFrom(children, from, path, key), At(before, key))
    {
      SlotPath(path, from, key);
      assert At(last, key) == Or(LeafFrom(children, from + 1, path, key), At(mid, key));
      assert At(mid, key) == Or(LeafAt(children[from], path + [from], key), At(before, key));
    }
  }

  // ----- in terms of leaves -----

  /** The walk passes every node exactly when no key has a twin. */
  lemma NoEmptyLeafIffNoTwin(leaves: Leaves)
    requires leaves != map[]
    ensures NoEmptyLeaf(Trie(leaves)) <==> forall key | key in leaves :: !HasTwin(leaves, key)
  {
    hide Entries, Shape, Unpack, Pack, Canonical, NoEmptyLeaf, EndsAtEmptyLeaf, HasTwin, EntryTwin;
    BuiltTrie(leaves);
    if NoEmptyLeaf(Trie(leaves)) {
      forall key | key in leaves
        ensures !HasTwin(leaves, key)
      {
        NoWayToEmptyLeaf(Trie(leaves), Unpack(key));
        EndsIffTwin(leaves, key);
      }
    } else {
      var path := WayToEmptyLeaf(Trie(leaves), SECURE_KEY_NIBBLES);
      UnpackPack(path);
      EndsIffTwin(leaves, Pack(path));
      TwinIsPresent(leaves, Pack(path));
    }
  }

  lemma TwinIsPresent(leaves: Leaves, key: B256)
    requires HasTwin(leaves, key)
    ensures key in leaves
  {
  }

  lemma EndsIffTwin(leaves: Leaves, key: B256)
    requires leaves != map[]
    ensures EndsAtEmptyLeaf(Trie(leaves), Unpack(key)) <==> HasTwin(leaves, key)
  {
    hide Entries, Shape, Unpack, EndsAtEmptyLeaf, HasTwin;
    BuiltTrie(leaves);
    assert Unpack(key)[0..] == Unpack(key);
    EmptyLeafIffTwin(Entries(leaves), 0, Unpack(key));
    TwinOfKey(leaves, key);
  }

  lemma {:induction false} NoWayToEmptyLeaf(n: Node, path: Nibbles)
    requires WellFormed(n) && NoEmptyLeaf(n)
    ensures !EndsAtEmptyLeaf(n, path)
    decreases n
  {
    match n
    case Leaf(_, _) =>
    case Extension(p, child) =>
      if p <= path {
        NoWayToEmptyLeaf(child, path[|p|..]);
      }
    case Branch(children) =>
      if path != [] {
        SlotHasNoEmptyLeaf(children, 0, path[0]);
        NoWayFromChild(children[path[0]], path[1..]);
      }
  }

  lemma {:induction false} NoWayFromChild(child: Option<Node>, path: Nibbles)
    requires WellFormedChild(child) && NoEmptyLeafChild(child)
    ensures !ChildEndsAtEmptyLeaf(child, path)
    decreases child
  {
    if child.Some? {
      NoWayToEmptyLeaf(child.value, path);
    }
  }

  lemma {:induction false} SlotHasNoEmptyLeaf(children: seq<Option<Node>>, from: nat, i: nat)
    requires WellFormedAll(children) && from <= i < |children| && NoEmptyLeafFrom(children, from)
    ensures NoEmptyLeafChild(children[i])
    decreases i - from
  {
    if from < i {
      SlotHasNoEmptyLeaf(children, from + 1, i);
    }
  }

  lemma {:induction false} WayToEmptyLeaf(n: Node, length: nat) returns (path: Nibbles)
    requires WellFormed(n) && Canonical(n, length) && !NoEmptyLeaf(n)
    ensures |path| == length && EndsAtEmptyLeaf(n, path)
    decreases n
  {
    match n
    case Leaf(_, _) =>
      path := [];
    case Extension(p, child) =>
      var rest := WayToEmptyLeaf(child, length - |p|);
      path := p + rest;
      assert path[|p|..] == rest;
    case Branch(children) =>
      var i := SlotWithEmptyLeaf(children, 0);
      var rest := WayFromChild(children[i], length - 1);
      path := [i] + rest;
      assert path[1..] == rest;
  }

  lemma {:induction false} WayFromChild(child: Option<Node>, length: nat) returns (path: Nibbles)
    requires WellFormedChild(child) && CanonicalChild(child, length) && !NoEmptyLeafChild(child)
    ensures |path| == length && ChildEndsAtEmptyLeaf(child, path)
    decreases child
  {
    path := WayToEmptyLeaf(child.value, length);
  }

  lemma {:induction false} SlotWithEmptyLeaf(children: seq<Option<Node>>, from: nat) returns (i: nat)
    requires WellFormedAll(children) && from <= |children| && !NoEmptyLeafFrom(children, from)
    ensures i < |children| && !NoEmptyLeafChild(children[i])
    decreases |children| - from
  {
    if NoEmptyLeafChild(children[from]) {
      i := SlotWithEmptyLeaf(children, from + 1);
    } else {
      i := from;
    }
  }

  /** Every hash the full walk meets, the root first. */
  ghost function HashesOf(k: Keccak, leaves: Leaves): seq<B256>
    requires leaves != map[]
  {
    [RootHash(k, leaves)] + HashesBelow(k, Trie(leaves))
  }

  ghost predicate Distinct(hashes: seq<B256>) {
    forall i, j | 0 <= i < j < |hashes| :: hashes[i] != hashes[j]
  }

  lemma {:induction false} FreshIffDistinct(hashes: seq<B256>, visited: set<B256>)
    ensures Fresh(hashes, visited) <==> Distinct(hashes) && forall i | 0 <= i < |hashes| :: hashes[i] !in visited
  {
    if hashes != [] {
      var rest := hashes[1..];
      FreshIffDistinct(rest, visited + {hashes[0]});
      assert forall i | 1 <= i < |hashes| :: hashes[i] == rest[i - 1];
      if Distinct(rest) && forall i | 0 <= i < |rest| :: rest[i] !in visited + {hashes[0]} {
        forall i, j | 0 <= i < j < |hashes|
          ensures hashes[i] != hashes[j]
        {
          assert hashes[j] == rest[j - 1];
          if i > 0 {
            assert hashes[i] == rest[i - 1];
          }
        }
      }
      if Distinct(hashes) {
        assert forall i, j | 0 <= i < j < |rest| :: rest[i] == hashes[i + 1] && rest[j] == hashes[j + 1];
      }
    }
  }

  /** The leaves collected for a root. */
  ghost predicate SameLeaves(collected: map<B256, Bytes>, leaves: Leaves) {
    collected.Keys == leaves.Keys && forall key | key in leaves :: collected[key] == leaves[key]
  }

  lemma WalkFromRoot(k: Keccak, store: NodeMap, leaves: Leaves)
    requires leaves != map[]
    requires CollisionFree(k, store.Values + Preimages(k, leaves) + {EMPTY_TRIE})
    ensures var root := RootHash(k, leaves);
            var r := CollectLeaves(k, store, root);
            if root in store && k(store[root]) == root then
              var w := WalkNode(k, store, Encode(k, Trie(leaves)), [], Walked(map[], {root}));
              r == if w.Ok? then Ok(w.value.leaves) else Err(w.error)
            else
              r.Err?
  {
    hide Encode, Trie, WalkNode;
    var e := Encode(k, Trie(leaves));
    EncodingIsNotEmptyTrie(k, Trie(leaves));
    assert e in Preimages(k, leaves);
    assert k(e) != k(EMPTY_TRIE);
    var root := RootHash(k, leaves);
    if root in store && k(store[root]) == root {
      assert store[root] in store.Values;
      assert store[root] == e;
    }
  }

  /** No two keys share their first 63 nibbles. */
  ghost predicate TwinFree(leaves: Leaves) {
    forall key | key in leaves :: !HasTwin(leaves, key)
  }

  lemma WalkOfLeaves(k: Keccak, store: NodeMap, leaves: Leaves)
    requires leaves != map[]
    requires CollisionFree(k, store.Values + Preimages(k, leaves) + {EMPTY_TRIE})
    ensures var r := WalkNode(k, store, Encode(k, Trie(leaves)), [], Walked(map[], {RootHash(k, leaves)}));
            var loadable := Loadable(k, store, HashesBelow(k, Trie(leaves)));
            && (r.Ok? <==> TwinFree(leaves) && Distinct(HashesOf(k, leaves)) && loadable)
            && (r.Ok? ==> SameLeaves(r.value.leaves, leaves))
            && (loadable && r.Err? ==>
                  (r.error == EMPTY_PATH && !TwinFree(leaves)) || (r.error == CYCLE && !Distinct(HashesOf(k, leaves))))
  {
    hide Encode, Trie, WalkNode, HasTwin, HashesBelow, NoEmptyLeaf, Canonical, Unpack, Fresh, Distinct, Loadable;
    var root := RootHash(k, leaves);
    var st := Walked(map[], {root});
    BuiltTrie(leaves);
    WalkBuilt(k, store, Trie(leaves), [], st);
    NoEmptyLeafIffNoTwin(leaves);
    RootThenBelow(k, leaves);
    var r := WalkNode(k, store, Encode(k, Trie(leaves)), [], st);
    if r.Ok? {
      SameAsLeaves(leaves, r.value.leaves);
    }
  }

  lemma RootThenBelow(k: Keccak, leaves: Leaves)
    requires leaves != map[]
    ensures Fresh(HashesBelow(k, Trie(leaves)), {RootHash(k, leaves)}) <==> Distinct(HashesOf(k, leaves))
  {
    hide HashesBelow, Trie, RootHash;
    var root, below := RootHash(k, leaves), HashesBelow(k, Trie(leaves));
    FreshIffDistinct(HashesOf(k, leaves), {});
    assert HashesOf(k, leaves)[1..] == below;
    assert {} + {root} == {root};
  }

  lemma SameAsLeaves(leaves: Leaves, collected: map<B256, Bytes>)
    requires leaves != map[]
    requires Collected(collected, map[], Some(Trie(leaves)), [])
    ensures SameLeaves(collected, leaves)
  {
    hide Trie, Unpack, Get;
    forall key: B256
      ensures At(collected, key) == Lookup(leaves, key)
    {
      TrieHolds(leaves, key);
      assert Unpack(key)[0..] == Unpack(key);
      assert At(collected, key) == Or(LeafAt(Some(Trie(leaves)), [], key), At(map[], key));
    }
    forall key: B256
      ensures key in collected <==> key in leaves
      ensures key in leaves ==> collected[key] == leaves[key]
    {
      assert At(collected, key) == Lookup(leaves, key);
    }
  }

  /** On every store, a completed walk of the root of `leaves` returns `leaves`. */
  lemma CollectIsSound(k: Keccak, store: NodeMap, leaves: Leaves)
    requires CollisionFree(k, store.Values + Preimages(k, leaves) + {EMPTY_TRIE})
    requires CollectLeaves(k, store, RootHash(k, leaves)).Ok?
    ensures SameLeaves(CollectLeaves(k, store, RootHash(k, leaves)).value, leaves)
  {
    hide WalkNode, HasTwin, Holds, Encode, Trie;
    if leaves != map[] {
      WalkFromRoot(k, store, leaves);
      WalkOfLeaves(k, store, leaves);
    }
  }

  /** On every store the walk returns the leaves if and only if no two keys share their first 63
      nibbles, no node hash is met twice and every hash met can be loaded; with all of them loadable it
      reports which of the other two failed. */
  lemma CollectIsExact(k: Keccak, store: NodeMap, leaves: Leaves)
    requires leaves != map[]
    requires CollisionFree(k, store.Values + Preimages(k, leaves) + {EMPTY_TRIE})
    ensures var r := CollectLeaves(k, store, RootHash(k, leaves));
            var loadable := Loadable(k, store, HashesOf(k, leaves));
            && (r.Ok? <==> TwinFree(leaves) && Distinct(HashesOf(k, leaves)) && loadable)
            && (r.Ok? ==> SameLeaves(r.value, leaves))
            && (loadable && r.Err? ==>
                  (r.error == EMPTY_PATH && !TwinFree(leaves)) || (r.error == CYCLE && !Distinct(HashesOf(k, leaves))))
  {
    hide WalkNode, HasTwin, Encode, Trie, Distinct, HashesBelow, CollectLeaves, SameLeaves;
    WalkFromRoot(k, store, leaves);
    WalkOfLeaves(k, store, leaves);
    LoadableSplit(k, store, [RootHash(k, leaves)], HashesBelow(k, Trie(leaves)));
    assert RootHash(k, leaves) in [RootHash(k, leaves)];
  }

  /** A store that holds every encoding of a tree can load every hash in it. */
  lemma {:induction false} HeldBelow(k: Keccak, store: NodeMap, n: Node)
    requires WellFormed(n) && Holds(k, store, Encodings(k, n))
    ensures Loadable(k, store, HashOf(k, n)) && Loadable(k, store, HashesBelow(k, n))
    decreases n, 1
  {
    hide Encode;
    assert Encode(k, n) in Encodings(k, n);
    match n
    case Leaf(_, _) =>
    case Extension(_, child) =>
      HeldBelow(k, store, child);
      LoadableSplit(k, store, HashOf(k, child), HashesBelow(k, child));
    case Branch(children) => HeldFrom(k, store, children, 0);
  }

  lemma {:induction false} HeldFrom(k: Keccak, store: NodeMap, children: seq<Option<Node>>, from: nat)
    requires WellFormedAll(children) && from <= |children| && Holds(k, store, EncodingsOfAll(k, children))
    ensures Loadable(k, store, HashesFrom(k, children, from))
    decreases children, |children| - from
  {
    hide Encode, HashesBelow, HashOf;
    if from < |children| {
      assert EncodingsOfChild(k, children[from]) <= EncodingsOfAll(k, children);
      HeldChild(k, store, children[from]);
      HeldFrom(k, store, children, from + 1);
      LoadableSplit(k, store, HashesOfChild(k, children[from]), HashesFrom(k, children, from + 1));
    }
  }

  lemma {:induction false} HeldChild(k: Keccak, store: NodeMap, child: Option<Node>)
    requires WellFormedChild(child) && Holds(k, store, EncodingsOfChild(k, child))
    ensures Loadable(k, store, HashesOfChild(k, child))
    decreases child
  {
    hide Encode, HashesBelow, HashOf;
    if child.Some? {
      HeldBelow(k, store, child.value);
      LoadableSplit(k, store, HashOf(k, child.value), HashesBelow(k, child.value));
    }
  }

  /** The nodes `build` stored are enough. */
  lemma HeldLoads(k: Keccak, store: NodeMap, leaves: Leaves)
    requires leaves != map[] && Holds(k, store, Preimages(k, leaves))
    ensures Loadable(k, store, HashesOf(k, leaves))
  {
    hide Encode, Trie, HashesBelow, HashOf, Holds, WellFormed;
    BuiltTrie(leaves);
    var n := Trie(leaves);
    HeldBelow(k, store, n);
    HeldRoot(k, store, n);
    LoadableSplit(k, store, [RootHash(k, leaves)], HashesBelow(k, n));
  }

  lemma HeldRoot(k: Keccak, store: NodeMap, n: Node)
    requires WellFormed(n) && Holds(k, store, Encodings(k, n))
    ensures Loadable(k, store, [k(Encode(k, n))])
  {
    hide Encode;
    assert Encode(k, n) in Encodings(k, n);
  }
}
