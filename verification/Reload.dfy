/** A state read back from a store carries everything needed to read it back again. */
module Reload {
  import opened Wrappers
  import opened Bytes
  import opened Ordered
  import opened Hashing
  import opened TrieNode
  import opened TrieBinding
  import opened TrieCommit
  import opened TrieLookup
  import opened TrieWalk
  import opened Storage
  import opened Recovery

  /** One collision-free set of preimages holds the store and every trie that can be read from it. */
  ghost predicate Apart(k: Keccak, nodes: NodeMap, all: set<Bytes>) {
    hide Rebuild;
    && CollisionFree(k, all) && nodes.Values <= all && EMPTY_TRIE in all
    && forall root: B256 | Rebuild(k, root, nodes).Ok? :: Preimages(k, Rebuild(k, root, nodes).value.leaves) <= all
  }

  lemma BuiltHolds(k: Keccak, leaves: Leaves, all: set<Bytes>)
    requires CollisionFree(k, all) && Preimages(k, leaves) <= all
    ensures HoldsOnly(k, BuiltNodes(k, leaves), all)
    ensures leaves != map[] ==> Holds(k, BuiltNodes(k, leaves), Preimages(k, leaves))
  {
    hide Encodings, Trie, Store, WellFormed;
    if leaves != map[] {
      BuiltTrie(leaves);
      var n := Trie(leaves);
      FewerCollide(k, {} + Encodings(k, n), all);
      StoreHolds(k, n, map[], {});
      assert {} + Encodings(k, n) == Encodings(k, n);
    }
  }

  /** Any content-addressed store that keeps the rebuilt nodes rebuilds the same trie. */
  lemma RebuiltAgain(k: Keccak, root: B256, nodes: NodeMap, own: NodeMap, all: set<Bytes>)
    requires Apart(k, nodes, all) && own.Values <= all && Rebuild(k, root, nodes).Ok?
    requires Stored(Rebuild(k, root, nodes).value.nodes, own)
    ensures Rebuild(k, root, own) == Rebuild(k, root, nodes)
  {
    hide CollectLeaves, RootHash, Preimages, TwinFree, Distinct, HashesOf, BuiltNodes, Loadable;
    var leaves := Rebuild(k, root, nodes).value.leaves;
    if leaves == map[] {
      EmptyCollects(k, nodes);
      EmptyCollects(k, own);
    } else {
      BuiltHolds(k, leaves, all);
      FewerCollide(k, nodes.Values + Preimages(k, leaves) + {EMPTY_TRIE}, all);
      FewerCollide(k, own.Values + Preimages(k, leaves) + {EMPTY_TRIE}, all);
      CollectIsExact(k, nodes, leaves);
      HeldLoads(k, own, leaves);
      CollectIsExact(k, own, leaves);
      var again := CollectLeaves(k, own, root).value;
      assert again == leaves;
    }
  }

  lemma EmptyCollects(k: Keccak, store: NodeMap)
    ensures CollectLeaves(k, store, RootHash(k, map[])) == Ok(map[])
  {
  }

  lemma RebuiltOnly(k: Keccak, root: B256, nodes: NodeMap, all: set<Bytes>)
    requires Apart(k, nodes, all) && Rebuild(k, root, nodes).Ok?
    ensures HoldsOnly(k, Rebuild(k, root, nodes).value.nodes, all)
  {
    hide CollectLeaves, RootHash, Preimages, BuiltNodes;
    BuiltHolds(k, Rebuild(k, root, nodes).value.leaves, all);
  }

  /** Content-addressed maps over one collision-free set agree where they overlap. */
  lemma MergedOnly(k: Keccak, a: NodeMap, b: NodeMap, all: set<Bytes>)
    requires CollisionFree(k, all) && HoldsOnly(k, a, all) && HoldsOnly(k, b, all)
    ensures HoldsOnly(k, a + b, all) && Stored(a, a + b) && Stored(b, a + b)
  {
    forall h | h in a && h in b
      ensures a[h] == b[h]
    {
      assert k(a[h]) == k(b[h]);
    }
  }

  lemma AccountOnly(x: Setup, encoded: Bytes, nodes: NodeMap, code: map<B256, Bytes>, all: set<Bytes>)
    requires Apart(x.m.k, nodes, all) && LoadAccount(x, encoded, nodes, code).Ok?
    ensures HoldsOnly(x.m.k, LoadAccount(x, encoded, nodes, code).value.0, all)
    ensures Stored(LoadAccount(x, encoded, nodes, code).value.1, code)
  {
    hide Rebuild, Apart;
    var refs := x.refs(encoded).value;
    if refs.storageRoot != x.m.k(EMPTY_TRIE) {
      RebuiltOnly(x.m.k, refs.storageRoot, nodes, all);
    }
  }

  lemma {:induction false} AccountsOnly(x: Setup, leaves: Leaves, keys: seq<B256>, nodes: NodeMap,
                                        code: map<B256, Bytes>, all: set<Bytes>)
    requires forall key | key in keys :: key in leaves
    requires Apart(x.m.k, nodes, all) && LoadAccounts(x, leaves, keys, nodes, code).Ok?
    ensures HoldsOnly(x.m.k, LoadAccounts(x, leaves, keys, nodes, code).value.0, all)
    ensures Stored(LoadAccounts(x, leaves, keys, nodes, code).value.1, code)
  {
    hide LoadAccount, Rebuild;
    if keys != [] {
      var n := |keys| - 1;
      AccountsOnly(x, leaves, keys[..n], nodes, code, all);
      AccountOnly(x, leaves[keys[n]], nodes, code, all);
      MergedOnly(x.m.k, LoadAccounts(x, leaves, keys[..n], nodes, code).value.0,
          LoadAccount(x, leaves[keys[n]], nodes, code).value.0, all);
    }
  }

  lemma AccountAgain(x: Setup, encoded: Bytes, nodes: NodeMap, code: map<B256, Bytes>, own: NodeMap,
                     ownCode: map<B256, Bytes>, all: set<Bytes>)
    requires Apart(x.m.k, nodes, all) && own.Values <= all && LoadAccount(x, encoded, nodes, code).Ok?
    requires Stored(LoadAccount(x, encoded, nodes, code).value.0, own)
    requires Stored(LoadAccount(x, encoded, nodes, code).value.1, ownCode)
    ensures LoadAccount(x, encoded, own, ownCode) == LoadAccount(x, encoded, nodes, code)
  {
    hide Rebuild, Apart;
    var refs := x.refs(encoded).value;
    if refs.storageRoot != x.m.k(EMPTY_TRIE) {
      RebuiltAgain(x.m.k, refs.storageRoot, nodes, own, all);
    }
    if refs.codeHash != x.m.k([]) {
      assert refs.codeHash in LoadAccount(x, encoded, nodes, code).value.1;
    }
  }

  lemma {:induction false} AccountsAgain(x: Setup, leaves: Leaves, keys: seq<B256>, nodes: NodeMap,
                                         code: map<B256, Bytes>, own: NodeMap, ownCode: map<B256, Bytes>,
                                         all: set<Bytes>)
    requires forall key | key in keys :: key in leaves
    requires Apart(x.m.k, nodes, all) && own.Values <= all && LoadAccounts(x, leaves, keys, nodes, code).Ok?
    requires Stored(LoadAccounts(x, leaves, keys, nodes, code).value.0, own)
    requires Stored(LoadAccounts(x, leaves, keys, nodes, code).value.1, ownCode)
    ensures LoadAccounts(x, leaves, keys, own, ownCode) == LoadAccounts(x, leaves, keys, nodes, code)
  {
    hide LoadAccount, Rebuild, HoldsOnly;
    if keys != [] {
      var n := |keys| - 1;
      var first := LoadAccounts(x, leaves, keys[..n], nodes, code).value;
      var last := LoadAccount(x, leaves[keys[n]], nodes, code).value;
      AccountsOnly(x, leaves, keys[..n], nodes, code, all);
      AccountOnly(x, leaves[keys[n]], nodes, code, all);
      MergedOnly(x.m.k, first.0, last.0, all);
      AccountsAgain(x, leaves, keys[..n], nodes, code, own, ownCode, all);
      AccountAgain(x, leaves[keys[n]], nodes, code, own, ownCode, all);
    }
  }

  /** Reading a state from a store and reading it again from what it carries give the same state,
      nodes and code included. */
  lemma ReloadIsIdentity(x: Setup, root: B256, nodes: NodeMap, code: map<B256, Bytes>, all: set<Bytes>)
    requires Apart(x.m.k, nodes, all) && LoadState(x, root, nodes, code).Ok?
    ensures var s := LoadState(x, root, nodes, code).value;
            LoadState(x, root, s.snapshot.nodes, s.code) == Ok(s)
  {
    hide Rebuild, LoadAccounts, HoldsOnly, SortedKeys;
    var s := LoadState(x, root, nodes, code).value;
    var accounts := Rebuild(x.m.k, root, nodes).value;
    var keys := SortedKeys(accounts.leaves.Keys);
    var loaded := LoadAccounts(x, accounts.leaves, keys, nodes, code).value;
    RebuiltOnly(x.m.k, root, nodes, all);
    AccountsOnly(x, accounts.leaves, keys, nodes, code, all);
    MergedOnly(x.m.k, accounts.nodes, loaded.0, all);
    OnlyValues(x.m.k, s.snapshot.nodes, all);
    RebuiltAgain(x.m.k, root, nodes, s.snapshot.nodes, all);
    AccountsAgain(x, accounts.leaves, keys, nodes, code, s.snapshot.nodes, s.code, all);
  }

  lemma OnlyValues(k: Keccak, nodes: NodeMap, all: set<Bytes>)
    requires HoldsOnly(k, nodes, all)
    ensures nodes.Values <= all
  {
  }

  /** What a loaded state carries is keyed by content hash. */
  lemma LoadedOnly(x: Setup, root: B256, nodes: NodeMap, code: map<B256, Bytes>, all: set<Bytes>)
    requires Apart(x.m.k, nodes, all) && LoadState(x, root, nodes, code).Ok?
    ensures HoldsOnly(x.m.k, LoadState(x, root, nodes, code).value.snapshot.nodes, all)
  {
    hide Rebuild, LoadAccounts, HoldsOnly, SortedKeys;
    var accounts := Rebuild(x.m.k, root, nodes).value;
    var keys := SortedKeys(accounts.leaves.Keys);
    RebuiltOnly(x.m.k, root, nodes, all);
    AccountsOnly(x, accounts.leaves, keys, nodes, code, all);
    MergedOnly(x.m.k, accounts.nodes, LoadAccounts(x, accounts.leaves, keys, nodes, code).value.0, all);
  }
}
