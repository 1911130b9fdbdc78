/** Which checkpoints come back: the exact condition, on the checkpoint and the database it is imported into. */
module CheckpointComplete {
  import opened Wrappers
  import opened Bytes
  import opened Ordered
  import opened Hashing
  import opened TrieCommit
  import opened TrieWalk
  import opened Storage
  import opened StorageHistory
  import opened CommitEffects
  import opened Chain
  import opened DomainTree
  import opened Alike
  import opened CheckpointCodec
  import opened Recovery
  import opened EngineStore
  import opened EngineRecovery
  import opened EngineCommit
  import opened EngineCheckpoint
  import opened EngineRuns

  // ----- what is at hand before the import -----

  /** The node is stored already, or some domain of the checkpoint carries it. */
  ghost predicate NodeAtHand(k: Keccak, db: Columns, st: ChainState, h: B256) {
    || (h in db.nodes && k(db.nodes[h]) == h)
    || exists d :: d in st.domains && h in st.domains[d].state.snapshot.nodes
  }

  ghost predicate CodeAtHand(k: Keccak, db: Columns, st: ChainState, h: B256) {
    || (h in db.code && k(db.code[h]) == h)
    || exists d :: d in st.domains && h in st.domains[d].state.code
  }

  /** Every node a walk of this trie asks for is at hand, and the walk has nothing to refuse. */
  ghost predicate TrieAtHand(k: Keccak, db: Columns, st: ChainState, t: Leaves) {
    && |t| <= U32_MAX
    && (t != map[] ==>
          && TwinFree(t) && Distinct(HashesOf(k, t))
          && forall h | h in HashesOf(k, t) :: NodeAtHand(k, db, st, h))
  }

  /** A trie with this root, if there is one. */
  ghost function TrieOf(k: Keccak, root: B256): (r: Option<Leaves>)
    ensures r.Some? ==> r.value != map[] && RootHash(k, r.value) == root
    ensures r.None? ==> forall t: Leaves | t != map[] :: RootHash(k, t) != root
  {
    if exists t: Leaves :: t != map[] && RootHash(k, t) == root then
      var t: Leaves :| t != map[] && RootHash(k, t) == root;
      Some(t)
    else
      None
  }

  ghost predicate StorageAtHand(k: Keccak, db: Columns, st: ChainState, root: B256) {
    TrieOf(k, root).Some? && TrieAtHand(k, db, st, TrieOf(k, root).value)
  }

  ghost predicate AccountAtHand(x: Setup, db: Columns, st: ChainState, encoded: Bytes) {
    var k := x.m.k;
    && x.refs(encoded).Some?
    && (var refs := x.refs(encoded).value;
        && (refs.storageRoot != k(EMPTY_TRIE) ==> StorageAtHand(k, db, st, refs.storageRoot))
        && (refs.codeHash != k([]) ==> CodeAtHand(k, db, st, refs.codeHash)))
  }

  ghost predicate StateAtHand(x: Setup, db: Columns, st: ChainState, s: ExecutionState) {
    && |s.snapshot.leaves| <= U32_MAX && RootHash(x.m.k, s.snapshot.leaves) == s.snapshot.root
    && forall key | key in s.snapshot.leaves :: AccountAtHand(x, db, st, s.snapshot.leaves[key])
  }

  /** Every account of every domain has its storage trie and its code at hand. */
  ghost predicate Complete(x: Setup, db: Columns, st: ChainState) {
    forall d | d in st.domains :: StateAtHand(x, db, st, st.domains[d].state)
  }

  /** No two preimages in play collide: what is stored, what is carried, and the storage tries. */
  ghost predicate Stands(x: Setup, db: Columns, st: ChainState, all: set<Bytes>) {
    && CollisionFree(x.m.k, all) && db.nodes.Values <= all && EMPTY_TRIE in all
    && (forall d | d in st.domains :: st.domains[d].state.snapshot.nodes.Values <= all)
    && (forall d, key | d in st.domains && key in st.domains[d].state.snapshot.leaves ::
          TrieStands(x, all, st.domains[d].state.snapshot.leaves[key]))
  }

  ghost predicate TrieStands(x: Setup, all: set<Bytes>, encoded: Bytes) {
    var refs := x.refs(encoded);
    refs.Some? && TrieOf(x.m.k, refs.value.storageRoot).Some? ==>
      Preimages(x.m.k, TrieOf(x.m.k, refs.value.storageRoot).value) <= all
  }

  // ----- what is in the columns afterwards -----

  lemma {:induction false} AppendedNodes(k: Keccak, db: Columns, batch: CommitBatch, n: nat, h: B256)
    requires n <= |batch.states| && AppendFirst(k, db, batch, n).Ok?
    ensures h in AppendFirst(k, db, batch, n).value.nodes <==> h in db.nodes || AmongStates(batch.states, n, h)
  {
    hide AppendFirst, AmongStates;
    AmongMore(batch.states, n, h);
    if n == 0 {
      AppendNone(k, db, batch);
    } else {
      AppendStep(k, db, batch, n);
      AppendedNodes(k, db, batch, n - 1, h);
    }
  }

  ghost predicate AmongStates(states: seq<StateCommit>, n: nat, h: B256)
    requires n <= |states|
  {
    exists i :: 0 <= i < n && h in states[i].snapshot.nodes
  }

  lemma AmongMore(states: seq<StateCommit>, n: nat, h: B256)
    requires n <= |states|
    ensures n == 0 ==> !AmongStates(states, n, h)
    ensures n > 0 ==>
              (AmongStates(states, n, h) <==> AmongStates(states, n - 1, h) || h in states[n - 1].snapshot.nodes)
  {
    if n > 0 {
      if AmongStates(states, n, h) && h !in states[n - 1].snapshot.nodes {
        var i :| 0 <= i < n && h in states[i].snapshot.nodes;
        assert i < n - 1;
      }
      if AmongStates(states, n - 1, h) {
        var i :| 0 <= i < n - 1 && h in states[i].snapshot.nodes;
      }
    }
  }

  /** The import, spelled out: an accepted batch and the columns it leads to. */
  ghost predicate Imports(x: Setup, db: Columns, st: ChainState, next: Columns) {
    && CheckpointBatch(x, st).Ok? && CommitColumns(x.m.k, db, CheckpointBatch(x, st).value) == Ok(next)
    && ContentAddressed(x.m.k, CheckpointBatch(x, st).value.states)
    && CollisionFree(x.m.k, BatchBytes(CheckpointBatch(x, st).value.states))
  }

  lemma StatesListed(x: Setup, st: ChainState, d: B256) returns (i: nat)
    requires CheckpointBatch(x, st).Ok? && d in st.domains
    ensures var states := CheckpointBatch(x, st).value.states;
            i < |states| && states[i].domainId == d && states[i].snapshot == st.domains[d].state.snapshot
  {
    hide SortedKeys, EncodeCheckpoint, HeadsRoot, CheckpointDescriptors, EncodeWal, CodeOfDomains;
    var ids := SortedKeys(st.domains.Keys);
    assert d in ids;
    i :| 0 <= i < |ids| && ids[i] == d;
  }

  lemma ListedStates(x: Setup, st: ChainState, i: nat)
    requires CheckpointBatch(x, st).Ok? && i < |CheckpointBatch(x, st).value.states|
    ensures var s := CheckpointBatch(x, st).value.states[i];
            s.domainId in st.domains && s.snapshot == st.domains[s.domainId].state.snapshot
  {
    hide SortedKeys, EncodeCheckpoint, HeadsRoot, CheckpointDescriptors, EncodeWal, CodeOfDomains;
    var ids := SortedKeys(st.domains.Keys);
    assert ids[i] in ids;
  }

  /** A node can be loaded after the import exactly when it was at hand before. */
  lemma NodesAfter(x: Setup, db: Columns, st: ChainState, next: Columns, h: B256)
    requires Imports(x, db, st, next)
    ensures h in next.nodes && x.m.k(next.nodes[h]) == h <==> NodeAtHand(x.m.k, db, st, h)
  {
    hide CheckpointBatch, AppendFirst, Stored, CollectLeaves, CollisionFree, PutAll, UniqueDomains, InDomains;
    var k, batch := x.m.k, CheckpointBatch(x, st).value;
    CommitEffect(k, db, batch);
    CommitStores(k, db, batch);
    AppendedNodes(k, db, batch, |batch.states|, h);
    if h in next.nodes && h !in db.nodes {
      var i :| 0 <= i < |batch.states| && h in batch.states[i].snapshot.nodes;
      ListedStates(x, st, i);
    }
    StoredSame(db.nodes, next.nodes, h);
    if d :| d in st.domains && h in st.domains[d].state.snapshot.nodes {
      var i := StatesListed(x, st, d);
      StoredSame(batch.states[i].snapshot.nodes, next.nodes, h);
      assert batch.states[i] in batch.states;
    }
  }

  lemma StoredSame(nodes: NodeMap, store: NodeMap, h: B256)
    requires Stored(nodes, store)
    ensures h in nodes ==> h in store && store[h] == nodes[h]
  {
  }

  lemma NextValues(x: Setup, db: Columns, st: ChainState, next: Columns, all: set<Bytes>)
    requires Imports(x, db, st, next) && Stands(x, db, st, all)
    ensures next.nodes.Values <= all
  {
    hide CheckpointBatch, AppendFirst, Stored, CollectLeaves, CollisionFree, PutAll, UniqueDomains, InDomains,
         TrieStands;
    var k, batch := x.m.k, CheckpointBatch(x, st).value;
    CommitEffect(k, db, batch);
    CommitStores(k, db, batch);
    forall h | h in next.nodes
      ensures next.nodes[h] in all
    {
      AppendedNodes(k, db, batch, |batch.states|, h);
      StoredSame(db.nodes, next.nodes, h);
      if h in db.nodes {
        assert db.nodes[h] in db.nodes.Values;
      } else {
        var i :| 0 <= i < |batch.states| && h in batch.states[i].snapshot.nodes;
        ListedStates(x, st, i);
        StoredSame(batch.states[i].snapshot.nodes, next.nodes, h);
        var nodes := st.domains[batch.states[i].domainId].state.snapshot.nodes;
        assert nodes[h] in nodes.Values;
      }
    }
  }

  lemma {:induction false} CodeListedBack(st: ChainState, ids: seq<B256>, h: B256)
    requires forall e | e in ids :: e in st.domains
    ensures h in CodeOfDomains(st, ids) ==> exists d :: d in st.domains && h in st.domains[d].state.code
  {
    if ids != [] {
      CodeListedBack(st, ids[..|ids| - 1], h);
      assert ids[|ids| - 1] in ids;
    }
  }

  lemma CodeAfter(x: Setup, db: Columns, st: ChainState, next: Columns, h: B256)
    requires Imports(x, db, st, next)
    ensures h in next.code && x.m.k(next.code[h]) == h <==> CodeAtHand(x.m.k, db, st, h)
  {
    hide CommitColumns, SortedKeys, EncodeCheckpoint, HeadsRoot, CheckpointDescriptors, EncodeWal, PutAll,
         UniqueDomains, InDomains, Stored, CodeOfDomains, CollisionFree, ContentAddressed;
    var batch := CheckpointBatch(x, st).value;
    CommitEffect(x.m.k, db, batch);
    var ids := SortedKeys(st.domains.Keys);
    CodeListedBack(st, ids, h);
    if d :| d in st.domains && h in st.domains[d].state.code {
      assert d in ids;
      CodeListed(st, ids, d);
    }
  }

  // ----- loading -----

  /** A storage trie is rebuilt from the columns exactly when it was at hand. */
  lemma TrieLoads(x: Setup, db: Columns, st: ChainState, next: Columns, all: set<Bytes>, t: Leaves)
    requires Imports(x, db, st, next) && Stands(x, db, st, all)
    requires t != map[] && Preimages(x.m.k, t) <= all
    ensures Rebuild(x.m.k, RootHash(x.m.k, t), next.nodes).Ok? <==> TrieAtHand(x.m.k, db, st, t)
  {
    hide Imports, Preimages, RootHash, TwinFree, Distinct, HashesOf, CollectLeaves, NodeAtHand, TrieStands;
    var k := x.m.k;
    NextValues(x, db, st, next, all);
    FewerCollide(k, next.nodes.Values + Preimages(k, t) + {EMPTY_TRIE}, all);
    CollectIsExact(k, next.nodes, t);
    forall h | h in HashesOf(k, t)
      ensures h in next.nodes && k(next.nodes[h]) == h <==> NodeAtHand(k, db, st, h)
    {
      NodesAfter(x, db, st, next, h);
    }
    var r := CollectLeaves(k, next.nodes, RootHash(k, t));
    if r.Ok? {
      assert r.value == t;
    }
  }

  /** A storage root loads exactly when it is the root of a trie at hand. */
  lemma StorageLoads(x: Setup, db: Columns, st: ChainState, next: Columns, all: set<Bytes>, root: B256)
    requires Imports(x, db, st, next) && Stands(x, db, st, all) && root != x.m.k(EMPTY_TRIE)
    requires TrieOf(x.m.k, root).Some? ==> Preimages(x.m.k, TrieOf(x.m.k, root).value) <= all
    ensures Rebuild(x.m.k, root, next.nodes).Ok? <==> StorageAtHand(x.m.k, db, st, root)
  {
    hide Imports, Stands, TrieAtHand, TrieOf, CollectLeaves, BuiltNodes;
    var found := TrieOf(x.m.k, root);
    if Rebuild(x.m.k, root, next.nodes).Ok? {
      var t: Leaves := Rebuild(x.m.k, root, next.nodes).value.leaves;
      assert t != map[] && RootHash(x.m.k, t) == root;
      assert found.Some?;
    }
    if found.Some? {
      TrieLoads(x, db, st, next, all, found.value);
    }
  }

  lemma AccountLoads(x: Setup, db: Columns, st: ChainState, next: Columns, all: set<Bytes>,
                     encoded: Bytes)
    requires Imports(x, db, st, next) && Stands(x, db, st, all) && TrieStands(x, all, encoded)
    ensures LoadAccount(x, encoded, next.nodes, next.code).Ok? <==> AccountAtHand(x, db, st, encoded)
  {
    hide Imports, Stands, Rebuild, TrieAtHand, CodeAtHand, TrieOf;
    if x.refs(encoded).Some? {
      var refs := x.refs(encoded).value;
      if refs.storageRoot != x.m.k(EMPTY_TRIE) {
        StorageLoads(x, db, st, next, all, refs.storageRoot);
      }
      CodeAfter(x, db, st, next, refs.codeHash);
    }
  }

  lemma {:induction false} AllAccountsLoad(x: Setup, leaves: Leaves, keys: seq<B256>, nodes: NodeMap,
                                           code: map<B256, Bytes>)
    requires forall key | key in keys :: key in leaves
    ensures LoadAccounts(x, leaves, keys, nodes, code).Ok? <==> EachLoads(x, leaves, keys, nodes, code)
  {
    hide LoadAccount;
    if keys != [] {
      var n := |keys| - 1;
      AllAccountsLoad(x, leaves, keys[..n], nodes, code);
      EachSplit(x, leaves, keys, nodes, code);
    }
  }

  ghost predicate EachLoads(x: Setup, leaves: Leaves, keys: seq<B256>, nodes: NodeMap, code: map<B256, Bytes>)
    requires forall key | key in keys :: key in leaves
  {
    forall i | 0 <= i < |keys| :: LoadAccount(x, leaves[keys[i]], nodes, code).Ok?
  }

  lemma EachSplit(x: Setup, leaves: Leaves, keys: seq<B256>, nodes: NodeMap, code: map<B256, Bytes>)
    requires keys != [] && forall key | key in keys :: key in leaves
    ensures var n := |keys| - 1;
            EachLoads(x, leaves, keys, nodes, code) <==>
            EachLoads(x, leaves, keys[..n], nodes, code) && LoadAccount(x, leaves[keys[n]], nodes, code).Ok?
  {
    hide LoadAccount;
    var n := |keys| - 1;
    assert forall i | 0 <= i < n :: keys[..n][i] == keys[i];
  }

  lemma StateLoads(x: Setup, db: Columns, st: ChainState, next: Columns, all: set<Bytes>, d: B256)
    requires Imports(x, db, st, next) && Stands(x, db, st, all) && d in st.domains
    ensures var s := st.domains[d].state;
            LoadState(x, s.snapshot.root, next.nodes, next.code).Ok? <==> StateAtHand(x, db, st, s)
  {
    hide CheckpointBatch, CommitColumns, CollisionFree, ContentAddressed, LoadAccount, LoadAccounts, AccountAtHand,
         CollectLeaves, RootHash, SortedKeys, TrieStands, Stored, BuiltNodes;
    var k, s := x.m.k, st.domains[d].state;
    WalksAfter(x, db, st, next, d);
    var leaves := s.snapshot.leaves;
    assert Short(leaves);
    var keys := SortedKeys(leaves.Keys);
    AllAccountsLoad(x, leaves, keys, next.nodes, next.code);
    assert forall key | key in leaves :: key in keys;
    assert forall i | 0 <= i < |keys| :: keys[i] in leaves by {
      assert forall i | 0 <= i < |keys| :: keys[i] in keys;
    }
    forall key | key in leaves
      ensures LoadAccount(x, leaves[key], next.nodes, next.code).Ok? <==> AccountAtHand(x, db, st, leaves[key])
    {
      assert TrieStands(x, all, st.domains[d].state.snapshot.leaves[key]);
      AccountLoads(x, db, st, next, all, leaves[key]);
    }
  }

  /** An accepted checkpoint comes back on reopening if and only if every account of every domain has its
      storage trie and its code at hand, carried by the checkpoint or stored before; the commit itself
      checks account tries only. */
  lemma ImportReopens(x: Setup, usable: Usable, db: Columns, prior: ChainState, st: ChainState, next: Columns,
                      all: set<Bytes>)
    requires Sound(x, usable) && Recovers(x, usable, db, prior) && Importable(x, usable, st)
    requires Imports(x, db, st, next) && Stands(x, db, st, all)
    ensures Recovers(x, usable, next, st) <==> Complete(x, db, st)
  {
    hide CheckpointBatch, CommitColumns, CollisionFree, ContentAddressed, LoadState, StateAtHand, Recovers, Sound,
         Importable, Stands;
    ReopensIfLoads(x, usable, db, prior, st);
    forall d | d in st.domains
      ensures LoadState(x, st.domains[d].state.snapshot.root, next.nodes, next.code).Ok? <==>
              StateAtHand(x, db, st, st.domains[d].state)
    {
      StateLoads(x, db, st, next, all, d);
    }
  }

  // ----- a checkpoint that is accepted and lost -----

  /** The same chain state with other code bodies in one domain. */
  ghost function WithCode(st: ChainState, d: B256, code: map<B256, Bytes>): ChainState
    requires d in st.domains
  {
    var f := st.domains[d];
    st.(domains := st.domains[d := f.(state := f.state.(code := code))])
  }

  /** The same checkpoint with one code body of one domain left out. */
  ghost function WithoutCode(st: ChainState, d: B256, h: B256): ChainState
    requires d in st.domains
  {
    WithCode(st, d, st.domains[d].state.code - {h})
  }

  lemma WithoutIs(st: ChainState, d: B256, h: B256)
    requires d in st.domains
    ensures WithoutCode(st, d, h) == WithCode(st, d, st.domains[d].state.code - {h})
  {
  }

  /** The audit does not look at the code of any domain but the root. */
  lemma FitsWithCode(x: Setup, st: ChainState, d: B256, code: map<B256, Bytes>)
    requires CheckpointFits(x, st) && d in st.domains && d != st.rootDomainId
    ensures CheckpointFits(x, WithCode(st, d, code))
  {
    hide DomainFits, Described, Genealogy, SameChainId, WithCode;
    var other := WithCode(st, d, code);
    WithCodeAlike(st, d, code);
    AlikeFrame(st, other);
    forall e | e in other.domains
      ensures DomainFits(x, other, e)
    {
      assert DomainFits(x, st, e);
      DomainFitsAlike(x, st, other, e);
    }
    forall a, b | a in other.domains && b in other.domains && SameChainId(other, a, b)
      ensures a == b
    {
      SameChainIdAlike(st, other, a, b);
    }
    forall e | e in other.descriptors
      ensures Described(x, other, e) && Genealogy(other, e).Ok?
    {
      assert Described(x, st, e) && Genealogy(st, e).Ok?;
      DescribedWithCode(x, st, d, code, e);
    }
  }

  lemma WithCodeAlike(st: ChainState, d: B256, code: map<B256, Bytes>)
    requires d in st.domains
    ensures AlikeChain(st, WithCode(st, d, code))
  {
  }

  lemma DescribedWithCode(x: Setup, st: ChainState, d: B256, code: map<B256, Bytes>, e: B256)
    requires d in st.domains && d != st.rootDomainId && st.rootDomainId in st.domains
    requires e in st.descriptors && Described(x, st, e) && Genealogy(st, e).Ok?
    ensures var other := WithCode(st, d, code);
            other.rootDomainId in other.domains && e in other.descriptors && Described(x, other, e) &&
                Genealogy(other, e).Ok?
  {
    hide Ancestry;
    AncestryAlike(st, WithCode(st, d, code), e, {e});
  }

  lemma {:induction false} CodeWithout(st: ChainState, d: B256, h: B256, ids: seq<B256>)
    requires d in st.domains && forall e | e in ids :: e in st.domains
    requires forall e | e in st.domains && e != d :: h !in st.domains[e].state.code
    ensures CodeOfDomains(WithoutCode(st, d, h), ids) == CodeOfDomains(st, ids) - {h}
  {
    if ids != [] {
      var n := |ids| - 1;
      CodeWithout(st, d, h, ids[..n]);
      assert ids[n] in ids;
      MergeWithout(CodeOfDomains(st, ids[..n]), st.domains[ids[n]].state.code, h);
    }
  }

  lemma MergeWithout(a: map<B256, Bytes>, b: map<B256, Bytes>, h: B256)
    ensures (a - {h}) + (b - {h}) == (a + b) - {h}
    ensures h !in b ==> b - {h} == b
  {
  }

  lemma {:induction false} DescriptorsWithout(st: ChainState, d: B256, h: B256, ids: seq<B256>)
    requires d in st.domains && forall e | e in ids :: e in st.descriptors
    ensures CheckpointDescriptors(WithoutCode(st, d, h), ids) == CheckpointDescriptors(st, ids)
  {
    hide EncodeDescriptor;
    if ids != [] {
      DescriptorsWithout(st, d, h, ids[..|ids| - 1]);
    }
  }

  lemma RecordWithout(x: Setup, st: ChainState, d: B256, h: B256)
    requires d in st.domains
    ensures var less := WithoutCode(st, d, h);
            && RecordOf(x, less) == RecordOf(x, st) && MarkerOf(x.m, less) == MarkerOf(x.m, st)
            && less.domains.Keys == st.domains.Keys
            && CheckpointStates(less, SortedKeys(less.domains.Keys)) ==
                 CheckpointStates(st, SortedKeys(st.domains.Keys))
  {
    hide SortedKeys, HeadsRoot;
    var less := WithoutCode(st, d, h);
    assert less.domains.Keys == st.domains.Keys;
    var ids := SortedKeys(st.domains.Keys);
    WithCodeAlike(st, d, st.domains[d].state.code - {h});
    RootAlike(x.m.k, st, less);
    assert RecordsFor(less, ids) == RecordsFor(st, ids);
    assert CheckpointStates(less, ids) == CheckpointStates(st, ids);
  }

  lemma BatchWithout(x: Setup, st: ChainState, d: B256, h: B256)
    requires CheckpointBatch(x, st).Ok? && d in st.domains
    requires forall e | e in st.domains && e != d :: h !in st.domains[e].state.code
    ensures var batch := CheckpointBatch(x, st).value;
            CheckpointBatch(x, WithoutCode(st, d, h)) == Ok(batch.(code := batch.code - {h}))
  {
    hide SortedKeys, EncodeCheckpoint, HeadsRoot, CheckpointDescriptors, EncodeWal, CodeOfDomains, RecordOf,
         CheckpointStates, MarkerOf;
    RecordWithout(x, st, d, h);
    DescriptorsWithout(st, d, h, SortedKeys(st.descriptors.Keys));
    CodeWithout(st, d, h, SortedKeys(st.domains.Keys));
  }

  lemma {:induction false} AppendWithout(k: Keccak, db: Columns, batch: CommitBatch, code: map<B256, Bytes>, n: nat)
    requires n <= |batch.states|
    ensures AppendFirst(k, db, batch.(code := code), n) == AppendFirst(k, db, batch, n)
  {
    hide AppendState;
    if n > 0 {
      AppendWithout(k, db, batch, code, n - 1);
    }
  }

  lemma CommitWithout(k: Keccak, db: Columns, batch: CommitBatch, h: B256)
    requires CommitColumns(k, db, batch).Ok?
    ensures var less := CommitColumns(k, db, batch.(code := batch.code - {h}));
            less.Ok? && less.value.code == db.code + (batch.code - {h}) && less.value.marker.Some?
  {
    hide AppendFirst, PutAll, UniqueDomains, UniqueKeys, RegistryCheck, InDomains, Stored;
    AppendWithout(k, db, batch, batch.code - {h}, |batch.states|);
    CommitEffect(k, db, batch.(code := batch.code - {h}));
  }

  /** Leave out the body of a contract that is stored nowhere else: the import is accepted all the same,
      and the database it leaves cannot be opened again. */
  lemma MissingCodeIsLost(x: Setup, n: Node, st: ChainState, d: B256, key: B256, h: B256)
    requires CommitCheckpoint(x, n, st).Some? && st.descriptors.Keys <= st.domains.Keys && NamesValid(x, st)
    requires d in st.domains && d != st.rootDomainId && key in st.domains[d].state.snapshot.leaves
    requires var refs := x.refs(st.domains[d].state.snapshot.leaves[key]); refs.Some? && refs.value.codeHash == h
    requires h != x.m.k([]) && h !in n.db.code && forall e | e in st.domains && e != d :: h !in st.domains[e].state.code
    requires ContentAddressed(x.m.k, CheckpointStates(st, SortedKeys(st.domains.Keys)))
    requires CollisionFree(x.m.k, BatchBytes(CheckpointStates(st, SortedKeys(st.domains.Keys))))
    ensures var less := CommitCheckpoint(x, n, WithoutCode(st, d, h));
            less.Some? && less.value.db.marker.Some? && Reopen(x, less.value.db).Err?
  {
    hide CommitCheckpoint, Imports, CheckpointFits, Reopen, LoadState, WithoutCode, NamesValid, CollectLeaves,
         CheckpointStates, ContentAddressed, CollisionFree, SortedKeys;
    var less := WithoutCode(st, d, h);
    var next := ImportsWithout(x, n, st, d, h);
    WithoutFrame(st, d, h);
    WalksAfter(x, n.db, less, next, d);
    CodeMissing(x, less.domains[d].state, key, h, next);
    NamesWithout(x, st, d, h);
    NeverReopens(x, n.db, less, next, d);
  }

  lemma NeverReopens(x: Setup, db: Columns, st: ChainState, next: Columns, d: B256)
    requires Imports(x, db, st, next) && CheckpointFits(x, st) && NamesValid(x, st) && next.marker.Some?
    requires d in st.domains && LoadState(x, st.domains[d].state.snapshot.root, next.nodes, next.code).Err?
    ensures Reopen(x, next).Err?
  {
    hide CheckpointBatch, CommitColumns, CheckpointFits, NamesValid, Reopen, LoadState, ContentAddressed, CollisionFree;
    if Reopen(x, next).Ok? {
      RecoveredLoads(x, db, next, st);
    }
  }

  lemma ImportsWithout(x: Setup, n: Node, st: ChainState, d: B256, h: B256) returns (next: Columns)
    requires CommitCheckpoint(x, n, st).Some? && st.descriptors.Keys <= st.domains.Keys
    requires d in st.domains && d != st.rootDomainId
    requires h !in n.db.code && forall e | e in st.domains && e != d :: h !in st.domains[e].state.code
    requires ContentAddressed(x.m.k, CheckpointStates(st, SortedKeys(st.domains.Keys)))
    requires CollisionFree(x.m.k, BatchBytes(CheckpointStates(st, SortedKeys(st.domains.Keys))))
    ensures var less := WithoutCode(st, d, h);
            && CommitCheckpoint(x, n, less) == Some(Node(next, less))
            && Imports(x, n.db, less, next) && CheckpointFits(x, less)
            && next.marker.Some? && h !in next.code
  {
    hide CheckpointBatch, CommitColumns, CheckpointFits, HeadsRoot, SortedKeys, WithoutCode, CommitCheckpoint,
         ContentAddressed, CollisionFree, CheckpointStates;
    var less := WithoutCode(st, d, h);
    AcceptedFits(x, n, st);
    WithoutIs(st, d, h);
    FitsWithCode(x, st, d, st.domains[d].state.code - {h});
    WithoutFrame(st, d, h);
    BatchStates(x, st);
    BatchWithout(x, st, d, h);
    var batch := CheckpointBatch(x, st).value;
    CommitWithout(x.m.k, n.db, batch, h);
    next := CommitColumns(x.m.k, n.db, batch.(code := batch.code - {h})).value;
    AcceptsSteps(x, n, less, next);
  }

  lemma AcceptsSteps(x: Setup, n: Node, st: ChainState, next: Columns)
    requires n.finalized.height == 0 && SameIdentity(x, st) && CheckpointFits(x, st) &&
      st.descriptors.Keys <= st.domains.Keys
    requires CheckpointBatch(x, st).Ok? && CommitColumns(x.m.k, n.db, CheckpointBatch(x, st).value) == Ok(next)
    ensures CommitCheckpoint(x, n, st) == Some(Node(next, st))
  {
    hide CheckpointBatch, CommitColumns, CheckpointFits, HeadsRoot, FromCheckpoint;
    AuditSelf(x, st);
  }

  lemma WalksAfter(x: Setup, db: Columns, st: ChainState, next: Columns, d: B256)
    requires Imports(x, db, st, next) && d in st.domains
    ensures CollectLeaves(x.m.k, next.nodes, st.domains[d].state.snapshot.root) ==
      Ok(st.domains[d].state.snapshot.leaves)
  {
    hide CheckpointBatch, CommitColumns, CollisionFree, ContentAddressed, CollectLeaves, Stored;
    CommitStores(x.m.k, db, CheckpointBatch(x, st).value);
    var i := StatesListed(x, st, d);
    var snapshot := st.domains[d].state.snapshot;
    CollectStable(x.m.k, snapshot.nodes, next.nodes, snapshot.root);
  }

  lemma AcceptedFits(x: Setup, n: Node, st: ChainState)
    requires CommitCheckpoint(x, n, st).Some? && st.descriptors.Keys <= st.domains.Keys
    ensures n.finalized.height == 0 && SameIdentity(x, st) && CheckpointFits(x, st)
    ensures CheckpointBatch(x, st).Ok? && CommitColumns(x.m.k, n.db, CheckpointBatch(x, st).value).Ok?
  {
    hide CheckpointBatch, CommitColumns, CheckpointFits, HeadsRoot, Projected;
    ProjectedSelf(st);
  }

  lemma WithoutFrame(st: ChainState, d: B256, h: B256)
    requires d in st.domains
    ensures var less := WithoutCode(st, d, h);
            && less == st.(domains := less.domains) && less.domains.Keys == st.domains.Keys
            && less.domains[d].state.snapshot == st.domains[d].state.snapshot
  {
  }

  lemma NamesWithout(x: Setup, st: ChainState, d: B256, h: B256)
    requires d in st.domains && NamesValid(x, st)
    ensures NamesValid(x, WithoutCode(st, d, h))
  {
  }

  lemma CodeMissing(x: Setup, s: ExecutionState, key: B256, h: B256, next: Columns)
    requires key in s.snapshot.leaves && h !in next.code && h != x.m.k([])
    requires var refs := x.refs(s.snapshot.leaves[key]); refs.Some? && refs.value.codeHash == h
    requires CollectLeaves(x.m.k, next.nodes, s.snapshot.root) == Ok(s.snapshot.leaves)
    ensures LoadState(x, s.snapshot.root, next.nodes, next.code).Err?
  {
    hide Rebuild, LoadAccounts, SortedKeys, CollectLeaves;
    var r := Rebuild(x.m.k, s.snapshot.root, next.nodes);
    RebuiltLeaves(x.m.k, s.snapshot.root, next.nodes);
    if r.Ok? {
      var leaves := r.value.leaves;
      var keys := SortedKeys(leaves.Keys);
      AllAccountsLoad(x, leaves, keys, next.nodes, next.code);
      assert key in keys;
      var i :| 0 <= i < |keys| && keys[i] == key;
      assert LoadAccount(x, leaves[keys[i]], next.nodes,
          next.code).Err? by { AccountMissing(x, leaves[key], next.nodes, next.code); }
    }
  }

  lemma AccountMissing(x: Setup, encoded: Bytes, nodes: NodeMap, code: map<B256, Bytes>)
    requires x.refs(encoded).Some? && x.refs(encoded).value.codeHash != x.m.k([]) &&
      x.refs(encoded).value.codeHash !in code
    ensures LoadAccount(x, encoded, nodes, code).Err?
  {
    hide Rebuild;
  }

  lemma RebuiltLeaves(k: Keccak, root: B256, nodes: NodeMap)
    ensures Rebuild(k, root, nodes).Ok? ==> CollectLeaves(k, nodes, root) == Ok(Rebuild(k, root, nodes).value.leaves)
  {
    hide CollectLeaves, RootHash;
  }
}
