/** A snapshot produced from one chain state and what a receiver ends up with. */
module SnapshotTransfer {
  import opened Wrappers
  import opened Bytes
  import opened Ordered
  import opened Hashing
  import opened Canonical
  import opened TrieCommit
  import opened TrieWalk
  import opened Chain
  import opened Alike
  import opened CheckpointCodec
  import opened Recovery
  import opened Reload
  import opened EngineStore
  import opened EngineRecovery
  import opened EngineCheckpoint
  import opened Snapshot
  import opened Sums
  import opened Staging
  import opened Storage
  import opened EngineRuns
  import opened CheckpointComplete

  // ----- producing -----

  function Carried(s: ExecutionState): Stores {
    Stores(s.snapshot.nodes, s.code)
  }

  function PackState(domain: B256, s: ExecutionState): (r: Result<seq<Bytes>, SnapshotError>)
    ensures r.Ok? ==> |r.value| <= MAX_CHUNKS_PER_DOMAIN
  {
    hide RecordsOf;
    Pack(domain, RecordsOf(Carried(s)), 0, 0)
  }

  /** The chunks of the first domains, in domain order. */
  function PackAll(st: ChainState, ids: seq<B256>, n: nat): (r: Result<seq<seq<Bytes>>, SnapshotError>)
    requires n <= |ids| && forall d | d in ids :: d in st.domains
    ensures r.Ok? ==> |r.value| == n
  {
    hide Pack, RecordsOf;
    if n == 0 then
      Ok([])
    else
      var first :- PackAll(st, ids, n - 1);
      var last :- PackState(ids[n - 1], st.domains[ids[n - 1]].state);
      Ok(first + [last])
  }

  lemma {:induction false} PackedEach(st: ChainState, ids: seq<B256>, n: nat, i: nat)
    requires i < n <= |ids| && (forall d | d in ids :: d in st.domains) && PackAll(st, ids, n).Ok?
    ensures PackState(ids[i], st.domains[ids[i]].state) == Ok(PackAll(st, ids, n).value[i])
  {
    hide PackState;
    if i < n - 1 {
      PackedEach(st, ids, n - 1, i);
    }
  }

  function InfosOf(k: Keccak, chunks: seq<Bytes>): seq<ChunkInfo> {
    seq(|chunks|, i requires 0 <= i < |chunks| => ChunkInfo(|chunks[i]|, k(chunks[i])))
  }

  function AllInfos(k: Keccak, packs: seq<seq<Bytes>>): seq<seq<ChunkInfo>> {
    seq(|packs|, i requires 0 <= i < |packs| => InfosOf(k, packs[i]))
  }

  const MAX_CHECKPOINT_DOMAINS: nat := 256

  datatype Bundle = Bundle(manifest: Staging.Manifest, served: map<ChunkKey, Bytes>)

  /** `SnapshotBundle::produce`. */
  function Produce(x: Setup, genesisHash: B256, st: ChainState): Result<Bundle, SnapshotError> {
    var ids := SortedKeys(st.domains.Keys);
    var packs :- PackAll(st, ids, |ids|);
    if ids == [] || |ids| > MAX_CHECKPOINT_DOMAINS then Err(Limit("checkpoint domain count")) else
    Ok(Bundle(Staging.Manifest(genesisHash, RecordOf(x, st), AllInfos(x.m.k, packs)), AllKeyed(ids, packs, |ids|)))
  }

  lemma ProducedShape(x: Setup, genesisHash: B256, st: ChainState)
    requires Produce(x, genesisHash, st).Ok?
    ensures var m := Produce(x, genesisHash, st).value.manifest;
            ManifestShaped(m) && RecordIds(m.checkpoint.domains) == SortedKeys(st.domains.Keys)
  {
    hide SortedKeys, PackState, PackAll, NeighboursSorted, HeadsRoot, RecordFor;
    RecordsSorted(st);
    var ids := SortedKeys(st.domains.Keys);
    var packs := PackAll(st, ids, |ids|).value;
    forall i | 0 <= i < |packs|
      ensures |packs[i]| <= MAX_CHUNKS_PER_DOMAIN
    {
      PackedEach(st, ids, |ids|, i);
    }
    ListedIds(st, ids);
  }

  lemma ListedIds(st: ChainState, ids: seq<B256>)
    requires forall d | d in ids :: d in st.domains
    ensures RecordIds(RecordsFor(st, ids)) == ids
  {
  }

  lemma SameKeys(k: Keccak, ids: seq<B256>, packs: seq<seq<Bytes>>, key: ChunkKey)
    requires StrictlySorted(ids) && |ids| == |packs|
    ensures var infos, served := AllKeyed(ids, AllInfos(k, packs), |ids|), AllKeyed(ids, packs, |ids|);
            && (key in infos <==> key in served)
            && (key in served ==> VerifyChunk(k, infos[key], served[key]))
  {
    hide StrictlySorted, AllKeyed;
    if key.domain in ids {
      var i :| 0 <= i < |ids| && ids[i] == key.domain;
      AllKeyedLookup(ids, packs, |ids|, i, key);
      AllKeyedLookup(ids, AllInfos(k, packs), |ids|, i, key);
    } else {
      KeyedOutside(ids, packs, |ids|, key);
      KeyedOutside(ids, AllInfos(k, packs), |ids|, key);
    }
  }

  /** The manifest declares exactly the chunks that are served, by length and hash. */
  lemma ProducedDeclares(x: Setup, genesisHash: B256, st: ChainState)
    requires Produce(x, genesisHash, st).Ok?
    ensures var b := Produce(x, genesisHash, st).value;
            ManifestShaped(b.manifest) && Declares(x.m.k, Expected(b.manifest), b.served)
  {
    hide SortedKeys, PackAll, HeadsRoot, AllKeyed, ManifestShaped, VerifyChunk, RecordsFor;
    ProducedShape(x, genesisHash, st);
    var b := Produce(x, genesisHash, st).value;
    var ids := SortedKeys(st.domains.Keys);
    var packs := PackAll(st, ids, |ids|).value;
    var expected := Expected(b.manifest);
    forall key: ChunkKey
      ensures key in expected <==> key in b.served
      ensures key in b.served ==> VerifyChunk(x.m.k, expected[key], b.served[key])
    {
      SameKeys(x.m.k, ids, packs, key);
    }
  }

  // ----- one domain -----

  lemma {:induction false} StagedIsListed(k: Keccak, domain: B256, chunks: map<ChunkKey, Bytes>, list: seq<Bytes>,
                                          i: nat, s: Stores)
    requires i <= |list| <= MAX_CHUNKS_PER_DOMAIN
    requires forall j: nat | j < |list| :: ChunkKey(domain, j) in chunks && chunks[ChunkKey(domain, j)] == list[j]
    ensures DecodeStaged(k, domain, chunks, i, |list|, s) == DecodeChunks(k, domain, i, list[i..], s)
    decreases |list| - i
  {
    hide DecodeChunk;
    if i < |list| {
      assert list[i..][0] == list[i] && list[i..][1..] == list[i + 1..];
      var next := DecodeChunk(k, domain, i, list[i], s);
      if next.Ok? {
        StagedIsListed(k, domain, chunks, list, i + 1, next.value);
      }
    }
  }

  /** Loading the state from what it carries takes every code body along. */
  ghost predicate CodeLoads(x: Setup, s: ExecutionState) {
    var own := LoadState(x, s.snapshot.root, s.snapshot.nodes, s.code);
    own.Ok? && own.value.code.Keys == s.code.Keys
  }

  /** An account with this non-empty code hash. */
  ghost predicate RefersTo(x: Setup, encoded: Bytes, h: B256) {
    x.refs(encoded).Some? && x.refs(encoded).value.codeHash == h && h != x.m.k([])
  }

  /** Every code body the state carries is one its accounts refer to. */
  ghost predicate Referenced(x: Setup, s: ExecutionState) {
    forall h | h in s.code :: exists key :: key in s.snapshot.leaves && RefersTo(x, s.snapshot.leaves[key], h)
  }

  lemma {:induction false} LoadedCode(x: Setup, leaves: Leaves, keys: seq<B256>, nodes: NodeMap, code: map<B256, Bytes>,
                                      h: B256)
    requires (forall key | key in keys :: key in leaves) && LoadAccounts(x, leaves, keys, nodes, code).Ok?
    ensures h in LoadAccounts(x, leaves, keys, nodes, code).value.1 <==>
            exists i :: 0 <= i < |keys| && RefersTo(x, leaves[keys[i]], h)
    ensures h in LoadAccounts(x, leaves, keys, nodes, code).value.1 ==> h in code
  {
    hide Rebuild, LoadAccount, RefersTo;
    if keys != [] {
      var n := |keys| - 1;
      LoadedCode(x, leaves, keys[..n], nodes, code, h);
      AccountCode(x, leaves[keys[n]], nodes, code, h);
      var last := LoadAccount(x, leaves[keys[n]], nodes, code).value.1;
      if h in LoadAccounts(x, leaves, keys[..n], nodes, code).value.1 {
        var i :| 0 <= i < n && RefersTo(x, leaves[keys[..n][i]], h);
        assert keys[i] == keys[..n][i];
      }
      if i :| 0 <= i < |keys| && RefersTo(x, leaves[keys[i]], h) {
        if i < n {
          assert keys[..n][i] == keys[i];
        }
      }
    }
  }

  lemma AccountCode(x: Setup, encoded: Bytes, nodes: NodeMap, code: map<B256, Bytes>, h: B256)
    requires LoadAccount(x, encoded, nodes, code).Ok?
    ensures h in LoadAccount(x, encoded, nodes, code).value.1 <==> RefersTo(x, encoded, h)
    ensures h in LoadAccount(x, encoded, nodes, code).value.1 ==> h in code
  {
    hide Rebuild;
  }

  /** A state that loads to its own leaves takes all its code along exactly when its accounts refer to
      all of it. */
  lemma ReferencedLoads(x: Setup, s: ExecutionState)
    requires Restorable(x, s) && CollectLeaves(x.m.k, s.snapshot.nodes, s.snapshot.root) == Ok(s.snapshot.leaves)
    ensures CodeLoads(x, s) <==> Referenced(x, s)
  {
    hide Rebuild, LoadAccounts, SortedKeys, CollectLeaves, RefersTo;
    LoadedRoot(x, s.snapshot.root, s.snapshot.nodes, s.code);
    var leaves := s.snapshot.leaves;
    var keys := SortedKeys(leaves.Keys);
    var own := LoadState(x, s.snapshot.root, s.snapshot.nodes, s.code).value;
    forall h
      ensures h in own.code <==> exists key :: key in leaves && RefersTo(x, leaves[key], h)
      ensures h in own.code ==> h in s.code
    {
      LoadedCode(x, leaves, keys, s.snapshot.nodes, s.code, h);
      if h in own.code {
        var i :| 0 <= i < |keys| && RefersTo(x, leaves[keys[i]], h);
        assert keys[i] in keys;
      }
      if key :| key in leaves && RefersTo(x, leaves[key], h) {
        assert key in keys;
      }
    }
  }

  /** With its chunks in place a domain finishes exactly as loading it from its own nodes and code does,
      and is refused for code that no account refers to. */
  lemma DomainTransfers(x: Setup, r: DomainRecord, s: ExecutionState, list: seq<Bytes>, chunks: map<ChunkKey, Bytes>)
    requires PackState(r.domainId, s) == Ok(list) && r.stateRoot == s.snapshot.root
    requires Addressed(x.m.k, s.snapshot.nodes) && Addressed(x.m.k, s.code)
    requires forall j: nat | j < |list| ::
               ChunkKey(r.domainId, j) in chunks && chunks[ChunkKey(r.domainId, j)] == list[j]
    ensures var done := FinishDomain(x, r, |list|, chunks);
            var own := LoadState(x, s.snapshot.root, s.snapshot.nodes, s.code);
            && (done.Ok? <==> CodeLoads(x, s))
            && (done.Ok? ==> own.Ok? && done == Ok(own.value))
            && (own.Ok? && done.Err? ==> done.error == Invalid("snapshot contains unreferenced contract code"))
  {
    hide Pack, RecordsOf, DecodeStaged, DecodeChunks, LoadState, Addressed;
    StagedIsListed(x.m.k, r.domainId, chunks, list, 0, Stores(map[], map[]));
    assert list[0..] == list;
    ChunksLossless(x.m.k, r.domainId, Carried(s));
  }

  // ----- all domains -----

  /** A state that carries a walkable trie of its own leaves, keyed by content hash. */
  ghost predicate Portable(x: Setup, s: ExecutionState) {
    hide LoadState, CollectLeaves;
    && Addressed(x.m.k, s.snapshot.nodes) && Addressed(x.m.k, s.code) && Restorable(x, s)
    && CollectLeaves(x.m.k, s.snapshot.nodes, s.snapshot.root) == Ok(s.snapshot.leaves)
  }

  lemma PortableAlike(x: Setup, s: ExecutionState)
    requires Portable(x, s)
    ensures AlikeState(s, LoadState(x, s.snapshot.root, s.snapshot.nodes, s.code).value)
  {
    hide LoadState, CollectLeaves;
    LoadedRoot(x, s.snapshot.root, s.snapshot.nodes, s.code);
  }

  lemma ServedDomain(x: Setup, genesisHash: B256, st: ChainState, i: nat)
    requires Produce(x, genesisHash, st).Ok? && i < |SortedKeys(st.domains.Keys)|
    requires Portable(x, st.domains[SortedKeys(st.domains.Keys)[i]].state)
    ensures var b := Produce(x, genesisHash, st).value;
            var s := st.domains[SortedKeys(st.domains.Keys)[i]].state;
            && ManifestShaped(b.manifest) && i < |b.manifest.chunks|
            && (var done := FinishDomain(x, b.manifest.checkpoint.domains[i], |b.manifest.chunks[i]|, b.served);
                && (done.Ok? <==> Referenced(x, s))
                && (done.Ok? ==> done == Ok(LoadState(x, s.snapshot.root, s.snapshot.nodes, s.code).value))
                && (done.Err? ==> done.error == Invalid("snapshot contains unreferenced contract code")))
  {
    hide SortedKeys, PackState, PackAll, HeadsRoot, AllKeyed, ManifestShaped, FinishDomain, LoadState, Referenced,
         CodeLoads, CollectLeaves;
    ProducedShape(x, genesisHash, st);
    var b := Produce(x, genesisHash, st).value;
    var ids := SortedKeys(st.domains.Keys);
    var packs := PackAll(st, ids, |ids|).value;
    var d := ids[i];
    PackedEach(st, ids, |ids|, i);
    forall j: nat | j < |packs[i]|
      ensures ChunkKey(d, j) in b.served && b.served[ChunkKey(d, j)] == packs[i][j]
    {
      AllKeyedLookup(ids, packs, |ids|, i, ChunkKey(d, j));
    }
    ReferencedLoads(x, st.domains[d].state);
    DomainTransfers(x, b.manifest.checkpoint.domains[i], st.domains[d].state, packs[i], b.served);
  }

  ghost predicate AllReferenced(x: Setup, st: ChainState, ids: seq<B256>, n: nat)
    requires n <= |ids| && forall d | d in ids :: d in st.domains
  {
    hide Referenced;
    forall i | 0 <= i < n :: Referenced(x, st.domains[ids[i]].state)
  }

  lemma {:induction false} DomainsTransfer(x: Setup, genesisHash: B256, st: ChainState, n: nat)
    requires Produce(x, genesisHash, st).Ok? && n <= |SortedKeys(st.domains.Keys)|
    requires forall d | d in st.domains :: Portable(x, st.domains[d].state)
    ensures var b := Produce(x, genesisHash, st).value;
            var ids := SortedKeys(st.domains.Keys);
            && ManifestShaped(b.manifest) && n <= |b.manifest.chunks|
            && (var done := FinishDomains(x, b.manifest, b.served, n);
                && (done.Ok? <==> AllReferenced(x, st, ids, n))
                && (done.Ok? ==> LoadedFrom(st, ids[..n], done.value))
                && (done.Err? ==> done.error == Invalid("snapshot contains unreferenced contract code")))
  {
    hide SortedKeys, HeadsRoot, AllKeyed, ManifestShaped, FinishDomain, FinishDomains, LoadState, Referenced, Portable,
         LoadedFrom, PackAll, AllReferenced, RecordFor, AlikeState;
    ProducedShape(x, genesisHash, st);
    var ids := SortedKeys(st.domains.Keys);
    if n == 0 {
      NothingDone(x, st, Produce(x, genesisHash, st).value, ids);
    } else {
      DomainsTransfer(x, genesisHash, st, n - 1);
      assert ids[n - 1] in ids;
      ServedDomain(x, genesisHash, st, n - 1);
      PortableAlike(x, st.domains[ids[n - 1]].state);
      MoreDone(x, st, Produce(x, genesisHash, st).value, ids, n);
    }
  }

  lemma NothingDone(x: Setup, st: ChainState, b: Bundle, ids: seq<B256>)
    requires (forall d | d in ids :: d in st.domains) && ManifestShaped(b.manifest)
    ensures FinishDomains(x, b.manifest, b.served, 0) == Ok(Loaded(map[], map[])) && AllReferenced(x, st, ids, 0)
    ensures LoadedFrom(st, ids[..0], Loaded(map[], map[]))
  {
    hide ManifestShaped, LoadedFrom;
    NothingFrom(st);
    assert ids[..0] == [];
  }

  lemma MoreDone(x: Setup, st: ChainState, b: Bundle, ids: seq<B256>, n: nat)
    requires 0 < n <= |ids| && (forall d | d in ids :: d in st.domains) && ManifestShaped(b.manifest) &&
      n <= |b.manifest.chunks|
    requires b.manifest.checkpoint.domains[n - 1] == RecordFor(st, ids[n - 1])
    requires var before := FinishDomains(x, b.manifest, b.served, n - 1);
             && (before.Ok? <==> AllReferenced(x, st, ids, n - 1))
             && (before.Ok? ==> LoadedFrom(st, ids[..n - 1], before.value))
             && (before.Err? ==> before.error == Invalid("snapshot contains unreferenced contract code"))
    requires var s := st.domains[ids[n - 1]].state;
             var state := FinishDomain(x, b.manifest.checkpoint.domains[n - 1], |b.manifest.chunks[n - 1]|, b.served);
             && (state.Ok? <==> Referenced(x, s))
             && (state.Ok? ==> AlikeState(s, state.value))
             && (state.Err? ==> state.error == Invalid("snapshot contains unreferenced contract code"))
    ensures var done := FinishDomains(x, b.manifest, b.served, n);
            && (done.Ok? <==> AllReferenced(x, st, ids, n))
            && (done.Ok? ==> LoadedFrom(st, ids[..n], done.value))
            && (done.Err? ==> done.error == Invalid("snapshot contains unreferenced contract code"))
  {
    hide FinishDomain, Referenced, LoadedFrom, RecordFor, NeighboursSorted, AlikeState;
    var before := FinishDomains(x, b.manifest, b.served, n - 1);
    var state := FinishDomain(x, b.manifest.checkpoint.domains[n - 1], |b.manifest.chunks[n - 1]|, b.served);
    if before.Ok? && state.Ok? {
      OneMore(st, ids[..n - 1], ids[n - 1], before.value, state.value);
      assert ids[..n] == ids[..n - 1] + [ids[n - 1]];
    }
  }

  // ----- the whole transfer -----

  /** What the receiver needs to know of the chain state the snapshot was taken from. */
  ghost predicate Offered(x: Setup, usable: Usable, st: ChainState) {
    hide CheckpointFits, Portable;
    && CheckpointFits(x, st) && UsableChain(usable, st) && st.descriptors.Keys <= st.domains.Keys
    && forall d | d in st.domains :: Portable(x, st.domains[d].state)
  }

  /** Rebuilt domains pass the audit the source state passes, as an alike chain state. */
  lemma LoadedAudit(x: Setup, usable: Usable, st: ChainState, l: Loaded)
    requires Sound(x, usable) && Offered(x, usable, st) && UsableLoaded(usable, l)
    requires LoadedFrom(st, SortedKeys(st.domains.Keys), l)
    ensures var r := RecordOf(x, st);
            var back := FromCheckpoint(x, Assemble(r, l), r.domainHeadsRoot);
            back.Ok? && AlikeChain(st, back.value) && UsableChain(usable, back.value)
  {
    hide CheckpointFits, HeadsRoot, SortedKeys, Respects, LoadsUsable, CommittedRespects, LoadedFrom, Assemble,
         AlikeChain, RecordsFor, FromCheckpoint, Portable, UsableLoaded, UsableChain;
    var r := RecordOf(x, st);
    AssembledAlike(x, st, l);
    AssembledUsable(usable, r, l);
    AuditSelf(x, st);
    AuditAlike(x, usable, st, Assemble(r, l), r.domainHeadsRoot);
  }

  lemma FinishedUsable(x: Setup, usable: Usable, r: DomainRecord, n: nat, chunks: map<ChunkKey, Bytes>)
    requires LoadsUsable(x, usable) && n <= MAX_CHUNKS_PER_DOMAIN && FinishDomain(x, r, n, chunks).Ok?
    ensures usable(FinishDomain(x, r, n, chunks).value)
  {
    hide DecodeStaged, LoadState;
  }

  lemma {:induction false} AllFinishedUsable(x: Setup, usable: Usable, m: Staging.Manifest,
                                             chunks: map<ChunkKey, Bytes>, n: nat)
    requires LoadsUsable(x, usable) && ManifestShaped(m) && n <= |m.chunks| && FinishDomains(x, m, chunks, n).Ok?
    ensures UsableLoaded(usable, FinishDomains(x, m, chunks, n).value)
  {
    hide FinishDomain, NeighboursSorted, LoadsUsable;
    if n > 0 {
      AllFinishedUsable(x, usable, m, chunks, n - 1);
      FinishedUsable(x, usable, m.checkpoint.domains[n - 1], |m.chunks[n - 1]|, chunks);
    }
  }

  lemma FinishSteps(x: Setup, m: Staging.Manifest, chunks: map<ChunkKey, Bytes>)
    requires ManifestShaped(m) && |chunks| == |Expected(m)|
    ensures var done := FinishDomains(x, m, chunks, |m.chunks|);
            var r := FinishImport(x, m, chunks);
            if done.Err? then r == Err(done.error) else
            var back := FromCheckpoint(x, Assemble(m.checkpoint, done.value), m.checkpoint.domainHeadsRoot);
            if back.Ok? then r == Ok(back.value) else r == Err(SnapshotError.StateFailure)
  {
    hide FinishDomains, FromCheckpoint, Assemble, Expected, ManifestShaped;
  }

  /** With every served chunk staged, finishing succeeds if and only if every domain's code is all
      referenced, and then gives an alike chain state. */
  lemma CompleteFinishes(x: Setup, usable: Usable, genesisHash: B256, st: ChainState)
    requires Sound(x, usable) && Offered(x, usable, st) && Produce(x, genesisHash, st).Ok?
    ensures var b := Produce(x, genesisHash, st).value;
            var ids := SortedKeys(st.domains.Keys);
            && ManifestShaped(b.manifest)
            && (var r := FinishImport(x, b.manifest, b.served);
                && (r.Ok? <==> AllReferenced(x, st, ids, |ids|))
                && (r.Ok? ==> AlikeChain(st, r.value) && UsableChain(usable, r.value))
                && (r.Err? ==> r.error == Invalid("snapshot contains unreferenced contract code")))
  {
    hide SortedKeys, HeadsRoot, AllKeyed, ManifestShaped, FinishDomains, FinishImport, AllReferenced, LoadedFrom,
         PackAll, AlikeChain, UsableChain, Respects, LoadsUsable, CommittedRespects, CheckpointFits, Portable, Expected,
         Declares, RecordsFor, FromCheckpoint, Assemble, UsableLoaded;
    var b := Produce(x, genesisHash, st).value;
    var ids := SortedKeys(st.domains.Keys);
    ProducedDeclares(x, genesisHash, st);
    SameCount(x.m.k, Expected(b.manifest), b.served);
    DomainsTransfer(x, genesisHash, st, |ids|);
    assert ids[..|ids|] == ids;
    FinishSteps(x, b.manifest, b.served);
    var done := FinishDomains(x, b.manifest, b.served, |ids|);
    if done.Ok? {
      AllFinishedUsable(x, usable, b.manifest, b.served, |ids|);
      LoadedAudit(x, usable, st, done.value);
    }
  }

  lemma SameCount(k: Keccak, expected: map<ChunkKey, ChunkInfo>, served: map<ChunkKey, Bytes>)
    requires Declares(k, expected, served)
    ensures |expected| == |served|
  {
    assert |expected| == |expected.Keys| && |served| == |served.Keys|;
  }

  /** A produced snapshot, delivered in any order with duplicates and forgeries in between, is imported
      if and only if it fits the 512 MiB budget and every stored code body is referenced; what is imported
      is then the chain state it was taken from. */
  lemma SnapshotTransfers(x: Setup, usable: Usable, genesisHash: B256, st: ChainState, deliveries: seq<Delivery>)
    requires Sound(x, usable) && Offered(x, usable, st) && Produce(x, genesisHash, st).Ok?
    requires var b := Produce(x, genesisHash, st).value;
             && CollisionFree(x.m.k, b.served.Values + Bodies(deliveries))
             && forall key | key in b.served :: Delivered(b.served, deliveries, key)
    ensures var b := Produce(x, genesisHash, st).value;
            var ids := SortedKeys(st.domains.Keys);
            && ManifestShaped(b.manifest)
            && (var r := FinishImport(x, b.manifest, Received(x.m.k, Expected(b.manifest), deliveries).chunks);
                && (r.Ok? <==> Sum(Lengths(b.served)) <= MAX_SNAPSHOT_TOTAL_BYTES && AllReferenced(x, st, ids, |ids|))
                && (r.Ok? ==> AlikeChain(st, r.value) && UsableChain(usable, r.value)))
  {
    hide SortedKeys, ManifestShaped, FinishDomains, AllReferenced, AlikeChain, UsableChain, Sound, Offered, Produce,
         Expected, Declares, CollisionFree, Delivered, Received, Lengths, Sum;
    ProducedDeclares(x, genesisHash, st);
    var b := Produce(x, genesisHash, st).value;
    StagingConverges(x.m.k, Expected(b.manifest), b.served, deliveries);
    CompleteFinishes(x, usable, genesisHash, st);
  }

  // ----- what was imported can be stored and offered again -----

  lemma {:induction false} FinishedDomain(x: Setup, m: Staging.Manifest, chunks: map<ChunkKey, Bytes>, n: nat, i: nat)
    requires ManifestShaped(m) && i < n <= |m.chunks| && FinishDomains(x, m, chunks, n).Ok?
    ensures var r := m.checkpoint.domains[i];
            var l := FinishDomains(x, m, chunks, n).value;
            var s := FinishDomain(x, r, |m.chunks[i]|, chunks);
            r.domainId in l.domains && s.Ok? && l.domains[r.domainId].state == s.value
  {
    hide FinishDomain, LexLess;
    if i < n - 1 {
      FinishedDomain(x, m, chunks, n - 1, i);
      IdsApart(m, i, n - 1);
    }
  }

  lemma {:induction false} IdsApart(m: Staging.Manifest, i: nat, j: nat)
    requires ManifestShaped(m) && i < j < |m.chunks|
    ensures LexLess(m.checkpoint.domains[i].domainId, m.checkpoint.domains[j].domainId)
    ensures m.checkpoint.domains[i].domainId != m.checkpoint.domains[j].domainId
    decreases j
  {
    hide LexLess;
    var ids := RecordIds(m.checkpoint.domains);
    assert LexLess(ids[j - 1], ids[j]);
    if i < j - 1 {
      IdsApart(m, i, j - 1);
      LexTransitive(ids[i], ids[j - 1], ids[j]);
    }
    LexIrreflexive(ids[j]);
  }

  /** An imported domain state reloads to itself from what it carries: it can be committed, reopened and
      offered as a snapshot again. */
  lemma ImportedReloads(x: Setup, m: Staging.Manifest, chunks: map<ChunkKey, Bytes>, i: nat, all: set<Bytes>)
    requires ManifestShaped(m) && i < |m.chunks| && FinishImport(x, m, chunks).Ok?
    requires var r := m.checkpoint.domains[i];
             var stores := DecodeStaged(x.m.k, r.domainId, chunks, 0, |m.chunks[i]|, Stores(map[], map[]));
             stores.Ok? ==> Apart(x.m.k, stores.value.nodes, all)
    ensures var r := m.checkpoint.domains[i];
            var st := FinishImport(x, m, chunks).value;
            && r.domainId in st.domains
            && (var s := st.domains[r.domainId].state;
                LoadState(x, s.snapshot.root, s.snapshot.nodes, s.code) == Ok(s) && Restorable(x, s) &&
                    Referenced(x, s))
  {
    hide FinishDomains, DecodeStaged, LoadState, CheckpointFits, HeadsRoot, Apart, Expected, NeighboursSorted,
         Referenced, CollectLeaves;
    FinishSteps(x, m, chunks);
    var r := m.checkpoint.domains[i];
    FinishedDomain(x, m, chunks, |m.chunks|, i);
    var stores := DecodeStaged(x.m.k, r.domainId, chunks, 0, |m.chunks[i]|, Stores(map[], map[])).value;
    ReloadIsIdentity(x, r.stateRoot, stores.nodes, stores.code, all);
    LoadedRoot(x, r.stateRoot, stores.nodes, stores.code);
    var s := FinishImport(x, m, chunks).value.domains[r.domainId].state;
    LoadedRoot(x, r.stateRoot, s.snapshot.nodes, s.code);
    ReferencedLoads(x, s);
  }

  // ===== a received snapshot on its way into the engine: what is refused, and what is durable =====

  // ----- unreferenced code -----

  /** The chain state with one more code body in one domain, as execution leaves it behind. */
  ghost function Littered(k: Keccak, st: ChainState, d: B256, body: Bytes): ChainState
    requires d in st.domains
  {
    WithCode(st, d, st.domains[d].state.code[k(body) := body])
  }

  lemma LitteredPortable(x: Setup, st: ChainState, d: B256, body: Bytes)
    requires d in st.domains && Portable(x, st.domains[d].state)
    ensures Portable(x, Littered(x.m.k, st, d, body).domains[d].state)
  {
    hide LoadState, CollectLeaves, Stored;
    var s := st.domains[d].state;
    AllStored(s.snapshot.nodes);
    LoadStable(x, s.snapshot.root, s.snapshot.nodes, s.snapshot.nodes, s.code, s.code[x.m.k(body) := body]);
  }

  lemma LitteredOffered(x: Setup, usable: Usable, st: ChainState, d: B256, body: Bytes)
    requires Offered(x, usable, st) && d in st.domains && d != st.rootDomainId
    requires UsableChain(usable, Littered(x.m.k, st, d, body))
    ensures Offered(x, usable, Littered(x.m.k, st, d, body))
  {
    hide CheckpointFits, Portable;
    FitsWithCode(x, st, d, st.domains[d].state.code[x.m.k(body) := body]);
    LitteredPortable(x, st, d, body);
    var more := Littered(x.m.k, st, d, body);
    assert more.domains.Keys == st.domains.Keys;
  }

  lemma NotAllReferenced(x: Setup, st: ChainState, d: B256, body: Bytes)
    requires d in st.domains
    requires forall key | key in st.domains[d].state.snapshot.leaves ::
      !RefersTo(x, st.domains[d].state.snapshot.leaves[key], x.m.k(body))
    ensures var more := Littered(x.m.k, st, d, body);
            var ids := SortedKeys(more.domains.Keys);
            !AllReferenced(x, more, ids, |ids|)
  {
    hide SortedKeys, RefersTo;
    var more := Littered(x.m.k, st, d, body);
    var ids := SortedKeys(more.domains.Keys);
    assert d in ids;
    var i :| 0 <= i < |ids| && ids[i] == d;
    assert x.m.k(body) in more.domains[ids[i]].state.code;
    assert !Referenced(x, more.domains[ids[i]].state);
  }

  /** Take any chain state a snapshot transfers, add a code body no account of the domain refers to: the
      snapshot is still produced, still delivered in full, and refused. */
  lemma UnreferencedCodeRefused(x: Setup, usable: Usable, genesisHash: B256, st: ChainState, d: B256, body: Bytes,
                                deliveries: seq<Delivery>)
    requires Sound(x, usable) && Offered(x, usable, st) && d in st.domains && d != st.rootDomainId
    requires UsableChain(usable, Littered(x.m.k, st, d, body)) &&
      Produce(x, genesisHash, Littered(x.m.k, st, d, body)).Ok?
    requires forall key | key in st.domains[d].state.snapshot.leaves ::
      !RefersTo(x, st.domains[d].state.snapshot.leaves[key], x.m.k(body))
    requires var b := Produce(x, genesisHash, Littered(x.m.k, st, d, body)).value;
             && CollisionFree(x.m.k, b.served.Values + Bodies(deliveries))
             && (forall key | key in b.served :: Delivered(b.served, deliveries, key))
             && Sum(Lengths(b.served)) <= MAX_SNAPSHOT_TOTAL_BYTES
    ensures var b := Produce(x, genesisHash, Littered(x.m.k, st, d, body)).value;
            && ManifestShaped(b.manifest)
            && FinishImport(x, b.manifest, Received(x.m.k, Expected(b.manifest), deliveries).chunks)
               == Err(Invalid("snapshot contains unreferenced contract code"))
  {
    hide ManifestShaped, FinishImport, AllReferenced, UsableChain, Sound, Offered, Produce, Expected, Declares,
         CollisionFree, Delivered, Received, Lengths, Sum, Littered, SortedKeys, RefersTo, AlikeChain;
    var more := Littered(x.m.k, st, d, body);
    var b := Produce(x, genesisHash, more).value;
    LitteredOffered(x, usable, st, d, body);
    NotAllReferenced(x, st, d, body);
    ProducedDeclares(x, genesisHash, more);
    StagingConverges(x.m.k, Expected(b.manifest), b.served, deliveries);
    CompleteFinishes(x, usable, genesisHash, more);
  }

  // ----- durability -----

  /** The state of every imported domain is the one loaded from what its source carries. */
  lemma ImportedState(x: Setup, genesisHash: B256, st: ChainState, i: nat)
    requires Produce(x, genesisHash, st).Ok? && i < |SortedKeys(st.domains.Keys)|
    requires Portable(x, st.domains[SortedKeys(st.domains.Keys)[i]].state)
    requires ManifestShaped(Produce(x, genesisHash, st).value.manifest)
    requires FinishImport(x, Produce(x, genesisHash, st).value.manifest, Produce(x, genesisHash, st).value.served).Ok?
    ensures var b := Produce(x, genesisHash, st).value;
            var d := SortedKeys(st.domains.Keys)[i];
            var back := FinishImport(x, b.manifest, b.served).value;
            var s := st.domains[d].state;
            && d in back.domains
            && LoadState(x, s.snapshot.root, s.snapshot.nodes, s.code) == Ok(back.domains[d].state)
  {
    hide SortedKeys, FinishDomain, FinishDomains, LoadState, CheckpointFits, HeadsRoot, Expected, NeighboursSorted,
         Portable, PackAll, AllKeyed, Referenced;
    var b := Produce(x, genesisHash, st).value;
    var ids := SortedKeys(st.domains.Keys);
    ServedDomain(x, genesisHash, st, i);
    ProducedShape(x, genesisHash, st);
    FinishSteps(x, b.manifest, b.served);
    FinishedDomain(x, b.manifest, b.served, |b.manifest.chunks|, i);
    assert RecordIds(b.manifest.checkpoint.domains)[i] == ids[i];
    PortableLoads(x, st.domains[ids[i]].state);
  }

  lemma PortableLoads(x: Setup, s: ExecutionState)
    requires Portable(x, s)
    ensures LoadState(x, s.snapshot.root, s.snapshot.nodes, s.code).Ok?
  {
    hide LoadState, CollectLeaves;
  }

  /** Everything the engine asks of a checkpoint holds of one that was just received. */
  lemma ReceivedIsGood(x: Setup, usable: Usable, genesisHash: B256, st: ChainState, all: set<Bytes>)
    requires Sound(x, usable) && Offered(x, usable, st) && NamesValid(x, st) && Produce(x, genesisHash, st).Ok?
    requires var ids := SortedKeys(st.domains.Keys); AllReferenced(x, st, ids, |ids|)
    requires forall d | d in st.domains :: Apart(x.m.k, st.domains[d].state.snapshot.nodes, all)
    requires CollisionFree(x.m.k, all)
    ensures var b := Produce(x, genesisHash, st).value;
            && ManifestShaped(b.manifest) && FinishImport(x, b.manifest, b.served).Ok?
            && GoodImport(x, usable, FinishImport(x, b.manifest, b.served).value)
  {
    hide ManifestShaped, FinishImport, AllReferenced, Sound, Produce, Expected, SortedKeys, LoadState, Apart,
         CheckpointFits, Portable, CollisionFree, NamesValid, UsableChain, ContentAddressed;
    var b := Produce(x, genesisHash, st).value;
    CompleteFinishes(x, usable, genesisHash, st);
    var back := FinishImport(x, b.manifest, b.served).value;
    AlikeFrame(st, back);
    ProjectedSelf(back);
    NamesAlike(x, st, back);
    forall d | d in back.domains
      ensures Restorable(x, back.domains[d].state)
      ensures HoldsOnly(x.m.k, back.domains[d].state.snapshot.nodes, all)
    {
      ReceivedState(x, genesisHash, st, d, all);
    }
    StatesAddressed(x.m.k, back, all);
  }

  lemma NamesAlike(x: Setup, a: ChainState, b: ChainState)
    requires NamesValid(x, a) && a.descriptors == b.descriptors
    ensures NamesValid(x, b)
  {
  }

  lemma ReceivedState(x: Setup, genesisHash: B256, st: ChainState, d: B256, all: set<Bytes>)
    requires Produce(x, genesisHash, st).Ok? && d in st.domains && Portable(x, st.domains[d].state)
    requires Apart(x.m.k, st.domains[d].state.snapshot.nodes, all)
    requires ManifestShaped(Produce(x, genesisHash, st).value.manifest)
    requires FinishImport(x, Produce(x, genesisHash, st).value.manifest, Produce(x, genesisHash, st).value.served).Ok?
    ensures var b := Produce(x, genesisHash, st).value;
            var back := FinishImport(x, b.manifest, b.served).value;
            && d in back.domains && Restorable(x, back.domains[d].state)
            && HoldsOnly(x.m.k, back.domains[d].state.snapshot.nodes, all)
  {
    hide ManifestShaped, FinishImport, Produce, SortedKeys, LoadState, Apart, Portable, HoldsOnly;
    var ids := SortedKeys(st.domains.Keys);
    assert d in ids;
    var i :| 0 <= i < |ids| && ids[i] == d;
    ImportedState(x, genesisHash, st, i);
    var s := st.domains[d].state;
    ReloadIsIdentity(x, s.snapshot.root, s.snapshot.nodes, s.code, all);
    LoadedOnly(x, s.snapshot.root, s.snapshot.nodes, s.code, all);
    LoadedRoot(x, s.snapshot.root, s.snapshot.nodes, s.code);
  }

  lemma StatesAddressed(k: Keccak, st: ChainState, all: set<Bytes>)
    requires CollisionFree(k, all) && forall d | d in st.domains ::
      HoldsOnly(k, st.domains[d].state.snapshot.nodes, all)
    ensures var states := CheckpointStates(st, SortedKeys(st.domains.Keys));
            ContentAddressed(k, states) && CollisionFree(k, BatchBytes(states))
  {
    hide SortedKeys, CollisionFree;
    var ids := SortedKeys(st.domains.Keys);
    var states := CheckpointStates(st, ids);
    forall s | s in states
      ensures HoldsOnly(k, s.snapshot.nodes, all)
    {
      var i :| 0 <= i < |states| && states[i] == s;
      assert ids[i] in ids;
      assert s.snapshot == st.domains[ids[i]].state.snapshot;
    }
    assert BatchBytes(states) <= all;
    FewerCollide(k, BatchBytes(states), all);
  }

  /** The produced snapshot was delivered in full, in whatever order, and fits the budget. */
  ghost predicate Delivers(x: Setup, genesisHash: B256, st: ChainState, deliveries: seq<Delivery>) {
    hide Produce;
    && Produce(x, genesisHash, st).Ok?
    && (var b := Produce(x, genesisHash, st).value;
        && CollisionFree(x.m.k, b.served.Values + Bodies(deliveries))
        && (forall key | key in b.served :: Delivered(b.served, deliveries, key))
        && Sum(Lengths(b.served)) <= MAX_SNAPSHOT_TOTAL_BYTES)
  }

  /** Finishing what was staged gives this chain state. */
  ghost predicate ArrivesAs(x: Setup, genesisHash: B256, st: ChainState, deliveries: seq<Delivery>, back: ChainState) {
    hide Produce, FinishImport, Expected, Received, ManifestShaped;
    && Produce(x, genesisHash, st).Ok?
    && (var m := Produce(x, genesisHash, st).value.manifest;
        ManifestShaped(m) && FinishImport(x, m, Received(x.m.k, Expected(m), deliveries).chunks) == Ok(back))
  }

  /** A chain state that can be offered, with all its code referenced and no collision among the tries
      that can be read from it. */
  ghost predicate Transferable(x: Setup, usable: Usable, st: ChainState, all: set<Bytes>) {
    hide Offered, NamesValid, AllReferenced, SortedKeys, Apart;
    && Offered(x, usable, st) && NamesValid(x, st)
    && AllReferenced(x, st, SortedKeys(st.domains.Keys), |SortedKeys(st.domains.Keys)|)
    && (forall d | d in st.domains :: Apart(x.m.k, st.domains[d].state.snapshot.nodes, all)) &&
         CollisionFree(x.m.k, all)
  }

  /** If the import is accepted, the node holds exactly this state and reopens at it. */
  ghost predicate StaysDurable(x: Setup, usable: Usable, n: Node, st: ChainState) {
    hide CommitCheckpoint, Durable;
    var after := CommitCheckpoint(x, n, st);
    after.Some? ==> Durable(x, usable, after.value) && after.value.finalized == st
  }

  /** From one node's chain state to another node's disk: a snapshot received in any order and imported
      into a durable node leaves it durable, so it reopens at the state it was sent. */
  lemma ReceivedIsDurable(x: Setup, usable: Usable, n: Node, genesisHash: B256, st: ChainState,
                          deliveries: seq<Delivery>, all: set<Bytes>)
    returns (back: ChainState)
    requires Sound(x, usable) && Durable(x, usable, n) && Transferable(x, usable, st, all)
    requires Delivers(x, genesisHash, st, deliveries)
    ensures ArrivesAs(x, genesisHash, st, deliveries, back) && AlikeChain(st, back)
    ensures StaysDurable(x, usable, n, back)
  {
    hide ManifestShaped, FinishImport, AllReferenced, UsableChain, Sound, Offered, Produce, Expected, Declares,
         CollisionFree, Delivered, Received, Lengths, Sum, SortedKeys, Durable, GoodImport, CommitCheckpoint, Apart,
         NamesValid;
    var b := Produce(x, genesisHash, st).value;
    ProducedDeclares(x, genesisHash, st);
    StagingConverges(x.m.k, Expected(b.manifest), b.served, deliveries);
    CompleteFinishes(x, usable, genesisHash, st);
    ReceivedIsGood(x, usable, genesisHash, st, all);
    back := FinishImport(x, b.manifest, b.served).value;
    if CommitCheckpoint(x, n, back).Some? {
      ImportDurable(x, usable, n, back);
      ImportKeeps(x, n, back);
      AlikeFrame(st, back);
      OfferedDescribed(x, usable, st);
      ProjectedSelf(back);
    }
  }

  lemma OfferedDescribed(x: Setup, usable: Usable, st: ChainState)
    requires Offered(x, usable, st)
    ensures st.descriptors.Keys <= st.domains.Keys
  {
    hide CheckpointFits, Portable;
  }

  lemma ImportKeeps(x: Setup, n: Node, st: ChainState)
    requires CommitCheckpoint(x, n, st).Some?
    ensures CommitCheckpoint(x, n, st).value.finalized == Projected(st)
  {
    hide CheckpointFits, HeadsRoot, CheckpointBatch, CommitColumns, Projected;
  }
}
