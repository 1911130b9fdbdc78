/** An imported checkpoint: what the database holds afterwards, and that it loads back. */
module EngineCheckpoint {
  import opened Wrappers
  import opened Bytes
  import opened Ordered
  import opened Hashing
  import opened Canonical
  import opened TrieCommit
  import opened TrieWalk
  import opened Storage
  import opened StorageHistory
  import opened CommitEffects
  import opened Chain
  import opened Alike
  import opened CheckpointCodec
  import opened Recovery
  import opened EngineStore
  import opened EngineRecovery
  import opened EngineCommit

  /** A domain state that can be rebuilt from its own nodes and code. */
  ghost predicate Restorable(x: Setup, s: ExecutionState) {
    LoadState(x, s.snapshot.root, s.snapshot.nodes, s.code).Ok?
  }

  /** The columns give back a state alike to this one. */
  ghost predicate Readable(x: Setup, s: ExecutionState, nodes: NodeMap, code: map<B256, Bytes>) {
    hide LoadState;
    var loaded := LoadState(x, s.snapshot.root, nodes, code);
    loaded.Ok? && AlikeState(s, loaded.value)
  }

  // ----- domains and their records -----

  ghost predicate LoadedFrom(st: ChainState, ids: seq<B256>, l: Loaded) {
    && (forall d :: d in l.domains <==> d in ids)
    && (forall d | d in l.domains :: d in st.domains && AlikeDomain(st.domains[d], l.domains[d]))
    && (forall d :: d in l.descriptors <==> d in ids && d in st.descriptors)
    && (forall d | d in l.descriptors :: l.descriptors[d] == st.descriptors[d])
  }

  lemma {:induction false} RecordsLoad(x: Setup, st: ChainState, ids: seq<B256>, nodes: NodeMap, code: map<B256, Bytes>)
    requires forall d | d in ids :: d in st.domains && Readable(x, st.domains[d].state, nodes, code)
    ensures var l := LoadDomains(x, RecordsFor(st, ids), nodes, code); l.Ok? && LoadedFrom(st, ids, l.value)
  {
    hide LoadState, LoadedFrom, RecordFor;
    var records := RecordsFor(st, ids);
    if ids == [] {
      assert LoadedFrom(st, [], Loaded(map[], map[])) by { NothingFrom(st); }
    } else {
      var n := |ids| - 1;
      assert records[..n] == RecordsFor(st, ids[..n]);
      assert ids[n] in ids;
      RecordsLoad(x, st, ids[..n], nodes, code);
      var s := st.domains[ids[n]].state;
      assert Readable(x, s, nodes, code);
      RecordRoot(st, ids[n]);
      OneMore(st, ids[..n], ids[n], LoadDomains(x, records[..n], nodes, code).value,
          LoadState(x, s.snapshot.root, nodes, code).value);
      assert ids == ids[..n] + [ids[n]];
    }
  }

  lemma NothingFrom(st: ChainState)
    ensures LoadedFrom(st, [], Loaded(map[], map[]))
  {
  }

  lemma RecordRoot(st: ChainState, d: B256)
    requires d in st.domains
    ensures RecordFor(st, d).stateRoot == st.domains[d].state.snapshot.root
  {
  }

  lemma OneMore(st: ChainState, ids: seq<B256>, d: B256, l: Loaded, state: ExecutionState)
    requires LoadedFrom(st, ids, l) && d in st.domains && AlikeState(st.domains[d].state, state)
    ensures LoadedFrom(st, ids + [d], WithDomain(l, RecordFor(st, d), state))
  {
    var next := WithDomain(l, RecordFor(st, d), state);
    assert AlikeDomain(st.domains[d], next.domains[d]);
    assert forall e :: e in ids + [d] <==> e in ids || e == d;
  }

  lemma AssembledAlike(x: Setup, st: ChainState, l: Loaded)
    requires LoadedFrom(st, SortedKeys(st.domains.Keys), l) && st.descriptors.Keys <= st.domains.Keys
    ensures AlikeChain(st, Assemble(RecordOf(x, st), l))
  {
    hide SortedKeys, HeadsRoot, AlikeDomain, RecordsFor;
    var ids := SortedKeys(st.domains.Keys);
    assert forall d :: d in ids <==> d in st.domains.Keys;
    assert l.domains.Keys == st.domains.Keys;
    assert l.descriptors == st.descriptors;
  }

  lemma RecordsSorted(st: ChainState)
    ensures NeighboursSorted(RecordIds(RecordsFor(st, SortedKeys(st.domains.Keys))))
  {
    hide SortedKeys, LexLess;
    var ids := SortedKeys(st.domains.Keys);
    assert RecordIds(RecordsFor(st, ids)) == ids;
    assert forall i | 0 <= i < |ids| - 1 :: LexLess(ids[i], ids[i + 1]);
  }

  // ----- the import -----

  ghost predicate NamesValid(x: Setup, st: ChainState) {
    forall d | d in st.descriptors :: x.utf8(st.descriptors[d].name) && x.utf8(st.descriptors[d].symbol)
  }

  lemma RecordReadsBack(x: Setup, st: ChainState)
    requires EncodeCheckpoint(RecordOf(x, st)).Ok? && st.domains != map[] && NamesValid(x, st)
    ensures DecodeCheckpoint(x.utf8, EncodeCheckpoint(RecordOf(x, st)).value) == Ok(RecordOf(x, st))
  {
    hide EncodeCheckpoint, DecodeCheckpoint, SortedKeys, HeadsRoot;
    var r := RecordOf(x, st);
    var ids := SortedKeys(st.domains.Keys);
    assert st.domains.Keys != {} by {
      var d :| d in st.domains;
    }
    assert |ids| > 0;
    CheckpointDecodes(x.utf8, r);
  }

  /** The stored record, on columns the states can be read from, loads to an alike chain state. */
  lemma StoredCheckpointLoads(x: Setup, usable: Usable, st: ChainState, nodes: NodeMap, code: map<B256, Bytes>)
    requires Sound(x, usable) && UsableChain(usable, st) && CheckpointFits(x, st) && SameIdentity(x, st)
    requires st.descriptors.Keys <= st.domains.Keys && NamesValid(x, st)
    requires EncodeCheckpoint(RecordOf(x, st)).Ok?
    requires forall d | d in st.domains :: Readable(x, st.domains[d].state, nodes, code)
    ensures var loaded := LoadCheckpoint(x, EncodeCheckpoint(RecordOf(x, st)).value, nodes, code);
            loaded.Ok? && AlikeChain(st, loaded.value) && UsableChain(usable, loaded.value)
  {
    hide EncodeCheckpoint, DecodeCheckpoint, LoadDomains, CheckpointFits, HeadsRoot, SortedKeys, UsableChain, Readable,
         NeighboursSorted, Respects, LoadsUsable, CommittedRespects, LoadedFrom, Assemble, AlikeChain, RecordsFor,
         NamesValid, LoadCheckpoint, FromCheckpoint, SameIdentity;
    var r := RecordOf(x, st);
    var ids := SortedKeys(st.domains.Keys);
    FitsNonEmpty(x, st);
    RecordReadsBack(x, st);
    RecordsLoad(x, st, ids, nodes, code);
    var l := LoadDomains(x, r.domains, nodes, code).value;
    LoadDomainsUsable(x, usable, r.domains, nodes, code);
    AssembledAlike(x, st, l);
    AssembledUsable(usable, r, l);
    RecordsSorted(st);
    AuditSelf(x, st);
    AuditAlike(x, usable, st, Assemble(r, l), r.domainHeadsRoot);
    var back := FromCheckpoint(x, Assemble(r, l), r.domainHeadsRoot).value;
    IdentityAlike(x, st, back);
    LoadSteps(x, EncodeCheckpoint(r).value, nodes, code, r, l, back);
  }

  lemma AuditSelf(x: Setup, st: ChainState)
    requires CheckpointFits(x, st) && st.descriptors.Keys <= st.domains.Keys
    ensures FromCheckpoint(x, st, HeadsRoot(x.m.k, st)) == Ok(st)
  {
    hide CheckpointFits, HeadsRoot, Projected;
    ProjectedSelf(st);
  }

  lemma IdentityAlike(x: Setup, a: ChainState, b: ChainState)
    requires AlikeChain(a, b) && SameIdentity(x, a)
    ensures SameIdentity(x, b)
  {
    hide AlikeChain;
    AlikeFrame(a, b);
  }

  lemma LoadSteps(x: Setup, bytes: Bytes, nodes: NodeMap, code: map<B256, Bytes>, r: CheckpointRecord, l: Loaded,
                  st: ChainState)
    requires DecodeCheckpoint(x.utf8, bytes) == Ok(r) && LoadDomains(x, r.domains, nodes, code) == Ok(l)
    requires NeighboursSorted(RecordIds(r.domains)) && FromCheckpoint(x, Assemble(r, l), r.domainHeadsRoot) == Ok(st)
    requires r.validatorSet == x.validatorSet && r.finalityProof == [] && SameIdentity(x, st)
    ensures LoadCheckpoint(x, bytes, nodes, code) == Ok(st)
  {
    hide DecodeCheckpoint, LoadDomains, NeighboursSorted, FromCheckpoint, Assemble, SameIdentity;
  }

  lemma FitsNonEmpty(x: Setup, st: ChainState)
    requires CheckpointFits(x, st)
    ensures st.domains != map[]
  {
  }

  lemma AssembledUsable(usable: Usable, r: CheckpointRecord, l: Loaded)
    requires UsableLoaded(usable, l)
    ensures UsableChain(usable, Assemble(r, l))
  {
  }

  lemma ProjectedSelf(st: ChainState)
    requires st.descriptors.Keys <= st.domains.Keys
    ensures Projected(st) == st
  {
    assert Projected(st).descriptors == st.descriptors;
  }

  // ----- what the commit leaves -----

  lemma {:induction false} CodeListed(st: ChainState, ids: seq<B256>, d: B256)
    requires forall e | e in ids :: e in st.domains
    requires d in ids
    ensures st.domains[d].state.code.Keys <= CodeOfDomains(st, ids).Keys
  {
    var n := |ids| - 1;
    if d != ids[n] {
      assert ids == ids[..n] + [ids[n]];
      CodeListed(st, ids[..n], d);
    }
  }

  lemma StateReadable(x: Setup, s: ExecutionState, nodes: NodeMap, code: map<B256, Bytes>)
    requires Restorable(x, s) && Stored(s.snapshot.nodes, nodes) && CodeCovers(x.m.k, s.code, code)
    requires CollectLeaves(x.m.k, s.snapshot.nodes, s.snapshot.root) == Ok(s.snapshot.leaves)
    ensures Readable(x, s, nodes, code)
  {
    hide LoadState, CollectLeaves, Stored, CodeCovers;
    LoadStable(x, s.snapshot.root, s.snapshot.nodes, nodes, s.code, code);
    LoadedRoot(x, s.snapshot.root, s.snapshot.nodes, s.code);
  }

  lemma CodeCovered(k: Keccak, own: map<B256, Bytes>, prior: map<B256, Bytes>, batch: map<B256, Bytes>)
    requires own.Keys <= batch.Keys && forall h | h in batch :: k(batch[h]) == h
    ensures CodeCovers(k, own, prior + batch)
  {
  }

  /** After the import every domain's state can be read from the columns. */
  lemma ImportedReadable(x: Setup, db: Columns, st: ChainState, d: B256)
    requires CheckpointBatch(x, st).Ok? && CommitColumns(x.m.k, db, CheckpointBatch(x, st).value).Ok?
    requires ContentAddressed(x.m.k, CheckpointBatch(x, st).value.states)
    requires CollisionFree(x.m.k, BatchBytes(CheckpointBatch(x, st).value.states))
    requires d in st.domains && Restorable(x, st.domains[d].state)
    ensures var next := CommitColumns(x.m.k, db, CheckpointBatch(x, st).value).value;
            Readable(x, st.domains[d].state, next.nodes, next.code)
  {
    hide CommitColumns, SortedKeys, ContentAddressed, CollisionFree, Stored, CollectLeaves, EncodeCheckpoint, HeadsRoot,
         CheckpointDescriptors, EncodeWal, Restorable, Readable, PutAll, UniqueDomains, InDomains, CodeOfDomains;
    var batch := CheckpointBatch(x, st).value;
    var next := CommitColumns(x.m.k, db, batch).value;
    var ids := SortedKeys(st.domains.Keys);
    CommitStores(x.m.k, db, batch);
    CommitEffect(x.m.k, db, batch);
    assert d in ids;
    var i :| 0 <= i < |ids| && ids[i] == d;
    assert batch.states[i].snapshot == st.domains[d].state.snapshot;
    CodeListed(st, ids, d);
    CodeCovered(x.m.k, st.domains[d].state.code, db.code, batch.code);
    StateReadable(x, st.domains[d].state, next.nodes, next.code);
  }

  /** Loading from the columns is enough: the walk gives the leaves the commit checked. */
  lemma LoadableReadable(x: Setup, db: Columns, st: ChainState, d: B256)
    requires CheckpointBatch(x, st).Ok? && CommitColumns(x.m.k, db, CheckpointBatch(x, st).value).Ok?
    requires ContentAddressed(x.m.k, CheckpointBatch(x, st).value.states)
    requires CollisionFree(x.m.k, BatchBytes(CheckpointBatch(x, st).value.states))
    requires d in st.domains
    requires var next := CommitColumns(x.m.k, db, CheckpointBatch(x, st).value).value;
             LoadState(x, st.domains[d].state.snapshot.root, next.nodes, next.code).Ok?
    ensures var next := CommitColumns(x.m.k, db, CheckpointBatch(x, st).value).value;
            Readable(x, st.domains[d].state, next.nodes, next.code)
  {
    hide CommitColumns, SortedKeys, ContentAddressed, CollisionFree, Stored, CollectLeaves, EncodeCheckpoint, HeadsRoot,
         CheckpointDescriptors, EncodeWal, LoadState, CodeOfDomains;
    var batch := CheckpointBatch(x, st).value;
    var next := CommitColumns(x.m.k, db, batch).value;
    var ids := SortedKeys(st.domains.Keys);
    var s := st.domains[d].state;
    CommitStores(x.m.k, db, batch);
    assert d in ids;
    var i :| 0 <= i < |ids| && ids[i] == d;
    assert batch.states[i].snapshot == s.snapshot;
    CollectStable(x.m.k, s.snapshot.nodes, next.nodes, s.snapshot.root);
    LoadedRoot(x, s.snapshot.root, next.nodes, next.code);
  }

  lemma ImportedHeads(x: Setup, st: ChainState, next: Columns, states: seq<StateCommit>)
    requires CheckpointFits(x, st) && states == CheckpointStates(st, SortedKeys(st.domains.Keys))
    requires forall i | 0 <= i < |states| ::
               states[i].domainId in next.heads
               && next.heads[states[i].domainId] == Head(states[i].consensusHeight, states[i].snapshot.root)
    ensures HeadsMatch(next, st)
  {
    hide SortedKeys, ValidConfig, HashDomain, DescriptorFits, Described;
    var ids := SortedKeys(st.domains.Keys);
    forall d | d in st.domains
      ensures d in next.heads && next.heads[d] == Head(st.domains[d].header.consensusHeight,
        st.domains[d].header.stateRoot)
    {
      assert d in ids;
      var i :| 0 <= i < |ids| && ids[i] == d;
      assert states[i].domainId == d;
      assert DomainFits(x, st, d);
    }
  }

  lemma ImportIndexes(x: Setup, st: ChainState, db: Columns)
    requires CheckpointBatch(x, st).Ok? && UniqueKeys(CheckpointBatch(x, st).value.indexes)
    ensures var batch := CheckpointBatch(x, st).value;
            var after := PutAll(db.indexes, batch.indexes);
            && batch.marker == MarkerOf(x.m, st)
            && batch.states == CheckpointStates(st, SortedKeys(st.domains.Keys))
            && EncodeCheckpoint(RecordOf(x, st)).Ok?
            && KEY_CHECKPOINT in after && after[KEY_CHECKPOINT] == EncodeCheckpoint(RecordOf(x, st)).value
            && KEY_WAL in after && after[KEY_WAL] == EncodeWal(batch.marker)
            && (KEY_GENESIS in after <==> KEY_GENESIS in db.indexes)
            && (KEY_GENESIS in after ==> after[KEY_GENESIS] == db.indexes[KEY_GENESIS])
  {
    hide SortedKeys, EncodeCheckpoint, HeadsRoot, CheckpointDescriptors, EncodeWal, PutAll, CheckpointStates,
         CodeOfDomains, RecordOf;
    var batch := CheckpointBatch(x, st).value;
    var values := batch.indexes;
    KeysApart(0, 0, seq(32, _ => 0));
    assert values[0].key == KEY_CHECKPOINT && values[1].key == KEY_WAL && |values| == 2;
    assert !HasKey(values, KEY_GENESIS);
    PutAllLookup(db.indexes, values, KEY_CHECKPOINT);
    PutAllLookup(db.indexes, values, KEY_WAL);
    PutAllLookup(db.indexes, values, KEY_GENESIS);
  }

  ghost predicate Importable(x: Setup, usable: Usable, st: ChainState) {
    && CheckpointFits(x, st) && SameIdentity(x, st) && UsableChain(usable, st)
    && st.descriptors.Keys <= st.domains.Keys && NamesValid(x, st)
  }

  ghost predicate AllReadable(x: Setup, st: ChainState, db: Columns) {
    forall d | d in st.domains :: Readable(x, st.domains[d].state, db.nodes, db.code)
  }

  ghost predicate AllLoad(x: Setup, st: ChainState, db: Columns) {
    forall d | d in st.domains :: LoadState(x, st.domains[d].state.snapshot.root, db.nodes, db.code).Ok?
  }

  /** States that can be rebuilt from what they bring along can be rebuilt from the columns. */
  lemma RestorableReadable(x: Setup, db: Columns, st: ChainState)
    requires CheckpointBatch(x, st).Ok? && CommitColumns(x.m.k, db, CheckpointBatch(x, st).value).Ok?
    requires ContentAddressed(x.m.k, CheckpointBatch(x, st).value.states)
    requires CollisionFree(x.m.k, BatchBytes(CheckpointBatch(x, st).value.states))
    requires forall d | d in st.domains :: Restorable(x, st.domains[d].state)
    ensures AllReadable(x, st, CommitColumns(x.m.k, db, CheckpointBatch(x, st).value).value)
  {
    hide CommitColumns, CheckpointBatch, ContentAddressed, CollisionFree, Restorable, Readable;
    forall d | d in st.domains
      ensures var next := CommitColumns(x.m.k, db, CheckpointBatch(x, st).value).value;
              Readable(x, st.domains[d].state, next.nodes, next.code)
    {
      ImportedReadable(x, db, st, d);
    }
  }

  /** An accepted import comes back on reopening if and only if every one of its domain states loads
      from the columns. */
  lemma ReopensIfLoads(x: Setup, usable: Usable, db: Columns, prior: ChainState, st: ChainState)
    requires Sound(x, usable) && Recovers(x, usable, db, prior) && Importable(x, usable, st)
    requires CheckpointBatch(x, st).Ok? && CommitColumns(x.m.k, db, CheckpointBatch(x, st).value).Ok?
    requires ContentAddressed(x.m.k, CheckpointBatch(x, st).value.states)
    requires CollisionFree(x.m.k, BatchBytes(CheckpointBatch(x, st).value.states))
    ensures var next := CommitColumns(x.m.k, db, CheckpointBatch(x, st).value).value;
            Recovers(x, usable, next, st) <==> AllLoad(x, st, next)
  {
    hide CommitColumns, CheckpointBatch, ContentAddressed, CollisionFree, Readable, Reopen, AlikeChain, Sound,
         LoadState, CheckpointFits, UsableChain, NamesValid;
    var next := CommitColumns(x.m.k, db, CheckpointBatch(x, st).value).value;
    if AllLoad(x, st, next) {
      forall d | d in st.domains
        ensures Readable(x, st.domains[d].state, next.nodes, next.code)
      {
        LoadableReadable(x, db, st, d);
      }
      CheckpointRecovers(x, usable, db, prior, st);
    }
    if Recovers(x, usable, next, st) {
      RecoveredLoads(x, db, next, st);
    }
  }

  lemma {:induction false} LoadedEach(x: Setup, records: seq<DomainRecord>, nodes: NodeMap, code: map<B256, Bytes>,
                                      i: nat)
    requires i < |records| && LoadDomains(x, records, nodes, code).Ok?
    ensures LoadState(x, records[i].stateRoot, nodes, code).Ok?
  {
    hide LoadState;
    if i < |records| - 1 {
      LoadedEach(x, records[..|records| - 1], nodes, code, i);
    }
  }

  /** A checkpoint database that reopens at all has every domain state loadable. */
  lemma RecoveredLoads(x: Setup, db: Columns, next: Columns, st: ChainState)
    requires CheckpointBatch(x, st).Ok? && CommitColumns(x.m.k, db, CheckpointBatch(x, st).value) == Ok(next)
    requires next.marker.Some? && Reopen(x, next).Ok? && CheckpointFits(x, st) && NamesValid(x, st)
    ensures AllLoad(x, st, next)
  {
    hide Reopen, CheckpointBatch, CommitColumns, Replay, Verified, EncodeCheckpoint, DecodeCheckpoint, LoadDomains,
         LoadState, SortedKeys, HeadsRoot, EncodeWal, PutAll, CheckpointStates, CheckpointFits, UsableChain, NamesValid,
         FromCheckpoint, InDomains, Stored, UniqueDomains, AlikeChain;
    var batch := CheckpointBatch(x, st).value;
    CommitEffect(x.m.k, db, batch);
    ImportIndexes(x, st, db);
    var base := ReopenSteps(x, next);
    FitsNonEmpty(x, st);
    RecordReadsBack(x, st);
    var ids := SortedKeys(st.domains.Keys);
    forall d | d in st.domains
      ensures LoadState(x, st.domains[d].state.snapshot.root, next.nodes, next.code).Ok?
    {
      assert d in ids;
      var i :| 0 <= i < |ids| && ids[i] == d;
      LoadedEach(x, RecordOf(x, st).domains, next.nodes, next.code, i);
    }
  }

  lemma CheckpointRecovers(x: Setup, usable: Usable, db: Columns, prior: ChainState, st: ChainState)
    requires Sound(x, usable) && Recovers(x, usable, db, prior) && Importable(x, usable, st)
    requires CheckpointBatch(x, st).Ok? && CommitColumns(x.m.k, db, CheckpointBatch(x, st).value).Ok?
    requires AllReadable(x, st, CommitColumns(x.m.k, db, CheckpointBatch(x, st).value).value)
    ensures Recovers(x, usable, CommitColumns(x.m.k, db, CheckpointBatch(x, st).value).value, st)
  {
    hide Reopen, CheckpointBatch, CommitColumns, Sound, LoadCheckpoint, Replay, HeadsMatch, Stored, PutAll, UsableChain,
         EncodeCheckpoint, HeadsRoot, EncodeWal, CheckpointFits, AlikeChain, Readable, NamesValid, SortedKeys,
         RecordOf, CheckpointStates, UniqueDomains, InDomains;
    var batch := CheckpointBatch(x, st).value;
    var next := CommitColumns(x.m.k, db, batch).value;
    var base := ReopenSteps(x, db);
    CommitEffect(x.m.k, db, batch);
    ImportIndexes(x, st, db);
    StoredCheckpointLoads(x, usable, st, next.nodes, next.code);
    var loaded := LoadCheckpoint(x, next.indexes[KEY_CHECKPOINT], next.nodes, next.code).value;
    AlikeFrame(st, loaded);
    AlikeSymmetric(st, loaded);
    ImportedHeads(x, st, next, batch.states);
    VerifiedAlike(x, next, loaded, st, batch.marker);
    ReplayNone(x, next.indexes, loaded);
    StepsReopen(x, next, loaded, loaded);
  }

  lemma ReplayNone(x: Setup, indexes: map<Bytes, Bytes>, st: ChainState)
    ensures Replay(x, indexes, st, st.height + 1, st.height) == Ok(st)
  {
  }
}
