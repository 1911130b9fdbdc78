/** A committed block: what the database holds afterwards, and that it replays to the same state. */
module EngineCommit {
  import opened Wrappers
  import opened Bytes
  import opened Hashing
  import opened Canonical
  import opened BlockBody
  import opened Storage
  import opened StorageHistory
  import opened CommitEffects
  import opened Chain
  import opened ChainAgreement
  import opened DomainTree
  import opened Alike
  import opened Recovery
  import opened EngineStore
  import opened EngineRecovery

  // ----- heads -----

  ghost predicate HeadFits(st: ChainState, s: StateCommit) {
    && s.domainId in st.domains
    && st.domains[s.domainId].header.consensusHeight == s.consensusHeight
    && st.domains[s.domainId].header.stateRoot == s.snapshot.root
  }

  /** The committed states are the heads of the new state, and every other domain is unchanged. */
  ghost predicate Covers(parent: ChainState, st: ChainState, states: seq<StateCommit>) {
    && (forall i | 0 <= i < |states| :: HeadFits(st, states[i]))
    && (forall d | d in st.domains && !InDomains(states, d) :: d in parent.domains &&
         st.domains[d] == parent.domains[d])
  }

  lemma DomainsConcat(a: seq<StateCommit>, b: seq<StateCommit>, d: B256)
    ensures InDomains(a + b, d) <==> InDomains(a, d) || InDomains(b, d)
  {
    if InDomains(a, d) {
      var i :| 0 <= i < |a| && a[i].domainId == d;
      assert (a + b)[i].domainId == d;
    }
    if InDomains(b, d) {
      var i :| 0 <= i < |b| && b[i].domainId == d;
      assert (a + b)[|a| + i].domainId == d;
    }
    if InDomains(a + b, d) {
      var i :| 0 <= i < |a + b| && (a + b)[i].domainId == d;
      if i < |a| {
        assert a[i].domainId == d;
      } else {
        assert b[i - |a|].domainId == d;
      }
    }
  }

  lemma InsertOne(m: Machine, st: ChainState, c: CreatedDomain, height: u64)
    requires InsertCreated(m, st, c, height).Ok?
    ensures var next := InsertCreated(m, st, c, height).value;
            var d := c.descriptor.domainId;
            && d !in st.domains && d in next.domains
            && next.domains == st.domains[d := next.domains[d]]
            && HeadFits(next, StateCommit(d, height, c.genesisState.snapshot))
  {
    hide HashDomain, DeriveDomainId, ValidConfig, ChainIdTaken;
  }

  lemma CoversOne(st: ChainState, prior: ChainState, next: ChainState, states: seq<StateCommit>, own: StateCommit)
    requires Covers(st, prior, states) && own.domainId !in prior.domains
    requires own.domainId in next.domains && next.domains == prior.domains[own.domainId := next.domains[own.domainId]]
    requires HeadFits(next, own)
    ensures Covers(st, next, states + [own])
  {
    hide InDomains;
    var all := states + [own];
    forall x
      ensures InDomains(all, x) <==> InDomains(states, x) || x == own.domainId
    {
      DomainsConcat(states, [own], x);
      OneDomain(own, x);
    }
    forall i | 0 <= i < |all|
      ensures HeadFits(next, all[i])
    {
      if i < |states| {
        assert HeadFits(prior, states[i]);
      }
    }
  }

  lemma {:induction false} InsertCovers(m: Machine, st: ChainState, created: seq<CreatedDomain>, n: nat, height: u64)
    requires n <= |created| && InsertFirst(m, st, created, n, height).Ok?
    ensures Covers(st, InsertFirst(m, st, created, n, height).value, CreatedStates(created[..n], height))
    ensures forall i | 0 <= i < n :: created[i].descriptor.domainId !in st.domains
  {
    hide InsertCreated, Covers, HeadFits, InDomains;
    if n == 0 {
      assert CreatedStates(created[..0], height) == [];
      NothingCovered(st);
    } else {
      InsertCovers(m, st, created, n - 1, height);
      InsertFrame(m, st, created, n - 1, height);
      var prior := InsertFirst(m, st, created, n - 1, height).value;
      var c := created[n - 1];
      InsertOne(m, prior, c, height);
      var own := StateCommit(c.descriptor.domainId, height, c.genesisState.snapshot);
      assert CreatedStates(created[..n], height) == CreatedStates(created[..n - 1], height) + [own];
      CoversOne(st, prior, InsertFirst(m, st, created, n, height).value, CreatedStates(created[..n - 1], height), own);
    }
  }

  lemma OneDomain(s: StateCommit, d: B256)
    ensures InDomains([s], d) <==> s.domainId == d
  {
    if s.domainId == d {
      assert [s][0].domainId == d;
    }
  }

  lemma CoversStep(parent: ChainState, prior: ChainState, middle: ChainState, next: ChainState, d: B256,
                   f: FinalizedDomain, states: seq<StateCommit>, own: StateCommit, created: seq<StateCommit>)
    requires Covers(parent, prior, states) && d in parent.domains && !InDomains(states, d)
    requires middle == prior.(domains := prior.domains[d := f]) && own.domainId == d
    requires f.header.consensusHeight == own.consensusHeight && f.header.stateRoot == own.snapshot.root
    requires Covers(middle, next, created) && Kept(middle.domains, next.domains)
    ensures Covers(parent, next, states + ([own] + created))
  {
    hide InDomains;
    var all := states + ([own] + created);
    forall x
      ensures InDomains(all, x) <==> InDomains(states, x) || x == d || InDomains(created, x)
    {
      DomainsConcat(states, [own] + created, x);
      DomainsConcat([own], created, x);
      OneDomain(own, x);
    }
    forall i | 0 <= i < |states|
      ensures HeadFits(next, states[i])
    {
      assert HeadFits(prior, states[i]);
      assert InDomains(states, states[i].domainId) by { Listed(states, i); }
    }
    assert HeadFits(next, own);
    forall i | 0 <= i < |all|
      ensures HeadFits(next, all[i])
    {
      if i < |states| {
        assert all[i] == states[i];
      } else if i > |states| {
        assert all[i] == created[i - |states| - 1];
      }
    }
  }

  lemma Listed(states: seq<StateCommit>, i: nat)
    requires i < |states|
    ensures InDomains(states, states[i].domainId)
  {
  }

  lemma DomainHeads(m: Machine, parent: ChainState, batch: DomainBatch, height: u64, timestamp: u64, proposer: Address)
    requires ExecuteDomain(m, parent, batch, height, timestamp, proposer).Ok?
    ensures var (header, e, f) := ExecuteDomain(m, parent, batch, height, timestamp, proposer).value;
            && batch.domainId in parent.domains
            && header.domainId == batch.domainId && header.stateRoot == e.state.snapshot.root
            && f.header == header && header.consensusHeight == height
  {
    hide EnvFor, ContextFor, HashDomain, NextBaseFee;
  }

  /** Domains of the parent named by the committed states are batched ones: created domains are new. */
  ghost predicate OnlyBatched(parent: ChainState, states: seq<StateCommit>, batches: seq<DomainBatch>, n: nat)
    requires n <= |batches|
  {
    forall d | d in parent.domains && InDomains(states, d) :: Batched(batches, n, d)
  }

  lemma OnlyBatchedStep(parent: ChainState, middle: ChainState, states: seq<StateCommit>, own: StateCommit,
                        created: seq<CreatedDomain>, height: u64, batches: seq<DomainBatch>, n: nat)
    requires 0 < n <= |batches| && OnlyBatched(parent, states, batches, n - 1) &&
      own.domainId == batches[n - 1].domainId
    requires forall d | d in parent.domains :: d in middle.domains
    requires forall i | 0 <= i < |created| :: created[i].descriptor.domainId !in middle.domains
    ensures OnlyBatched(parent, states + ([own] + CreatedStates(created, height)), batches, n)
  {
    hide InDomains, CreatedStates;
    var list := CreatedStates(created, height);
    forall d | d in parent.domains && InDomains(states + ([own] + list), d)
      ensures Batched(batches, n, d)
    {
      DomainsConcat(states, [own] + list, d);
      DomainsConcat([own], list, d);
      OneDomain(own, d);
      if InDomains(list, d) {
        NewDomain(created, height, d);
      }
      BatchedMore(batches, n, d);
    }
  }

  /** The states a block commits are the heads of the state it leads to. */
  lemma {:induction false} ExecuteCovers(m: Machine, parent: ChainState, batches: seq<DomainBatch>, n: nat, height: u64,
                                         timestamp: u64, proposer: Address)
    requires n <= |batches| && InBatchOrder(batches)
    requires ExecuteFirst(m, parent, batches, n, height, timestamp, proposer).Ok?
    ensures var p := ExecuteFirst(m, parent, batches, n, height, timestamp, proposer).value;
            var states := StatesOf(p.blocks, p.executions, height);
            Covers(parent, p.state, states) && OnlyBatched(parent, states, batches, n)
  {
    hide ExecuteDomain, InsertFirst, Covers, OnlyBatched, CreatedStates, Moved;
    if n == 0 {
      NothingCovered(parent);
      assert OnlyBatched(parent, [], batches, 0) by { NothingBatched(parent, batches); }
    } else {
      ExecuteCovers(m, parent, batches, n - 1, height, timestamp, proposer);
      ExecuteMoves(m, parent, batches, n - 1, height, timestamp, proposer);
      var prior := ExecuteFirst(m, parent, batches, n - 1, height, timestamp, proposer).value;
      MovedKeys(parent, prior.state, batches, n - 1, height);
      var batch := batches[n - 1];
      var (header, e, f) := ExecuteDomain(m, parent, batch, height, timestamp, proposer).value;
      DomainHeads(m, parent, batch, height, timestamp, proposer);
      var middle := prior.state.(domains := prior.state.domains[batch.domainId := f]);
      InsertCovers(m, middle, e.created, |e.created|, height);
      InsertFrame(m, middle, e.created, |e.created|, height);
      assert e.created[..|e.created|] == e.created;
      var next := InsertFirst(m, middle, e.created, |e.created|, height).value;
      var states := StatesOf(prior.blocks, prior.executions, height);
      var own := StateCommit(header.domainId, header.consensusHeight, e.state.snapshot);
      NotYet(parent, states, batches, n);
      CoversStep(parent, prior.state, middle, next, batch.domainId, f, states, own, CreatedStates(e.created, height));
      OnlyBatchedStep(parent, middle, states, own, e.created, height, batches, n);
      var p := ExecuteFirst(m, parent, batches, n, height, timestamp, proposer).value;
      assert p.blocks[..n - 1] == prior.blocks && p.executions[..n - 1] == prior.executions;
    }
  }

  lemma NotYet(parent: ChainState, states: seq<StateCommit>, batches: seq<DomainBatch>, n: nat)
    requires 0 < n <= |batches| && InBatchOrder(batches) && OnlyBatched(parent, states, batches, n - 1)
    requires batches[n - 1].domainId in parent.domains
    ensures !InDomains(states, batches[n - 1].domainId)
  {
    hide InDomains;
    assert !Batched(batches, n - 1, batches[n - 1].domainId);
  }

  lemma NothingBatched(parent: ChainState, batches: seq<DomainBatch>)
    ensures OnlyBatched(parent, [], batches, 0)
  {
  }

  lemma MovedKeys(parent: ChainState, st: ChainState, batches: seq<DomainBatch>, n: nat, height: u64)
    requires n <= |batches| && Moved(parent, st, batches, n, height)
    ensures forall d | d in parent.domains :: d in st.domains
  {
  }

  lemma NothingCovered(parent: ChainState)
    ensures Covers(parent, parent, []) && forall d :: !InDomains([], d)
  {
  }

  lemma NewDomain(created: seq<CreatedDomain>, height: u64, d: B256)
    requires InDomains(CreatedStates(created, height), d)
    ensures exists i :: 0 <= i < |created| && created[i].descriptor.domainId == d
  {
    var i :| 0 <= i < |CreatedStates(created, height)| && CreatedStates(created, height)[i].domainId == d;
    assert created[i].descriptor.domainId == d;
  }

  lemma BatchedMore(batches: seq<DomainBatch>, n: nat, d: B256)
    requires 0 < n <= |batches|
    ensures Batched(batches, n - 1, d) || batches[n - 1].domainId == d ==> Batched(batches, n, d)
  {
  }

  // ----- the batch of a validated block -----

  lemma RootFrame(k: Keccak, a: ChainState, b: ChainState)
    requires a.domains == b.domains
    ensures HeadsRoot(k, a) == HeadsRoot(k, b)
  {
  }

  /** A validated proposal: one execution per batch, its marker is that of its state, and the states
      it commits are the heads of that state. */
  lemma ValidatedShape(m: Machine, st: ChainState, block: ConsensusBlock)
    requires Validate(m, st, block).Ok?
    ensures var p := Validate(m, st, block).value;
            && p.block == block && Shaped(p) && st.height < U64_MAX
            && block.header.height == p.state.height == st.height + 1
            && HashConsensus(m.k, block.header) == Ok(p.state.consensusHash)
            && block.header.domainHeadsRoot == HeadsRoot(m.k, p.state)
            && EncodeBlock(block).Ok? && |block.batches| <= MAX_BATCHES_PER_BLOCK
            && Covers(st, p.state, StatesOf(block.domainBlocks, p.executions, p.state.height))
  {
    hide Execute, Covers, EncodeBlock, HeadsRoot, CompareCandidate, BatchesOrdered, HashConsensus, StatesOf;
    ValidatedIsRebuilt(m, st, block);
    ExecutedShape(m, st, block.batches, block.header.timestamp, block.header.proposer);
  }

  lemma ExecutedShape(m: Machine, st: ChainState, batches: seq<DomainBatch>, timestamp: u64, proposer: Address)
    requires Execute(m, st, batches, timestamp, proposer).Ok? && BatchesOrdered(batches)
    ensures var p := Execute(m, st, batches, timestamp, proposer).value;
            && Shaped(p) && st.height < U64_MAX
            && p.block.header.height == p.state.height == st.height + 1
            && HashConsensus(m.k, p.block.header) == Ok(p.state.consensusHash)
            && p.block.header.domainHeadsRoot == HeadsRoot(m.k, p.state)
            && EncodeBlock(p.block).Ok? && |p.block.batches| <= MAX_BATCHES_PER_BLOCK
            && Covers(st, p.state, StatesOf(p.block.domainBlocks, p.executions, p.state.height))
  {
    hide ExecuteFirst, Seal, EncodeBlock, HeadsRoot, HashConsensus, StatesOf, BatchesOrdered;
    var q := ExecuteFirst(m, st, batches, |batches|, st.height + 1, timestamp, proposer).value;
    SealShape(m, st, q, batches, timestamp, proposer);
    OrderedDistinct(batches);
    ExecuteCovers(m, st, batches, |batches|, st.height + 1, timestamp, proposer);
    RootFrame(m.k, q.state, Execute(m, st, batches, timestamp, proposer).value.state);
  }

  // ----- recovery -----

  /** Reopening succeeds and gives back a state alike to the one in memory. */
  ghost predicate Recovers(x: Setup, usable: Usable, db: Columns, st: ChainState) {
    hide Reopen;
    && db.marker.Some? && Reopen(x, db).Ok?
    && AlikeChain(Reopen(x, db).value, st)
    && UsableChain(usable, Reopen(x, db).value) && UsableChain(usable, st)
  }

  lemma {:induction false} LocationKeys(x: Setup, p: Proposal, n: nat)
    requires n <= |p.block.batches| && n <= |p.executions| && LocationsOf(x, p, n).Ok?
    ensures forall i | 0 <= i < |LocationsOf(x, p, n).value| :: IsTxKey(LocationsOf(x, p, n).value[i].key)
  {
    hide TxKey, Location;
    if n > 0 {
      LocationKeys(x, p, n - 1);
      var hashes := p.executions[n - 1].transactionHashes;
      assert forall i | 0 <= i < |hashes| :: IsTxKey(TxKey(hashes[i]));
    }
  }

  ghost predicate IsTxKey(key: Bytes) {
    exists hash: B256 :: key == TxKey(hash)
  }

  /** What the index column says after a block is committed. */
  lemma BlockIndexes(x: Setup, p: Proposal, db: Columns)
    requires Shaped(p) && ProposalBatch(x, p).Ok? && UniqueKeys(ProposalBatch(x, p).value.indexes)
    ensures var batch := ProposalBatch(x, p).value;
            var after := PutAll(db.indexes, batch.indexes);
            && EncodeBlock(p.block).Ok?
            && BlockKey(batch.marker.height) in after &&
                 after[BlockKey(batch.marker.height)] == EncodeBlock(p.block).value
            && KEY_WAL in after && after[KEY_WAL] == EncodeWal(batch.marker)
            && (KEY_GENESIS in after <==> KEY_GENESIS in db.indexes)
            && (KEY_GENESIS in after ==> after[KEY_GENESIS] == db.indexes[KEY_GENESIS])
            && (KEY_CHECKPOINT in after <==> KEY_CHECKPOINT in db.indexes)
            && (KEY_CHECKPOINT in after ==> after[KEY_CHECKPOINT] == db.indexes[KEY_CHECKPOINT])
            && (forall h: u64 | h < batch.marker.height ::
                  (BlockKey(h) in after <==> BlockKey(h) in db.indexes)
                  && (BlockKey(h) in after ==> after[BlockKey(h)] == db.indexes[BlockKey(h)]))
  {
    hide BlockKey, TxKey, EncodeWal, EncodeBlock, PutAll, StatesOf, CodeOf, ReceiptsOf, AllDescriptors, LocationsOf,
         HashConsensus;
    var batch := ProposalBatch(x, p).value;
    var values := batch.indexes;
    var n := |p.block.batches|;
    LocationKeys(x, p, n);
    var locations := LocationsOf(x, p, n).value;
    assert values[0] == IndexedValue(BlockKey(batch.marker.height), EncodeBlock(p.block).value);
    assert values[1] == IndexedValue(KEY_WAL, EncodeWal(batch.marker));
    forall i | 2 <= i < |values|
      ensures IsTxKey(values[i].key)
    {
      assert values[i] == locations[i - 2];
    }
    PutAllLookup(db.indexes, values, BlockKey(batch.marker.height));
    PutAllLookup(db.indexes, values, KEY_WAL);
    OtherKeys(values, batch.marker.height, KEY_GENESIS, 0);
    OtherKeys(values, batch.marker.height, KEY_CHECKPOINT, 0);
    PutAllLookup(db.indexes, values, KEY_GENESIS);
    PutAllLookup(db.indexes, values, KEY_CHECKPOINT);
    forall h: u64 | h < batch.marker.height
      ensures BlockKey(h) in PutAll(db.indexes, values) <==> BlockKey(h) in db.indexes
      ensures BlockKey(h) in PutAll(db.indexes, values) ==>
        PutAll(db.indexes, values)[BlockKey(h)] == db.indexes[BlockKey(h)]
    {
      OtherKeys(values, batch.marker.height, BlockKey(h), h);
      PutAllLookup(db.indexes, values, BlockKey(h));
    }
  }

  lemma OtherKeys(values: seq<IndexedValue>, height: u64, key: Bytes, h: u64)
    requires |values| >= 2 && values[0].key == BlockKey(height) && values[1].key == KEY_WAL
    requires forall i | 2 <= i < |values| :: IsTxKey(values[i].key)
    requires key == KEY_GENESIS || key == KEY_CHECKPOINT || (key == BlockKey(h) && h != height)
    ensures !HasKey(values, key)
  {
    hide BlockKey, TxKey;
    forall i | 0 <= i < |values|
      ensures values[i].key != key
    {
      if i >= 2 {
        assert IsTxKey(values[i].key);
        var hash: B256 :| values[i].key == TxKey(hash);
        KeysApart(h, height, hash);
      } else {
        KeysApart(h, height, seq(32, _ => 0));
        KeysApart(height, h, seq(32, _ => 0));
      }
    }
  }

  /** A successful reopening, step by step. */
  ghost predicate ReopensTo(x: Setup, db: Columns, base: ChainState, st: ChainState) {
    hide Base, Replay, Verified;
    && db.marker.Some?
    && KEY_GENESIS in db.indexes && db.indexes[KEY_GENESIS] == x.fingerprint
    && Base(x, db) == Ok(base) && base.height <= db.marker.value.height
    && Replay(x, db.indexes, base, base.height + 1, db.marker.value.height) == Ok(st)
    && Verified(x, db, st, db.marker.value)
  }

  lemma ReopenSteps(x: Setup, db: Columns) returns (base: ChainState)
    requires db.marker.Some? && Reopen(x, db).Ok?
    ensures ReopensTo(x, db, base, Reopen(x, db).value)
  {
    hide Base, Replay, Verified;
    base := Base(x, db).value;
  }

  lemma StepsReopen(x: Setup, db: Columns, base: ChainState, st: ChainState)
    requires ReopensTo(x, db, base, st)
    ensures db.marker.Some? && Reopen(x, db) == Ok(st)
  {
    hide Base, Replay, Verified;
  }

  lemma CodeGrows(k: Keccak, code: map<B256, Bytes>, more: map<B256, Bytes>)
    requires forall h | h in more :: k(more[h]) == h
    ensures CodeCovers(k, code, code + more)
  {
  }

  lemma BatchMarker(x: Setup, p: Proposal)
    requires Shaped(p) && ProposalBatch(x, p).Ok? && HashConsensus(x.m.k, p.block.header) == Ok(p.state.consensusHash)
    requires p.block.header.height == p.state.height && p.block.header.domainHeadsRoot == HeadsRoot(x.m.k, p.state)
    ensures ProposalBatch(x, p).value.marker == MarkerOf(x.m, p.state)
    ensures ProposalBatch(x, p).value.states == StatesOf(p.block.domainBlocks, p.executions, p.state.height)
  {
    hide EncodeBlock, HashConsensus, HeadsRoot, LocationsOf, AllDescriptors, StatesOf, CodeOf, ReceiptsOf;
  }

  /** Heads after the commit are those of the new state. */
  lemma HeadsAfter(x: Setup, db: Columns, next: Columns, st: ChainState, after: ChainState, states: seq<StateCommit>)
    requires HeadsMatch(db, st) && Covers(st, after, states)
    requires forall i | 0 <= i < |states| ::
               states[i].domainId in next.heads
               && next.heads[states[i].domainId] == Head(states[i].consensusHeight, states[i].snapshot.root)
    requires forall d | !InDomains(states, d) :: d in next.heads <==> d in db.heads
    requires forall d | !InDomains(states, d) && d in db.heads :: next.heads[d] == db.heads[d]
    ensures HeadsMatch(next, after)
  {
    forall d | d in after.domains
      ensures d in next.heads && next.heads[d] == Head(after.domains[d].header.consensusHeight,
        after.domains[d].header.stateRoot)
    {
      if InDomains(states, d) {
        var i :| 0 <= i < |states| && states[i].domainId == d;
        assert HeadFits(after, states[i]);
      }
    }
  }

  lemma VerifiedAlike(x: Setup, db: Columns, a: ChainState, b: ChainState, marker: Marker)
    requires AlikeChain(a, b)
    ensures MarkerOf(x.m, a) == MarkerOf(x.m, b)
    ensures HeadsMatch(db, a) <==> HeadsMatch(db, b)
    ensures Verified(x, db, a, marker) <==> Verified(x, db, b, marker)
  {
    hide HeadsRoot, EncodeWal;
    RootAlike(x.m.k, a, b);
    assert forall d | d in a.domains :: AlikeDomain(a.domains[d], b.domains[d]);
  }

  /** The stored body of a validated block decodes to that block. */
  lemma BodyReadsBack(block: ConsensusBlock)
    requires EncodeBlock(block).Ok? && |block.batches| <= MAX_BATCHES_PER_BLOCK
    ensures DecodeBlock(EncodeBlock(block).value) == Ok(block)
  {
    hide EncodeBlock, DecodeBlock;
    BlockExact(block, []);
  }

  /** Replay of the extended database: the old states again, then the new block. */
  lemma ReplayExtended(x: Setup, usable: Usable, db: Columns, next: Columns, base: ChainState, later: ChainState,
                       r: ChainState, st: ChainState, block: ConsensusBlock)
    requires Sound(x, usable)
    requires AlikeChain(base, later) && UsableChain(usable, base) && UsableChain(usable, later)
    requires AlikeChain(r, st) && UsableChain(usable, r) && UsableChain(usable, st)
    requires base.height <= st.height < U64_MAX
    requires Replay(x, db.indexes, base, base.height + 1, st.height) == Ok(r)
    requires SameBodies(db.indexes, next.indexes, st.height)
    requires BlockKey(st.height + 1) in next.indexes && DecodeBlock(next.indexes[BlockKey(st.height + 1)]) == Ok(block)
    requires Validate(x.m, st, block).Ok?
    ensures var result := Replay(x, next.indexes, later, later.height + 1, st.height + 1);
            && result.Ok?
            && AlikeChain(result.value, Validate(x.m, st, block).value.state)
            && UsableChain(usable, result.value) && UsableChain(usable, Validate(x.m, st, block).value.state)
  {
    hide Replay, DecodeBlock, Validate, BlockKey, UsableChain, Respects, LoadsUsable, CommittedRespects, SameBodies;
    ReplayAlike(x, usable, db.indexes, next.indexes, base, later, base.height + 1, st.height);
    var again := Replay(x, next.indexes, later, later.height + 1, st.height).value;
    ReplayMore(x, next.indexes, later, later.height + 1, st.height);
    AlikeSymmetric(r, again);
    AlikeTransitive(again, r, st);
    ValidatedAlike(x.m, usable, again, st, block);
    ReplayOne(x, next.indexes, again, st.height + 1, block);
  }

  /** A committed block recovers: reopening the new database replays to a state alike to the one the
      engine holds after the commit. */
  lemma BlockRecovers(x: Setup, usable: Usable, db: Columns, st: ChainState, block: ConsensusBlock)
    requires Sound(x, usable) && Recovers(x, usable, db, st)
    requires Validate(x.m, st, block).Ok? && Shaped(Validate(x.m, st, block).value)
    requires ProposalBatch(x, Validate(x.m, st, block).value).Ok?
    requires CommitColumns(x.m.k, db, ProposalBatch(x, Validate(x.m, st, block).value).value).Ok?
    ensures Recovers(x, usable, CommitColumns(x.m.k, db, ProposalBatch(x, Validate(x.m, st, block).value).value).value,
                     Validate(x.m, st, block).value.state)
  {
    hide Reopen, Validate, ProposalBatch, CommitColumns, Sound, Base, Replay, HeadsMatch, Covers, Stored, PutAll,
         UsableChain, EncodeBlock, DecodeBlock, HeadsRoot, BlockKey, EncodeWal, HashConsensus, StatesOf, InDomains,
         AlikeChain;
    var p := Validate(x.m, st, block).value;
    var batch := ProposalBatch(x, p).value;
    var next := CommitColumns(x.m.k, db, batch).value;
    var r := Reopen(x, db).value;
    var base := ReopenSteps(x, db);
    AlikeFrame(r, st);
    ValidatedShape(x.m, st, block);
    BatchMarker(x, p);
    CommitEffect(x.m.k, db, batch);
    BlockIndexes(x, p, db);
    CodeGrows(x.m.k, db.code, batch.code);
    BaseStable(x, usable, db, next);
    var later := Base(x, next).value;
    AlikeFrame(base, later);
    BodyReadsBack(block);
    ReplayExtended(x, usable, db, next, base, later, r, st, block);
    var result := Replay(x, next.indexes, later, later.height + 1, st.height + 1).value;
    VerifiedAlike(x, db, r, st, db.marker.value);
    HeadsAfter(x, db, next, st, p.state, batch.states);
    VerifiedAlike(x, next, result, p.state, batch.marker);
    StepsReopen(x, next, later, result);
  }
}
