/** The single-validator engine object over its columns, mempool and pending proposal. */
module Engine {
  import opened Wrappers
  import opened Bytes
  import opened Ordered
  import opened Sorting
  import opened Canonical
  import opened BlockBody
  import opened Storage
  import opened Mempool
  import opened MempoolQueues
  import opened Scheduler
  import opened Proposer
  import opened Booking
  import opened Chain
  import opened ChainAgreement
  import opened BlockMachine
  import opened Alike
  import opened Recovery
  import opened EngineStore
  import opened EngineRecovery
  import opened EngineCommit
  import EngineRuns

  datatype PendingProposal = PendingProposal(id: B256, proposal: Proposal, reserved: seq<PoolEntry>)

  datatype Failure =
    | ProposalPending
    | UnknownProposal
    | BuildFailed(build: ChainError)
    | PoolFailed(pool: MempoolError)
    | CommitFailed(commit: EngineError)

  // ----- from reserved entries to batches -----

  function InfoFor(st: ChainState, ids: seq<B256>): seq<DomainInfo>
    requires forall d | d in ids :: d in st.domains
  {
    seq(|ids|, i requires 0 <= i < |ids| => DomainInfo(ids[i], st.domains[ids[i]].config.gasLimit))
  }

  function InfoOf(st: ChainState): seq<DomainInfo> {
    InfoFor(st, SortedKeys(st.domains.Keys))
  }

  lemma InfoDistinct(st: ChainState)
    ensures DistinctIds(DomainIds(InfoOf(st)))
    ensures forall d :: d in DomainIds(InfoOf(st)) <==> d in st.domains
  {
    hide SortedKeys, LexLess;
    var ids := SortedKeys(st.domains.Keys);
    assert DomainIds(InfoOf(st)) == ids;
    forall i, j | 0 <= i < j < |ids|
      ensures ids[i] != ids[j]
    {
      LexIrreflexive(ids[i]);
    }
  }

  function EnvelopesOf(d: B256, reserved: seq<PoolEntry>): seq<Bytes> {
    if reserved == [] then [] else
    var last := reserved[|reserved| - 1];
    EnvelopesOf(d, reserved[..|reserved| - 1]) + if last.domainId == d then [last.envelope] else []
  }

  function DomainsIn(reserved: seq<PoolEntry>): set<B256> {
    set e | e in reserved :: e.domainId
  }

  /** One batch per domain on top of its finalized block, transactions in reserved order. */
  function BatchesFor(st: ChainState, ids: seq<B256>, reserved: seq<PoolEntry>): seq<DomainBatch>
    requires forall d | d in ids :: d in st.domains
  {
    seq(|ids|, i requires 0 <= i < |ids| => DomainBatch(ids[i], st.domains[ids[i]].blockHash,
        EnvelopesOf(ids[i], reserved)))
  }

  function RoutesOf(created: seq<CreatedDomain>): seq<Route> {
    seq(|created|, i requires 0 <= i < |created| => Route(created[i].descriptor.domainId,
        created[i].descriptor.evmChainId))
  }

  function AllRoutes(executions: seq<Execution>): seq<Route> {
    if executions == [] then [] else
    AllRoutes(executions[..|executions| - 1]) + RoutesOf(executions[|executions| - 1].created)
  }

  function IncludedIn(executions: seq<Execution>): set<B256> {
    set e, h | e in executions && h in e.transactionHashes :: h
  }

  /** Every domain of a state with its chain ID. */
  function RoutesFor(st: ChainState, ids: seq<B256>): seq<Route>
    requires forall d | d in ids :: d in st.domains
  {
    seq(|ids|, i requires 0 <= i < |ids| => Route(ids[i], st.domains[ids[i]].config.chainId))
  }

  function AllIds(st: ChainState): (ids: seq<B256>)
    ensures forall d :: d in ids <==> d in st.domains
  {
    SortedKeys(st.domains.Keys)
  }

  /** Registers routes in order until one is refused. */
  method RegisterRoutes(q: Queues, routes: seq<Route>) returns (r: Result<(), MempoolError>)
    requires q.Valid()
    modifies q
    ensures q.Valid()
    ensures r.Ok? ==> RegisterAll(old(q.State()), routes) == Ok(q.State())
    ensures r.Err? ==> RegisterAll(old(q.State()), routes) == Err(r.error)
  {
    hide ValidPool, Register;
    ghost var start := q.State();
    for i := 0 to |routes|
      invariant q.Valid() && RegisterAll(start, routes[..i]) == Ok(q.State())
    {
      RegisterNext(start, routes, i);
      var registered := q.RegisterDomain(routes[i].domain, routes[i].chainId);
      if registered.Err? {
        RegisterStops(start, routes, i + 1);
        return Err(registered.error);
      }
    }
    assert routes[..|routes|] == routes;
    return Ok(());
  }

  lemma {:induction false} RegisterStops(p: Pool, routes: seq<Route>, i: nat)
    requires i <= |routes| && RegisterAll(p, routes[..i]).Err?
    ensures RegisterAll(p, routes) == RegisterAll(p, routes[..i])
    decreases |routes|
  {
    hide Register;
    if i < |routes| {
      assert routes[..|routes| - 1][..i] == routes[..i];
      RegisterStops(p, routes[..|routes| - 1], i);
    } else {
      assert routes[..i] == routes;
    }
  }

  /** Why committing a validated proposal is refused: by the pool, in preparing the batch, or by the database. */
  ghost function CommitRefusal(x: Setup, db: Columns, pool: Pool, p: Proposal): Option<Failure>
    requires Shaped(p)
  {
    hide RegisterAll, ProposalBatch, CommitColumns, AllRoutes;
    var registered, batch := RegisterAll(pool, AllRoutes(p.executions)), ProposalBatch(x, p);
    if registered.Err? then
      Some(PoolFailed(registered.error))
    else if batch.Err? then
      Some(CommitFailed(batch.error))
    else
      var committed := CommitColumns(x.m.k, db, batch.value);
      if committed.Err? then Some(CommitFailed(StorageFailure(committed.error))) else None
  }

  /** What importing a block reports. */
  ghost function ImportOutcome(x: Setup, db: Columns, st: ChainState, pool: Pool, block: ConsensusBlock)
    : Result<(), Failure>
  {
    hide Validate, CommitRefusal;
    var p := Validate(x.m, st, block);
    if p.Err? then
      Err(BuildFailed(p.error))
    else if !Shaped(p.value) then
      Ok(())
    else
      var refused := CommitRefusal(x, db, pool, p.value);
      if refused.Some? then Err(refused.value) else Ok(())
  }

  class SingleValidatorEngine {
    const x: Setup
    const reward: Address
    const nonceOf: (ExecutionState, Address) -> u64
    ghost const usable: Usable
    var db: Columns
    var finalized: ChainState
    var mempool: Queues
    var pending: Option<PendingProposal>
    var cursor: nat

    /** An engine over an opened database, with nothing pending. */
    constructor (x: Setup, reward: Address, nonceOf: (ExecutionState, Address) -> u64, ghost usable: Usable,
                 db: Columns, finalized: ChainState, mempool: Queues)
      requires mempool.Valid() && Sound(x, usable) && Recovers(x, usable, db, finalized)
      ensures Valid() && this.x == x && this.usable == usable && this.db == db && this.finalized == finalized
      ensures this.mempool == mempool && pending == None && cursor == 0
    {
      hide Sound, Recovers;
      this.x, this.reward, this.nonceOf, this.usable := x, reward, nonceOf, usable;
      this.db, this.finalized, this.mempool, pending, cursor := db, finalized, mempool, None, 0;
    }

    ghost predicate Valid()
      reads this, mempool
    {
      hide Sound, Recovers, Validate;
      && mempool.Valid()
      && Sound(x, usable) && Recovers(x, usable, db, finalized)
      && (pending.Some? ==>
            && Validate(x.m, finalized, pending.value.proposal.block) == Ok(pending.value.proposal)
            && Restorable(mempool.s, mempool.State(), pending.value.reserved))
    }

    /** Finalized nonce of every sender. */
    function FinalizedNonces(): Nonces
      reads this
    {
      NoncesOf(nonceOf, finalized)
    }

    /** Selects, reserves, groups and builds; a failure puts every entry back. */
    method BuildProposal(timestamp: u64) returns (r: Result<B256, Failure>)
      requires Valid() && HashesTellApart(mempool.State())
      modifies this, mempool
      ensures Valid()
      ensures db == old(db) && finalized == old(finalized) && mempool == old(mempool) && cursor == old(cursor)
      ensures r.Err? ==> pending == old(pending) && mempool.State() == old(mempool.State())
      ensures old(pending).Some? ==> r == Err(ProposalPending)
      ensures r.Ok? ==>
                && pending.Some? && pending.value.id == r.value
                && Keyed(old(mempool.entries))
                && pending.value.reserved == Selection(old(mempool.entries), FinalizedNonces(), InfoOf(finalized),
                     cursor)
                && mempool.State() == Reserve(old(mempool.State()), HashesOf(pending.value.reserved)).0
    {
      hide Recovers, Sound, Validate, Chain.Build, Selection, Reserve, ValidPool, Booking.Restorable, HashesTellApart,
           BatchesFor, InfoOf, SortedKeys, Restore, KeyRank, GoodEntry, NoncesOf, HashesOf, HashConsensus, EncodeBlock,
           HeadsRoot, StatesOf, Covers, Keyed;
      if pending.Some? {
        return Err(ProposalPending);
      }
      var reserved := ReserveSelection(mempool, NoncesOf(nonceOf, finalized), finalized, cursor);
      var ids := SortedKeys(DomainsIn(reserved));
      var batches := BatchesFor(finalized, ids, reserved);
      var built := BlockMachine.BuildProposal(x.m, finalized, batches, timestamp, reward);
      if built.Err? {
        RestorableGood(mempool.s, mempool.State(), reserved);
        mempool.RestoreReserved(reserved);
        return Err(BuildFailed(built.error));
      }
      BuiltValidates(x.m, finalized, batches, timestamp, reward);
      ValidatedShape(x.m, finalized, built.value.block);
      var id := HashConsensus(x.m.k, built.value.block.header).value;
      pending := Some(PendingProposal(id, built.value, reserved));
      return Ok(id);
    }

    /** Drops the proposal and restores its entries. */
    method AbandonProposal(id: B256) returns (r: Result<(), Failure>)
      requires Valid()
      modifies this, mempool
      ensures Valid()
      ensures db == old(db) && finalized == old(finalized) && mempool == old(mempool) && cursor == old(cursor)
      ensures var known := old(pending).Some? && old(pending).value.id == id;
              && r == (if known then Ok(()) else Err(UnknownProposal))
              && pending == (if known then None else old(pending))
              && mempool.State() == (if known then Restore(old(mempool.State()), old(pending).value.reserved)
                   else old(mempool.State()))
    {
      hide Recovers, Sound, Validate, ValidPool, Booking.Restorable, Restore, GoodEntry;
      if pending.None? || pending.value.id != id {
        return Err(UnknownProposal);
      }
      var reserved := pending.value.reserved;
      pending := None;
      RestorableGood(mempool.s, mempool.State(), reserved);
      mempool.RestoreReserved(reserved);
      return Ok(());
    }

    /** `commit_validated`: everything is prepared on copies, the database commits, and only then do
        the finalized view, the mempool and the cursor move. */
    method CommitValidated(p: Proposal) returns (r: Result<(), Failure>)
      requires Valid() && Validate(x.m, finalized, p.block) == Ok(p) && Shaped(p)
      modifies this
      ensures Valid()
      ensures r.Err? ==> db == old(db) && finalized == old(finalized) && mempool == old(mempool)
      ensures r.Err? ==> cursor == old(cursor) && pending == old(pending)
      ensures var refused := CommitRefusal(x, old(db), old(mempool.State()), p);
              r == if refused.Some? then Err(refused.value) else Ok(())
      ensures r.Ok? ==>
                && ProposalBatch(x, p).Ok? && CommitColumns(x.m.k, old(db), ProposalBatch(x, p).value) == Ok(db)
                && finalized == p.state && pending == None
                && cursor == (old(cursor) + 1) % (if |finalized.domains| > 1 then |finalized.domains| else 1)
                && RegisterAll(old(mempool.State()), AllRoutes(p.executions)).Ok?
                && var registered := RegisterAll(old(mempool.State()), AllRoutes(p.executions)).value;
                   Keyed(registered.entries) && mempool.State() == Reserve(registered, IncludedIn(p.executions)).0
    {
      hide Recovers, Sound, Validate, ProposalBatch, CommitColumns, ValidPool, Booking.Restorable, Reserve, AllRoutes,
           IncludedIn;
      var next := new Queues.Copy(mempool);
      var routes := AllRoutes(p.executions);
      var registered := RegisterRoutes(next, routes);
      if registered.Err? {
        return Err(PoolFailed(registered.error));
      }
      var _ := next.ReserveHashes(IncludedIn(p.executions));
      var batch := ProposalBatch(x, p);
      if batch.Err? {
        return Err(CommitFailed(batch.error));
      }
      var committed := CommitColumns(x.m.k, db, batch.value);
      if committed.Err? {
        return Err(CommitFailed(StorageFailure(committed.error)));
      }
      BlockRecovers(x, usable, db, finalized, p.block);
      db := committed.value;
      finalized := p.state;
      mempool := next;
      pending := None;
      cursor := (cursor + 1) % (if |finalized.domains| > 1 then |finalized.domains| else 1);
      return Ok(());
    }

    method CommitProposal(id: B256) returns (r: Result<(), Failure>)
      requires Valid()
      modifies this
      ensures Valid()
      ensures old(pending).None? || old(pending).value.id != id ==> r == Err(UnknownProposal)
      ensures r.Err? ==> db == old(db) && finalized == old(finalized)
      ensures r.Err? ==> mempool == old(mempool) && pending == old(pending)
      ensures r.Ok? ==> old(pending).Some? && finalized == old(pending).value.proposal.state && pending == None
      ensures old(pending).Some? && old(pending).value.id == id ==>
                r == ImportOutcome(x, old(db), old(finalized), old(mempool.State()), old(pending).value.proposal.block)
    {
      hide Recovers, Sound, Validate, ProposalBatch, CommitColumns, ValidPool, Booking.Restorable, Reserve, RegisterAll,
           HashConsensus, EncodeBlock, HeadsRoot, StatesOf, Covers;
      if pending.None? || pending.value.id != id {
        return Err(UnknownProposal);
      }
      ValidatedShape(x.m, finalized, pending.value.proposal.block);
      r := CommitValidated(pending.value.proposal);
    }

    /** Replays an externally obtained block on the finalized parent and commits it. */
    method ImportBlock(block: ConsensusBlock) returns (r: Result<(), Failure>)
      requires Valid()
      modifies this
      ensures Valid()
      ensures old(pending).Some? ==> r == Err(ProposalPending)
      ensures r.Err? ==> db == old(db) && finalized == old(finalized)
      ensures r.Err? ==> mempool == old(mempool) && pending == old(pending)
      ensures r.Ok? ==>
                Validate(x.m, old(finalized), block).Ok? &&
                    finalized == Validate(x.m, old(finalized), block).value.state
      ensures old(pending).None? ==> r == ImportOutcome(x, old(db), old(finalized), old(mempool.State()), block)
    {
      hide Recovers, Sound, Validate, ProposalBatch, CommitColumns, ValidPool, Booking.Restorable, Reserve, RegisterAll,
           HashConsensus, EncodeBlock, HeadsRoot, StatesOf, Covers;
      if pending.Some? {
        return Err(ProposalPending);
      }
      var p := ValidateProposal(x.m, finalized, block);
      if p.Err? {
        return Err(BuildFailed(p.error));
      }
      ValidatedShape(x.m, finalized, block);
      r := CommitValidated(p.value);
    }

    /** Adopts a verified checkpoint at height zero in one commit. */
    method ImportCheckpoint(st: ChainState, validatorSet: ValidatorSet, finalityProof: Bytes)
      returns (r: Result<(), Failure>)
      requires Valid()
      modifies this
      ensures r.Err? ==> db == old(db) && finalized == old(finalized)
      ensures r.Err? ==> mempool == old(mempool) && pending == old(pending) && Valid()
      ensures r.Ok? ==> old(pending).None? && pending == None && cursor == 0
      ensures r.Ok? ==>
                EngineRuns.CommitCheckpoint(x, EngineRuns.Node(old(db), old(finalized)), st)
                == Some(EngineRuns.Node(db, finalized))
      ensures r.Ok? ==>
                RegisterAll(old(mempool.State()), RoutesFor(finalized, AllIds(finalized))) == Ok(mempool.State())
      ensures EngineRuns.GoodImport(x, usable, st) ==> Valid()
    {
      hide Recovers, Sound, Validate, FromCheckpoint, CheckpointBatch, CommitColumns, ValidPool, Booking.Restorable,
           HeadsRoot, SortedKeys, EngineRuns.GoodImport, RegisterAll, RoutesFor, AllIds, SameIdentity;
      if pending.Some? {
        return Err(ProposalPending);
      }
      if finalized.height != 0 || finalityProof != [] || validatorSet != x.validatorSet || !SameIdentity(x, st) {
        return Err(CommitFailed(InconsistentStore("checkpoint identity mismatch")));
      }
      var kept := FromCheckpoint(x, st, HeadsRoot(x.m.k, st));
      if kept.Err? {
        return Err(BuildFailed(kept.error));
      }
      var next := new Queues.Copy(mempool);
      var registered := RegisterRoutes(next, RoutesFor(kept.value, AllIds(kept.value)));
      if registered.Err? {
        return Err(PoolFailed(registered.error));
      }
      var batch := CheckpointBatch(x, kept.value);
      if batch.Err? {
        return Err(CommitFailed(batch.error));
      }
      var committed := CommitColumns(x.m.k, db, batch.value);
      if committed.Err? {
        return Err(CommitFailed(StorageFailure(committed.error)));
      }
      if EngineRuns.GoodImport(x, usable, st) {
        EngineRuns.ImportDurable(x, usable, EngineRuns.Node(db, finalized), st);
      }
      db, finalized, mempool, cursor := committed.value, kept.value, next, 0;
      return Ok(());
    }
  }

  lemma RegisterNext(p: Pool, routes: seq<Route>, i: nat)
    requires i < |routes| && RegisterAll(p, routes[..i]).Ok?
    ensures var (after, r) := Register(RegisterAll(p, routes[..i]).value, routes[i].domain, routes[i].chainId);
            RegisterAll(p, routes[..i + 1]) == if r.Err? then Err(r.error) else Ok(after)
  {
    hide Register;
    assert routes[..i + 1][..i] == routes[..i];
  }

  /** Selects against the finalized state and takes exactly the selection out of the pool; putting it
      back restores the pool. */
  method ReserveSelection(q: Queues, nonces: Nonces, st: ChainState, cursor: nat) returns (reserved: seq<PoolEntry>)
    requires q.Valid() && HashesTellApart(q.State())
    modifies q
    ensures q.Valid() && Keyed(old(q.entries))
    ensures reserved == Selection(old(q.entries), nonces, InfoOf(st), cursor)
    ensures q.State() == Reserve(old(q.State()), HashesOf(reserved)).0
    ensures Restore(q.State(), reserved) == old(q.State()) && Booking.Restorable(q.s, q.State(), reserved)
    ensures forall d | d in DomainsIn(reserved) :: d in st.domains
  {
    hide Selection, Reserve, ValidPool, Booking.Restorable, HashesTellApart, InfoOf, Restore, KeyRank, GoodEntry,
         DistinctIds;
    ghost var p := q.State();
    KeyedPool(q.s, p);
    InfoDistinct(st);
    var selected := SelectTransactions(q, nonces, InfoOf(st), cursor);
    BuildReserves(q.s, p, nonces, InfoOf(st), cursor);
    FailedBuildRestores(q.s, p, nonces, InfoOf(st), cursor);
    reserved := q.ReserveHashes(set e | e in selected :: e.transactionHash);
    SelectedDomains(p.entries, nonces, st, cursor, reserved);
  }

  function NonceFor(nonceOf: (ExecutionState, Address) -> u64, st: ChainState, o: Owner): u64 {
    if o.domain in st.domains then nonceOf(st.domains[o.domain].state, o.sender) else 0
  }

  function NoncesOf(nonceOf: (ExecutionState, Address) -> u64, st: ChainState): Nonces {
    (o: Owner) => NonceFor(nonceOf, st, o)
  }

  /** Selected entries belong to finalized domains, so grouping cannot fail. */
  lemma SelectedDomains(entries: map<Key, PoolEntry>, nonces: Nonces, st: ChainState, cursor: nat,
                        reserved: seq<PoolEntry>)
    requires Keyed(entries) && reserved == Selection(entries, nonces, InfoOf(st), cursor)
    ensures forall d | d in DomainsIn(reserved) :: d in st.domains
  {
    hide Selection, InfoOf, KeyRank, GapFree, InOrder;
    InfoDistinct(st);
    SelectionSound(entries, nonces, InfoOf(st), cursor);
  }

  // ----- opening -----

  /** The replay loop of `open`. */
  method ReplayBlocks(x: Setup, indexes: map<Bytes, Bytes>, base: ChainState, target: u64)
    returns (r: Result<ChainState, EngineError>)
    requires base.height <= target
    ensures r == Replay(x, indexes, base, base.height + 1, target)
  {
    hide Validate, DecodeBlock, BlockKey;
    var st := base;
    for height := base.height + 1 to target + 1
      invariant Replay(x, indexes, base, base.height + 1, target) == Replay(x, indexes, st, height, target)
    {
      if BlockKey(height) !in indexes {
        return Err(InconsistentStore("missing finalized block body"));
      }
      var block := DecodeBlock(indexes[BlockKey(height)]);
      if block.Err? {
        return Err(BodyFailure(block.error));
      }
      var p := ValidateProposal(x.m, st, block.value);
      if p.Err? {
        return Err(ChainFailure(p.error));
      }
      st := p.value.state;
    }
    return Ok(st);
  }

  /** Whatever reopens is usable and recovers itself. */
  lemma ReopenedRecovers(x: Setup, usable: Usable, db: Columns)
    requires Sound(x, usable) && db.marker.Some? && Reopen(x, db).Ok?
    ensures Recovers(x, usable, db, Reopen(x, db).value)
  {
    hide Reopen, Base, Replay, Verified, Alike.Respects, LoadsUsable, CommittedRespects, UsableChain, Stored,
         CodeCovers;
    var base := ReopenSteps(x, db);
    AllStored(db.nodes);
    AllCovered(x.m.k, db.code);
    BaseStable(x, usable, db, db);
    AlikeSelf(base);
    SameBodiesSelf(db.indexes, db.marker.value.height);
    ReplayAlike(x, usable, db.indexes, db.indexes, base, base, base.height + 1, db.marker.value.height);
    AlikeSelf(Reopen(x, db).value);
  }

  /** The columns and the state an engine starts from: an initialized database, or a stored one replayed. */
  ghost function StartFrom(x: Setup, stored: Columns): Result<(Columns, ChainState), Failure> {
    hide Reopen, InitBatch, CommitColumns;
    if stored.marker.Some? then
      var reopened := Reopen(x, stored);
      if reopened.Err? then Err(CommitFailed(reopened.error)) else Ok((stored, reopened.value))
    else if InitBatch(x).None? then
      Err(CommitFailed(InvalidGenesis))
    else
      var committed := CommitColumns(x.m.k, stored, InitBatch(x).value);
      if committed.Err? then Err(CommitFailed(StorageFailure(committed.error))) else Ok((committed.value, x.genesis))
  }

  /** Whether an engine comes up, and why not. */
  ghost function OpenFailure(x: Setup, stored: Columns): Option<Failure> {
    hide StartFrom, RegisterAll;
    match StartFrom(x, stored)
    case Err(e) => Some(e)
    case Ok((_, st)) =>
      var pool := RegisterAll(EMPTY_POOL, RoutesFor(st, AllIds(st)));
      if pool.Err? then Some(PoolFailed(pool.error)) else None
  }

  /** `open`: initializes an empty database, or replays a stored one, then registers every domain. */
  method Open(x: Setup, reward: Address, nonceOf: (ExecutionState, Address) -> u64, ghost usable: Usable,
              stored: Columns, s: TxScheme, config: Config)
    returns (r: Result<SingleValidatorEngine, Failure>)
    requires Sound(x, usable) && EngineRuns.GenesisReady(x) && (stored.marker.None? ==> stored == EMPTY_COLUMNS)
    ensures r.Ok? ==> fresh(r.value) && fresh(r.value.mempool) && r.value.Valid() && r.value.pending == None
    ensures r.Ok? ==> StartFrom(x, stored) == Ok((r.value.db, r.value.finalized))
    ensures r.Ok? ==> RegisterAll(EMPTY_POOL, RoutesFor(r.value.finalized, AllIds(r.value.finalized)))
                      == Ok(r.value.mempool.State())
    ensures r.Err? <==> OpenFailure(x, stored).Some?
    ensures r.Err? ==> r.error == OpenFailure(x, stored).value
  {
    hide Reopen, Recovers, Sound, CommitColumns, ValidPool, Base, Replay, Verified, SortedKeys;
    var db, finalized := stored, x.genesis;
    if stored.marker.None? {
      var batch := InitBatch(x);
      if batch.None? {
        return Err(CommitFailed(InvalidGenesis));
      }
      var committed := CommitColumns(x.m.k, stored, batch.value);
      if committed.Err? {
        return Err(CommitFailed(StorageFailure(committed.error)));
      }
      EngineRuns.InitDurable(x, usable);
      db := committed.value;
    } else {
      var reopened := Reload(x, stored);
      if reopened.Err? {
        return Err(CommitFailed(reopened.error));
      }
      ReopenedRecovers(x, usable, stored);
      finalized := reopened.value;
    }
    var mempool := new Queues(s, config);
    var registered := RegisterRoutes(mempool, RoutesFor(finalized, AllIds(finalized)));
    if registered.Err? {
      return Err(PoolFailed(registered.error));
    }
    var engine := new SingleValidatorEngine(x, reward, nonceOf, usable, db, finalized, mempool);
    return Ok(engine);
  }

  method Reload(x: Setup, db: Columns) returns (r: Result<ChainState, EngineError>)
    requires db.marker.Some?
    ensures r == Reopen(x, db)
  {
    hide Base, Replay, Verified;
    var marker := db.marker.value;
    if KEY_GENESIS !in db.indexes {
      return Err(InconsistentStore("missing dev genesis record"));
    }
    if db.indexes[KEY_GENESIS] != x.fingerprint {
      return Err(GenesisMismatch);
    }
    var base := Base(x, db);
    if base.Err? {
      return base;
    }
    if base.value.height > marker.height {
      return Err(InconsistentStore("checkpoint height exceeds finalized marker"));
    }
    var st := ReplayBlocks(x, db.indexes, base.value, marker.height);
    if st.Err? {
      return st;
    }
    return if Verified(x, db, st.value, marker) then st else Err(InconsistentStore("marker, WAL or head mismatch"));
  }
}
