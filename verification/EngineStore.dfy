/** Commit batches of the engine, checkpoints, and reopening by replay. */
module EngineStore {
  import opened Wrappers
  import opened Bytes
  import opened Ordered
  import opened Hashing
  import opened Layout
  import opened Canonical
  import opened BlockBody
  import opened TrieCommit
  import opened Storage
  import opened Chain
  import opened DomainTree
  import opened Alike
  import opened CheckpointCodec
  import opened Recovery

  // ----- the batch of one block -----

  /** The state of one batch, then the domains it created. */
  function StatesFor(header: DomainHeader, e: Execution, height: u64): seq<StateCommit> {
    [StateCommit(header.domainId, header.consensusHeight, e.state.snapshot)] + CreatedStates(e.created, height)
  }

  function CreatedStates(created: seq<CreatedDomain>, height: u64): seq<StateCommit> {
    seq(|created|, i requires 0 <= i < |created| =>
      StateCommit(created[i].descriptor.domainId, height, created[i].genesisState.snapshot))
  }

  function StatesOf(blocks: seq<DomainHeader>, executions: seq<Execution>, height: u64): seq<StateCommit>
    requires |blocks| == |executions|
  {
    if blocks == [] then [] else
    var n := |blocks| - 1;
    StatesOf(blocks[..n], executions[..n], height) + StatesFor(blocks[n], executions[n], height)
  }

  function CreatedCode(created: seq<CreatedDomain>): map<B256, Bytes> {
    if created == [] then map[] else
    CreatedCode(created[..|created| - 1]) + created[|created| - 1].genesisState.code
  }

  function CodeOf(executions: seq<Execution>): map<B256, Bytes> {
    if executions == [] then map[] else
    var last := executions[|executions| - 1];
    CodeOf(executions[..|executions| - 1]) + last.state.code + CreatedCode(last.created)
  }

  function Location(height: u64, d: B256, index: nat): Bytes
    requires index <= U32_MAX
  {
    PutU64(height) + d + PutU32(index)
  }

  function LocationsFor(height: u64, d: B256, hashes: seq<B256>): seq<IndexedValue>
    requires |hashes| <= U32_MAX
  {
    seq(|hashes|, i requires 0 <= i < |hashes| => IndexedValue(TxKey(hashes[i]), Location(height, d, i)))
  }

  function LocationsOf(x: Setup, p: Proposal, n: nat): Result<seq<IndexedValue>, EngineError>
    requires n <= |p.block.batches| && n <= |p.executions|
  {
    if n == 0 then
      Ok([])
    else
      var first :- LocationsOf(x, p, n - 1);
      var d, hashes := p.block.batches[n - 1].domainId, p.executions[n - 1].transactionHashes;
      if !x.retains(d) then Ok(first)
      else if |hashes| > U32_MAX then Err(InconsistentStore("transaction index overflow"))
      else Ok(first + LocationsFor(p.block.header.height, d, hashes))
  }

  function ReceiptsFor(e: Execution): seq<IndexedValue> {
    var n := if |e.receipts| < |e.transactionHashes| then |e.receipts| else |e.transactionHashes|;
    seq(n, i requires 0 <= i < n => IndexedValue(PREFIX_RECEIPT + e.transactionHashes[i], e.receipts[i]))
  }

  function ReceiptsOf(x: Setup, p: Proposal, n: nat): seq<IndexedValue>
    requires n <= |p.block.batches| && n <= |p.executions|
  {
    if n == 0 then [] else
    ReceiptsOf(x, p, n - 1) + if x.retains(p.block.batches[n - 1].domainId) then ReceiptsFor(p.executions[n - 1])
        else []
  }

  function DescriptorsOf(created: seq<CreatedDomain>): Result<seq<IndexedValue>, EngineError> {
    if created == [] then
      Ok([])
    else
      var first :- DescriptorsOf(created[..|created| - 1]);
      var d := created[|created| - 1].descriptor;
      var encoded := EncodeDescriptor(d);
      if encoded.Err? then Err(CodecFailure(encoded.error)) else Ok(first + [IndexedValue(d.domainId, encoded.value)])
  }

  function AllDescriptors(executions: seq<Execution>): Result<seq<IndexedValue>, EngineError> {
    if executions == [] then
      Ok([])
    else
      var first :- AllDescriptors(executions[..|executions| - 1]);
      var last :- DescriptorsOf(executions[|executions| - 1].created);
      Ok(first + last)
  }

  predicate Shaped(p: Proposal) {
    |p.block.domainBlocks| == |p.block.batches| == |p.executions|
  }

  /** `proposal_commit_batch`. */
  function ProposalBatch(x: Setup, p: Proposal): Result<CommitBatch, EngineError>
    requires Shaped(p)
  {
    var n := |p.block.batches|;
    match HashConsensus(x.m.k, p.block.header)
    case Err(e) => Err(ChainFailure(e))
    case Ok(hash) =>
      var marker := Marker(p.block.header.height, hash, p.block.header.domainHeadsRoot);
      match EncodeBlock(p.block)
      case Err(e) => Err(BodyFailure(e))
      case Ok(body) =>
        var locations :- LocationsOf(x, p, n);
        var registry :- AllDescriptors(p.executions);
        Ok(CommitBatch(marker, StatesOf(p.block.domainBlocks, p.executions, marker.height), CodeOf(p.executions),
            ReceiptsOf(x, p, n),
                       [IndexedValue(BlockKey(marker.height), body), IndexedValue(KEY_WAL, EncodeWal(marker))] +
                           locations,
                       registry))
  }

  /** Height zero: the root state, the fingerprint and the write-ahead record. */
  function InitBatch(x: Setup): Option<CommitBatch> {
    var st := x.genesis;
    if st.rootDomainId !in st.domains then None else
    var root := st.domains[st.rootDomainId];
    var marker := MarkerOf(x.m, st);
    Some(CommitBatch(marker.(height := 0),
                     [StateCommit(st.rootDomainId, root.header.consensusHeight, root.state.snapshot)],
                     root.state.code, [],
                     [IndexedValue(KEY_GENESIS, x.fingerprint), IndexedValue(KEY_WAL, EncodeWal(marker.(height := 0)))],
                         []))
  }

  // ----- checkpoints -----

  function RecordFor(st: ChainState, d: B256): DomainRecord
    requires d in st.domains
  {
    var f := st.domains[d];
    DomainRecord(d, f.config, f.header, f.blockHash, f.state.snapshot.root,
                 if d in st.descriptors then Some(st.descriptors[d]) else None)
  }

  function RecordsFor(st: ChainState, ids: seq<B256>): seq<DomainRecord>
    requires forall d | d in ids :: d in st.domains
  {
    seq(|ids|, i requires 0 <= i < |ids| => RecordFor(st, ids[i]))
  }

  function RecordOf(x: Setup, st: ChainState): CheckpointRecord {
    CheckpointRecord(st.networkId, st.height, st.consensusHash, st.timestamp, st.validatorSetHash,
        st.nextValidatorSetHash,
                     st.rootDomainId, st.governance, HeadsRoot(x.m.k, st), x.validatorSet, [],
                     RecordsFor(st, SortedKeys(st.domains.Keys)))
  }

  predicate DescriptorFits(x: Setup, st: ChainState, d: B256)
    requires d in st.domains && d in st.descriptors
  {
    var f, e := st.domains[d], st.descriptors[d];
    && e.domainId == d && e.status == Active && ConfigOf(e) == f.config
    && DeriveDomainId(x.m.k, st.networkId, e.parentDomainId, e.createTxHash) == d
  }

  /** Header, state, configuration, hash and descriptor of one domain belong together. */
  predicate DomainFits(x: Setup, st: ChainState, d: B256)
    requires d in st.domains
  {
    var f := st.domains[d];
    && ValidConfig(x.m, f.config)
    && f.header.domainId == d && f.header.stateRoot == f.state.snapshot.root
    && f.header.consensusHeight <= st.height && f.header.gasLimit == f.config.gasLimit
    && HashDomain(x.m.k, f.header) == Ok(f.blockHash)
    && (d == st.rootDomainId <==> d !in st.descriptors)
    && (d in st.descriptors ==> DescriptorFits(x, st, d))
  }

  predicate Described(x: Setup, st: ChainState, d: B256)
    requires st.rootDomainId in st.domains && d in st.descriptors
  {
    st.descriptors[d].parentDomainId in st.domains && x.committed(st.domains[st.rootDomainId].state, st.descriptors[d])
  }

  predicate SameChainId(st: ChainState, a: B256, b: B256)
    requires a in st.domains && b in st.domains
  {
    st.domains[a].config.chainId == st.domains[b].config.chainId
  }

  predicate CheckpointFits(x: Setup, st: ChainState) {
    && st.height != 0
    && st.rootDomainId in st.domains
    && (forall d :: d in st.domains ==> DomainFits(x, st, d))
    && (forall a, b :: a in st.domains && b in st.domains && SameChainId(st, a, b) ==> a == b)
    && (forall d :: d in st.descriptors ==> Described(x, st, d) && Genealogy(st, d).Ok?)
  }

  /** Descriptors of present domains only: a checkpoint carries one per domain. */
  function Projected(st: ChainState): ChainState {
    st.(descriptors := map d | d in st.descriptors && d in st.domains :: st.descriptors[d])
  }

  /** `FinalizedChainState::from_checkpoint`. */
  function FromCheckpoint(x: Setup, st: ChainState, headsRoot: B256): Result<ChainState, ChainError> {
    var kept := Projected(st);
    if !CheckpointFits(x, kept) then Err(BadCheckpoint("incomplete or unauthenticated checkpoint"))
    else if HeadsRoot(x.m.k, kept) != headsRoot then Err(BadCheckpoint("domain-head root mismatch"))
    else Ok(kept)
  }

  predicate SameIdentity(x: Setup, st: ChainState) {
    && st.validatorSetHash == x.validatorHash && st.nextValidatorSetHash == x.validatorHash
    && st.networkId == x.genesis.networkId && st.rootDomainId == x.genesis.rootDomainId
    && st.governance == x.genesis.governance
  }

  function CodeOfDomains(st: ChainState, ids: seq<B256>): map<B256, Bytes>
    requires forall d | d in ids :: d in st.domains
  {
    if ids == [] then map[] else
    CodeOfDomains(st, ids[..|ids| - 1]) + st.domains[ids[|ids| - 1]].state.code
  }

  function CheckpointDescriptors(st: ChainState, ids: seq<B256>): Result<seq<IndexedValue>, EngineError>
    requires forall d | d in ids :: d in st.descriptors
  {
    if ids == [] then
      Ok([])
    else
      var first :- CheckpointDescriptors(st, ids[..|ids| - 1]);
      var d := ids[|ids| - 1];
      var encoded := EncodeDescriptor(st.descriptors[d]);
      if encoded.Err? then Err(CodecFailure(encoded.error)) else Ok(first + [IndexedValue(d, encoded.value)])
  }

  function CheckpointStates(st: ChainState, ids: seq<B256>): seq<StateCommit>
    requires forall d | d in ids :: d in st.domains
  {
    seq(|ids|, i requires 0 <= i < |ids| =>
      StateCommit(ids[i], st.domains[ids[i]].header.consensusHeight, st.domains[ids[i]].state.snapshot))
  }

  /** Batch of `import_development_checkpoint`. */
  function CheckpointBatch(x: Setup, st: ChainState): Result<CommitBatch, EngineError> {
    var ids := SortedKeys(st.domains.Keys);
    var marker := MarkerOf(x.m, st);
    var registry :- CheckpointDescriptors(st, SortedKeys(st.descriptors.Keys));
    var encoded := EncodeCheckpoint(RecordOf(x, st));
    if encoded.Err? then
      Err(CodecFailure(encoded.error))
    else
      Ok(CommitBatch(marker, CheckpointStates(st, ids), CodeOfDomains(st, ids), [],
                     [IndexedValue(KEY_CHECKPOINT, encoded.value), IndexedValue(KEY_WAL, EncodeWal(marker))], registry))
  }

  // ----- reading a checkpoint back -----

  datatype Loaded = Loaded(domains: map<B256, FinalizedDomain>, descriptors: map<B256, Descriptor>)

  function LoadDomains(x: Setup, records: seq<DomainRecord>, nodes: NodeMap, code: map<B256, Bytes>)
    : Result<Loaded, EngineError> {
    if records == [] then
      Ok(Loaded(map[], map[]))
    else
      var first :- LoadDomains(x, records[..|records| - 1], nodes, code);
      var r := records[|records| - 1];
      match LoadState(x, r.stateRoot, nodes, code)
      case Err(e) => Err(StateFailure(e))
      case Ok(state) =>
        Ok(Loaded(first.domains[r.domainId := FinalizedDomain(r.config, r.header, r.blockHash, state)],
                  if r.descriptor.Some? then first.descriptors[r.domainId := r.descriptor.value]
                      else first.descriptors))
  }

  function RecordIds(records: seq<DomainRecord>): seq<B256> {
    seq<B256>(|records|, i requires 0 <= i < |records| => records[i].domainId)
  }

  function Assemble(r: CheckpointRecord, l: Loaded): ChainState {
    ChainState(r.networkId, r.height, r.consensusHash, r.timestamp, r.validatorSetHash, r.nextValidatorSetHash,
        r.rootDomainId,
               r.governance, l.domains, l.descriptors)
  }

  /** `load_development_checkpoint` on present bytes. */
  function LoadCheckpoint(x: Setup, bytes: Bytes, nodes: NodeMap, code: map<B256, Bytes>)
    : Result<ChainState, EngineError> {
    match DecodeCheckpoint(x.utf8, bytes)
    case Err(e) => Err(CodecFailure(e))
    case Ok(r) =>
      var loaded :- LoadDomains(x, r.domains, nodes, code);
      if !NeighboursSorted(RecordIds(r.domains)) then
        Err(ChainFailure(BadCheckpoint("checkpoint domains are not strictly sorted")))
      else
        match FromCheckpoint(x, Assemble(r, loaded), r.domainHeadsRoot)
        case Err(e) => Err(ChainFailure(e))
        case Ok(st) =>
          if r.validatorSet != x.validatorSet || !SameIdentity(x, st) || r.finalityProof != []
          then Err(InconsistentStore("persisted checkpoint identity mismatch")) else Ok(st)
  }

  // ----- reopening -----

  /** Where replay starts: the genesis, or the stored checkpoint. */
  function Base(x: Setup, db: Columns): Result<ChainState, EngineError> {
    if KEY_CHECKPOINT !in db.indexes then Ok(x.genesis)
    else LoadCheckpoint(x, db.indexes[KEY_CHECKPOINT], db.nodes, db.code)
  }

  /** Applies the stored bodies up to `target`. */
  function Replay(x: Setup, indexes: map<Bytes, Bytes>, st: ChainState, height: nat, target: u64)
    : Result<ChainState, EngineError>
    decreases target + 1 - height
  {
    if height > target then
      Ok(st)
    else if BlockKey(height) !in indexes then
      Err(InconsistentStore("missing finalized block body"))
    else
      match DecodeBlock(indexes[BlockKey(height)])
      case Err(e) => Err(BodyFailure(e))
      case Ok(block) =>
        match Validate(x.m, st, block)
        case Err(e) => Err(ChainFailure(e))
        case Ok(p) => Replay(x, indexes, p.state, height + 1, target)
  }

  predicate HeadsMatch(db: Columns, st: ChainState) {
    forall d :: d in st.domains ==>
      d in db.heads && db.heads[d] == Head(st.domains[d].header.consensusHeight, st.domains[d].header.stateRoot)
  }

  /** `verify_recovered`. */
  predicate Verified(x: Setup, db: Columns, st: ChainState, marker: Marker) {
    && marker == MarkerOf(x.m, st)
    && KEY_WAL in db.indexes && db.indexes[KEY_WAL] == EncodeWal(marker)
    && HeadsMatch(db, st)
  }

  /** `open` on a database that holds a marker. */
  function Reopen(x: Setup, db: Columns): Result<ChainState, EngineError>
    requires db.marker.Some?
  {
    var marker := db.marker.value;
    if KEY_GENESIS !in db.indexes then
      Err(InconsistentStore("missing dev genesis record"))
    else if db.indexes[KEY_GENESIS] != x.fingerprint then
      Err(GenesisMismatch)
    else
      var base :- Base(x, db);
      if base.height > marker.height then
        Err(InconsistentStore("checkpoint height exceeds finalized marker"))
      else
        var st :- Replay(x, db.indexes, base, base.height + 1, marker.height);
        if Verified(x, db, st, marker) then Ok(st) else Err(InconsistentStore("marker, WAL or head mismatch"))
  }
}
