/** The deterministic block machine over an explicit finalized parent. */
module Chain {
  import opened Wrappers
  import opened Bytes
  import opened Ordered
  import opened Hashing
  import opened Sorting
  import opened Layout
  import opened Canonical
  import opened BlockBody
  import CollectionRoots
  import HeadsTree
  import opened TrieCommit

  const MAX_BLOCK_GAS: nat := 120_000_000
  const MAX_DOMAIN_GAS: nat := 30_000_000
  const MAX_TIMESTAMP_STEP: nat := 30
  const PROTOCOL_VERSION: u32 := 1

  function ZeroHash(): B256 {
    seq(32, _ => 0)
  }

  function ZeroBloom(): Bloom {
    seq(256, _ => 0)
  }

  // ----- state -----

  /** Accounts with every reachable node, and contract bodies by hash. */
  datatype ExecutionState = ExecutionState(snapshot: TrieSnapshot, code: map<B256, Bytes>)

  datatype DomainConfig = DomainConfig(chainId: u64, protocolRevision: u32, gasLimit: u64, initialBaseFee: u128)

  datatype FinalizedDomain = FinalizedDomain(
    config: DomainConfig, header: DomainHeader, blockHash: B256, state: ExecutionState)

  datatype DomainStatus = Pending | Active | Frozen

  datatype Descriptor = Descriptor(
    domainId: B256, parentDomainId: B256, jointHash: B256, createTxHash: B256, originHash: B256,
    name: Bytes, symbol: Bytes, evmChainId: u64, owner: Address, protocolRevision: u32, gasLimit: u64,
    initialBaseFee: u128, initialSupply: u256, creationDeposit: u256, status: DomainStatus)

  datatype ChainState = ChainState(
    networkId: B256, height: u64, consensusHash: B256, timestamp: u64,
    validatorSetHash: B256, nextValidatorSetHash: B256, rootDomainId: B256, governance: Address,
    domains: map<B256, FinalizedDomain>, descriptors: map<B256, Descriptor>)

  // ----- execution as an opaque deterministic function -----

  datatype Env = Env(
    chainId: u64, blockNumber: u64, timestamp: u64, beneficiary: Address,
    gasLimit: u64, baseFee: u128, prevrandao: B256)

  /** The part of a descriptor its origin hash commits to, with the initial state root. */
  datatype Genesis = Genesis(
    domainId: B256, parentDomainId: B256, jointHash: B256, createTxHash: B256, name: Bytes, symbol: Bytes,
    evmChainId: u64, owner: Address, protocolRevision: u32, gasLimit: u64, initialBaseFee: u128,
    initialSupply: u256, initialStateRoot: B256)

  function GenesisOf(d: Descriptor, stateRoot: B256): Genesis {
    Genesis(d.domainId, d.parentDomainId, d.jointHash, d.createTxHash, d.name, d.symbol, d.evmChainId, d.owner,
            d.protocolRevision, d.gasLimit, d.initialBaseFee, d.initialSupply, stateRoot)
  }

  /** What the root registry sees of the proposal's parent. */
  datatype Context = Context(
    networkId: B256, rootDomainId: B256, executingDomainId: B256, creationHeight: u64,
    governance: Address, finalizedHeads: map<B256, B256>)

  datatype CreatedDomain = CreatedDomain(descriptor: Descriptor, genesisState: ExecutionState)

  datatype Execution = Execution(
    state: ExecutionState, transactionsRoot: B256, receiptsRoot: B256, logsBloom: Bloom, gasUsed: u64,
    transactionHashes: seq<B256>, receipts: seq<Bytes>, created: seq<CreatedDomain>)

  /** One batch to execute. */
  datatype Job = Job(revision: u32, env: Env, state: ExecutionState, transactions: seq<Bytes>, context: Context)

  datatype ExecutorError = ExecutorError(reason: string)

  /** Hashing, batch execution, and the account and hash functions domain creation looks at. */
  datatype Machine = Machine(
    k: Keccak,
    run: Job -> Result<Execution, ExecutorError>,
    knownRevision: u32 -> bool,
    balance: (ExecutionState, Address) -> nat,
    originHash: Genesis -> B256,
    descriptorHash: Descriptor -> B256,
    emptyRoot: B256)

  datatype ChainError =
    | WrongConsensusParent
    | WrongDomainParent(domain: B256)
    | WrongDomainNumber(domain: B256)
    | UnknownDomain(domain: B256)
    | NonCanonicalBatches
    | ResultAlignment
    | InvalidTimestamp
    | TooManyBatches
    | AggregateGas
    | InvalidDomainConfig
    | DuplicateCreatedDomain(domain: B256)
    | RegistryInvariant(reason: string)
    | RootMismatch(field: string)
    | HeaderMismatch
    | Execution(domain: B256, source: ExecutorError)
    | Encoding
    | BadCheckpoint(reason: string)
    | Body(error: BlockError)

  // ----- one domain -----

  function HashDomain(k: Keccak, h: DomainHeader): Result<B256, ChainError> {
    var encoded := EncodeDomainHeader(h);
    if encoded.Ok? then Ok(k(encoded.value)) else Err(ChainError.Encoding)
  }

  function HashConsensus(k: Keccak, h: ConsensusHeader): Result<B256, ChainError> {
    var encoded := EncodeConsensusHeader(h);
    if encoded.Ok? then Ok(k(encoded.value)) else Err(ChainError.Encoding)
  }

  function Saturated(n: nat): u128 {
    if n > U128_MAX then U128_MAX else n
  }

  function FeeChange(fee: u128, delta: nat, target: nat): nat
    requires target > 0
  {
    Saturated(fee * delta) / target / 8
  }

  function NextBaseFee(h: DomainHeader): u128 {
    var target, fee := h.gasLimit / 2, h.baseFeePerGas;
    if target == 0 || h.gasUsed == target then
      fee
    else if h.gasUsed > target then
      var increase := FeeChange(fee, h.gasUsed - target, target);
      Saturated(fee + if increase < 1 then 1 else increase)
    else
      var decrease := FeeChange(fee, target - h.gasUsed, target);
      if fee < decrease then 0 else fee - decrease
  }

  const PREVRANDAO_TAG: Bytes := Ascii("ARBOR_PREVRANDAO_V1")

  function Prevrandao(k: Keccak, parentHash: B256, height: u64): B256 {
    k(PREVRANDAO_TAG + [CANONICAL_CODEC_VERSION] + parentHash + PutU64(height))
  }

  predicate ValidConfig(m: Machine, c: DomainConfig) {
    c.chainId != 0 && 0 < c.gasLimit <= MAX_DOMAIN_GAS && c.initialBaseFee <= U64_MAX &&
        m.knownRevision(c.protocolRevision)
  }

  function ContextFor(parent: ChainState, domain: B256, height: u64): Context {
    Context(parent.networkId, parent.rootDomainId, domain, height, parent.governance,
            map d | d in parent.domains :: parent.domains[d].blockHash)
  }

  function EnvFor(m: Machine, parent: ChainState, f: FinalizedDomain, height: u64, timestamp: u64,
                  proposer: Address): Env
    requires f.header.number < U64_MAX
  {
    Env(f.config.chainId, f.header.number + 1, timestamp, proposer, f.config.gasLimit, NextBaseFee(f.header),
        Prevrandao(m.k, parent.consensusHash, height))
  }

  function NextHeader(f: FinalizedDomain, domain: B256, height: u64, e: Execution): DomainHeader
    requires f.header.number < U64_MAX
  {
    DomainHeader(PROTOCOL_VERSION, domain, f.header.number + 1, f.blockHash, height, e.transactionsRoot,
                 e.state.snapshot.root, e.receiptsRoot, e.logsBloom, f.config.gasLimit, e.gasUsed,
                     NextBaseFee(f.header))
  }

  /** `execute_domain`. */
  function ExecuteDomain(m: Machine, parent: ChainState, batch: DomainBatch, height: u64, timestamp: u64,
                         proposer: Address)
    : Result<(DomainHeader, Execution, FinalizedDomain), ChainError>
  {
    if batch.domainId !in parent.domains then
      Err(UnknownDomain(batch.domainId))
    else
      var f := parent.domains[batch.domainId];
      if batch.parentHash != f.blockHash then
        Err(WrongDomainParent(batch.domainId))
      else if f.header.number == U64_MAX then
        Err(WrongDomainNumber(batch.domainId))
      else if !m.knownRevision(f.config.protocolRevision) then
        Err(ChainError.Encoding)
      else
        match m.run(Job(f.config.protocolRevision, EnvFor(m, parent, f, height, timestamp, proposer), f.state,
                        batch.transactions, ContextFor(parent, batch.domainId, height)))
        case Err(e) => Err(ChainError.Execution(batch.domainId, e))
        case Ok(e) =>
          var header := NextHeader(f, batch.domainId, height, e);
          var blockHash :- HashDomain(m.k, header);
          Ok((header, e, FinalizedDomain(f.config, header, blockHash, e.state)))
  }

  // ----- created domains -----

  const DOMAIN_ID_TAG: Bytes := Ascii("ARBOR_DOMAIN_V1")

  function DeriveDomainId(k: Keccak, network: B256, parent: B256, createTxHash: B256): B256 {
    k(DOMAIN_ID_TAG + [CANONICAL_CODEC_VERSION] + network + parent + createTxHash)
  }

  function GenesisHeader(m: Machine, d: Descriptor, state: ExecutionState, height: u64): DomainHeader {
    DomainHeader(PROTOCOL_VERSION, d.domainId, 0, ZeroHash(), height, m.emptyRoot, state.snapshot.root, m.emptyRoot,
                 ZeroBloom(), d.gasLimit, 0, d.initialBaseFee)
  }

  function ConfigOf(d: Descriptor): DomainConfig {
    DomainConfig(d.evmChainId, d.protocolRevision, d.gasLimit, d.initialBaseFee)
  }

  predicate ChainIdTaken(st: ChainState, chainId: u64) {
    exists d :: d in st.domains && st.domains[d].config.chainId == chainId
  }

  /** `insert_created_domain`. */
  function InsertCreated(m: Machine, st: ChainState, c: CreatedDomain, height: u64): Result<ChainState, ChainError> {
    var d := c.descriptor;
    if d.domainId in st.domains || d.domainId in st.descriptors then
      Err(DuplicateCreatedDomain(d.domainId))
    else if d.parentDomainId !in st.domains then
      Err(RegistryInvariant("created domain parent is absent"))
    else if d.status != Active || DeriveDomainId(m.k, st.networkId, d.parentDomainId, d.createTxHash) != d.domainId then
      Err(RegistryInvariant("created domain identity/status mismatch"))
    else if ChainIdTaken(st, d.evmChainId) then
      Err(RegistryInvariant("duplicate EVM chain ID"))
    else if !ValidConfig(m, ConfigOf(d)) then
      Err(InvalidDomainConfig)
    else if m.balance(c.genesisState, d.owner) != d.initialSupply then
      Err(RegistryInvariant("owner allocation differs from initial supply"))
    else if m.originHash(GenesisOf(d, c.genesisState.snapshot.root)) != d.originHash then
      Err(RegistryInvariant("domain origin hash mismatch"))
    else
      var header := GenesisHeader(m, d, c.genesisState, height);
      var blockHash :- HashDomain(m.k, header);
      Ok(st.(domains := st.domains[d.domainId := FinalizedDomain(ConfigOf(d), header, blockHash, c.genesisState)],
             descriptors := st.descriptors[d.domainId := d]))
  }

  function InsertFirst(m: Machine, st: ChainState, created: seq<CreatedDomain>, n: nat, height: u64)
    : Result<ChainState, ChainError>
    requires n <= |created|
  {
    if n == 0 then
      Ok(st)
    else
      var next :- InsertFirst(m, st, created, n - 1, height);
      InsertCreated(m, next, created[n - 1], height)
  }

  // ----- a whole block -----

  datatype Progress = Progress(state: ChainState, blocks: seq<DomainHeader>, executions: seq<Execution>, gas: nat)

  datatype Proposal = Proposal(block: ConsensusBlock, state: ChainState, executions: seq<Execution>)

  /** The running totals after the first `n` batches; execution always reads the parent. */
  function ExecuteFirst(m: Machine, parent: ChainState, batches: seq<DomainBatch>, n: nat, height: u64, timestamp: u64,
                        proposer: Address): (r: Result<Progress, ChainError>)
    requires n <= |batches|
    ensures r.Ok? ==> |r.value.blocks| == n && |r.value.executions| == n
  {
    if n == 0 then
      Ok(Progress(parent, [], [], 0))
    else
      var p :- ExecuteFirst(m, parent, batches, n - 1, height, timestamp, proposer);
      var batch := batches[n - 1];
      var (header, execution, domain) :- ExecuteDomain(m, parent, batch, height, timestamp, proposer);
      var gas := p.gas + execution.gasUsed;
      if gas > MAX_BLOCK_GAS then
        Err(AggregateGas)
      else
        var st := p.state.(domains := p.state.domains[batch.domainId := domain]);
        var next :- InsertFirst(m, st, execution.created, |execution.created|, height);
        Ok(Progress(next, p.blocks + [header], p.executions + [execution], gas))
  }

  function EncodedBatches(batches: seq<DomainBatch>): (r: Result<seq<Bytes>, ChainError>)
    ensures r.Ok? ==> |r.value| == |batches| && forall i | 0 <= i < |batches| :: |r.value[i]| <= U32_MAX
  {
    if batches == [] then
      Ok([])
    else
      var first :- EncodedBatches(batches[..|batches| - 1]);
      var last := EncodeDomainBatch(batches[|batches| - 1]);
      BatchFits(batches[|batches| - 1]);
      if last.Err? then Err(ChainError.Encoding) else Ok(first + [last.value])
  }

  function BatchesRoot(k: Keccak, batches: seq<DomainBatch>): Result<B256, ChainError>
    requires |batches| <= U32_MAX
  {
    var values :- EncodedBatches(batches);
    Ok(CollectionRoots.CollectionRoot(k, CollectionRoots.BATCH_LEAF_TAG, values))
  }

  function ResultsRoot(k: Keccak, results: seq<DomainHeader>): Result<B256, ChainError>
    requires |results| <= U32_MAX
  {
    if CollectionRoots.Encodable(results) then Ok(CollectionRoots.ResultsRoot(k, results)) else Err(ChainError.Encoding)
  }

  /** One commitment entry per domain, inserted in domain order. */
  function HeadsOf(k: Keccak, domains: map<B256, FinalizedDomain>, ids: seq<B256>): HeadsTree.Heads
    requires forall d | d in ids :: d in domains
  {
    if ids == [] then map[] else
    var last := ids[|ids| - 1];
    var f := domains[last];
    HeadsOf(k, domains, ids[..|ids| - 1])[HeadsTree.HeadKey(k, last) :=
      (last, HeadsTree.DomainHead(f.blockHash, f.header.stateRoot))]
  }

  function HeadsRoot(k: Keccak, st: ChainState): B256 {
    HeadsTree.SubtreeRoot(k, SortedHeads(k, st), 0)
  }

  function SortedHeads(k: Keccak, st: ChainState): (r: seq<HeadsTree.Entry>)
    ensures HeadsTree.SortedEntries(r)
  {
    var heads := HeadsOf(k, st.domains, SortedKeys(st.domains.Keys));
    HeadsTree.EntriesCover(k, heads);
    HeadsTree.EntriesOf(k, heads)
  }

  predicate TimestampOk(parent: u64, actual: u64) {
    parent < U64_MAX && parent + 1 <= actual <= parent + MAX_TIMESTAMP_STEP
  }

  function SealedHeader(m: Machine, parent: ChainState, p: Progress, batches: seq<DomainBatch>, timestamp: u64,
                        proposer: Address)
    : Result<ConsensusHeader, ChainError>
    requires parent.height < U64_MAX && |batches| <= MAX_BATCHES_PER_BLOCK && |p.blocks| == |batches|
  {
    var batchesRoot :- BatchesRoot(m.k, batches);
    var resultsRoot :- ResultsRoot(m.k, p.blocks);
    Ok(ConsensusHeader(PROTOCOL_VERSION, parent.networkId, parent.height + 1, parent.consensusHash, timestamp,
                       batchesRoot, resultsRoot, HeadsRoot(m.k, p.state),
                       parent.nextValidatorSetHash, parent.nextValidatorSetHash, proposer))
  }

  function Seal(m: Machine, parent: ChainState, p: Progress, batches: seq<DomainBatch>, timestamp: u64,
                proposer: Address)
    : Result<Proposal, ChainError>
    requires parent.height < U64_MAX && |batches| <= MAX_BATCHES_PER_BLOCK && |p.blocks| == |batches|
  {
    var header :- SealedHeader(m, parent, p, batches, timestamp, proposer);
    var block := ConsensusBlock(header, batches, p.blocks);
    if EncodeBlock(block).Err? then
      Err(Body(EncodeBlock(block).error))
    else
      var hash :- HashConsensus(m.k, header);
      Ok(Proposal(block,
                  p.state.(validatorSetHash := header.validatorSetHash,
                      nextValidatorSetHash := header.nextValidatorSetHash,
                           height := parent.height + 1, consensusHash := hash, timestamp := timestamp),
                  p.executions))
  }

  /** `ChainMachine::execute`. */
  function Execute(m: Machine, parent: ChainState, batches: seq<DomainBatch>, timestamp: u64, proposer: Address)
    : Result<Proposal, ChainError>
  {
    if !TimestampOk(parent.timestamp, timestamp) then
      Err(InvalidTimestamp)
    else if |batches| > MAX_BATCHES_PER_BLOCK then
      Err(ChainError.TooManyBatches)
    else if parent.height == U64_MAX then
      Err(WrongConsensusParent)
    else
      var p :- ExecuteFirst(m, parent, batches, |batches|, parent.height + 1, timestamp, proposer);
      Seal(m, parent, p, batches, timestamp, proposer)
  }

  // ----- proposer and validator -----

  function BatchRank(b: DomainBatch): seq<int> {
    b.domainId
  }

  predicate BatchesOrdered(batches: seq<DomainBatch>) {
    forall i | 0 <= i < |batches| - 1 :: LexLess(BatchRank(batches[i]), BatchRank(batches[i + 1]))
  }

  function Build(m: Machine, parent: ChainState, batches: seq<DomainBatch>, timestamp: u64, proposer: Address)
    : Result<Proposal, ChainError>
  {
    var sorted := Sort(BatchRank, batches);
    if !BatchesOrdered(sorted) then Err(NonCanonicalBatches)
    else Execute(m, parent, sorted, timestamp, proposer)
  }

  /** The first differing result, in order. */
  function CompareResults(actual: seq<DomainHeader>, expected: seq<DomainHeader>): Option<ChainError> {
    if actual == [] || expected == [] then
      None
    else
      var a, e := actual[0], expected[0];
      if a.number != e.number || a.parentHash != e.parentHash || a.consensusHeight != e.consensusHeight then
        Some(WrongDomainNumber(a.domainId))
      else if a.transactionsRoot != e.transactionsRoot then
        Some(RootMismatch("transactions"))
      else if a.stateRoot != e.stateRoot then
        Some(RootMismatch("state"))
      else if a.receiptsRoot != e.receiptsRoot then
        Some(RootMismatch("receipts"))
      else if a != e then
        Some(HeaderMismatch)
      else
        CompareResults(actual[1..], expected[1..])
  }

  function CompareCandidate(actual: ConsensusBlock, expected: ConsensusBlock): Option<ChainError> {
    if actual.header.batchesRoot != expected.header.batchesRoot then
      Some(RootMismatch("batches"))
    else if CompareResults(actual.domainBlocks, expected.domainBlocks).Some? then
      CompareResults(actual.domainBlocks, expected.domainBlocks)
    else if actual.header.domainResultsRoot != expected.header.domainResultsRoot then
      Some(RootMismatch("domain results"))
    else if actual.header.domainHeadsRoot != expected.header.domainHeadsRoot then
      Some(RootMismatch("domain heads"))
    else if actual.header != expected.header then
      Some(HeaderMismatch)
    else
      None
  }

  predicate Aligned(block: ConsensusBlock) {
    && |block.domainBlocks| == |block.batches|
    && forall i | 0 <= i < |block.batches| :: block.batches[i].domainId == block.domainBlocks[i].domainId
  }

  predicate ExtendsParent(parent: ChainState, h: ConsensusHeader) {
    && h.protocolVersion == PROTOCOL_VERSION
    && h.networkId == parent.networkId
    && h.height == (if parent.height == U64_MAX then U64_MAX else parent.height + 1)
    && h.parentHash == parent.consensusHash
  }

  function Validate(m: Machine, parent: ChainState, candidate: ConsensusBlock): Result<Proposal, ChainError> {
    if !ExtendsParent(parent, candidate.header) then
      Err(WrongConsensusParent)
    else if !BatchesOrdered(candidate.batches) then
      Err(NonCanonicalBatches)
    else if !Aligned(candidate) then
      Err(ChainError.ResultAlignment)
    else
      var expected :- Execute(m, parent, candidate.batches, candidate.header.timestamp, candidate.header.proposer);
      if CompareCandidate(candidate, expected.block).Some? then
        Err(CompareCandidate(candidate, expected.block).value)
      else
        Ok(expected)
  }
}
