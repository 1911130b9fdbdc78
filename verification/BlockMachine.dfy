/** `ChainMachine` as it runs: batches in turn over a growing state, gas total and result list. */
module BlockMachine {
  import opened Wrappers
  import opened Bytes
  import opened Sorting
  import opened Canonical
  import opened BlockBody
  import opened Chain

  method InsertCreatedDomains(m: Machine, st: ChainState, created: seq<CreatedDomain>, height: u64)
    returns (r: Result<ChainState, ChainError>)
    ensures r == InsertFirst(m, st, created, |created|, height)
  {
    hide InsertCreated;
    var next := st;
    for i := 0 to |created|
      invariant InsertFirst(m, st, created, i, height) == Ok(next)
    {
      var inserted := InsertCreated(m, next, created[i], height);
      if inserted.Err? {
        InsertStops(m, st, created, i + 1, height);
        return inserted;
      }
      next := inserted.value;
    }
    return Ok(next);
  }

  lemma {:induction false} InsertStops(m: Machine, st: ChainState, created: seq<CreatedDomain>, n: nat, height: u64)
    requires n <= |created| && InsertFirst(m, st, created, n, height).Err?
    ensures InsertFirst(m, st, created, |created|, height) == InsertFirst(m, st, created, n, height)
    decreases |created| - n
  {
    hide InsertCreated;
    if n < |created| {
      InsertStops(m, st, created, n + 1, height);
    }
  }

  method ExecuteBatches(m: Machine, parent: ChainState, batches: seq<DomainBatch>, height: u64, timestamp: u64,
                        proposer: Address)
    returns (r: Result<Progress, ChainError>)
    ensures r == ExecuteFirst(m, parent, batches, |batches|, height, timestamp, proposer)
  {
    hide ExecuteDomain, InsertFirst;
    var state := parent;
    var blocks: seq<DomainHeader>, executions: seq<Execution> := [], [];
    var gas: nat := 0;
    for i := 0 to |batches|
      invariant ExecuteFirst(m, parent, batches, i, height, timestamp, proposer) ==
        Ok(Progress(state, blocks, executions, gas))
    {
      var batch := batches[i];
      var run := ExecuteDomain(m, parent, batch, height, timestamp, proposer);
      if run.Err? {
        ExecuteStops(m, parent, batches, i + 1, height, timestamp, proposer);
        return Err(run.error);
      }
      var (header, execution, domain) := run.value;
      gas := gas + execution.gasUsed;
      if gas > MAX_BLOCK_GAS {
        ExecuteStops(m, parent, batches, i + 1, height, timestamp, proposer);
        return Err(AggregateGas);
      }
      state := state.(domains := state.domains[batch.domainId := domain]);
      var inserted := InsertCreatedDomains(m, state, execution.created, height);
      if inserted.Err? {
        ExecuteStops(m, parent, batches, i + 1, height, timestamp, proposer);
        return Err(inserted.error);
      }
      state := inserted.value;
      blocks := blocks + [header];
      executions := executions + [execution];
    }
    return Ok(Progress(state, blocks, executions, gas));
  }

  lemma {:induction false} ExecuteStops(m: Machine, parent: ChainState, batches: seq<DomainBatch>, n: nat, height: u64,
                                        timestamp: u64, proposer: Address)
    requires n <= |batches| && ExecuteFirst(m, parent, batches, n, height, timestamp, proposer).Err?
    ensures ExecuteFirst(m, parent, batches, |batches|, height, timestamp, proposer)
         == ExecuteFirst(m, parent, batches, n, height, timestamp, proposer)
    decreases |batches| - n
  {
    hide ExecuteDomain, InsertFirst;
    if n < |batches| {
      ExecuteStops(m, parent, batches, n + 1, height, timestamp, proposer);
    }
  }

  method ExecuteProposal(m: Machine, parent: ChainState, batches: seq<DomainBatch>, timestamp: u64, proposer: Address)
    returns (r: Result<Proposal, ChainError>)
    ensures r == Execute(m, parent, batches, timestamp, proposer)
  {
    hide ExecuteFirst, Seal;
    if !TimestampOk(parent.timestamp, timestamp) {
      return Err(InvalidTimestamp);
    }
    if |batches| > MAX_BATCHES_PER_BLOCK {
      return Err(ChainError.TooManyBatches);
    }
    if parent.height == U64_MAX {
      return Err(WrongConsensusParent);
    }
    var p := ExecuteBatches(m, parent, batches, parent.height + 1, timestamp, proposer);
    if p.Err? {
      return Err(p.error);
    }
    return Seal(m, parent, p.value, batches, timestamp, proposer);
  }

  method BuildProposal(m: Machine, parent: ChainState, batches: seq<DomainBatch>, timestamp: u64, proposer: Address)
    returns (r: Result<Proposal, ChainError>)
    ensures r == Build(m, parent, batches, timestamp, proposer)
  {
    hide Execute, Sort;
    var sorted := Sort(BatchRank, batches);
    if !BatchesOrdered(sorted) {
      return Err(NonCanonicalBatches);
    }
    r := ExecuteProposal(m, parent, sorted, timestamp, proposer);
  }

  method ValidateProposal(m: Machine, parent: ChainState, candidate: ConsensusBlock)
    returns (r: Result<Proposal, ChainError>)
    ensures r == Validate(m, parent, candidate)
  {
    hide Execute, CompareCandidate;
    if !ExtendsParent(parent, candidate.header) {
      return Err(WrongConsensusParent);
    }
    if !BatchesOrdered(candidate.batches) {
      return Err(NonCanonicalBatches);
    }
    if !Aligned(candidate) {
      return Err(ChainError.ResultAlignment);
    }
    var expected := ExecuteProposal(m, parent, candidate.batches, candidate.header.timestamp,
        candidate.header.proposer);
    if expected.Err? {
      return expected;
    }
    var difference := CompareCandidate(candidate, expected.value.block);
    if difference.Some? {
      return Err(difference.value);
    }
    return expected;
  }
}
