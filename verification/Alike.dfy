/** Chain states that agree on everything authenticated, and blocks run on either of them. */
module Alike {
  import opened Wrappers
  import opened Bytes
  import opened Ordered
  import opened Hashing
  import opened Canonical
  import opened BlockBody
  import opened Chain

  /** Same root and same leaves; stored nodes and contract code may differ. */
  ghost predicate AlikeState(a: ExecutionState, b: ExecutionState) {
    a.snapshot.root == b.snapshot.root && a.snapshot.leaves == b.snapshot.leaves
  }

  ghost predicate AlikeDomain(a: FinalizedDomain, b: FinalizedDomain) {
    a.config == b.config && a.header == b.header && a.blockHash == b.blockHash && AlikeState(a.state, b.state)
  }

  /** Same height, hash, domains, heads and descriptors, with alike execution states. */
  ghost predicate AlikeChain(a: ChainState, b: ChainState) {
    && b == a.(domains := b.domains)
    && a.domains.Keys == b.domains.Keys
    && forall d | d in a.domains :: AlikeDomain(a.domains[d], b.domains[d])
  }

  lemma AlikeTransitive(a: ChainState, b: ChainState, c: ChainState)
    requires AlikeChain(a, b) && AlikeChain(b, c)
    ensures AlikeChain(a, c)
  {
    forall d | d in a.domains
      ensures AlikeDomain(a.domains[d], c.domains[d])
    {
      assert AlikeDomain(a.domains[d], b.domains[d]) && AlikeDomain(b.domains[d], c.domains[d]);
    }
  }

  lemma AlikeSymmetric(a: ChainState, b: ChainState)
    requires AlikeChain(a, b)
    ensures AlikeChain(b, a)
  {
    forall d | d in b.domains
      ensures AlikeDomain(b.domains[d], a.domains[d])
    {
      assert AlikeDomain(a.domains[d], b.domains[d]);
    }
  }

  // ----- what execution may depend on -----

  /** States holding every node and contract body their accounts refer to. */
  type Usable = ExecutionState -> bool

  ghost predicate UsableChain(usable: Usable, st: ChainState) {
    forall d | d in st.domains :: usable(st.domains[d].state)
  }

  ghost predicate AlikeRun(usable: Usable, a: Result<Execution, ExecutorError>, b: Result<Execution, ExecutorError>) {
    if a.Err? || b.Err? then a == b else
      && b.value == a.value.(state := b.value.state)
      && AlikeState(a.value.state, b.value.state)
      && usable(a.value.state) && usable(b.value.state)
      && forall i | 0 <= i < |a.value.created| :: usable(a.value.created[i].genesisState)
  }

  /** The hypothesis on batch execution: on usable states it reads accounts, storage and code only
      through the authenticated root, and leaves usable states behind. */
  ghost predicate Respects(m: Machine, usable: Usable) {
    forall a: Job, b: Job | b == a.(state := b.state) && usable(a.state) && usable(b.state) &&
        AlikeState(a.state, b.state) ::
      AlikeRun(usable, m.run(a), m.run(b))
  }

  // ----- one domain, then a block -----

  ghost predicate AlikeOutcome(usable: Usable, a: Result<(DomainHeader, Execution, FinalizedDomain), ChainError>,
                               b: Result<(DomainHeader, Execution, FinalizedDomain), ChainError>)
  {
    if a.Err? || b.Err? then a == b else
      && a.value.0 == b.value.0
      && b.value.1 == a.value.1.(state := b.value.1.state)
      && AlikeState(a.value.1.state, b.value.1.state)
      && AlikeDomain(a.value.2, b.value.2)
      && usable(a.value.2.state) && usable(b.value.2.state)
      && forall i | 0 <= i < |a.value.1.created| :: usable(a.value.1.created[i].genesisState)
  }

  lemma ContextAlike(a: ChainState, b: ChainState, d: B256, height: u64)
    requires AlikeChain(a, b)
    ensures ContextFor(a, d, height) == ContextFor(b, d, height)
  {
    assert forall x | x in a.domains :: AlikeDomain(a.domains[x], b.domains[x]);
    assert ContextFor(a, d, height).finalizedHeads == ContextFor(b, d, height).finalizedHeads;
  }

  lemma DomainAlike(m: Machine, usable: Usable, a: ChainState, b: ChainState, batch: DomainBatch, height: u64,
                    timestamp: u64, proposer: Address)
    requires Respects(m, usable) && AlikeChain(a, b) && UsableChain(usable, a) && UsableChain(usable, b)
    ensures AlikeOutcome(usable, ExecuteDomain(m, a, batch, height, timestamp, proposer),
                         ExecuteDomain(m, b, batch, height, timestamp, proposer))
  {
    hide HashDomain, NextBaseFee, ContextFor, Prevrandao;
    if batch.domainId in a.domains {
      var f, g := a.domains[batch.domainId], b.domains[batch.domainId];
      assert AlikeDomain(f, g);
      ContextAlike(a, b, batch.domainId, height);
      if f.header.number < U64_MAX {
        var env := EnvFor(m, a, f, height, timestamp, proposer);
        assert env == EnvFor(m, b, g, height, timestamp, proposer);
        var x := Job(f.config.protocolRevision, env, f.state, batch.transactions,
            ContextFor(a, batch.domainId, height));
        var y := Job(f.config.protocolRevision, env, g.state, batch.transactions,
            ContextFor(a, batch.domainId, height));
        assert y == x.(state := y.state);
        assert AlikeRun(usable, m.run(x), m.run(y));
      }
    }
  }

  lemma TakenAlike(a: ChainState, b: ChainState, c: u64)
    requires AlikeChain(a, b)
    ensures ChainIdTaken(a, c) == ChainIdTaken(b, c)
  {
    assert forall x | x in a.domains :: AlikeDomain(a.domains[x], b.domains[x]);
    if ChainIdTaken(a, c) {
      var x :| x in a.domains && a.domains[x].config.chainId == c;
      assert x in b.domains && b.domains[x].config.chainId == c;
    }
    if ChainIdTaken(b, c) {
      var x :| x in b.domains && b.domains[x].config.chainId == c;
      assert x in a.domains && a.domains[x].config.chainId == c;
    }
  }

  ghost predicate AlikeResult(usable: Usable, a: Result<ChainState, ChainError>, b: Result<ChainState, ChainError>) {
    if a.Err? || b.Err? then a == b
    else AlikeChain(a.value, b.value) && UsableChain(usable, a.value) && UsableChain(usable, b.value)
  }

  lemma AlikePut(usable: Usable, a: ChainState, b: ChainState, d: B256, f: FinalizedDomain, g: FinalizedDomain)
    requires AlikeChain(a, b) && UsableChain(usable, a) && UsableChain(usable, b)
    requires AlikeDomain(f, g) && usable(f.state) && usable(g.state)
    ensures var x, y := a.(domains := a.domains[d := f]), b.(domains := b.domains[d := g]);
            AlikeChain(x, y) && UsableChain(usable, x) && UsableChain(usable, y)
  {
    var x, y := a.(domains := a.domains[d := f]), b.(domains := b.domains[d := g]);
    forall e | e in x.domains
      ensures AlikeDomain(x.domains[e], y.domains[e])
    {
      if e != d {
        assert AlikeDomain(a.domains[e], b.domains[e]);
      }
    }
  }

  lemma InsertAlike(m: Machine, usable: Usable, a: ChainState, b: ChainState, c: CreatedDomain, height: u64)
    requires AlikeChain(a, b) && UsableChain(usable, a) && UsableChain(usable, b) && usable(c.genesisState)
    ensures AlikeResult(usable, InsertCreated(m, a, c, height), InsertCreated(m, b, c, height))
  {
    hide HashDomain, DeriveDomainId, ValidConfig, AlikeChain, UsableChain, ChainIdTaken;
    var d := c.descriptor;
    TakenAlike(a, b, d.evmChainId);
    AlikeFrame(a, b);
    var x, y := InsertCreated(m, a, c, height), InsertCreated(m, b, c, height);
    if x.Ok? && y.Ok? {
      var f := x.value.domains[d.domainId];
      AlikePut(usable, a, b, d.domainId, f, f);
      AlikeDescribed(usable, a.(domains := a.domains[d.domainId := f]), b.(domains := b.domains[d.domainId := f]),
          x.value.descriptors);
    }
  }

  lemma AlikeFrame(a: ChainState, b: ChainState)
    requires AlikeChain(a, b)
    ensures b == a.(domains := b.domains) && a.domains.Keys == b.domains.Keys
  {
  }

  lemma AlikeDescribed(usable: Usable, a: ChainState, b: ChainState, descriptors: map<B256, Descriptor>)
    requires AlikeChain(a, b) && UsableChain(usable, a) && UsableChain(usable, b)
    ensures var x, y := a.(descriptors := descriptors), b.(descriptors := descriptors);
            AlikeChain(x, y) && UsableChain(usable, x) && UsableChain(usable, y)
  {
  }

  lemma {:induction false} InsertAllAlike(m: Machine, usable: Usable, a: ChainState, b: ChainState,
                                          created: seq<CreatedDomain>, n: nat, height: u64)
    requires AlikeChain(a, b) && UsableChain(usable, a) && UsableChain(usable, b) && n <= |created|
    requires forall i | 0 <= i < |created| :: usable(created[i].genesisState)
    ensures AlikeResult(usable, InsertFirst(m, a, created, n, height), InsertFirst(m, b, created, n, height))
  {
    hide InsertCreated, AlikeChain, UsableChain;
    if n > 0 {
      InsertAllAlike(m, usable, a, b, created, n - 1, height);
      var x, y := InsertFirst(m, a, created, n - 1, height), InsertFirst(m, b, created, n - 1, height);
      if x.Ok? && y.Ok? {
        InsertAlike(m, usable, x.value, y.value, created[n - 1], height);
      }
    }
  }

  ghost predicate AlikeProgress(usable: Usable, a: Result<Progress, ChainError>, b: Result<Progress, ChainError>) {
    if a.Err? || b.Err? then a.Err? && b.Err? && a.error == b.error
    else
      && AlikeChain(a.value.state, b.value.state) && UsableChain(usable, a.value.state) &&
           UsableChain(usable, b.value.state)
      && a.value.blocks == b.value.blocks && a.value.gas == b.value.gas
  }

  lemma {:induction false} ExecuteAlike(m: Machine, usable: Usable, a: ChainState, b: ChainState,
                                        batches: seq<DomainBatch>, n: nat, height: u64, timestamp: u64,
                                        proposer: Address)
    requires Respects(m, usable) && AlikeChain(a, b) && UsableChain(usable, a) && UsableChain(usable, b) &&
      n <= |batches|
    ensures AlikeProgress(usable, ExecuteFirst(m, a, batches, n, height, timestamp, proposer),
                          ExecuteFirst(m, b, batches, n, height, timestamp, proposer))
  {
    hide ExecuteDomain, InsertFirst, AlikeChain, UsableChain, Respects;
    if n > 0 {
      ExecuteAlike(m, usable, a, b, batches, n - 1, height, timestamp, proposer);
      var x, y := ExecuteFirst(m, a, batches, n - 1, height, timestamp, proposer),
          ExecuteFirst(m, b, batches, n - 1, height, timestamp, proposer);
      if x.Ok? && y.Ok? {
        var batch := batches[n - 1];
        DomainAlike(m, usable, a, b, batch, height, timestamp, proposer);
        var f, g := ExecuteDomain(m, a, batch, height, timestamp, proposer),
            ExecuteDomain(m, b, batch, height, timestamp, proposer);
        if f.Ok? && g.Ok? {
          AlikePut(usable, x.value.state, y.value.state, batch.domainId, f.value.2, g.value.2);
          var created := f.value.1.created;
          InsertAllAlike(m, usable, x.value.state.(domains := x.value.state.domains[batch.domainId := f.value.2]),
                         y.value.state.(domains := y.value.state.domains[batch.domainId := g.value.2]), created,
                             |created|, height);
        }
      }
    }
  }

  lemma {:induction false} HeadsAlike(k: Keccak, a: ChainState, b: ChainState, ids: seq<B256>)
    requires AlikeChain(a, b) && forall d | d in ids :: d in a.domains
    ensures HeadsOf(k, a.domains, ids) == HeadsOf(k, b.domains, ids)
  {
    if ids != [] {
      HeadsAlike(k, a, b, ids[..|ids| - 1]);
      assert AlikeDomain(a.domains[ids[|ids| - 1]], b.domains[ids[|ids| - 1]]);
    }
  }

  lemma RootAlike(k: Keccak, a: ChainState, b: ChainState)
    requires AlikeChain(a, b)
    ensures HeadsRoot(k, a) == HeadsRoot(k, b)
  {
    HeadsAlike(k, a, b, SortedKeys(a.domains.Keys));
  }

  ghost predicate AlikeProposal(usable: Usable, a: Result<Proposal, ChainError>, b: Result<Proposal, ChainError>) {
    if a.Err? || b.Err? then a.Err? && b.Err? && a.error == b.error
    else
      && a.value.block == b.value.block
      && AlikeChain(a.value.state, b.value.state) && UsableChain(usable, a.value.state) &&
           UsableChain(usable, b.value.state)
  }

  lemma SealAlike(m: Machine, usable: Usable, a: ChainState, b: ChainState, p: Progress, q: Progress,
                  batches: seq<DomainBatch>, timestamp: u64, proposer: Address)
    requires AlikeChain(a, b) && a.height < U64_MAX && |batches| <= MAX_BATCHES_PER_BLOCK
    requires |p.blocks| == |batches| && AlikeProgress(usable, Ok(p), Ok(q))
    ensures AlikeProposal(usable, Seal(m, a, p, batches, timestamp, proposer),
      Seal(m, b, q, batches, timestamp, proposer))
  {
    hide EncodeBlock, BatchesRoot, ResultsRoot, HeadsRoot, HashConsensus;
    RootAlike(m.k, p.state, q.state);
    assert SealedHeader(m, a, p, batches, timestamp, proposer) == SealedHeader(m, b, q, batches, timestamp, proposer);
  }

  lemma ExecutedAlike(m: Machine, usable: Usable, a: ChainState, b: ChainState, batches: seq<DomainBatch>,
                      timestamp: u64, proposer: Address)
    requires Respects(m, usable) && AlikeChain(a, b) && UsableChain(usable, a) && UsableChain(usable, b)
    ensures AlikeProposal(usable, Execute(m, a, batches, timestamp, proposer),
      Execute(m, b, batches, timestamp, proposer))
  {
    hide ExecuteFirst, Seal, UsableChain, Respects;
    if |batches| <= MAX_BATCHES_PER_BLOCK && a.height < U64_MAX {
      ExecuteAlike(m, usable, a, b, batches, |batches|, a.height + 1, timestamp, proposer);
      var x := ExecuteFirst(m, a, batches, |batches|, a.height + 1, timestamp, proposer);
      var y := ExecuteFirst(m, b, batches, |batches|, a.height + 1, timestamp, proposer);
      if x.Ok? && y.Ok? {
        SealAlike(m, usable, a, b, x.value, y.value, batches, timestamp, proposer);
      }
    }
  }

  /** A block is accepted on a chain state exactly when it is accepted on an alike one, and then
      leads to alike states. */
  lemma ValidatedAlike(m: Machine, usable: Usable, a: ChainState, b: ChainState, block: ConsensusBlock)
    requires Respects(m, usable) && AlikeChain(a, b) && UsableChain(usable, a) && UsableChain(usable, b)
    ensures AlikeProposal(usable, Validate(m, a, block), Validate(m, b, block))
  {
    hide Execute, UsableChain, Respects, CompareCandidate, BatchesOrdered;
    ExecutedAlike(m, usable, a, b, block.batches, block.header.timestamp, block.header.proposer);
    assert ExtendsParent(a, block.header) == ExtendsParent(b, block.header);
  }
}
