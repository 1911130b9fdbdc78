/** Registry storage and the chain's projection of it agree, so no accepted creation is refused. */
module RegistrySync {
  import opened Wrappers
  import opened Bytes
  import opened Layout
  import opened Canonical
  import opened BlockBody
  import opened Chain
  import opened ChainAgreement
  import opened DomainTree
  import opened Registry
  import opened Deposits

  // ----- the names a registry has given out -----

  datatype Names = Names(domains: iset<B256>, chainIds: iset<u64>)

  ghost function NamesIn(s: Storage): Names {
    Names(iset d: B256 | Load(s, DescriptorSlot(d)) != 0, iset c: u64 | Load(s, ChainIdSlot(c)) != 0)
  }

  ghost function AddName(n: Names, d: Descriptor): Names {
    Names(n.domains + iset{d.domainId}, n.chainIds + iset{d.evmChainId})
  }

  ghost function AddNames(n: Names, created: seq<Prepared>): Names {
    if created == [] then n else AddName(AddNames(n, created[..|created| - 1]), created[|created| - 1].descriptor)
  }

  /** Present parent, new domain, new chain ID. */
  ghost predicate Acceptable(n: Names, d: Descriptor) {
    d.parentDomainId in n.domains && d.domainId !in n.domains && d.evmChainId !in n.chainIds
  }

  ghost predicate AcceptedInOrder(n: Names, created: seq<Prepared>) {
    forall i | 0 <= i < |created| :: Acceptable(AddNames(n, created[..i]), created[i].descriptor)
  }

  /** Hashes and identifiers are not the zero word. */
  ghost predicate NonZero(p: Prepared) {
    Word(p.descriptorHash) != 0 && Word(p.descriptor.domainId) != 0
  }

  ghost predicate NonZeroOps(op: Op)
    decreases op
  {
    match op
    case Create(_, prepared) => prepared.Some? ==> NonZero(prepared.value)
    case Settle(_, _, _, _) => true
    case Credit(_) => true
    case Frame(ops, _) => forall i | 0 <= i < |ops| :: NonZeroOps(ops[i])
  }

  lemma CreateNames(v: Vault, call: Call, p: Prepared)
    requires NonZero(p) && RunCreate(v, call, Some(p)).Some?
    ensures Acceptable(NamesIn(v.storage), p.descriptor)
    ensures NamesIn(RunCreate(v, call, Some(p)).value.storage) == AddName(NamesIn(v.storage), p.descriptor)
  {
    hide Write, CreationWrites, Word;
    var s, after := v.storage, RunCreate(v, call, Some(p)).value.storage;
    forall d: B256
      ensures Load(after, DescriptorSlot(d)) != 0 <==> Load(s, DescriptorSlot(d)) != 0 || d == p.descriptor.domainId
    {
      WriteLoads(s, p, DescriptorSlot(d));
    }
    forall c: u64
      ensures Load(after, ChainIdSlot(c)) != 0 <==> Load(s, ChainIdSlot(c)) != 0 || c == p.descriptor.evmChainId
    {
      WriteLoads(s, p, ChainIdSlot(c));
    }
    assert NamesIn(after).domains == AddName(NamesIn(s), p.descriptor).domains;
    assert NamesIn(after).chainIds == AddName(NamesIn(s), p.descriptor).chainIds;
  }

  lemma SettleNames(v: Vault, call: Call, d: B256, burn: bool, governance: Address, height: u64)
    requires RunDeposit(v, call, d, burn, governance, height).Some?
    ensures NamesIn(RunDeposit(v, call, d, burn, governance, height).value.0.storage) == NamesIn(v.storage)
  {
    hide LowAddress, Word;
    var after := RunDeposit(v, call, d, burn, governance, height).value.0.storage;
    assert forall x: B256 :: Load(after, DescriptorSlot(x)) == Load(v.storage, DescriptorSlot(x));
    assert forall c: u64 :: Load(after, ChainIdSlot(c)) == Load(v.storage, ChainIdSlot(c));
    assert NamesIn(after).domains == NamesIn(v.storage).domains;
    assert NamesIn(after).chainIds == NamesIn(v.storage).chainIds;
  }

  /** New creations came after the old ones, were acceptable in order, and are the only new names. */
  ghost predicate Grows(l: Ledger, next: Ledger) {
    && l.created <= next.created
    && var added := next.created[|l.created|..];
       AcceptedInOrder(NamesIn(l.vault.storage), added)
       && NamesIn(next.vault.storage) == AddNames(NamesIn(l.vault.storage), added)
  }

  lemma GrowsNot(l: Ledger, next: Ledger)
    requires next.created == l.created && NamesIn(next.vault.storage) == NamesIn(l.vault.storage)
    ensures Grows(l, next)
  {
    hide NamesIn;
    assert next.created[|l.created|..] == [];
  }

  lemma GrowsOne(l: Ledger, next: Ledger, p: Prepared)
    requires next.created == l.created + [p] && Acceptable(NamesIn(l.vault.storage), p.descriptor)
    requires NamesIn(next.vault.storage) == AddName(NamesIn(l.vault.storage), p.descriptor)
    ensures Grows(l, next)
  {
    hide NamesIn, AddName, Acceptable;
    assert next.created[|l.created|..] == [p];
    assert [p][..0] == [];
    assert AddNames(NamesIn(l.vault.storage), []) == NamesIn(l.vault.storage);
  }

  lemma {:induction false} AddNamesSplit(n: Names, a: seq<Prepared>, b: seq<Prepared>)
    ensures AddNames(n, a + b) == AddNames(AddNames(n, a), b)
  {
    if b == [] {
      assert a + b == a;
    } else {
      AddNamesSplit(n, a, b[..|b| - 1]);
      assert (a + b)[..|a + b| - 1] == a + b[..|b| - 1];
    }
  }

  lemma GrowsTwice(l: Ledger, middle: Ledger, next: Ledger)
    requires Grows(l, middle) && Grows(middle, next)
    ensures Grows(l, next)
  {
    hide NamesIn, AcceptedInOrder, AddNames;
    var n := NamesIn(l.vault.storage);
    var a, b := middle.created[|l.created|..], next.created[|middle.created|..];
    assert next.created[|l.created|..] == a + b;
    AddNamesSplit(n, a, b);
    AcceptedConcat(n, a, b);
  }

  lemma AcceptedConcat(n: Names, a: seq<Prepared>, b: seq<Prepared>)
    requires AcceptedInOrder(n, a) && AcceptedInOrder(AddNames(n, a), b)
    ensures AcceptedInOrder(n, a + b)
  {
    hide Acceptable, AddNames;
    var both := a + b;
    forall i | 0 <= i < |both|
      ensures Acceptable(AddNames(n, both[..i]), both[i].descriptor)
    {
      if i < |a| {
        assert both[..i] == a[..i];
      } else {
        assert both[..i] == a + b[..i - |a|];
        AddNamesSplit(n, a, b[..i - |a|]);
      }
    }
  }

  lemma {:induction false} StepGrows(l: Ledger, op: Op, governance: Address)
    requires NonZeroOps(op)
    ensures Grows(l, Step(l, op, governance))
    decreases op, 0
  {
    hide Grows, RunCreate, RunDeposit, NamesIn;
    var next := Step(l, op, governance);
    match op
    case Create(call, prepared) =>
      var v := Credited(l, call.value).vault;
      if RunCreate(v, call, prepared).Some? {
        CreatePrepared(v, call, prepared);
        CreateNames(v, call, prepared.value);
        GrowsOne(l, next, prepared.value);
      } else {
        GrowsNot(l, next);
      }
    case Settle(call, d, burn, height) =>
      if RunDeposit(l.vault, call, d, burn, governance, height).Some? {
        SettleNames(l.vault, call, d, burn, governance, height);
      }
      GrowsNot(l, next);
    case Credit(_) => GrowsNot(l, next);
    case Frame(ops, reverted) =>
      if reverted {
        GrowsNot(l, next);
      } else {
        StepsGrow(l, ops, |ops|, governance);
      }
  }

  lemma {:induction false} StepsGrow(l: Ledger, ops: seq<Op>, n: nat, governance: Address)
    requires n <= |ops| && forall i | 0 <= i < |ops| :: NonZeroOps(ops[i])
    ensures Grows(l, Steps(l, ops, n, governance))
    decreases ops, n
  {
    hide Grows, Step, NamesIn;
    if n == 0 {
      GrowsNot(l, l);
    } else {
      StepsGrow(l, ops, n - 1, governance);
      var prior := Steps(l, ops, n - 1, governance);
      StepGrows(prior, ops[n - 1], governance);
      GrowsTwice(l, prior, Step(prior, ops[n - 1], governance));
    }
  }

  // ----- storage and projection -----

  ghost predicate Synced(n: Names, st: ChainState) {
    && (forall d: B256 :: d in n.domains <==> d in st.domains)
    && (forall c: u64 :: c in n.chainIds <==> ChainIdTaken(st, c))
  }

  /** What the executor hands over for one creation: `prepare_chain_creation` on a request whose
      parent is a finalized domain, with a genesis state that gives the owner the initial supply. */
  ghost predicate Derived(m: Machine, ctx: Context, p: Prepared, c: CreatedDomain) {
    && c.descriptor == p.descriptor
    && p.descriptor.parentDomainId in ctx.finalizedHeads
    && m.balance(c.genesisState, p.descriptor.owner) == p.descriptor.initialSupply
    && exists r: Request, txHash: B256, joint: B256, deposit: u256 ::
         Prepare(m, r, ctx.networkId, txHash, joint, c.genesisState.snapshot.root, deposit, ctx.creationHeight) ==
             Some(p)
  }

  /** A derived, acceptable creation passes every check of `insert_created_domain`. */
  lemma CreationInserted(m: Machine, st: ChainState, ctx: Context, n: Names, p: Prepared, c: CreatedDomain, height: u64)
    requires Synced(n, st) && Tree(st) && Acceptable(n, p.descriptor)
    requires Derived(m, ctx, p, c) && ctx.networkId == st.networkId && m.knownRevision(1)
    requires forall d | d in ctx.finalizedHeads :: d in st.domains
    ensures InsertCreated(m, st, c, height).Ok?
    ensures Synced(AddName(n, p.descriptor), InsertCreated(m, st, c, height).value)
  {
    hide Tree, HashDomain;
    assert st.descriptors.Keys <= st.domains.Keys by { TreeKeys(st); }
    assert c.descriptor.domainId !in st.descriptors;
    PreparedFits(m, ctx, p, c);
    assert HashDomain(m.k, GenesisHeader(m, p.descriptor, c.genesisState, height)).Ok? by {
      HashDefined(m, GenesisHeader(m, p.descriptor, c.genesisState, height));
    }
    var next := InsertCreated(m, st, c, height).value;
    TakenGrows(st, next, p.descriptor);
  }

  lemma HashDefined(m: Machine, h: DomainHeader)
    ensures HashDomain(m.k, h).Ok?
  {
    DomainHeaderEncodes(h);
  }

  lemma TreeKeys(st: ChainState)
    requires Tree(st)
    ensures st.descriptors.Keys <= st.domains.Keys
  {
  }

  lemma PreparedFits(m: Machine, ctx: Context, p: Prepared, c: CreatedDomain)
    requires Derived(m, ctx, p, c) && m.knownRevision(1)
    ensures var d := p.descriptor;
            && d.status == Active
            && DeriveDomainId(m.k, ctx.networkId, d.parentDomainId, d.createTxHash) == d.domainId
            && ValidConfig(m, ConfigOf(d))
            && m.originHash(GenesisOf(d, c.genesisState.snapshot.root)) == d.originHash
  {
    hide DeriveDomainId;
    var r: Request, txHash: B256, joint: B256, deposit: u256 :|
      Prepare(m, r, ctx.networkId, txHash, joint, c.genesisState.snapshot.root, deposit, ctx.creationHeight) == Some(p);
  }

  lemma TakenGrows(st: ChainState, next: ChainState, d: Descriptor)
    requires d.domainId !in st.domains && d.domainId in next.domains
    requires next.domains == st.domains[d.domainId := next.domains[d.domainId]]
    requires next.domains[d.domainId].config.chainId == d.evmChainId
    ensures forall c: u64 :: ChainIdTaken(next, c) <==> ChainIdTaken(st, c) || c == d.evmChainId
  {
    forall c: u64
      ensures ChainIdTaken(next, c) <==> ChainIdTaken(st, c) || c == d.evmChainId
    {
      if ChainIdTaken(st, c) {
        var x :| x in st.domains && st.domains[x].config.chainId == c;
        assert x in next.domains && next.domains[x].config.chainId == c;
      }
      if c == d.evmChainId {
        assert next.domains[d.domainId].config.chainId == c;
      }
    }
  }

  lemma {:induction false} CreationsInserted(m: Machine, st: ChainState, ctx: Context, n: Names,
                                             prepared: seq<Prepared>, created: seq<CreatedDomain>, count: nat,
                                             height: u64)
    requires count <= |created| == |prepared| && Synced(n, st) && Tree(st) && AcceptedInOrder(n, prepared)
    requires forall i | 0 <= i < |created| :: Derived(m, ctx, prepared[i], created[i])
    requires ctx.networkId == st.networkId && m.knownRevision(1)
    requires forall d | d in ctx.finalizedHeads :: d in st.domains
    ensures InsertFirst(m, st, created, count, height).Ok?
    ensures Synced(AddNames(n, prepared[..count]), InsertFirst(m, st, created, count, height).value)
  {
    hide Tree, Synced, Derived, InsertCreated, Acceptable, AddName;
    if count == 0 {
      assert prepared[..0] == [];
    } else {
      CreationsInserted(m, st, ctx, n, prepared, created, count - 1, height);
      InsertAllKeepsTree(m, st, created, count - 1, height);
      InsertFrame(m, st, created, count - 1, height);
      var prior := InsertFirst(m, st, created, count - 1, height).value;
      assert prepared[..count][..count - 1] == prepared[..count - 1];
      CreationInserted(m, prior, ctx, AddNames(n, prepared[..count - 1]), prepared[count - 1], created[count - 1],
          height);
    }
  }

  // ----- blocks -----

  /** The registry account inside a root execution state. */
  type View = ExecutionState -> Vault

  ghost predicate ExplainedBy(m: Machine, view: View, job: Job, e: Execution, ops: seq<Op>) {
    var l := Steps(Ledger(view(job.state), [], []), ops, |ops|, job.context.governance);
    && (forall i | 0 <= i < |ops| :: NonZeroOps(ops[i]))
    && view(e.state) == l.vault
    && |l.created| == |e.created|
    && forall i | 0 <= i < |l.created| :: Derived(m, job.context, l.created[i], e.created[i])
  }

  /** The hypothesis on batch execution: outside the root nothing is created; in the root the registry
      account changes only by registry calls and credits, and what stands created is reported. */
  ghost predicate Faithful(m: Machine, view: View) {
    forall job: Job | m.run(job).Ok? ::
      if job.context.executingDomainId != job.context.rootDomainId then m.run(job).value.created == []
      else exists ops :: ExplainedBy(m, view, job, m.run(job).value, ops)
  }

  ghost predicate RootSynced(view: View, st: ChainState) {
    st.rootDomainId in st.domains && Synced(NamesIn(view(st.domains[st.rootDomainId].state).storage), st)
  }

  lemma ReplacedSynced(n: Names, st: ChainState, d: B256, f: FinalizedDomain)
    requires Synced(n, st) && d in st.domains && f.config == st.domains[d].config
    ensures Synced(n, st.(domains := st.domains[d := f]))
  {
    var next := st.(domains := st.domains[d := f]);
    forall c: u64
      ensures ChainIdTaken(next, c) <==> ChainIdTaken(st, c)
    {
      if ChainIdTaken(st, c) {
        var x :| x in st.domains && st.domains[x].config.chainId == c;
        assert x in next.domains && next.domains[x].config.chainId == c;
      }
      if ChainIdTaken(next, c) {
        var x :| x in next.domains && next.domains[x].config.chainId == c;
        assert x in st.domains && st.domains[x].config.chainId == c;
      }
    }
  }

  /** The root's own batch: whatever the registry accepted is inserted, and both sides stay in step. */
  lemma RootBatchSynced(m: Machine, view: View, parent: ChainState, middle: ChainState, job: Job, height: u64)
    requires Faithful(m, view) && m.run(job).Ok? && m.knownRevision(1)
    requires job.context == ContextFor(parent, parent.rootDomainId, height)
    requires Tree(middle) && middle.networkId == parent.networkId
    requires Synced(NamesIn(view(job.state).storage), middle)
    requires forall d | d in parent.domains :: d in middle.domains
    ensures var e := m.run(job).value;
            var next := InsertFirst(m, middle, e.created, |e.created|, height);
            next.Ok? && Synced(NamesIn(view(e.state).storage), next.value)
  {
    hide Synced, Tree, Derived, InsertFirst, Steps, NamesIn, NonZeroOps;
    var e := m.run(job).value;
    var ops :| ExplainedBy(m, view, job, e, ops);
    var start := Ledger(view(job.state), [], []);
    var l := Steps(start, ops, |ops|, job.context.governance);
    StepsGrow(start, ops, |ops|, job.context.governance);
    assert l.created[0..] == l.created;
    CreationsInserted(m, middle, job.context, NamesIn(view(job.state).storage), l.created, e.created, |e.created|,
        height);
    assert l.created[..|e.created|] == l.created;
  }

  ghost predicate CreationRefused(e: ChainError) {
    e.DuplicateCreatedDomain? || e.RegistryInvariant? || e.InvalidDomainConfig?
  }

  lemma DomainErrors(m: Machine, parent: ChainState, batch: DomainBatch, height: u64, timestamp: u64, proposer: Address)
    requires ExecuteDomain(m, parent, batch, height, timestamp, proposer).Err?
    ensures !CreationRefused(ExecuteDomain(m, parent, batch, height, timestamp, proposer).error)
  {
    hide EnvFor, ContextFor, NextHeader;
  }

  lemma DomainResult(m: Machine, parent: ChainState, batch: DomainBatch, height: u64, timestamp: u64, proposer: Address)
    requires ExecuteDomain(m, parent, batch, height, timestamp, proposer).Ok?
    ensures batch.domainId in parent.domains && parent.domains[batch.domainId].header.number < U64_MAX
    ensures var (header, e, domain) := ExecuteDomain(m, parent, batch, height, timestamp, proposer).value;
            var f := parent.domains[batch.domainId];
            var job := Job(f.config.protocolRevision, EnvFor(m, parent, f, height, timestamp, proposer), f.state,
                           batch.transactions, ContextFor(parent, batch.domainId, height));
            m.run(job) == Ok(e) && domain.config == f.config && domain.state == e.state
  {
    hide EnvFor, ContextFor, NextHeader, HashDomain;
  }

  /** One batch on top of a synced state. */
  lemma BatchSynced(m: Machine, view: View, parent: ChainState, prior: ChainState, batch: DomainBatch,
                    height: u64, timestamp: u64, proposer: Address)
    requires Faithful(m, view) && m.knownRevision(1)
    requires Tree(prior) && RootSynced(view, prior) && SameFrame(parent, prior)
    requires forall d | d in parent.domains :: d in prior.domains
    requires ExecuteDomain(m, parent, batch, height, timestamp, proposer).Ok?
    requires batch.domainId in prior.domains && prior.domains[batch.domainId] == parent.domains[batch.domainId]
    ensures var (_, e, domain) := ExecuteDomain(m, parent, batch, height, timestamp, proposer).value;
            var middle := prior.(domains := prior.domains[batch.domainId := domain]);
            var next := InsertFirst(m, middle, e.created, |e.created|, height);
            next.Ok? && RootSynced(view, next.value)
  {
    hide Tree, Synced, ExecuteDomain, NamesIn, Faithful, EnvFor, InsertFirst;
    DomainResult(m, parent, batch, height, timestamp, proposer);
    var (_, e, domain) := ExecuteDomain(m, parent, batch, height, timestamp, proposer).value;
    var f := parent.domains[batch.domainId];
    var job := Job(f.config.protocolRevision, EnvFor(m, parent, f, height, timestamp, proposer), f.state,
                   batch.transactions, ContextFor(parent, batch.domainId, height));
    var names := NamesIn(view(prior.domains[prior.rootDomainId].state).storage);
    var middle := prior.(domains := prior.domains[batch.domainId := domain]);
    AdvanceKeepsTree(prior, batch.domainId, domain);
    ReplacedSynced(names, prior, batch.domainId, domain);
    if batch.domainId == parent.rootDomainId {
      RootBatchSynced(m, view, parent, middle, job, height);
    } else {
      NothingCreated(m, view, job);
      InsertNone(m, middle, height);
    }
    InsertFrame(m, middle, e.created, |e.created|, height);
  }

  lemma NothingCreated(m: Machine, view: View, job: Job)
    requires Faithful(m, view) && m.run(job).Ok? && job.context.executingDomainId != job.context.rootDomainId
    ensures m.run(job).value.created == []
  {
  }

  lemma InsertNone(m: Machine, st: ChainState, height: u64)
    ensures InsertFirst(m, st, [], 0, height) == Ok(st)
  {
  }

  /** Executing batches in order keeps the registry and its projection in step, and whatever stops a
      block, it is never a refused creation. */
  lemma {:induction false} ExecuteSynced(m: Machine, view: View, parent: ChainState, batches: seq<DomainBatch>, n: nat,
                                         height: u64, timestamp: u64, proposer: Address)
    requires n <= |batches| && InBatchOrder(batches)
    requires Faithful(m, view) && m.knownRevision(1) && Tree(parent) && RootSynced(view, parent)
    ensures var r := ExecuteFirst(m, parent, batches, n, height, timestamp, proposer);
            if r.Ok? then RootSynced(view, r.value.state) else !CreationRefused(r.error)
  {
    hide Tree, RootSynced, Faithful, ExecuteDomain, InsertFirst;
    if n > 0 {
      ExecuteSynced(m, view, parent, batches, n - 1, height, timestamp, proposer);
      var prior := ExecuteFirst(m, parent, batches, n - 1, height, timestamp, proposer);
      if prior.Ok? {
        ExecuteKeepsTree(m, parent, batches, n - 1, height, timestamp, proposer);
        ExecuteMoves(m, parent, batches, n - 1, height, timestamp, proposer);
        var batch := batches[n - 1];
        var run := ExecuteDomain(m, parent, batch, height, timestamp, proposer);
        if run.Err? {
          DomainErrors(m, parent, batch, height, timestamp, proposer);
        } else {
          DomainResult(m, parent, batch, height, timestamp, proposer);
          assert !Batched(batches, n - 1, batch.domainId);
          BatchSynced(m, view, parent, prior.value.state, batch, height, timestamp, proposer);
        }
      }
    }
  }

  lemma BlockSynced(m: Machine, view: View, parent: ChainState, batches: seq<DomainBatch>, timestamp: u64,
                    proposer: Address)
    requires Faithful(m, view) && m.knownRevision(1) && Tree(parent) && RootSynced(view, parent)
    requires BatchesOrdered(batches)
    ensures var r := Execute(m, parent, batches, timestamp, proposer);
            if r.Ok? then RootSynced(view, r.value.state) else !CreationRefused(r.error)
  {
    hide Tree, Faithful, ExecuteFirst, Seal, BatchesOrdered, RootSynced, HashConsensus, EncodeBlock;
    if |batches| <= MAX_BATCHES_PER_BLOCK && parent.height < U64_MAX {
      OrderedDistinct(batches);
      var height := parent.height + 1;
      ExecuteSynced(m, view, parent, batches, |batches|, height, timestamp, proposer);
      var p := ExecuteFirst(m, parent, batches, |batches|, height, timestamp, proposer);
      if p.Ok? {
        SealSynced(m, view, parent, p.value, batches, timestamp, proposer);
      }
    }
  }

  lemma SealSynced(m: Machine, view: View, parent: ChainState, p: Progress, batches: seq<DomainBatch>, timestamp: u64,
                   proposer: Address)
    requires parent.height < U64_MAX && |batches| <= MAX_BATCHES_PER_BLOCK && |p.blocks| == |batches|
    requires RootSynced(view, p.state)
    ensures var r := Seal(m, parent, p, batches, timestamp, proposer);
            if r.Ok? then RootSynced(view, r.value.state) else !CreationRefused(r.error)
  {
    hide Seal, RootSynced, HashConsensus, EncodeBlock, HeadsRoot;
    if Seal(m, parent, p, batches, timestamp, proposer).Err? {
      SealErrors(m, parent, p, batches, timestamp, proposer);
    } else {
      SealShape(m, parent, p, batches, timestamp, proposer);
      SyncedFrame(view, p.state, Seal(m, parent, p, batches, timestamp, proposer).value.state);
    }
  }

  /** In every state the projection agrees with the registry in, the proposer and the validator can
      fail for many reasons, but never because a creation the registry accepted cannot be inserted;
      and a validated block leaves both in agreement. */
  lemma CreationsNeverRefused(m: Machine, view: View, parent: ChainState, block: ConsensusBlock)
    requires Faithful(m, view) && m.knownRevision(1) && Tree(parent) && RootSynced(view, parent)
    ensures var r := Validate(m, parent, block);
            if r.Ok? then Tree(r.value.state) && RootSynced(view, r.value.state) else !CreationRefused(r.error)
  {
    hide Tree, Faithful, Execute, BatchesOrdered, RootSynced, CompareCandidate;
    if BatchesOrdered(block.batches) {
      var run := Execute(m, parent, block.batches, block.header.timestamp, block.header.proposer);
      BlockSynced(m, view, parent, block.batches, block.header.timestamp, block.header.proposer);
      if run.Ok? {
        CompareErrors(block, run.value.block);
      }
    }
    if Validate(m, parent, block).Ok? {
      BlockKeepsTree(m, parent, block);
    }
  }

  lemma SealErrors(m: Machine, parent: ChainState, p: Progress, batches: seq<DomainBatch>, timestamp: u64,
                   proposer: Address)
    requires parent.height < U64_MAX && |batches| <= MAX_BATCHES_PER_BLOCK && |p.blocks| == |batches|
    requires Seal(m, parent, p, batches, timestamp, proposer).Err?
    ensures !CreationRefused(Seal(m, parent, p, batches, timestamp, proposer).error)
  {
    hide HeadsRoot, EncodeBlock;
    if EncodedBatches(batches).Err? {
      BatchErrors(batches);
    }
  }

  lemma {:induction false} BatchErrors(batches: seq<DomainBatch>)
    requires EncodedBatches(batches).Err?
    ensures !CreationRefused(EncodedBatches(batches).error)
  {
    if batches != [] && EncodedBatches(batches[..|batches| - 1]).Err? {
      BatchErrors(batches[..|batches| - 1]);
    }
  }

  lemma {:induction false} ResultErrors(actual: seq<DomainHeader>, expected: seq<DomainHeader>)
    ensures CompareResults(actual, expected).Some? ==> !CreationRefused(CompareResults(actual, expected).value)
  {
    if actual != [] && expected != [] {
      ResultErrors(actual[1..], expected[1..]);
    }
  }

  lemma CompareErrors(actual: ConsensusBlock, expected: ConsensusBlock)
    ensures CompareCandidate(actual, expected).Some? ==> !CreationRefused(CompareCandidate(actual, expected).value)
  {
    ResultErrors(actual.domainBlocks, expected.domainBlocks);
  }

  lemma SyncedFrame(view: View, a: ChainState, b: ChainState)
    requires RootSynced(view, a) && b.domains == a.domains && b.rootDomainId == a.rootDomainId
    ensures RootSynced(view, b)
  {
    hide NamesIn;
    assert forall c: u64 :: ChainIdTaken(b, c) == ChainIdTaken(a, c);
  }

  /** The genesis registry names exactly the root domain and its chain ID. */
  lemma GenesisSynced(view: View, st: ChainState, marker: B256)
    requires IsGenesis(st) && Word(marker) != 0 && Word(st.rootDomainId) != 0
    requires view(st.domains[st.rootDomainId].state).storage
          == map[DescriptorSlot(st.rootDomainId) := Word(marker),
                 ChainIdSlot(st.domains[st.rootDomainId].config.chainId) := Word(st.rootDomainId)]
    ensures RootSynced(view, st)
  {
    hide Word;
    var root := st.domains[st.rootDomainId];
    assert forall c: u64 :: ChainIdTaken(st, c) <==> c == root.config.chainId;
  }

  /** Over every run of committed blocks from genesis the registry and its projection agree. */
  lemma {:induction false} ReachableSynced(m: Machine, view: View, genesis: ChainState, blocks: seq<ConsensusBlock>)
    requires Faithful(m, view) && m.knownRevision(1) && IsGenesis(genesis) && RootSynced(view, genesis)
    requires Committed(m, genesis, blocks).Ok?
    ensures RootSynced(view, Committed(m, genesis, blocks).value)
  {
    hide Tree, Validate, Faithful, RootSynced;
    if blocks != [] {
      ReachableSynced(m, view, genesis, blocks[..|blocks| - 1]);
      ReachableIsTree(m, genesis, blocks[..|blocks| - 1]);
      CreationsNeverRefused(m, view, Committed(m, genesis, blocks[..|blocks| - 1]).value, blocks[|blocks| - 1]);
    }
  }
}
