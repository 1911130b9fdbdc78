/** Executing one domain batch: the loop over its transactions around one opaque EVM transaction. */
module Executor {
  import opened Wrappers
  import opened Bytes
  import opened Hashing
  import opened Canonical
  import opened TrieBuild
  import opened TrieCommit
  import opened Recovery
  import opened Chain
  import opened Registry
  import opened RegistrySync
  import BlockBody
  import DomainTree
  import opened Layout
  import ChainAgreement
  import CheckpointCodec
  import CollectionRoots

  /** A decoded type-2 envelope; what the executor does not look at is kept as bytes. */
  datatype Tx = Tx(chainId: u64, to: Option<Address>, value: u256, input: Bytes, rest: Bytes)

  /** What the registry precompile is given for one transaction. */
  datatype Runtime = Runtime(
    rootDomainId: B256, executingDomainId: B256, height: u64, governance: Address, prepared: Option<Prepared>)

  datatype TxJob = TxJob(revision: u32, env: Env, state: ExecutionState, tx: Tx, sender: Address, runtime: Runtime)

  datatype TxOutcome = TxOutcome(success: bool, gasUsed: u64, logs: Bytes, state: ExecutionState)

  /** One EVM transaction, and the codecs around it. */
  datatype Evm = Evm(
    decode: Bytes -> Option<Tx>,
    recover: Tx -> Option<Address>,
    hash: Tx -> Option<B256>,
    transact: TxJob -> Option<TxOutcome>,
    isCreate: Bytes -> bool,
    decodeCreate: Bytes -> Option<Request>,
    normalizeName: Bytes -> Option<Bytes>,
    normalizeSymbol: Bytes -> Option<Bytes>,
    encodeAccount: u256 -> Value,
    balanceOf: Bytes -> nat,
    bloomOf: Bytes -> Bloom,
    accrue: (Bloom, Bloom) -> Bloom,
    encodeReceipt: (bool, u64, Bytes) -> Option<Bytes>,
    orderedRoot: seq<Bytes> -> B256)

  // ----- preparing a creation -----

  /** `ExecutionState::from_genesis` on one allocation; an empty account leaves no leaf. */
  function Funded(k: Keccak, evm: Evm, owner: Address, supply: u256): ExecutionState {
    var leaves: Leaves := if supply == 0 then map[] else map[k(owner) := evm.encodeAccount(supply)];
    ExecutionState(TrieSnapshot(RootHash(k, leaves), BuiltNodes(k, leaves), leaves), map[])
  }

  datatype Preparation = Preparation(prepared: Prepared, genesisState: ExecutionState)

  function Normalized(evm: Evm, r: Request): Option<Request> {
    var name, symbol := evm.normalizeName(r.name), evm.normalizeSymbol(r.symbol);
    if name.None? || symbol.None? then None else Some(r.(name := name.value, symbol := symbol.value))
  }

  /** `prepare_registry_creation`: only for the root's own calls to the registry that decode as a
      creation under a finalized parent. */
  function PrepareCreation(m: Machine, evm: Evm, ctx: Context, tx: Tx, txHash: B256): Option<Preparation> {
    if ctx.executingDomainId != ctx.rootDomainId || tx.to != Some(REGISTRY) then
      None
    else
      match evm.decodeCreate(tx.input)
      case None => None
      case Some(request) =>
        if request.parentDomainId !in ctx.finalizedHeads then
          None
        else
          var genesis := Funded(m.k, evm, request.owner, request.initialSupply);
          match Normalized(evm, request)
          case None => None
          case Some(r) =>
            var p := Prepare(m, r, ctx.networkId, txHash, ctx.finalizedHeads[request.parentDomainId],
                             genesis.snapshot.root, tx.value, ctx.creationHeight);
            if p.None? then None else Some(Preparation(p.value, genesis))
  }

  function RuntimeFor(ctx: Context, preparation: Option<Preparation>): Runtime {
    Runtime(ctx.rootDomainId, ctx.executingDomainId, ctx.creationHeight, ctx.governance,
            if preparation.Some? then Some(preparation.value.prepared) else None)
  }

  // ----- one batch -----

  datatype Running = Running(
    state: ExecutionState, gas: u64, bloom: Bloom, hashes: seq<B256>, receipts: seq<Bytes>, created: seq<CreatedDomain>)

  /** `checked_cumulative_gas`. */
  function CumulativeGas(current: u64, used: u64, limit: u64): Option<u64> {
    if current + used > U64_MAX || current + used > limit then None else Some(current + used)
  }

  /** Whether a successful transaction reports a created domain. */
  predicate Reports(evm: Evm, tx: Tx, out: TxOutcome, preparation: Option<Preparation>) {
    out.success && tx.to == Some(REGISTRY) && evm.isCreate(tx.input) && preparation.Some?
  }

  /** One transaction of the batch; checks in the order they are made. */
  function ExecuteOne(m: Machine, evm: Evm, job: Job, s: Running, envelope: Bytes): Result<Running, ExecutorError> {
    match evm.decode(envelope)
    case None => Err(ExecutorError("envelope"))
    case Some(tx) =>
      if tx.chainId != job.env.chainId then
        Err(ExecutorError("chain ID"))
      else
        var sender, hash := evm.recover(tx), evm.hash(tx);
        if sender.None? || hash.None? then
          Err(ExecutorError("envelope"))
        else
          var preparation := PrepareCreation(m, evm, job.context, tx, hash.value);
          match evm.transact(TxJob(job.revision, job.env, s.state, tx, sender.value,
              RuntimeFor(job.context, preparation)))
          case None => Err(ExecutorError("transaction"))
          case Some(out) =>
            match CumulativeGas(s.gas, out.gasUsed, job.env.gasLimit)
            case None => Err(ExecutorError("block gas"))
            case Some(gas) =>
              match evm.encodeReceipt(out.success, gas, out.logs)
              case None => Err(ExecutorError("receipt"))
              case Some(receipt) =>
                Ok(Running(out.state, gas, evm.accrue(s.bloom, evm.bloomOf(out.logs)), s.hashes + [hash.value],
                           s.receipts + [receipt],
                           s.created + if Reports(evm, tx, out, preparation)
                                       then [CreatedDomain(preparation.value.prepared.descriptor,
                                           preparation.value.genesisState)] else []))
  }

  function ExecuteSome(m: Machine, evm: Evm, job: Job, n: nat): Result<Running, ExecutorError>
    requires n <= |job.transactions|
  {
    if n == 0 then
      Ok(Running(job.state, 0, ZeroBloom(), [], [], []))
    else
      var before :- ExecuteSome(m, evm, job, n - 1);
      ExecuteOne(m, evm, job, before, job.transactions[n - 1])
  }

  function Outcome(evm: Evm, job: Job, s: Running): Execution {
    Execution.Execution(s.state, evm.orderedRoot(job.transactions), evm.orderedRoot(s.receipts), s.bloom, s.gas,
        s.hashes, s.receipts, s.created)
  }

  /** `execute_batch_with_registry`. */
  function RunBatch(m: Machine, evm: Evm, job: Job): Result<Execution, ExecutorError> {
    if |job.transactions| > MAX_TRANSACTIONS_PER_BATCH then
      Err(ExecutorError("too many transactions"))
    else
      var s :- ExecuteSome(m, evm, job, |job.transactions|);
      Ok(Outcome(evm, job, s))
  }

  /** The batch loop with its state, gas and growing lists. */
  method ExecuteBatch(m: Machine, evm: Evm, job: Job) returns (r: Result<Execution, ExecutorError>)
    ensures r == RunBatch(m, evm, job)
  {
    hide ExecuteOne;
    if |job.transactions| > MAX_TRANSACTIONS_PER_BATCH {
      return Err(ExecutorError("too many transactions"));
    }
    var s := Running(job.state, 0, ZeroBloom(), [], [], []);
    for i := 0 to |job.transactions|
      invariant ExecuteSome(m, evm, job, i) == Ok(s)
    {
      var next := ExecuteOne(m, evm, job, s, job.transactions[i]);
      if next.Err? {
        StopsAt(m, evm, job, i + 1, |job.transactions|);
        return Err(next.error);
      }
      s := next.value;
    }
    return Ok(Outcome(evm, job, s));
  }

  lemma {:induction false} StopsAt(m: Machine, evm: Evm, job: Job, n: nat, end: nat)
    requires n <= end <= |job.transactions| && ExecuteSome(m, evm, job, n).Err?
    ensures ExecuteSome(m, evm, job, end) == ExecuteSome(m, evm, job, n)
  {
    hide ExecuteOne;
    if n < end {
      StopsAt(m, evm, job, n, end - 1);
    }
  }

  /** A batch never uses more than its domain's gas limit, and has one hash and one receipt per transaction. */
  lemma {:induction false} BatchWithinGas(m: Machine, evm: Evm, job: Job, n: nat)
    requires n <= |job.transactions| && ExecuteSome(m, evm, job, n).Ok?
    ensures var s := ExecuteSome(m, evm, job, n).value;
            && (n > 0 ==> s.gas <= job.env.gasLimit) && |s.hashes| == |s.receipts| == n && |s.created| <= n
  {
    hide PrepareCreation, RuntimeFor;
    if n > 0 {
      BatchWithinGas(m, evm, job, n - 1);
    }
  }

  // ----- what is assumed of one transaction -----

  /** Every creation attempted inside carries this preparation. */
  ghost predicate Carries(op: Op, prepared: Option<Prepared>)
    decreases op
  {
    match op
    case Create(_, p) => p == prepared
    case Settle(_, _, _, _) => true
    case Credit(_) => true
    case Frame(ops, _) => forall i | 0 <= i < |ops| :: Carries(ops[i], prepared)
  }

  /** The registry account changed by these registry calls and credits; a prepared creation stands
      exactly when the transaction that prepared it succeeded. */
  ghost predicate TxExplained(view: View, j: TxJob, out: TxOutcome, ops: seq<Op>) {
    var l := Steps(Ledger(view(j.state), [], []), ops, |ops|, j.runtime.governance);
    && (forall i | 0 <= i < |ops| :: Carries(ops[i], j.runtime.prepared))
    && view(out.state) == l.vault
    && (j.runtime.prepared.Some? ==> l.created == if out.success then [j.runtime.prepared.value] else [])
  }

  /** The runtime is the one the batch loop makes for this transaction of the root domain. */
  ghost predicate RootJob(m: Machine, evm: Evm, ctx: Context, j: TxJob) {
    && ctx.executingDomainId == ctx.rootDomainId && evm.hash(j.tx).Some?
    && j.runtime == RuntimeFor(ctx, PrepareCreation(m, evm, ctx, j.tx, evm.hash(j.tx).value))
  }

  /** The hypothesis on one EVM transaction of the root domain. */
  ghost predicate TxFaithful(m: Machine, evm: Evm, view: View) {
    forall ctx: Context, j: TxJob | RootJob(m, evm, ctx, j) && evm.transact(j).Some? ::
      exists ops :: TxExplained(view, j, evm.transact(j).value, ops)
  }

  /** Accounts are read through their leaf, and a creation call starts with its selector. */
  ghost predicate CodecsAgree(m: Machine, evm: Evm) {
    && (forall s: ExecutionState, a: Address ::
          m.balance(s, a) == if m.k(a) in s.snapshot.leaves then evm.balanceOf(s.snapshot.leaves[m.k(a)]) else 0)
    && (forall n: u256 :: evm.balanceOf(evm.encodeAccount(n)) == n)
    && (forall b: Bytes :: evm.decodeCreate(b).Some? ==> evm.isCreate(b))
  }

  /** No prepared creation has a zero hash or identifier. */
  ghost predicate HashesNonZero(m: Machine) {
    forall r: Request, network: B256, txHash: B256, joint: B256, root: B256, deposit: u256, height: u64 |
      Prepare(m, r, network, txHash, joint, root, deposit, height).Some? ::
      NonZero(Prepare(m, r, network, txHash, joint, root, deposit, height).value)
  }

  ghost predicate Runs(m: Machine, evm: Evm) {
    forall job: Job :: m.run(job) == RunBatch(m, evm, job)
  }

  // ----- every creation is derived -----

  lemma FundsOwner(m: Machine, evm: Evm, owner: Address, supply: u256)
    requires CodecsAgree(m, evm)
    ensures m.balance(Funded(m.k, evm, owner, supply), owner) == supply
  {
    hide RootHash, BuiltNodes;
  }

  /** What is prepared for a transaction is what the projection will accept. */
  lemma PreparedDerives(m: Machine, evm: Evm, ctx: Context, tx: Tx, txHash: B256)
    requires CodecsAgree(m, evm) && HashesNonZero(m) && PrepareCreation(m, evm, ctx, tx, txHash).Some?
    ensures var p := PrepareCreation(m, evm, ctx, tx, txHash).value;
            && Derived(m, ctx, p.prepared, CreatedDomain(p.prepared.descriptor, p.genesisState))
            && NonZero(p.prepared) && tx.to == Some(REGISTRY) && evm.isCreate(tx.input)
            && ctx.executingDomainId == ctx.rootDomainId
  {
    hide RootHash, BuiltNodes, DeriveDomainId, Word;
    var request := evm.decodeCreate(tx.input).value;
    var genesis := Funded(m.k, evm, request.owner, request.initialSupply);
    var r := Normalized(evm, request).value;
    var joint := ctx.finalizedHeads[request.parentDomainId];
    assert Prepare(m, r, ctx.networkId, txHash, joint, genesis.snapshot.root, tx.value, ctx.creationHeight).Some?;
    FundsOwner(m, evm, request.owner, request.initialSupply);
  }

  // ----- ledgers -----

  ghost function Onto(l: Ledger, r: Ledger): Ledger {
    Ledger(r.vault, l.created + r.created, l.payouts + r.payouts)
  }

  /** What a step does to the vault and adds to the lists does not depend on what the lists hold. */
  lemma {:induction false} StepOnto(l: Ledger, op: Op, governance: Address)
    ensures Step(l, op, governance) == Onto(l, Step(Ledger(l.vault, [], []), op, governance))
    decreases op, 0
  {
    hide RunCreate, RunDeposit;
    assert l.created + [] == l.created && l.payouts + [] == l.payouts;
    match op
    case Create(_, _) =>
    case Settle(_, _, _, _) =>
    case Credit(_) =>
    case Frame(ops, reverted) =>
      if !reverted {
        StepsOnto(l, ops, |ops|, governance);
      }
  }

  lemma {:induction false} StepsOnto(l: Ledger, ops: seq<Op>, n: nat, governance: Address)
    requires n <= |ops|
    ensures Steps(l, ops, n, governance) == Onto(l, Steps(Ledger(l.vault, [], []), ops, n, governance))
    decreases ops, n
  {
    hide Step;
    var bare := Ledger(l.vault, [], []);
    if n == 0 {
      assert l.created + [] == l.created && l.payouts + [] == l.payouts;
    } else {
      StepsOnto(l, ops, n - 1, governance);
      var a, b := Steps(l, ops, n - 1, governance), Steps(bare, ops, n - 1, governance);
      StepOnto(a, ops[n - 1], governance);
      StepOnto(b, ops[n - 1], governance);
      var r := Step(Ledger(b.vault, [], []), ops[n - 1], governance);
      assert l.created + (b.created + r.created) == (l.created + b.created) + r.created;
      assert l.payouts + (b.payouts + r.payouts) == (l.payouts + b.payouts) + r.payouts;
    }
  }

  lemma {:induction false} NothingPrepared(l: Ledger, op: Op, governance: Address)
    requires Carries(op, None)
    ensures Step(l, op, governance).created == l.created
    decreases op, 0
  {
    match op
    case Create(_, _) =>
    case Settle(_, _, _, _) =>
    case Credit(_) =>
    case Frame(ops, reverted) =>
      if !reverted {
        NoneCreated(l, ops, |ops|, governance);
      }
  }

  lemma {:induction false} NoneCreated(l: Ledger, ops: seq<Op>, n: nat, governance: Address)
    requires n <= |ops| && forall i | 0 <= i < |ops| :: Carries(ops[i], None)
    ensures Steps(l, ops, n, governance).created == l.created
    decreases ops, n
  {
    hide Step;
    if n > 0 {
      NoneCreated(l, ops, n - 1, governance);
      NothingPrepared(Steps(l, ops, n - 1, governance), ops[n - 1], governance);
    }
  }

  lemma {:induction false} CarriesNonZero(op: Op, prepared: Option<Prepared>)
    requires Carries(op, prepared) && (prepared.Some? ==> NonZero(prepared.value))
    ensures NonZeroOps(op)
    decreases op
  {
    if op.Frame? {
      forall i | 0 <= i < |op.ops|
        ensures NonZeroOps(op.ops[i])
      {
        CarriesNonZero(op.ops[i], prepared);
      }
    }
  }

  // ----- the batch as registry steps -----

  /** These steps lead from the batch's parent state to where it stands, creation by creation. */
  ghost predicate Explains(m: Machine, view: View, job: Job, s: Running, ops: seq<Op>) {
    var l := Steps(Ledger(view(job.state), [], []), ops, |ops|, job.context.governance);
    && (forall i | 0 <= i < |ops| :: NonZeroOps(ops[i]))
    && view(s.state) == l.vault
    && |l.created| == |s.created|
    && forall i | 0 <= i < |l.created| :: Derived(m, job.context, l.created[i], s.created[i])
  }

  /** One transaction of the root adds one frame of registry steps, and what it reports is what stands. */
  lemma OneExplained(m: Machine, evm: Evm, view: View, job: Job, s: Running, envelope: Bytes)
    returns (frame: Op, made: seq<Prepared>)
    requires TxFaithful(m, evm, view) && CodecsAgree(m, evm) && HashesNonZero(m)
    requires job.context.executingDomainId == job.context.rootDomainId && ExecuteOne(m, evm, job, s, envelope).Ok?
    ensures var next := ExecuteOne(m, evm, job, s, envelope).value;
            var l := Step(Ledger(view(s.state), [], []), frame, job.context.governance);
            && NonZeroOps(frame) && view(next.state) == l.vault && l.created == made
            && |next.created| == |s.created| + |made| && s.created <= next.created
            && forall i | 0 <= i < |made| :: Derived(m, job.context, made[i], next.created[|s.created| + i])
  {
    hide PrepareCreation, NonZero, Derived, Steps, Carries;
    var tx := evm.decode(envelope).value;
    var sender, hash := evm.recover(tx).value, evm.hash(tx).value;
    var preparation := PrepareCreation(m, evm, job.context, tx, hash);
    var j := TxJob(job.revision, job.env, s.state, tx, sender, RuntimeFor(job.context, preparation));
    var out := evm.transact(j).value;
    assert RootJob(m, evm, job.context, j);
    var ops :| TxExplained(view, j, out, ops);
    frame := Frame(ops, false);
    if preparation.Some? {
      PreparedDerives(m, evm, job.context, tx, hash);
      made := if out.success then [preparation.value.prepared] else [];
    } else {
      NoneCreated(Ledger(view(s.state), [], []), ops, |ops|, job.context.governance);
      made := [];
    }
    FrameCarries(ops, j.runtime.prepared);
    CarriesNonZero(frame, j.runtime.prepared);
  }

  lemma FrameCarries(ops: seq<Op>, prepared: Option<Prepared>)
    requires forall i | 0 <= i < |ops| :: Carries(ops[i], prepared)
    ensures Carries(Frame(ops, false), prepared)
  {
  }

  lemma {:induction false} BatchExplained(m: Machine, evm: Evm, view: View, job: Job, n: nat) returns (ops: seq<Op>)
    requires TxFaithful(m, evm, view) && CodecsAgree(m, evm) && HashesNonZero(m)
    requires job.context.executingDomainId == job.context.rootDomainId
    requires n <= |job.transactions| && ExecuteSome(m, evm, job, n).Ok?
    ensures Explains(m, view, job, ExecuteSome(m, evm, job, n).value, ops)
  {
    hide ExecuteOne, TxFaithful, CodecsAgree, HashesNonZero, Derived, Step, NonZeroOps;
    if n == 0 {
      ops := [];
    } else {
      var before := BatchExplained(m, evm, view, job, n - 1);
      var s := ExecuteSome(m, evm, job, n - 1).value;
      var frame, made := OneExplained(m, evm, view, job, s, job.transactions[n - 1]);
      ops := before + [frame];
      ExplainedMore(m, view, job, s, ExecuteSome(m, evm, job, n).value, before, frame, made);
    }
  }

  lemma ExplainedMore(m: Machine, view: View, job: Job, s: Running, next: Running, before: seq<Op>, frame: Op,
                      made: seq<Prepared>)
    requires Explains(m, view, job, s, before)
    requires var l := Step(Ledger(view(s.state), [], []), frame, job.context.governance);
             NonZeroOps(frame) && view(next.state) == l.vault && l.created == made
    requires |next.created| == |s.created| + |made| && s.created <= next.created
    requires forall i | 0 <= i < |made| :: Derived(m, job.context, made[i], next.created[|s.created| + i])
    ensures Explains(m, view, job, next, before + [frame])
  {
    hide Derived, Step, NonZeroOps;
    var ops := before + [frame];
    var start, g := Ledger(view(job.state), [], []), job.context.governance;
    StepsPrefix(start, before, frame, |before|, g);
    var prior := Steps(start, before, |before|, g);
    StepOnto(prior, frame, g);
    var l := Steps(start, ops, |ops|, g);
    assert l == Step(prior, frame, g);
    forall i | 0 <= i < |l.created|
      ensures Derived(m, job.context, l.created[i], next.created[i])
    {
      if i >= |prior.created| {
        assert l.created[i] == made[i - |prior.created|];
        assert next.created[i] == next.created[|s.created| + (i - |prior.created|)];
      } else {
        assert l.created[i] == prior.created[i] && next.created[i] == s.created[i];
      }
    }
  }

  lemma {:induction false} StepsPrefix(l: Ledger, ops: seq<Op>, last: Op, n: nat, governance: Address)
    requires n <= |ops|
    ensures Steps(l, ops + [last], n, governance) == Steps(l, ops, n, governance)
  {
    hide Step;
    if n > 0 {
      StepsPrefix(l, ops, last, n - 1, governance);
      assert (ops + [last])[n - 1] == ops[n - 1];
    }
  }

  /** Outside the root nothing is prepared, so nothing is reported. */
  lemma {:induction false} NothingReported(m: Machine, evm: Evm, job: Job, n: nat)
    requires job.context.executingDomainId != job.context.rootDomainId
    requires n <= |job.transactions| && ExecuteSome(m, evm, job, n).Ok?
    ensures ExecuteSome(m, evm, job, n).value.created == []
  {
    if n > 0 {
      NothingReported(m, evm, job, n - 1);
    }
  }

  /** The executor does what the projection relies on: assumptions about one transaction, its codecs and
      non-zero hashes give everything that is assumed about whole batches. */
  lemma ExecutorIsFaithful(m: Machine, evm: Evm, view: View)
    requires Runs(m, evm) && TxFaithful(m, evm, view) && CodecsAgree(m, evm) && HashesNonZero(m)
    ensures Faithful(m, view)
  {
    hide ExecuteSome, TxFaithful, CodecsAgree, HashesNonZero, Derived, Steps, NonZeroOps;
    forall job: Job | m.run(job).Ok?
      ensures if job.context.executingDomainId != job.context.rootDomainId then m.run(job).value.created == []
              else exists ops :: ExplainedBy(m, view, job, m.run(job).value, ops)
    {
      assert m.run(job) == RunBatch(m, evm, job);
      var n := |job.transactions|;
      if job.context.executingDomainId != job.context.rootDomainId {
        NothingReported(m, evm, job, n);
      } else {
        var ops := BatchExplained(m, evm, view, job, n);
        assert ExplainedBy(m, view, job, m.run(job).value, ops);
      }
    }
  }

  /** So, from genesis, over every run of committed blocks, storage and projection name the same domains. */
  lemma ExecutedSynced(m: Machine, evm: Evm, view: View, genesis: ChainState, blocks: seq<BlockBody.ConsensusBlock>)
    requires Runs(m, evm) && TxFaithful(m, evm, view) && CodecsAgree(m, evm) && HashesNonZero(m)
    requires m.knownRevision(1) && DomainTree.IsGenesis(genesis) && RootSynced(view, genesis)
    requires DomainTree.Committed(m, genesis, blocks).Ok?
    ensures RootSynced(view, DomainTree.Committed(m, genesis, blocks).value)
  {
    hide Runs, TxFaithful, CodecsAgree, HashesNonZero, Faithful, RootSynced;
    ExecutorIsFaithful(m, evm, view);
    ReachableSynced(m, view, genesis, blocks);
  }

  // ===== a machine that meets every hypothesis, and a block of its own that creates a domain =====

  function Root(): B256 {
    seq(32, _ => 2)
  }

  function Hash(): B256 {
    seq(32, _ => 1)
  }

  function Owner(): Address {
    seq(20, _ => 3)
  }

  /** A hash function with one value: domain identifiers and hashes are all `Hash`. */
  function OneHash(bytes: Bytes): B256 {
    Hash()
  }

  function Wanted(): Request {
    Request(Root(), [], [], 2, Owner(), 1_000_000, 0, 5, 1)
  }

  const CREATION: Tx := Tx(1, Some(REGISTRY), MIN_CREATION_DEPOSIT, [], [])

  function Decoded(envelope: Bytes): Option<Tx> {
    Some(CREATION)
  }

  /** Thirty-two bytes of balance. */
  function Account(balance: u256): Value {
    CheckpointCodec.PutU256(balance)
  }

  function Balance(account: Bytes): nat {
    FromBigEndian(account)
  }

  function BalanceIn(s: ExecutionState, a: Address): nat {
    if OneHash(a) in s.snapshot.leaves then Balance(s.snapshot.leaves[OneHash(a)]) else 0
  }

  // ----- the registry account, before and after the one creation -----

  function GenesisVault(): Vault {
    Vault(map[DescriptorSlot(Root()) := Word(Hash()), ChainIdSlot(1) := Word(Root())], 0)
  }

  /** Everything of the machine but how it runs batches. */
  function Bare(): Machine {
    Machine(OneHash, job => Err(ExecutorError("none")), revision => true, BalanceIn, genesis => Hash(),
            descriptor => Hash(), Hash())
  }

  /** What is prepared for the creation in the first block. */
  function First(): Prepared {
    Prepared(DescriptorFor(Bare(), Wanted(), Hash(), Hash(), Hash(), Hash(), MIN_CREATION_DEPOSIT), Hash(), 1, 101)
  }

  function CreatedVault(): Vault {
    Vault(Write(GenesisVault().storage, CreationWrites(First())), MIN_CREATION_DEPOSIT)
  }

  /** The registry account of a state: a body under `Hash` marks that the creation was made. */
  function Registered(s: ExecutionState): Vault {
    if Hash() in s.code then CreatedVault() else GenesisVault()
  }

  /** One transaction: the prepared creation succeeds once, everything else fails and changes nothing. */
  function Transact(j: TxJob): Option<TxOutcome> {
    if j.runtime.prepared == Some(First()) && Hash() !in j.state.code then
      Some(TxOutcome(true, 21_000, [], j.state.(code := j.state.code[Hash() := []])))
    else
      Some(TxOutcome(false, 21_000, [], j.state))
  }

  function OneEvm(): Evm {
    Evm(Decoded, tx => Some(Owner()), tx => Some(Hash()), Transact, input => true, input => Some(Wanted()),
        name => Some(name), symbol => Some(symbol), Account, Balance, logs => ZeroBloom(), (a, b) => ZeroBloom(),
        (success, gas, logs) => Some([]), items => Hash())
  }

  function OneMachine(): Machine {
    Bare().(run := job => RunBatch(Bare(), OneEvm(), job))
  }

  // ----- the hypotheses hold -----

  /** Executing a batch looks at the hash functions of the machine only. */
  lemma SamePreparation(evm: Evm, ctx: Context, tx: Tx, txHash: B256)
    ensures PrepareCreation(OneMachine(), evm, ctx, tx, txHash) == PrepareCreation(Bare(), evm, ctx, tx, txHash)
  {
    hide RunBatch, Funded, BalanceIn;
  }

  lemma SameStep(evm: Evm, job: Job, s: Running, envelope: Bytes)
    ensures ExecuteOne(OneMachine(), evm, job, s, envelope) == ExecuteOne(Bare(), evm, job, s, envelope)
  {
    hide PrepareCreation, OneMachine, Bare;
    if evm.decode(envelope).Some? && evm.hash(evm.decode(envelope).value).Some? {
      var tx := evm.decode(envelope).value;
      SamePreparation(evm, job.context, tx, evm.hash(tx).value);
    }
  }

  lemma {:induction false} SameHashing(evm: Evm, job: Job, n: nat)
    requires n <= |job.transactions|
    ensures ExecuteSome(OneMachine(), evm, job, n) == ExecuteSome(Bare(), evm, job, n)
  {
    hide ExecuteOne, OneMachine, Bare;
    if n > 0 {
      SameHashing(evm, job, n - 1);
      if ExecuteSome(Bare(), evm, job, n - 1).Ok? {
        SameStep(evm, job, ExecuteSome(Bare(), evm, job, n - 1).value, job.transactions[n - 1]);
      }
    }
  }

  lemma MachineRuns()
    ensures Runs(OneMachine(), OneEvm())
  {
    forall job: Job
      ensures OneMachine().run(job) == RunBatch(OneMachine(), OneEvm(), job)
    {
      SameHashing(OneEvm(), job, |job.transactions|);
    }
  }

  lemma CodecsMeet()
    ensures CodecsAgree(OneMachine(), OneEvm())
  {
    forall n: u256
      ensures Balance(Account(n)) == n
    {
      CheckpointCodec.Pow32();
      DecodeBigEndian(n, 32);
    }
  }

  lemma WordsNonZero()
    ensures Word(Hash()) != 0 && Word(Root()) != 0
  {
  }

  lemma HashesMeet()
    ensures HashesNonZero(OneMachine())
  {
    WordsNonZero();
  }

  lemma CreationRuns()
    ensures RunCreate(GenesisVault().(balance := MIN_CREATION_DEPOSIT),
                      Call(Owner(), false, MIN_CREATION_DEPOSIT, true), Some(First())) == Some(CreatedVault())
  {
    hide Write, CreationWrites;
    assert Word(Hash()) != 0;
    assert Root()[0] != Hash()[0];
  }

  lemma TransactExplained(ctx: Context, j: TxJob)
    requires RootJob(OneMachine(), OneEvm(), ctx, j)
    ensures exists ops :: TxExplained(Registered, j, Transact(j).value, ops)
  {
    hide RunCreate, Write, CreationWrites, GenesisVault, CreatedVault, First, PrepareCreation;
    var start := Ledger(Registered(j.state), [], []);
    if j.runtime.prepared == Some(First()) && Hash() !in j.state.code {
      var op := Create(Call(Owner(), false, MIN_CREATION_DEPOSIT, true), Some(First()));
      CreationRuns();
      GenesisEmpty();
      assert Steps(start, [op], 0, ctx.governance) == start;
      assert Steps(start, [op], 1, ctx.governance) == Step(start, op, ctx.governance);
      assert TxExplained(Registered, j, Transact(j).value, [op]);
    } else {
      assert TxExplained(Registered, j, Transact(j).value, []);
    }
  }

  lemma GenesisEmpty()
    ensures GenesisVault().balance == 0
  {
  }

  /** All four hypotheses hold of one machine. */
  lemma HypothesesHold()
    ensures Runs(OneMachine(), OneEvm()) && TxFaithful(OneMachine(), OneEvm(), Registered)
    ensures CodecsAgree(OneMachine(), OneEvm()) && HashesNonZero(OneMachine()) && OneMachine().knownRevision(1)
  {
    hide Runs, CodecsAgree, HashesNonZero, TxExplained, RootJob;
    MachineRuns();
    CodecsMeet();
    HashesMeet();
    forall ctx: Context, j: TxJob | RootJob(OneMachine(), OneEvm(), ctx, j) && OneEvm().transact(j).Some?
      ensures exists ops :: TxExplained(Registered, j, OneEvm().transact(j).value, ops)
    {
      TransactExplained(ctx, j);
    }
  }

  // ----- a block that creates a domain -----

  function GenesisState(): ExecutionState {
    ExecutionState(TrieSnapshot(Hash(), map[], map[]), map[])
  }

  function RootDomain(): FinalizedDomain {
    FinalizedDomain(DomainConfig(1, 1, 30_000_000, 0),
                    DomainHeader(PROTOCOL_VERSION, Root(), 0, ZeroHash(), 0, Hash(), Hash(), Hash(), ZeroBloom(),
                                 30_000_000, 0, 0),
                    Hash(), GenesisState())
  }

  function GenesisChain(): ChainState {
    ChainState(Hash(), 0, Hash(), 0, Hash(), Hash(), Root(), Owner(), map[Root() := RootDomain()], map[])
  }

  function Creating(): DomainBatch {
    DomainBatch(Root(), Hash(), [[]])
  }

  lemma GenesisAgrees()
    ensures DomainTree.IsGenesis(GenesisChain()) && RootSynced(Registered, GenesisChain())
  {
    hide Word, CreatedVault;
    WordsNonZero();
    GenesisSynced(Registered, GenesisChain(), Hash());
  }

  function FirstContext(): Context {
    Context(Hash(), Root(), Root(), 1, Owner(), map[Root() := Hash()])
  }

  lemma FirstPrepared()
    ensures ContextFor(GenesisChain(), Root(), 1) == FirstContext()
    ensures PrepareCreation(Bare(), OneEvm(), FirstContext(), CREATION, Hash())
         == Some(Preparation(First(), Funded(OneHash, OneEvm(), Owner(), 5)))
  {
    hide BuiltNodes, RootHash;
    assert Root()[0] != ZeroHash()[0] && Owner()[0] != ZeroAddress()[0];
  }

  /** The batch runs, and reports exactly the creation. */
  lemma BatchCreates(job: Job)
    requires job.context == FirstContext() && job.transactions == [[]] && job.state == GenesisState()
    requires job.env.chainId == 1 && job.env.gasLimit == 30_000_000
    ensures var r := OneMachine().run(job);
            && r.Ok? && r.value.gasUsed == 21_000
            && r.value.created == [CreatedDomain(First().descriptor, Funded(OneHash, OneEvm(), Owner(), 5))]
  {
    hide PrepareCreation, Funded, First;
    FirstPrepared();
    var start := Running(GenesisState(), 0, ZeroBloom(), [], [], []);
    assert ExecuteSome(Bare(), OneEvm(), job, 0) == Ok(start);
    assert ExecuteSome(Bare(), OneEvm(), job, 1) == ExecuteOne(Bare(), OneEvm(), job, start, []);
  }

  lemma BatchEncodes(b: DomainBatch)
    requires b.transactions == [[]]
    ensures EncodeDomainBatch(b).Ok? && |EncodeDomainBatch(b).value| <= 300
  {
    hide Flatten, PutU32;
    FlattenBound([b.domainId, b.parentHash, PutU32(1)], 32);
    assert PutAll(b.transactions[1..]) == [];
  }

  /** A block of one such batch always encodes. */
  lemma BlockEncodes(block: BlockBody.ConsensusBlock, b: DomainBatch, h: DomainHeader)
    requires b.transactions == [[]] && block.batches == [b] && block.domainBlocks == [h]
    ensures BlockBody.EncodeBlock(block).Ok?
  {
    hide EncodeConsensusHeader, EncodeDomainBatch, BlockBody.PutResults, PutU32;
    BlockBody.HeaderSize(block.header);
    BatchEncodes(b);
    BlockBody.ResultsSize([h]);
    assert BlockBody.PutBatches([b][1..]) == Ok([]);
  }

  lemma BlockSeals(m: Machine, parent: ChainState, p: Progress, b: DomainBatch, timestamp: u64, proposer: Address)
    requires parent.height < U64_MAX && |p.blocks| == 1 && b.transactions == [[]]
    ensures Seal(m, parent, p, [b], timestamp, proposer).Ok?
  {
    hide BlockBody.EncodeBlock, EncodeDomainBatch, EncodeDomainHeader, EncodeConsensusHeader, HeadsRoot,
         CollectionRoots.ResultsRoot, CollectionRoots.CollectionRoot;
    BatchEncodes(b);
    BlockBody.BatchFits(b);
    assert EncodedBatches([b][..0]) == Ok([]);
    BlockBody.ResultSize(p.blocks[0]);
    var header := SealedHeader(m, parent, p, [b], timestamp, proposer).value;
    BlockBody.HeaderSize(header);
    assert p.blocks == [p.blocks[0]];
    BlockEncodes(BlockBody.ConsensusBlock(header, [b], p.blocks), b, p.blocks[0]);
  }

  /** The created domain is inserted next to the root. */
  lemma CreationInserts(job: Job, f: FinalizedDomain)
    requires job.context == ContextFor(GenesisChain(), Root(), 1) == FirstContext() && job.state == GenesisState()
    requires job.transactions == [[]] && job.env.chainId == 1 && job.env.gasLimit == 30_000_000
    requires f.config == RootDomain().config
    ensures var middle := GenesisChain().(domains := GenesisChain().domains[Root() := f]);
            var run := OneMachine().run(job);
            && run.Ok? && |run.value.created| == 1
            && var next := InsertFirst(OneMachine(), middle, run.value.created, 1, 1);
               next.Ok? && Hash() in next.value.domains
  {
    hide RunBatch, HashDomain, Funded, Faithful, NamesIn, DomainTree.Tree, InsertCreated, Synced, Runs, TxFaithful,
         CodecsAgree, HashesNonZero, GenesisHeader;
    var m, g := OneMachine(), GenesisChain();
    var middle := g.(domains := g.domains[Root() := f]);
    BatchCreates(job);
    HypothesesHold();
    ExecutorIsFaithful(m, OneEvm(), Registered);
    GenesisAgrees();
    DomainTree.GenesisIsTree(g);
    ReplacedSynced(NamesIn(Registered(GenesisState()).storage), g, Root(), f);
    DomainTree.AdvanceKeepsTree(g, Root(), f);
    RootBatchSynced(m, Registered, g, middle, job, 1);
    InsertedThere(m, middle, m.run(job).value.created, 1);
  }

  lemma InsertedThere(m: Machine, st: ChainState, created: seq<CreatedDomain>, height: u64)
    requires |created| == 1 && InsertFirst(m, st, created, 1, height).Ok?
    ensures created[0].descriptor.domainId in InsertFirst(m, st, created, 1, height).value.domains
  {
    hide HashDomain, GenesisHeader;
    assert InsertFirst(m, st, created, 0, height) == Ok(st);
  }

  /** Executing the batch on the genesis inserts the created domain. */
  lemma FirstExecutes()
    ensures var r := ExecuteFirst(OneMachine(), GenesisChain(), [Creating()], 1, 1, 1, Owner());
            r.Ok? && Hash() in r.value.state.domains
  {
    hide RunBatch, InsertFirst, HashDomain, Prevrandao, Funded, NextBaseFee;
    var m, g := OneMachine(), GenesisChain();
    var env := EnvFor(m, g, RootDomain(), 1, 1, Owner());
    var job := Job(1, env, GenesisState(), [[]], ContextFor(g, Root(), 1));
    FirstPrepared();
    BatchCreates(job);
    var e := m.run(job).value;
    var header := NextHeader(RootDomain(), Root(), 1, e);
    HashDefined(m, header);
    var f := FinalizedDomain(RootDomain().config, header, HashDomain(m.k, header).value, e.state);
    assert ExecuteDomain(m, g, Creating(), 1, 1, Owner()) == Ok((header, e, f));
    CreationInserts(job, f);
    assert ExecuteFirst(m, g, [Creating()], 0, 1, 1, Owner()) == Ok(Progress(g, [], [], 0));
  }

  /** One machine meets all the hypotheses, and a block it builds on its genesis validates, commits and
      creates a domain. */
  lemma CreationCommits() returns (block: BlockBody.ConsensusBlock)
    ensures var r := DomainTree.Committed(OneMachine(), GenesisChain(), [block]);
            r.Ok? && Hash() in r.value.domains && RootSynced(Registered, r.value)
  {
    hide ExecuteFirst, Seal, RootSynced, Validate, Runs, TxFaithful, CodecsAgree, HashesNonZero;
    var m, g := OneMachine(), GenesisChain();
    FirstExecutes();
    var p := ExecuteFirst(m, g, [Creating()], 1, 1, 1, Owner()).value;
    BlockSeals(m, g, p, Creating(), 1, Owner());
    ChainAgreement.SealShape(m, g, p, [Creating()], 1, Owner());
    assert Execute(m, g, [Creating()], 1, Owner()).Ok?;
    block := Execute(m, g, [Creating()], 1, Owner()).value.block;
    ChainAgreement.ExecutedValidates(m, g, [Creating()], 1, Owner());
    assert [block][..0] == [];
    HypothesesHold();
    GenesisAgrees();
    ExecutedSynced(m, OneEvm(), Registered, g, [block]);
  }
}
