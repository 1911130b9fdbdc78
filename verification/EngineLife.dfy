/** The whole engine over time: submissions, builds, abandons, commits, imports, crashes and restarts,
    with the columns, the finalized view, the pool and the pending proposal together. */
module EngineLife {
  import opened Wrappers
  import opened Bytes
  import opened Ordered
  import opened Canonical
  import opened BlockBody
  import opened Storage
  import opened Mempool
  import opened Scheduler
  import opened Booking
  import opened Chain
  import opened ChainAgreement
  import opened Alike
  import opened Recovery
  import opened EngineStore
  import opened EngineRecovery
  import opened EngineCommit
  import opened EngineRuns
  import opened Engine
  import opened Sorting

  /** What an engine is configured with. */
  datatype Host = Host(x: Setup, s: TxScheme, cfg: Config, reward: Address,
                       nonceOf: (ExecutionState, Address) -> u64)

  datatype Life = Life(node: Node, books: Books, pending: Option<Proposal>, cursor: nat)

  datatype Move =
    | Submit(domain: B256, envelope: Bytes, stateNonce: u64)
    | Build(timestamp: u64)
    | Abandon
    | Commit(crash: Crash)
    | ImportBlock(block: ConsensusBlock, crash: Crash)
    | Adopt(state: ChainState, crash: Crash)
    | Reboot

  // ----- chain IDs known to the pool -----

  /** The pool routes exactly the finalized domains, each under its own chain ID. */
  ghost predicate Routed(p: Pool, st: ChainState) {
    p.chainIds.Keys == st.domains.Keys && forall d | d in st.domains :: p.chainIds[d] == st.domains[d].config.chainId
  }

  lemma {:induction false} RegisterTwice(p: Pool, a: seq<Route>, b: seq<Route>)
    requires RegisterAll(p, a).Ok?
    ensures RegisterAll(p, a + b) == RegisterAll(RegisterAll(p, a).value, b)
    decreases |b|
  {
    hide Register;
    if b == [] {
      assert a + b == a;
    } else {
      assert (a + b)[..|a + b| - 1] == a + b[..|b| - 1];
      RegisterTwice(p, a, b[..|b| - 1]);
    }
  }

  /** Created domains are new to the pool, so routing them is never refused. */
  lemma {:induction false} CreatedRouted(m: Machine, s: TxScheme, p: Pool, st: ChainState, created: seq<CreatedDomain>,
                                         n: nat, height: u64)
    requires ValidPool(s, p) && Routed(p, st) && n <= |created| && InsertFirst(m, st, created, n, height).Ok?
    ensures var r := RegisterAll(p, RoutesOf(created)[..n]);
            r.Ok? && ValidPool(s, r.value) && Routed(r.value, InsertFirst(m, st, created, n, height).value)
  {
    hide InsertCreated, Register, ValidPool;
    if n > 0 {
      hide Routed;
      CreatedRouted(m, s, p, st, created, n - 1, height);
      var before := InsertFirst(m, st, created, n - 1, height).value;
      var q := RegisterAll(p, RoutesOf(created)[..n - 1]).value;
      assert RoutesOf(created)[..n][..n - 1] == RoutesOf(created)[..n - 1];
      CreatedNext(m, s, q, before, created[n - 1], height);
    }
  }

  lemma CreatedNext(m: Machine, s: TxScheme, p: Pool, st: ChainState, c: CreatedDomain, height: u64)
    requires ValidPool(s, p) && Routed(p, st) && InsertCreated(m, st, c, height).Ok?
    ensures var (next, r) := Register(p, c.descriptor.domainId, c.descriptor.evmChainId);
            r.Ok? && ValidPool(s, next) && Routed(next, InsertCreated(m, st, c, height).value)
  {
    hide HashDomain, DeriveDomainId, GenesisHeader, GoodEntry, CountAll, ValidPool;
    var d := c.descriptor;
    RegisterKeeps(s, p, d.domainId, d.evmChainId);
    forall x | x in p.chainIds
      ensures x == d.domainId <==> p.chainIds[x] == d.evmChainId
    {
      assert !ChainIdTaken(st, d.evmChainId);
      assert st.domains[x].config.chainId == p.chainIds[x];
    }
  }

  /** One more executed batch: its domain keeps its chain ID and its creations are routed. */
  lemma BatchRouted(m: Machine, s: TxScheme, p: Pool, parent: ChainState, prior: Progress, domain: FinalizedDomain,
                    d: B256, execution: Execution, height: u64)
    requires Routed(p, parent) && d in parent.domains && domain.config == parent.domains[d].config
    requires var q := RegisterAll(p, AllRoutes(prior.executions));
             q.Ok? && ValidPool(s, q.value) && Routed(q.value, prior.state) && Extends(p, q.value)
    requires InsertFirst(m, prior.state.(domains := prior.state.domains[d := domain]), execution.created,
                         |execution.created|, height).Ok?
    ensures var next := InsertFirst(m, prior.state.(domains := prior.state.domains[d := domain]), execution.created,
                                    |execution.created|, height).value;
            var r := RegisterAll(p, AllRoutes(prior.executions + [execution]));
            r.Ok? && ValidPool(s, r.value) && Routed(r.value, next) && Extends(p, r.value)
  {
    hide InsertFirst, ValidPool, RegisterAll;
    var q := RegisterAll(p, AllRoutes(prior.executions)).value;
    var middle := prior.state.(domains := prior.state.domains[d := domain]);
    assert Routed(q, middle);
    CreatedRouted(m, s, q, middle, execution.created, |execution.created|, height);
    assert RoutesOf(execution.created)[..|execution.created|] == RoutesOf(execution.created);
    var executions := prior.executions + [execution];
    assert executions[..|executions| - 1] == prior.executions;
    RegisterTwice(p, AllRoutes(prior.executions), RoutesOf(execution.created));
    RegisterAllKeeps(s, q, RoutesOf(execution.created));
  }

  lemma {:induction false} BatchesRouted(m: Machine, s: TxScheme, p: Pool, parent: ChainState,
                                         batches: seq<DomainBatch>, n: nat, height: u64, timestamp: u64,
                                         proposer: Address)
    requires ValidPool(s, p) && Routed(p, parent) && n <= |batches|
    requires ExecuteFirst(m, parent, batches, n, height, timestamp, proposer).Ok?
    ensures var run := ExecuteFirst(m, parent, batches, n, height, timestamp, proposer).value;
            var r := RegisterAll(p, AllRoutes(run.executions));
            r.Ok? && ValidPool(s, r.value) && Routed(r.value, run.state) && Extends(p, r.value)
  {
    hide InsertFirst, HashDomain, EnvFor, ContextFor, NextBaseFee, ValidPool;
    if n > 0 {
      hide Routed, Extends;
      BatchesRouted(m, s, p, parent, batches, n - 1, height, timestamp, proposer);
      var prior := ExecuteFirst(m, parent, batches, n - 1, height, timestamp, proposer).value;
      var (header, execution, domain) := ExecuteDomain(m, parent, batches[n - 1], height, timestamp, proposer).value;
      BatchRouted(m, s, p, parent, prior, domain, batches[n - 1].domainId, execution, height);
    }
  }

  /** Committing a validated block is never refused by the pool, which then routes exactly the new state. */
  lemma BlockRouted(m: Machine, s: TxScheme, p: Pool, parent: ChainState, block: ConsensusBlock)
    requires ValidPool(s, p) && Routed(p, parent) && Validate(m, parent, block).Ok?
    ensures var done := Validate(m, parent, block).value;
            var r := RegisterAll(p, AllRoutes(done.executions));
            r.Ok? && ValidPool(s, r.value) && Routed(r.value, done.state)
  {
    hide Seal, ExecuteFirst, CompareCandidate, BatchesOrdered, HashConsensus, EncodeBlock, ValidPool, HeadsRoot,
         RegisterAll;
    var timestamp, proposer := block.header.timestamp, block.header.proposer;
    var run := ExecuteFirst(m, parent, block.batches, |block.batches|, parent.height + 1, timestamp, proposer).value;
    BatchesRouted(m, s, p, parent, block.batches, |block.batches|, parent.height + 1, timestamp, proposer);
    SealShape(m, parent, run, block.batches, timestamp, proposer);
  }

  // ----- a fresh pool -----

  ghost predicate Numbered(st: ChainState) {
    forall a, b | a in st.domains && b in st.domains ::
      && st.domains[a].config.chainId != 0
      && (st.domains[a].config.chainId == st.domains[b].config.chainId ==> a == b)
  }

  lemma RoutedNumbered(s: TxScheme, p: Pool, st: ChainState)
    requires ValidPool(s, p) && Routed(p, st)
    ensures Numbered(st)
  {
    hide GoodEntry, CountAll;
    forall a | a in st.domains
      ensures st.domains[a].config.chainId != 0
    {
      assert p.chainIds[a] in p.chainIds.Values;
    }
  }

  /** The pool of a new process: empty, routing the given domains. */
  lemma {:induction false} FreshRouted(s: TxScheme, st: ChainState, ids: seq<B256>, n: nat)
    requires Numbered(st) && n <= |ids| && forall d | d in ids :: d in st.domains
    ensures var r := RegisterAll(EMPTY_POOL, RoutesFor(st, ids)[..n]);
            && r.Ok? && ValidPool(s, r.value) && r.value.entries == map[]
            && r.value.chainIds.Keys == (set d | d in ids[..n])
            && (forall d | d in r.value.chainIds :: r.value.chainIds[d] == st.domains[d].config.chainId)
  {
    hide GoodEntry, CountAll, ValidPool, Register;
    if n == 0 {
      EmptyPool(s);
    } else {
      FreshRouted(s, st, ids, n - 1);
      var p := RegisterAll(EMPTY_POOL, RoutesFor(st, ids)[..n - 1]).value;
      assert RoutesFor(st, ids)[..n][..n - 1] == RoutesFor(st, ids)[..n - 1];
      assert ids[..n] == ids[..n - 1] + [ids[n - 1]];
      assert ids[n - 1] in ids && forall d | d in ids[..n - 1] :: d in ids;
      RegisterKeeps(s, p, ids[n - 1], st.domains[ids[n - 1]].config.chainId);
      RegisterSets(p, ids[n - 1], st.domains[ids[n - 1]].config.chainId);
    }
  }

  lemma EmptyPool(s: TxScheme)
    ensures ValidPool(s, EMPTY_POOL)
  {
    NothingBooked(s, Config(0, 0, 0, 0));
  }

  lemma RegisterSets(p: Pool, d: B256, chainId: u64)
    requires Register(p, d, chainId).1.Ok?
    ensures Register(p, d, chainId).0.chainIds == p.chainIds[d := chainId]
  {
  }

  // ----- moves -----

  function Nonced(h: Host, l: Life): Nonces {
    NoncesOf(h.nonceOf, l.node.finalized)
  }

  /** The proposal built from the selected entries, or None when building fails. */
  ghost function Built(h: Host, l: Life, timestamp: u64): Option<Proposal>
    requires Keyed(l.books.pool.entries)
  {
    hide Selection, Reserve, Chain.Build, BatchesFor, InfoOf, NoncesOf, HashesOf;
    var st := l.node.finalized;
    var taken := Reserve(l.books.pool, HashesOf(Selection(l.books.pool.entries, Nonced(h, l), InfoOf(st), l.cursor))).1;
    var ids := SortedKeys(DomainsIn(taken));
    if exists d :: d in ids && d !in st.domains then None else
    var r := Chain.Build(h.x.m, st, BatchesFor(st, ids, taken), timestamp, h.reward);
    if r.Ok? then Some(r.value) else None
  }

  function NextCursor(cursor: nat, st: ChainState): nat {
    (cursor + 1) % (if |st.domains| > 1 then |st.domains| else 1)
  }

  /** `commit_validated`: None is a refusal by execution, the pool or the database. */
  ghost function Finalized(h: Host, l: Life, block: ConsensusBlock): Option<Life> {
    hide CommitBlock, Validate, RegisterAll, Next, AllRoutes, IncludedIn, Keyed;
    if !Keyed(l.books.pool.entries) then None else
    var done := Validate(h.x.m, l.node.finalized, block);
    if done.Err? || RegisterAll(l.books.pool, AllRoutes(done.value.executions)).Err? then None else
    var node := CommitBlock(h.x, l.node, block);
    if node.None? then None else
    var committed := Booking.Commit(AllRoutes(done.value.executions), IncludedIn(done.value.executions));
    Some(Life(node.value, Next(h.s, h.cfg, l.books, committed), None, NextCursor(l.cursor, done.value.state)))
  }

  /** `import_development_checkpoint`, with the domains of the checkpoint routed. */
  ghost function Adopted(h: Host, l: Life, st: ChainState): Option<Life> {
    hide CommitCheckpoint, RegisterAll;
    var node := CommitCheckpoint(h.x, l.node, st);
    if node.None? then None else
    var next := node.value.finalized;
    var pool := RegisterAll(l.books.pool, RoutesFor(next, AllIds(next)));
    if pool.Err? then None else Some(Life(node.value, l.books.(pool := pool.value), None, 0))
  }

  /** What a move does when nothing crashes; None changes nothing. */
  ghost function Carry(h: Host, l: Life, move: Move): Option<Life> {
    hide Next, Built, Finalized, Adopted, InfoOf, NoncesOf, Keyed;
    if !Keyed(l.books.pool.entries) then None else
    match move
    case Submit(d, envelope, nonce) => Some(l.(books := Next(h.s, h.cfg, l.books, Booking.Submit(d, envelope, nonce))))
    case Build(timestamp) =>
      if l.pending.Some? then None else
      var built := Built(h, l, timestamp);
      var act := Booking.Build(Nonced(h, l), InfoOf(l.node.finalized), l.cursor, built.Some?);
      Some(l.(books := Next(h.s, h.cfg, l.books, act), pending := built))
    case Abandon => Some(l.(books := Next(h.s, h.cfg, l.books, Booking.Abandon), pending := None))
    case Commit(_) => if l.pending.None? then None else Finalized(h, l, l.pending.value.block)
    case ImportBlock(block, _) => if l.pending.Some? then None else Finalized(h, l, block)
    case Adopt(st, _) => if l.pending.Some? then None else Adopted(h, l, st)
    case Reboot => None
  }

  /** A new process over durable columns: the reopened state, an empty pool routing its domains. */
  ghost function Up(h: Host, db: Columns): Option<Life> {
    hide Restarted, RegisterAll;
    var node := Restarted(h.x, db);
    if node.None? then None else
    var pool := RegisterAll(EMPTY_POOL, RoutesFor(node.value.finalized, AllIds(node.value.finalized)));
    if pool.Err? then None else Some(Life(node.value, Books(pool.value, None), None, 0))
  }

  function CrashIn(move: Move): Crash {
    match move
    case Commit(c) => c
    case ImportBlock(_, c) => c
    case Adopt(_, c) => c
    case Reboot => CrashBefore
    case _ => NoCrash
  }

  /** None: the engine cannot come up again. */
  ghost function Live(h: Host, l: Life, move: Move): Option<Life> {
    hide Carry, Up;
    var done := Carry(h, l, move);
    var after := if done.Some? then done.value else l;
    match CrashIn(move)
    case NoCrash => Some(after)
    case CrashBefore => Up(h, l.node.db)
    case CrashAfter => Up(h, after.node.db)
  }

  // ----- what every move keeps -----

  ghost predicate Begun(h: Host, st: ChainState) {
    && st.rootDomainId == h.x.genesis.rootDomainId && st.rootDomainId in st.domains
    && (st.height == 0 ==> st.domains.Keys == {st.rootDomainId})
  }

  /** The columns recover the finalized view, the books balance, the pool routes exactly the finalized
      domains, and a pending proposal is the one its reserved entries wait for and validates still. */
  ghost predicate Sane(h: Host, usable: Usable, l: Life) {
    hide Durable, Balanced, Validate, Routed, Begun;
    && Durable(h.x, usable, l.node) && Balanced(h.s, h.cfg, l.books)
    && Routed(l.books.pool, l.node.finalized) && Begun(h, l.node.finalized)
    && (l.pending.Some? <==> l.books.reserved.Some?)
    && (l.pending.Some? ==> Validate(h.x.m, l.node.finalized, l.pending.value.block) == Ok(l.pending.value))
  }

  ghost predicate SaneIf(h: Host, usable: Usable, l: Option<Life>) {
    hide Sane;
    l.Some? ==> Sane(h, usable, l.value)
  }

  /** Hashes tell the held transactions apart whenever a proposal is built, and adopted checkpoints can
      be rebuilt from what they carry. */
  ghost predicate GoodMove(h: Host, usable: Usable, l: Life, move: Move) {
    hide HashesTellApart, GoodImport;
    && (move.Build? ==> HashesTellApart(l.books.pool))
    && (move.Adopt? ==> GoodImport(h.x, usable, move.state))
  }

  lemma SaneKeyed(h: Host, usable: Usable, l: Life)
    requires Sane(h, usable, l)
    ensures Keyed(l.books.pool.entries)
  {
    hide Durable, Validate, Routed, Begun, ValidPool, Restorable, Keyed;
    KeyedPool(h.s, l.books.pool);
  }

  lemma ReserveIds(p: Pool, hashes: set<B256>)
    requires Keyed(p.entries)
    ensures Reserve(p, hashes).0.chainIds == p.chainIds
  {
  }

  /** Only a commit or an adoption changes what the pool routes. */
  lemma NextRouted(h: Host, b: Books, act: Action, st: ChainState)
    requires Balanced(h.s, h.cfg, b) && Routed(b.pool, st) && (act.Submit? || act.Build? || act.Abandon?)
    ensures Keyed(b.pool.entries) && Routed(Next(h.s, h.cfg, b, act).pool, st)
  {
    hide Selection, HashesOf, Routed, Admit, Reserve, Restore, RegisterAll, ValidPool, Restorable, Keyed;
    KeyedPool(h.s, b.pool);
    match act {
      case Submit(d, envelope, nonce) =>
        AdmitKeeps(h.s, h.cfg, b.pool, d, envelope, nonce);
      case Build(nonces, domains, cursor, _) =>
        var hashes := HashesOf(Selection(b.pool.entries, nonces, domains, cursor));
        ReserveIds(b.pool, hashes);
        RestoreAdds(Reserve(b.pool, hashes).0, Reserve(b.pool, hashes).1);
      case Abandon =>
        RestoreAdds(b.pool, Reserved(b));
      case _ =>
    }
    RoutedBy(b.pool, Next(h.s, h.cfg, b, act).pool, st);
  }

  lemma RoutedBy(p: Pool, q: Pool, st: ChainState)
    requires Routed(p, st) && p.chainIds == q.chainIds
    ensures Routed(q, st)
  {
  }

  lemma BuiltProposes(h: Host, l: Life, timestamp: u64)
    requires Keyed(l.books.pool.entries) && Built(h, l, timestamp).Some?
    ensures var p := Built(h, l, timestamp).value; Validate(h.x.m, l.node.finalized, p.block) == Ok(p)
  {
    hide Selection, Reserve, Chain.Build, BatchesFor, InfoOf, NoncesOf, HashesOf, Validate, Keyed;
    var st := l.node.finalized;
    var taken := Reserve(l.books.pool, HashesOf(Selection(l.books.pool.entries, Nonced(h, l), InfoOf(st), l.cursor))).1;
    BuiltValidates(h.x.m, st, BatchesFor(st, SortedKeys(DomainsIn(taken)), taken), timestamp, h.reward);
  }

  /** Submitting, building and abandoning. */
  lemma PoolMoveSane(h: Host, usable: Usable, l: Life, move: Move)
    requires Sane(h, usable, l) && GoodMove(h, usable, l, move) && (move.Submit? || move.Build? || move.Abandon?)
    ensures SaneIf(h, usable, Carry(h, l, move))
  {
    hide Durable, Balanced, Validate, Routed, Begun, Keyed, Built, InfoOf, NoncesOf, HashesTellApart, Selection,
         Reserve,
         Restore, Admit, RegisterAll, HashesOf, DistinctIds;
    SaneKeyed(h, usable, l);
    match move {
      case Submit(d, envelope, nonce) =>
        StepBalanced(h.s, h.cfg, l.books, Booking.Submit(d, envelope, nonce));
        NextRouted(h, l.books, Booking.Submit(d, envelope, nonce), l.node.finalized);
      case Build(timestamp) =>
        var built := Built(h, l, timestamp);
        var act := Booking.Build(Nonced(h, l), InfoOf(l.node.finalized), l.cursor, built.Some?);
        InfoDistinct(l.node.finalized);
        StepBalanced(h.s, h.cfg, l.books, act);
        NextRouted(h, l.books, act, l.node.finalized);
        if built.Some? { BuiltProposes(h, l, timestamp); }
      case Abandon =>
        StepBalanced(h.s, h.cfg, l.books, Booking.Abandon);
        NextRouted(h, l.books, Booking.Abandon, l.node.finalized);
      case _ =>
    }
  }

  lemma BegunBlock(h: Host, st: ChainState, block: ConsensusBlock)
    requires Begun(h, st) && Validate(h.x.m, st, block).Ok?
    ensures Begun(h, Validate(h.x.m, st, block).value.state)
  {
    hide Execute, CompareCandidate, BatchesOrdered;
    ValidatedShape(h.x.m, st, block);
    BlockMoves(h.x.m, st, block.batches, block.header.timestamp, block.header.proposer);
  }

  /** Committing the pending proposal or an imported block; the pool never refuses it. */
  lemma FinalizedSane(h: Host, usable: Usable, l: Life, block: ConsensusBlock)
    requires Sound(h.x, usable) && Sane(h, usable, l)
    ensures Finalized(h, l, block).Some? <==> CommitBlock(h.x, l.node, block).Some?
    ensures SaneIf(h, usable, Finalized(h, l, block))
  {
    hide Durable, Validate, Routed, Begun, Keyed, RegisterAll, AllRoutes, IncludedIn, Sound, ProposalBatch,
         CommitColumns, Shaped, Reserve, ValidPool, Restorable;
    SaneKeyed(h, usable, l);
    var done := Validate(h.x.m, l.node.finalized, block);
    if done.Ok? && CommitBlock(h.x, l.node, block).Some? {
      BlockRouted(h.x.m, h.s, l.books.pool, l.node.finalized, block);
      BlockDurable(h.x, usable, l.node, block);
      BegunBlock(h, l.node.finalized, block);
      var routes, included := AllRoutes(done.value.executions), IncludedIn(done.value.executions);
      StepBalanced(h.s, h.cfg, l.books, Booking.Commit(routes, included));
      var pool := RegisterAll(l.books.pool, routes).value;
      KeyedPool(h.s, pool);
      ReserveIds(pool, included);
      RoutedBy(pool, Reserve(pool, included).0, done.value.state);
    }
  }

  // ----- adopting a checkpoint -----

  /** Registering the domains of a state adds exactly them. */
  lemma {:induction false} StateRegistered(p: Pool, st: ChainState, ids: seq<B256>, n: nat)
    requires n <= |ids| && forall d | d in ids :: d in st.domains
    requires RegisterAll(p, RoutesFor(st, ids)[..n]).Ok?
    ensures var next := RegisterAll(p, RoutesFor(st, ids)[..n]).value;
            && next.chainIds.Keys == p.chainIds.Keys + (set d | d in ids[..n])
            && (forall d | d in ids[..n] :: next.chainIds[d] == st.domains[d].config.chainId)
  {
    hide Register;
    if n > 0 {
      assert RoutesFor(st, ids)[..n][..n - 1] == RoutesFor(st, ids)[..n - 1];
      assert ids[..n] == ids[..n - 1] + [ids[n - 1]];
      assert ids[n - 1] in ids && forall d | d in ids[..n - 1] :: d in ids;
      StateRegistered(p, st, ids, n - 1);
      RegisterSets(RegisterAll(p, RoutesFor(st, ids)[..n - 1]).value, ids[n - 1],
          st.domains[ids[n - 1]].config.chainId);
    }
  }

  lemma AdoptedBegun(h: Host, n: Node, st: ChainState)
    requires CommitCheckpoint(h.x, n, st).Some?
    ensures n.finalized.height == 0 && Begun(h, CommitCheckpoint(h.x, n, st).value.finalized)
  {
    hide CheckpointBatch, CommitColumns, HeadsRoot, DomainFits, Described;
    KeptFits(h.x, st, HeadsRoot(h.x.m.k, st));
  }

  /** Registering a checkpoint over the pool of a fresh chain routes exactly its domains. */
  lemma AdoptedBooks(h: Host, b: Books, st: ChainState, next: ChainState)
    requires Balanced(h.s, h.cfg, b) && Routed(b.pool, st) && Begun(h, st) && st.height == 0 && Begun(h, next)
    requires RegisterAll(b.pool, RoutesFor(next, AllIds(next))).Ok?
    ensures var pool := RegisterAll(b.pool, RoutesFor(next, AllIds(next))).value;
            Balanced(h.s, h.cfg, b.(pool := pool)) && Routed(pool, next)
  {
    hide RegisterAll, ValidPool, Restorable, SortedKeys;
    var ids := AllIds(next);
    assert RoutesFor(next, ids)[..|ids|] == RoutesFor(next, ids) && ids[..|ids|] == ids;
    StateRegistered(b.pool, next, ids, |ids|);
    RegisterAllKeeps(h.s, b.pool, RoutesFor(next, ids));
    StaysRestorable(h.s, b.pool, RegisterAll(b.pool, RoutesFor(next, ids)).value, Reserved(b));
  }

  lemma AdoptedSane(h: Host, usable: Usable, l: Life, st: ChainState)
    requires Sound(h.x, usable) && Sane(h, usable, l) && GoodImport(h.x, usable, st)
    ensures l.pending.None? ==> SaneIf(h, usable, Adopted(h, l, st))
  {
    hide Durable, Validate, RegisterAll, Sound, CommitCheckpoint, Balanced, GoodImport, Routed, Begun, RoutesFor;
    if l.pending.None? && Adopted(h, l, st).Some? {
      var next := CommitCheckpoint(h.x, l.node, st).value.finalized;
      ImportDurable(h.x, usable, l.node, st);
      AdoptedBegun(h, l.node, st);
      AdoptedBooks(h, l.books, l.node.finalized, next);
    }
  }

  // ----- coming up -----

  lemma AlikeNumbered(h: Host, a: ChainState, b: ChainState)
    requires AlikeChain(a, b) && Numbered(a) && Begun(h, a)
    ensures Numbered(b) && Begun(h, b)
  {
    hide AlikeState;
    assert forall d | d in a.domains :: AlikeDomain(a.domains[d], b.domains[d]);
  }

  /** The engine comes up sane over these columns, alike to what was finalized. */
  ghost predicate Rises(h: Host, usable: Usable, node: Node) {
    hide Up, Sane, AlikeChain;
    var up := Up(h, node.db);
    up.Some? && Sane(h, usable, up.value) && AlikeChain(up.value.node.finalized, node.finalized)
  }

  /** An empty pool routing every domain of a state. */
  lemma FreshBooks(h: Host, st: ChainState)
    requires Numbered(st)
    ensures var pool := RegisterAll(EMPTY_POOL, RoutesFor(st, AllIds(st)));
            pool.Ok? && Balanced(h.s, h.cfg, Books(pool.value, None)) && Routed(pool.value, st)
  {
    hide RegisterAll, ValidPool, Numbered, SortedKeys;
    var ids := AllIds(st);
    assert RoutesFor(st, ids)[..|ids|] == RoutesFor(st, ids) && ids[..|ids|] == ids;
    FreshRouted(h.s, st, ids, |ids|);
  }

  /** Durable columns come up: replay succeeds and every domain is routed. */
  lemma NodeRises(h: Host, usable: Usable, node: Node)
    requires Durable(h.x, usable, node) && Numbered(node.finalized) && Begun(h, node.finalized)
    ensures Rises(h, usable, node)
  {
    hide Durable, Restarted, RegisterAll, Balanced, Routed, Begun, Numbered, AlikeChain, Validate, RoutesFor;
    RestartDurable(h.x, usable, node);
    var st := Restarted(h.x, node.db).value.finalized;
    assert Restarted(h.x, node.db).value.db == node.db by { RestartedColumns(h.x, node.db); }
    AlikeSymmetric(st, node.finalized);
    AlikeNumbered(h, node.finalized, st);
    FreshBooks(h, st);
  }

  lemma RestartedColumns(x: Setup, db: Columns)
    requires Restarted(x, db).Some?
    ensures Restarted(x, db).value.db == db
  {
    hide Reopen;
  }

  lemma UpSane(h: Host, usable: Usable, l: Life)
    requires Sane(h, usable, l)
    ensures Rises(h, usable, l.node)
  {
    hide Durable, Validate, ValidPool, Restorable, Begun, Numbered, Rises, Routed;
    RoutedNumbered(h.s, l.books.pool, l.node.finalized);
    NodeRises(h, usable, l.node);
  }

  ghost predicate GoesOn(h: Host, usable: Usable, l: Life, move: Move) {
    hide Live, Sane;
    Live(h, l, move).Some? && Sane(h, usable, Live(h, l, move).value)
  }

  /** Every move, with or without a crash, keeps the engine sane. */
  lemma LiveSane(h: Host, usable: Usable, l: Life, move: Move)
    requires Sound(h.x, usable) && Sane(h, usable, l) && GoodMove(h, usable, l, move)
    ensures GoesOn(h, usable, l, move)
  {
    hide Sound, Sane, Finalized, Adopted, Next, Built, Up, Keyed, HashesTellApart, GoodImport, AlikeChain, InfoOf,
         NoncesOf;
    var done := Carry(h, l, move);
    assert SaneIf(h, usable, done) by {
      if move.Submit? || move.Build? || move.Abandon? {
        PoolMoveSane(h, usable, l, move);
      } else if move.Adopt? {
        AdoptedSane(h, usable, l, move.state);
      } else if move.ImportBlock? {
        FinalizedSane(h, usable, l, move.block);
      } else if move.Commit? && l.pending.Some? {
        FinalizedSane(h, usable, l, l.pending.value.block);
      }
    }
    var after := if done.Some? then done.value else l;
    match CrashIn(move)
    case NoCrash =>
    case CrashBefore => UpSane(h, usable, l);
    case CrashAfter => UpSane(h, usable, after);
  }

  // ----- whole runs -----

  /** States from a sane one on, each by one move. */
  ghost predicate IsLife(h: Host, usable: Usable, states: seq<Life>, moves: seq<Move>) {
    hide Live, GoodMove, Sane, Sound;
    && Sound(h.x, usable)
    && |states| == |moves| + 1 && Sane(h, usable, states[0])
    && (forall i | 0 <= i < |moves| ::
          GoodMove(h, usable, states[i], moves[i]) && Live(h, states[i], moves[i]) == Some(states[i + 1]))
  }

  ghost predicate Unstoppable(h: Host, usable: Usable, l: Life) {
    hide GoodMove, GoesOn;
    forall move | GoodMove(h, usable, l, move) :: GoesOn(h, usable, l, move)
  }

  ghost predicate SaneAt(h: Host, usable: Usable, states: seq<Life>, n: nat) {
    hide Sane, Unstoppable;
    n < |states| ==> Sane(h, usable, states[n]) && Unstoppable(h, usable, states[n])
  }

  /** In every run of submissions, builds, abandons, commits, imports, adopted checkpoints, crashes and
      restarts the engine can go on, its columns recover what it finalized, its books balance, its pool
      routes exactly the finalized domains, and the pending proposal still validates. */
  lemma {:induction false} LifeSane(h: Host, usable: Usable, states: seq<Life>, moves: seq<Move>, n: nat)
    requires IsLife(h, usable, states, moves)
    ensures SaneAt(h, usable, states, n)
  {
    hide Sound, Sane, Live, GoodMove;
    if 0 < n < |states| {
      LifeSane(h, usable, states, moves, n - 1);
      LiveSane(h, usable, states[n - 1], moves[n - 1]);
    }
    if n < |states| {
      forall move | GoodMove(h, usable, states[n], move)
        ensures GoesOn(h, usable, states[n], move)
      {
        LiveSane(h, usable, states[n], move);
      }
    }
  }

  /** An engine opened on an empty database starts sane. */
  lemma StartSane(h: Host, usable: Usable)
    requires Sound(h.x, usable) && GenesisReady(h.x) && InitBatch(h.x).Some?
    requires h.x.genesis.domains[h.x.genesis.rootDomainId].config.chainId != 0
    requires CommitColumns(h.x.m.k, EMPTY_COLUMNS, InitBatch(h.x).value).Ok?
    ensures Rises(h, usable, Node(CommitColumns(h.x.m.k, EMPTY_COLUMNS, InitBatch(h.x).value).value, h.x.genesis))
  {
    hide Sound, CommitColumns, Durable, Rises;
    var node := Node(CommitColumns(h.x.m.k, EMPTY_COLUMNS, InitBatch(h.x).value).value, h.x.genesis);
    InitDurable(h.x, usable);
    NodeRises(h, usable, node);
  }

  // ===== more ready domains than a block may carry: the scheduler has no domain cap, so no proposal can be built =====

  /** Batches over sorted domains are in order as they are. */
  lemma GroupedInOrder(st: ChainState, ids: seq<B256>, reserved: seq<PoolEntry>)
    requires StrictlySorted(ids) && forall d | d in ids :: d in st.domains
    ensures var batches := BatchesFor(st, ids, reserved);
            && BatchesOrdered(batches) && Sort(BatchRank, batches) == batches
  {
    hide LexLess, Sort, EnvelopesOf;
    var batches := BatchesFor(st, ids, reserved);
    assert InOrder(BatchRank, batches);
    OrderedIsInOrder(batches);
    OrderedApart(batches);
    SortOrders(BatchRank, batches);
    SameElements(Sort(BatchRank, batches), batches);
    OrderUnique(BatchRank, Sort(BatchRank, batches), batches);
  }

  lemma OrderedApart(batches: seq<DomainBatch>)
    requires InOrder(BatchRank, batches)
    ensures Apart(BatchRank, batches)
  {
    hide LexLess;
    forall i, j | 0 <= i < j < |batches|
      ensures BatchRank(batches[i]) != BatchRank(batches[j])
    {
      LexIrreflexive(BatchRank(batches[i]));
    }
  }

  /** Building refuses exactly the groupings over more than 256 domains for their number, once the
      timestamp is right. */
  lemma BuildCounts(m: Machine, st: ChainState, ids: seq<B256>, reserved: seq<PoolEntry>, timestamp: u64,
                    reward: Address)
    requires StrictlySorted(ids) && forall d | d in ids :: d in st.domains
    ensures var r := Chain.Build(m, st, BatchesFor(st, ids, reserved), timestamp, reward);
            && (|ids| > MAX_BATCHES_PER_BLOCK && TimestampOk(st.timestamp, timestamp) ==>
                  r == Err(ChainError.TooManyBatches))
            && (|ids| > MAX_BATCHES_PER_BLOCK ==> r.Err?)
            && (r.Ok? ==> |ids| <= MAX_BATCHES_PER_BLOCK)
  {
    hide Sort, BatchesOrdered, ExecuteFirst, Seal, EnvelopesOf;
    GroupedInOrder(st, ids, reserved);
  }

  // ----- the engine -----

  /** The domains the next proposal would carry. */
  ghost function ProposedDomains(h: Host, l: Life): set<B256>
    requires Keyed(l.books.pool.entries)
  {
    DomainsIn(Selection(l.books.pool.entries, Nonced(h, l), InfoOf(l.node.finalized), l.cursor))
  }

  /** Nothing pending, and more domains to propose than a block may carry. */
  ghost predicate Crowded(h: Host, usable: Usable, l: Life) {
    hide Sane, HashesTellApart, Keyed, ProposedDomains;
    && Sane(h, usable, l) && HashesTellApart(l.books.pool) && l.pending.None?
    && Keyed(l.books.pool.entries) && |ProposedDomains(h, l)| > MAX_BATCHES_PER_BLOCK
  }

  /** The build has no proposal to show and leaves the engine as it was. */
  ghost predicate BuildFails(h: Host, l: Life, timestamp: u64) {
    hide Built, Carry, Keyed;
    Keyed(l.books.pool.entries) && Built(h, l, timestamp).None? && Carry(h, l, Move.Build(timestamp)) == Some(l)
  }

  lemma FailedBuildLives(h: Host, l: Life, timestamp: u64)
    requires BuildFails(h, l, timestamp)
    ensures Live(h, l, Move.Build(timestamp)) == Some(l)
  {
    hide Carry, Built, Up, Keyed;
  }

  /** Then no build succeeds, whatever the timestamp, and nothing changes. */
  lemma CrowdedBuildFails(h: Host, usable: Usable, l: Life, timestamp: u64)
    requires Crowded(h, usable, l)
    ensures BuildFails(h, l, timestamp)
  {
    hide Durable, Validate, Routed, Begun, ValidPool, Booking.Restorable, Selection, Reserve, Restore, Chain.Build,
         BatchesFor, InfoOf, NoncesOf, HashesOf, HashesTellApart, Keyed, SortedKeys, DistinctIds;
    var st, pool := l.node.finalized, l.books.pool;
    InfoDistinct(st);
    BuildReserves(h.s, pool, Nonced(h, l), InfoOf(st), l.cursor);
    FailedBuildRestores(h.s, pool, Nonced(h, l), InfoOf(st), l.cursor);
    var taken := Selection(pool.entries, Nonced(h, l), InfoOf(st), l.cursor);
    SelectedDomains(pool.entries, Nonced(h, l), st, l.cursor, taken);
    var ids := SortedKeys(DomainsIn(taken));
    BuildCounts(h.x.m, st, ids, taken, timestamp, h.reward);
  }

  /** One build attempt after the other. */
  ghost function Attempts(h: Host, l: Life, timestamps: seq<u64>): Option<Life> {
    hide Live;
    if timestamps == [] then Some(l) else
    var before := Attempts(h, l, timestamps[..|timestamps| - 1]);
    if before.None? then None else Live(h, before.value, Move.Build(timestamps[|timestamps| - 1]))
  }

  /** The engine stalls: however often it tries, it never has a proposal to commit. */
  lemma {:induction false} CrowdedStalls(h: Host, usable: Usable, l: Life, timestamps: seq<u64>)
    requires Crowded(h, usable, l)
    ensures Attempts(h, l, timestamps) == Some(l)
  {
    hide Crowded, Live, BuildFails;
    if timestamps != [] {
      CrowdedStalls(h, usable, l, timestamps[..|timestamps| - 1]);
      CrowdedBuildFails(h, usable, l, timestamps[|timestamps| - 1]);
      FailedBuildLives(h, l, timestamps[|timestamps| - 1]);
    }
  }
}
