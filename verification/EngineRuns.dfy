/** Whole runs of the durable engine: commits, imports, crashes and restarts. */
module EngineRuns {
  import opened Wrappers
  import opened Bytes
  import opened Ordered
  import opened Hashing
  import opened Canonical
  import opened BlockBody
  import opened Storage
  import opened StorageHistory
  import opened CommitEffects
  import opened Chain
  import opened DomainTree
  import opened Alike
  import opened Recovery
  import opened EngineStore
  import opened EngineRecovery
  import opened EngineCommit
  import opened EngineCheckpoint

  /** The durable columns and the finalized view in memory. */
  datatype Node = Node(db: Columns, finalized: ChainState)

  /** A crash while committing: before the transaction is durable, or after. */
  datatype Crash = NoCrash | CrashBefore | CrashAfter

  datatype Event =
    | Finalize(block: ConsensusBlock, crash: Crash)
    | Import(state: ChainState, crash: Crash)
    | Restart

  /** Validate, then commit: `commit_proposal` and `import_development_finalized_block` alike.
      None is a refusal, which changes nothing. */
  ghost function CommitBlock(x: Setup, n: Node, block: ConsensusBlock): Option<Node> {
    hide Validate, ProposalBatch, CommitColumns;
    var p := Validate(x.m, n.finalized, block);
    if p.Err? || !Shaped(p.value) then None else
    var batch := ProposalBatch(x, p.value);
    if batch.Err? then None else
    var next := CommitColumns(x.m.k, n.db, batch.value);
    if next.Err? then None else Some(Node(next.value, p.value.state))
  }

  /** `import_development_checkpoint`, at height zero only. */
  ghost function CommitCheckpoint(x: Setup, n: Node, st: ChainState): Option<Node> {
    hide FromCheckpoint, CheckpointBatch, CommitColumns, HeadsRoot;
    if n.finalized.height != 0 || !SameIdentity(x, st) then None else
    var kept := FromCheckpoint(x, st, HeadsRoot(x.m.k, st));
    if kept.Err? then None else
    var batch := CheckpointBatch(x, kept.value);
    if batch.Err? then None else
    var next := CommitColumns(x.m.k, n.db, batch.value);
    if next.Err? then None else Some(Node(next.value, kept.value))
  }

  ghost function Attempt(x: Setup, n: Node, e: Event): Option<Node> {
    match e
    case Finalize(block, _) => CommitBlock(x, n, block)
    case Import(st, _) => CommitCheckpoint(x, n, st)
    case Restart => None
  }

  /** The node a fresh process finds on the durable columns. */
  ghost function Restarted(x: Setup, db: Columns): Option<Node> {
    hide Reopen;
    if db.marker.None? || Reopen(x, db).Err? then None else Some(Node(db, Reopen(x, db).value))
  }

  ghost function CrashOf(e: Event): Crash {
    if e.Restart? then CrashBefore else e.crash
  }

  /** None: the node cannot come up again. */
  ghost function Step(x: Setup, n: Node, e: Event): Option<Node> {
    hide Attempt, Restarted;
    var done := Attempt(x, n, e);
    var after := if done.Some? then done.value else n;
    match CrashOf(e)
    case NoCrash => Some(after)
    case CrashBefore => Restarted(x, n.db)
    case CrashAfter => Restarted(x, after.db)
  }

  ghost function Run(x: Setup, start: Node, events: seq<Event>): Option<Node> {
    hide Step;
    if events == [] then Some(start) else
    var n := Run(x, start, events[..|events| - 1]);
    if n.None? then None else Step(x, n.value, events[|events| - 1])
  }

  // ----- what must hold of an imported checkpoint -----

  /** The projection `from_checkpoint` keeps can be rebuilt from what it carries, is usable, and is
      content-addressed without a collision inside the batch. */
  ghost predicate GoodImport(x: Setup, usable: Usable, st: ChainState) {
    var kept := Projected(st);
    && UsableChain(usable, kept) && NamesValid(x, kept)
    && (forall d | d in kept.domains :: Restorable(x, kept.domains[d].state))
    && ContentAddressed(x.m.k, CheckpointStates(kept, SortedKeys(kept.domains.Keys)))
    && CollisionFree(x.m.k, BatchBytes(CheckpointStates(kept, SortedKeys(kept.domains.Keys))))
  }

  ghost predicate GoodEvent(x: Setup, usable: Usable, e: Event) {
    e.Import? ==> GoodImport(x, usable, e.state)
  }

  ghost predicate Durable(x: Setup, usable: Usable, n: Node) {
    Recovers(x, usable, n.db, n.finalized)
  }

  // ----- steps -----

  lemma BlockDurable(x: Setup, usable: Usable, n: Node, block: ConsensusBlock)
    requires Sound(x, usable) && Durable(x, usable, n) && CommitBlock(x, n, block).Some?
    ensures Durable(x, usable, CommitBlock(x, n, block).value)
  {
    hide Validate, ProposalBatch, CommitColumns, Recovers, Sound;
    BlockRecovers(x, usable, n.db, n.finalized, block);
  }

  lemma KeptFits(x: Setup, st: ChainState, headsRoot: B256)
    requires FromCheckpoint(x, st, headsRoot).Ok?
    ensures FromCheckpoint(x, st, headsRoot).value == Projected(st) && CheckpointFits(x, Projected(st))
    ensures Projected(st).descriptors.Keys <= Projected(st).domains.Keys
  {
    hide CheckpointFits, HeadsRoot;
  }

  lemma BatchStates(x: Setup, st: ChainState)
    requires CheckpointBatch(x, st).Ok?
    ensures CheckpointBatch(x, st).value.states == CheckpointStates(st, SortedKeys(st.domains.Keys))
  {
    hide CheckpointStates, SortedKeys, CheckpointDescriptors, HeadsRoot, CodeOfDomains;
  }

  lemma ImportDurable(x: Setup, usable: Usable, n: Node, st: ChainState)
    requires Sound(x, usable) && Durable(x, usable, n) && GoodImport(x, usable, st) && CommitCheckpoint(x, n, st).Some?
    ensures Durable(x, usable, CommitCheckpoint(x, n, st).value)
  {
    hide FromCheckpoint, CheckpointBatch, CommitColumns, Recovers, Sound, CheckpointFits, HeadsRoot, UsableChain,
         NamesValid, Restorable, ContentAddressed, CollisionFree, CheckpointStates, SortedKeys, Projected, AllReadable;
    KeptFits(x, st, HeadsRoot(x.m.k, st));
    var kept := Projected(st);
    assert SameIdentity(x, kept) by { ProjectedFrame(st); }
    BatchStates(x, kept);
    RestorableReadable(x, n.db, kept);
    CheckpointRecovers(x, usable, n.db, n.finalized, kept);
  }

  lemma ProjectedFrame(st: ChainState)
    ensures Projected(st) == st.(descriptors := Projected(st).descriptors)
  {
  }

  lemma AttemptDurable(x: Setup, usable: Usable, n: Node, e: Event)
    requires Sound(x, usable) && Durable(x, usable, n) && GoodEvent(x, usable, e)
    ensures Attempt(x, n, e).Some? ==> Durable(x, usable, Attempt(x, n, e).value)
  {
    hide CommitBlock, CommitCheckpoint, Durable, Sound;
    if Attempt(x, n, e).Some? {
      if e.Finalize? {
        BlockDurable(x, usable, n, e.block);
      } else {
        assert GoodImport(x, usable, e.state);
        ImportDurable(x, usable, n, e.state);
      }
    }
  }

  /** A restart on durable columns comes up, alike to what was finalized, and durable again. */
  lemma RestartDurable(x: Setup, usable: Usable, n: Node)
    requires Durable(x, usable, n)
    ensures Restarted(x, n.db).Some? && Durable(x, usable, Restarted(x, n.db).value)
    ensures AlikeChain(Restarted(x, n.db).value.finalized, n.finalized)
  {
    hide Reopen, UsableChain;
    AlikeSelf(Reopen(x, n.db).value);
  }

  /** Crashing shows the old head or the new one: the old one unless the commit was accepted and its
      transaction durable. */
  lemma CrashShowsOldOrNew(x: Setup, usable: Usable, n: Node, e: Event)
    requires Sound(x, usable) && Durable(x, usable, n) && GoodEvent(x, usable, e) && CrashOf(e) != NoCrash
    ensures Step(x, n, e).Some?
    ensures var shown := Step(x, n, e).value.finalized;
            if CrashOf(e) == CrashAfter && Attempt(x, n, e).Some?
            then AlikeChain(shown, Attempt(x, n, e).value.finalized)
            else AlikeChain(shown, n.finalized)
  {
    hide Attempt, Durable, Sound, Restarted, GoodEvent;
    AttemptDurable(x, usable, n, e);
    RestartDurable(x, usable, n);
    if Attempt(x, n, e).Some? {
      RestartDurable(x, usable, Attempt(x, n, e).value);
    }
  }

  lemma StepDurable(x: Setup, usable: Usable, n: Node, e: Event)
    requires Sound(x, usable) && Durable(x, usable, n) && GoodEvent(x, usable, e)
    ensures Step(x, n, e).Some? && Durable(x, usable, Step(x, n, e).value)
  {
    hide Attempt, Durable, Sound, Restarted, GoodEvent;
    AttemptDurable(x, usable, n, e);
    RestartDurable(x, usable, n);
    if Attempt(x, n, e).Some? {
      RestartDurable(x, usable, Attempt(x, n, e).value);
    }
  }

  // ----- every run -----

  /** In every run the node comes up after every crash and restart, and reopening its database gives
      back the height, hash, domain heads and authenticated states it last finalized durably. */
  lemma {:induction false} RunDurable(x: Setup, usable: Usable, start: Node, events: seq<Event>)
    requires Sound(x, usable) && Durable(x, usable, start)
    requires forall e | e in events :: GoodEvent(x, usable, e)
    ensures Run(x, start, events).Some? && Durable(x, usable, Run(x, start, events).value)
  {
    hide Durable, Sound, Step, GoodEvent;
    if events != [] {
      RunDurable(x, usable, start, events[..|events| - 1]);
      var n := Run(x, start, events[..|events| - 1]).value;
      assert events[|events| - 1] in events;
      StepDurable(x, usable, n, events[|events| - 1]);
    }
  }

  // ----- the first start -----

  ghost predicate GenesisReady(x: Setup) {
    && IsGenesis(x.genesis)
    && var root := x.genesis.domains[x.genesis.rootDomainId];
       root.header.stateRoot == root.state.snapshot.root
  }

  lemma InitIndexes(x: Setup)
    requires InitBatch(x).Some? && UniqueKeys(InitBatch(x).value.indexes)
    ensures var after := PutAll(map[], InitBatch(x).value.indexes);
            && KEY_GENESIS in after && after[KEY_GENESIS] == x.fingerprint
            && KEY_WAL in after && after[KEY_WAL] == EncodeWal(InitBatch(x).value.marker)
            && KEY_CHECKPOINT !in after
  {
    hide PutAll, EncodeWal, HeadsRoot;
    var values := InitBatch(x).value.indexes;
    KeysApart(0, 0, seq(32, _ => 0));
    assert values[0].key == KEY_GENESIS && values[1].key == KEY_WAL && |values| == 2;
    assert !HasKey(values, KEY_CHECKPOINT);
    PutAllLookup(map[], values, KEY_GENESIS);
    PutAllLookup(map[], values, KEY_WAL);
    PutAllLookup(map[], values, KEY_CHECKPOINT);
  }

  /** An initialized database is durable at genesis. */
  lemma InitDurable(x: Setup, usable: Usable)
    requires Sound(x, usable) && GenesisReady(x) && InitBatch(x).Some?
    requires CommitColumns(x.m.k, EMPTY_COLUMNS, InitBatch(x).value).Ok?
    ensures Durable(x, usable, Node(CommitColumns(x.m.k, EMPTY_COLUMNS, InitBatch(x).value).value, x.genesis))
  {
    hide CommitColumns, Reopen, PutAll, EncodeWal, HeadsRoot, Respects, LoadsUsable, CommittedRespects, UsableChain,
         LoadCheckpoint, Replay, UniqueDomains, Stored;
    var batch := InitBatch(x).value;
    var db := CommitColumns(x.m.k, EMPTY_COLUMNS, batch).value;
    CommitEffect(x.m.k, EMPTY_COLUMNS, batch);
    InitIndexes(x);
    var root := x.genesis.domains[x.genesis.rootDomainId];
    assert db.heads[batch.states[0].domainId] == Head(root.header.consensusHeight, root.header.stateRoot);
    assert HeadsMatch(db, x.genesis);
    ReplayNone(x, db.indexes, x.genesis);
    StepsReopen(x, db, x.genesis, x.genesis);
    AlikeSelf(x.genesis);
  }
}
