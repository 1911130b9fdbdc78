/** Retention and the durable engine: what pruning may take away, and what it may not. */
module EngineRetention {
  import opened Wrappers
  import opened Bytes
  import opened Canonical
  import opened BlockBody
  import opened TrieCommit
  import opened Storage
  import opened Chain
  import opened Alike
  import opened CheckpointCodec
  import opened Recovery
  import opened EngineStore
  import opened EngineRecovery
  import opened EngineCommit
  import opened EngineCheckpoint
  import opened EngineRuns
  import opened CommitEffects
  import opened Ordered
  import opened Hashing
  import opened Rlp
  import opened TrieWalk
  import opened StorageHistory
  import opened Reload
  import CheckpointComplete
  import opened Database
  import opened ChainAgreement

  /** Some nodes, roots and manifests may be gone; everything else is as it was. */
  ghost predicate Trims(less: Columns, db: Columns) {
    && less == db.(nodes := less.nodes, roots := less.roots, manifests := less.manifests)
    && Stored(less.nodes, db.nodes)
  }

  lemma TrimsTwice(a: Columns, b: Columns, c: Columns)
    requires Trims(a, b) && Trims(b, c)
    ensures Trims(a, c)
  {
  }

  lemma PruneTrims(c: Columns, key: RootKey)
    requires PruneColumns(c, key).Ok?
    ensures Trims(PruneColumns(c, key).value, c)
  {
    hide LiveHashes;
  }

  lemma {:induction false} PruneHeightsTrims(c: Columns, d: B256, heights: seq<u64>, cutoff: nat)
    ensures Trims(PruneHeights(c, d, heights, cutoff).columns, c)
    decreases |heights|
  {
    hide PruneColumns;
    if heights != [] {
      if heights[0] >= cutoff {
        PruneHeightsTrims(c, d, heights[1..], cutoff);
      } else if PruneColumns(c, RootKey(d, heights[0])).Ok? {
        var next := PruneColumns(c, RootKey(d, heights[0])).value;
        PruneTrims(c, RootKey(d, heights[0]));
        PruneHeightsTrims(next, d, heights[1..], cutoff);
        TrimsTwice(PruneHeights(next, d, heights[1..], cutoff).columns, next, c);
      }
    }
  }

  lemma {:induction false} PruneDomainsTrims(c: Columns, states: seq<StateCommit>, cutoff: nat)
    ensures Trims(PruneDomains(c, states, cutoff).columns, c)
    decreases |states|
  {
    hide PruneHeights, Ascending, HeightsOf, Trims;
    if states == [] {
      TrimsSelf(c);
    } else {
      var d := states[0].domainId;
      var first := PruneHeights(c, d, Ascending(HeightsOf(c, d)), cutoff);
      PruneHeightsTrims(c, d, Ascending(HeightsOf(c, d)), cutoff);
      if first.error.None? {
        PruneDomainsTrims(first.columns, states[1..], cutoff);
        TrimsTwice(PruneDomains(first.columns, states[1..], cutoff).columns, first.columns, c);
      }
    }
  }

  lemma TrimsSelf(c: Columns)
    ensures Trims(c, c)
  {
  }

  /** Retention of any policy only trims. */
  lemma RetainTrims(c: Columns, policy: RetentionPolicy, height: u64, states: seq<StateCommit>)
    ensures Trims(Retain(c, policy, height, states).columns, c)
  {
    hide PruneDomains, Trims;
    match policy
    case Archive => TrimsSelf(c);
    case Full(history) => PruneDomainsTrims(c, states, Cutoff(height, history));
  }

  /** A trimmed database comes back at the same state if and only if its base, the genesis or the stored
      checkpoint, can still be loaded. */
  lemma TrimmedIfLoads(x: Setup, usable: Usable, db: Columns, less: Columns, st: ChainState)
    requires Sound(x, usable) && Recovers(x, usable, db, st) && Trims(less, db)
    ensures Recovers(x, usable, less, st) <==> Base(x, less).Ok?
  {
    hide Base, Replay, Verified, Sound, Stored, AlikeChain, UsableChain;
    if Recovers(x, usable, less, st) {
      var base := ReopenSteps(x, less);
    }
    if Base(x, less).Ok? {
      TrimmedRecovers(x, usable, db, less, st);
    }
  }

  lemma TrimmedRecovers(x: Setup, usable: Usable, db: Columns, less: Columns, st: ChainState)
    requires Sound(x, usable) && Recovers(x, usable, db, st) && Trims(less, db) && Base(x, less).Ok?
    ensures Recovers(x, usable, less, st)
  {
    hide Base, Replay, Stored, AlikeChain, UsableChain, Reopen, HeadsMatch, HeadsRoot, EncodeWal, Respects, LoadsUsable,
         CommittedRespects, SameBodies;
    var big := ReopenSteps(x, db);
    var before := Reopen(x, db).value;
    AllCovered(x.m.k, db.code);
    BaseStable(x, usable, less, db);
    var small := Base(x, less).value;
    AlikeFrame(small, big);
    AlikeSymmetric(small, big);
    SameBodiesSelf(db.indexes, db.marker.value.height);
    ReplayAlike(x, usable, db.indexes, less.indexes, big, small, big.height + 1, db.marker.value.height);
    var back := Replay(x, less.indexes, small, small.height + 1, less.marker.value.height).value;
    AlikeSymmetric(before, back);
    AlikeTransitive(back, before, st);
    HeadsTrimmed(db, less, before);
    VerifiedAlike(x, less, back, before, less.marker.value);
    StepsReopen(x, less, small, back);
  }

  lemma HeadsTrimmed(db: Columns, less: Columns, st: ChainState)
    requires Trims(less, db) && HeadsMatch(db, st)
    ensures HeadsMatch(less, st)
  {
  }

  // ----- runs -----

  /** A block, a crash, and what pruning left of the columns it leads to: all of it, or as much as was
      done when the crash came. */
  datatype KeptEvent = KeptEvent(event: Event, kept: Columns)

  ghost function Kept(e: KeptEvent, db: Columns): Columns {
    if Trims(e.kept, db) then e.kept else db
  }

  ghost function KeptStep(x: Setup, n: Node, e: KeptEvent): Option<Node> {
    hide Attempt, Restarted, Kept;
    var done := Attempt(x, n, e.event);
    var after := if done.Some? then done.value.(db := Kept(e, done.value.db)) else n;
    match CrashOf(e.event)
    case NoCrash => Some(after)
    case CrashBefore => Restarted(x, n.db)
    case CrashAfter => Restarted(x, after.db)
  }

  ghost function KeptRun(x: Setup, start: Node, events: seq<KeptEvent>): Option<Node> {
    hide KeptStep;
    if events == [] then Some(start) else
    var n := KeptRun(x, start, events[..|events| - 1]);
    if n.None? then None else KeptStep(x, n.value, events[|events| - 1])
  }

  ghost predicate FromGenesis(x: Setup, usable: Usable, n: Node) {
    hide Durable;
    Durable(x, usable, n) && KEY_CHECKPOINT !in n.db.indexes
  }

  lemma KeptDurable(x: Setup, usable: Usable, n: Node, less: Columns)
    requires Sound(x, usable) && FromGenesis(x, usable, n) && Trims(less, n.db)
    ensures FromGenesis(x, usable, n.(db := less))
  {
    hide Sound, Recovers, Stored;
    TrimmedIfLoads(x, usable, n.db, less, n.finalized);
  }

  lemma BlockFromGenesis(x: Setup, usable: Usable, n: Node, block: ConsensusBlock)
    requires Sound(x, usable) && FromGenesis(x, usable, n) && CommitBlock(x, n, block).Some?
    ensures FromGenesis(x, usable, CommitBlock(x, n, block).value)
  {
    hide Sound, Durable, Validate, ProposalBatch, CommitColumns, Shaped, EncodeBlock, PutAll;
    BlockDurable(x, usable, n, block);
    var p := Validate(x.m, n.finalized, block).value;
    var batch := ProposalBatch(x, p).value;
    CommitEffects.CommitEffect(x.m.k, n.db, batch);
    BlockIndexes(x, p, n.db);
  }

  lemma RestartFromGenesis(x: Setup, usable: Usable, n: Node)
    requires FromGenesis(x, usable, n)
    ensures Restarted(x, n.db).Some? && FromGenesis(x, usable, Restarted(x, n.db).value)
  {
    hide Durable, Reopen;
    RestartDurable(x, usable, n);
  }

  lemma KeptStepDurable(x: Setup, usable: Usable, n: Node, e: KeptEvent)
    requires Sound(x, usable) && FromGenesis(x, usable, n) && !e.event.Import?
    ensures KeptStep(x, n, e).Some? && FromGenesis(x, usable, KeptStep(x, n, e).value)
  {
    hide Sound, FromGenesis, Restarted, CommitBlock, CommitCheckpoint, Trims;
    var done := Attempt(x, n, e.event);
    var after := if done.Some? then done.value.(db := Kept(e, done.value.db)) else n;
    if done.Some? {
      BlockFromGenesis(x, usable, n, e.event.block);
      if Trims(e.kept, done.value.db) {
        KeptDurable(x, usable, done.value, e.kept);
      }
      assert FromGenesis(x, usable, after);
    }
    match CrashOf(e.event)
    case NoCrash =>
    case CrashBefore => RestartFromGenesis(x, usable, n);
    case CrashAfter => RestartFromGenesis(x, usable, after);
  }

  /** Grown from genesis, under any retention policy, with pruning complete or cut short by a crash: in
      every run of blocks and restarts the node comes up at what it last finalized. */
  lemma {:induction false} KeptRunDurable(x: Setup, usable: Usable, start: Node, events: seq<KeptEvent>)
    requires Sound(x, usable) && FromGenesis(x, usable, start) && forall e | e in events :: !e.event.Import?
    ensures KeptRun(x, start, events).Some? && FromGenesis(x, usable, KeptRun(x, start, events).value)
  {
    hide Sound, FromGenesis, KeptStep;
    if events != [] {
      var n := |events| - 1;
      assert events[n] in events;
      KeptRunDurable(x, usable, start, events[..n]);
      KeptStepDurable(x, usable, KeptRun(x, start, events[..n]).value, events[n]);
    }
  }

  // ----- a checkpoint whose state was pruned -----

  /** After an imported checkpoint it is different: once the root node of one of its domain states is
      pruned, the database cannot be opened again, whatever was committed on top. */
  lemma PrunedCheckpointIsLost(x: Setup, db: Columns, r: CheckpointRecord, i: nat)
    requires db.marker.Some? && KEY_CHECKPOINT in db.indexes &&
      DecodeCheckpoint(x.utf8, db.indexes[KEY_CHECKPOINT]) == Ok(r)
    requires i < |r.domains| && r.domains[i].stateRoot !in db.nodes && r.domains[i].stateRoot != x.m.k(EMPTY_TRIE)
    ensures Reopen(x, db).Err?
  {
    hide LoadDomains, FromCheckpoint, Replay, Verified, DecodeCheckpoint, LoadState, NeighboursSorted, Assemble;
    RootMissing(x, r.domains[i].stateRoot, db.nodes, db.code);
    if LoadDomains(x, r.domains, db.nodes, db.code).Ok? {
      LoadedEach(x, r.domains, db.nodes, db.code, i);
    }
  }

  lemma RootMissing(x: Setup, root: B256, nodes: NodeMap, code: map<B256, Bytes>)
    requires root !in nodes && root != x.m.k(EMPTY_TRIE)
    ensures LoadState(x, root, nodes, code).Err?
  {
  }

  /** And pruning does that: below the head, a root no other manifest lists goes with its manifest. */
  lemma PruneDropsRoot(c: Columns, key: RootKey, root: B256)
    requires PruneColumns(c, key).Ok? && key in c.manifests && root in c.manifests[key].nodeHashes
    requires forall other | other in c.manifests && other != key :: root !in c.manifests[other].nodeHashes
    ensures root !in PruneColumns(c, key).value.nodes
  {
  }

  /** So pruning the only root that lists it leaves a database that does not open. */
  lemma PruningLosesCheckpoint(x: Setup, db: Columns, key: RootKey, r: CheckpointRecord, i: nat)
    requires db.marker.Some? && KEY_CHECKPOINT in db.indexes &&
      DecodeCheckpoint(x.utf8, db.indexes[KEY_CHECKPOINT]) == Ok(r)
    requires i < |r.domains| && r.domains[i].stateRoot != x.m.k(EMPTY_TRIE)
    requires PruneColumns(db, key).Ok? && key in db.manifests && r.domains[i].stateRoot in db.manifests[key].nodeHashes
    requires forall other | other in db.manifests && other != key ::
      r.domains[i].stateRoot !in db.manifests[other].nodeHashes
    ensures PruneColumns(db, key).value.marker.Some? && Reopen(x, PruneColumns(db, key).value).Err?
  {
    hide Reopen, DecodeCheckpoint, LiveHashes;
    PruneTrims(db, key);
    PruneDropsRoot(db, key, r.domains[i].stateRoot);
    PrunedCheckpointIsLost(x, PruneColumns(db, key).value, r, i);
  }

  // ===== the nodes a stored checkpoint asks for =====

  // ----- what loading asks for -----

  /** A walk of this root over these nodes asks for the hash. */
  ghost predicate TrieAsks(k: Keccak, nodes: NodeMap, root: B256, h: B256) {
    hide CollectLeaves, RootHash, BuiltNodes, HashesOf;
    && Rebuild(k, root, nodes).Ok?
    && var leaves: Leaves := Rebuild(k, root, nodes).value.leaves;
       leaves != map[] && h in HashesOf(k, leaves)
  }

  ghost predicate StorageAsks(x: Setup, nodes: NodeMap, encoded: Bytes, h: B256) {
    hide TrieAsks;
    && x.refs(encoded).Some? && x.refs(encoded).value.storageRoot != x.m.k(EMPTY_TRIE)
    && TrieAsks(x.m.k, nodes, x.refs(encoded).value.storageRoot, h)
  }

  /** Loading the state of this root asks for the hash: in its account trie, or in the storage trie of
      one of its accounts. */
  ghost predicate StateAsks(x: Setup, nodes: NodeMap, root: B256, h: B256) {
    hide TrieAsks, StorageAsks, Rebuild;
    || TrieAsks(x.m.k, nodes, root, h)
    || (Rebuild(x.m.k, root, nodes).Ok?
        && var leaves := Rebuild(x.m.k, root, nodes).value.leaves;
           exists key :: key in leaves && StorageAsks(x, nodes, leaves[key], h))
  }

  lemma TrieNeeds(k: Keccak, root: B256, small: NodeMap, big: NodeMap, all: set<Bytes>)
    requires Stored(small, big) && Apart(k, big, all) && Rebuild(k, root, big).Ok?
    ensures Rebuild(k, root, small).Ok? <==> forall h | TrieAsks(k, big, root, h) :: h in small
  {
    hide CollectLeaves, RootHash, BuiltNodes, HashesOf, Preimages, TwinFree, Distinct;
    var leaves: Leaves := Rebuild(k, root, big).value.leaves;
    if leaves == map[] {
      EmptyCollects(k, small);
    } else {
      FewerCollide(k, big.Values + Preimages(k, leaves) + {EMPTY_TRIE}, all);
      FewerValues(small, big);
      FewerCollide(k, small.Values + Preimages(k, leaves) + {EMPTY_TRIE}, all);
      CollectIsExact(k, big, leaves);
      CollectIsExact(k, small, leaves);
      assert Loadable(k, small, HashesOf(k, leaves)) <==> forall h | h in HashesOf(k, leaves) :: h in small;
      assert forall h :: TrieAsks(k, big, root, h) <==> h in HashesOf(k, leaves);
      if CollectLeaves(k, small, root).Ok? {
        assert CollectLeaves(k, small, root).value == leaves;
      }
    }
  }

  lemma FewerValues(small: NodeMap, big: NodeMap)
    requires Stored(small, big)
    ensures small.Values <= big.Values
  {
    forall v | v in small.Values
      ensures v in big.Values
    {
      var h :| h in small && small[h] == v;
      assert big[h] == v;
    }
  }

  lemma AccountNeeds(x: Setup, encoded: Bytes, small: NodeMap, big: NodeMap, code: map<B256, Bytes>, all: set<Bytes>)
    requires Stored(small, big) && Apart(x.m.k, big, all) && LoadAccount(x, encoded, big, code).Ok?
    ensures LoadAccount(x, encoded, small, code).Ok? <==> forall h | StorageAsks(x, big, encoded, h) :: h in small
  {
    hide Rebuild, Apart, TrieAsks, Stored;
    var root := x.refs(encoded).value.storageRoot;
    if root != x.m.k(EMPTY_TRIE) {
      TrieNeeds(x.m.k, root, small, big, all);
      assert forall h :: StorageAsks(x, big, encoded, h) <==> TrieAsks(x.m.k, big, root, h);
    }
  }

  lemma AccountsNeed(x: Setup, leaves: Leaves, small: NodeMap, big: NodeMap, code: map<B256, Bytes>, all: set<Bytes>)
    requires Stored(small, big) && Apart(x.m.k, big, all)
    requires LoadAccounts(x, leaves, SortedKeys(leaves.Keys), big, code).Ok?
    ensures LoadAccounts(x, leaves, SortedKeys(leaves.Keys), small, code).Ok? <==>
            forall key, h | key in leaves && StorageAsks(x, big, leaves[key], h) :: h in small
  {
    hide LoadAccount, LoadAccounts, Stored, Apart, StorageAsks, SortedKeys;
    var keys := SortedKeys(leaves.Keys);
    CheckpointComplete.AllAccountsLoad(x, leaves, keys, big, code);
    CheckpointComplete.AllAccountsLoad(x, leaves, keys, small, code);
    forall i | 0 <= i < |keys|
      ensures keys[i] in leaves
      ensures LoadAccount(x, leaves[keys[i]], small, code).Ok? <==>
              forall h | StorageAsks(x, big, leaves[keys[i]], h) :: h in small
    {
      assert keys[i] in keys;
      AccountNeeds(x, leaves[keys[i]], small, big, code, all);
    }
    assert forall key | key in leaves :: key in keys;
  }

  /** A state that loads from some nodes loads from fewer exactly when every hash it asks for is left. */
  lemma StateNeeds(x: Setup, root: B256, small: NodeMap, big: NodeMap, code: map<B256, Bytes>, all: set<Bytes>)
    requires Stored(small, big) && Apart(x.m.k, big, all) && LoadState(x, root, big, code).Ok?
    ensures LoadState(x, root, small, code).Ok? <==> forall h | StateAsks(x, big, root, h) :: h in small
  {
    hide Rebuild, LoadAccounts, Stored, Apart, TrieAsks, StorageAsks, SortedKeys;
    TrieNeeds(x.m.k, root, small, big, all);
    var leaves := Rebuild(x.m.k, root, big).value.leaves;
    RebuiltLeaves(x.m.k, root, big);
    AccountsNeed(x, leaves, small, big, code, all);
    if Rebuild(x.m.k, root, small).Ok? {
      RebuildStable(x.m.k, root, small, big);
    }
    if forall h | StateAsks(x, big, root, h) :: h in small {
      assert forall h | TrieAsks(x.m.k, big, root, h) :: StateAsks(x, big, root, h);
      forall key, h | key in leaves && StorageAsks(x, big, leaves[key], h)
        ensures h in small
      {
        assert StateAsks(x, big, root, h);
      }
    }
  }

  lemma RebuiltLeaves(k: Keccak, root: B256, nodes: NodeMap)
    requires Rebuild(k, root, nodes).Ok?
    ensures forall key | key in Rebuild(k, root, nodes).value.leaves ::
              |Rebuild(k, root, nodes).value.leaves[key]| <= MAX_VECTOR
  {
  }

  // ----- the checkpoint and the whole database -----

  /** Loading the stored checkpoint asks for the hash. */
  ghost predicate RecordsAsk(x: Setup, nodes: NodeMap, records: seq<DomainRecord>, h: B256) {
    hide StateAsks;
    exists i :: 0 <= i < |records| && StateAsks(x, nodes, records[i].stateRoot, h)
  }

  /** Reopening asks for the hash: a stored checkpoint does, in the tries of its domains; replay asks for
      no node. */
  ghost predicate BaseAsks(x: Setup, db: Columns, h: B256) {
    hide RecordsAsk, DecodeCheckpoint;
    && KEY_CHECKPOINT in db.indexes
    && var r := DecodeCheckpoint(x.utf8, db.indexes[KEY_CHECKPOINT]);
       r.Ok? && RecordsAsk(x, db.nodes, r.value.domains, h)
  }

  lemma {:induction false} RecordsNeed(x: Setup, records: seq<DomainRecord>, small: NodeMap, big: NodeMap,
                                       code: map<B256, Bytes>, all: set<Bytes>)
    requires Stored(small, big) && Apart(x.m.k, big, all) && LoadDomains(x, records, big, code).Ok?
    ensures LoadDomains(x, records, small, code).Ok? <==> forall h | RecordsAsk(x, big, records, h) :: h in small
  {
    hide LoadState, Stored, Apart, StateAsks;
    if records != [] {
      var n := |records| - 1;
      RecordsNeed(x, records[..n], small, big, code, all);
      StateNeeds(x, records[n].stateRoot, small, big, code, all);
      forall h
        ensures RecordsAsk(x, big, records, h) <==>
                RecordsAsk(x, big, records[..n], h) || StateAsks(x, big, records[n].stateRoot, h)
      {
        RecordsSplit(x, big, records, h);
      }
    }
  }

  lemma RecordsSplit(x: Setup, nodes: NodeMap, records: seq<DomainRecord>, h: B256)
    requires records != []
    ensures var n := |records| - 1;
            RecordsAsk(x, nodes, records, h) <==>
            RecordsAsk(x, nodes, records[..n], h) || StateAsks(x, nodes, records[n].stateRoot, h)
  {
    hide StateAsks;
    var n := |records| - 1;
    if RecordsAsk(x, nodes, records[..n], h) {
      var i :| 0 <= i < n && StateAsks(x, nodes, records[..n][i].stateRoot, h);
      assert records[..n][i] == records[i];
    }
    if RecordsAsk(x, nodes, records, h) && !StateAsks(x, nodes, records[n].stateRoot, h) {
      var i :| 0 <= i < |records| && StateAsks(x, nodes, records[i].stateRoot, h);
      assert records[..n][i] == records[i];
    }
  }

  /** Once its domains load, a checkpoint loads from fewer nodes as it did from all. */
  lemma FewerAudits(x: Setup, usable: Usable, bytes: Bytes, small: NodeMap, big: NodeMap, code: map<B256, Bytes>)
    requires Sound(x, usable) && Stored(small, big) && LoadCheckpoint(x, bytes, big, code).Ok?
    requires LoadDomains(x, DecodeCheckpoint(x.utf8, bytes).value.domains, small, code).Ok?
    ensures LoadCheckpoint(x, bytes, small, code).Ok?
  {
    hide DecodeCheckpoint, LoadDomains, FromCheckpoint, Stored, CodeCovers, Respects, CommittedRespects, LoadsUsable,
         NeighboursSorted, Assemble, UsableChain, AlikeLoaded, UsableLoaded, AlikeChain;
    var r := DecodeCheckpoint(x.utf8, bytes).value;
    AllCovered(x.m.k, code);
    LoadDomainsStable(x, r.domains, small, big, code, code);
    LoadDomainsUsable(x, usable, r.domains, small, code);
    LoadDomainsUsable(x, usable, r.domains, big, code);
    var a, b := LoadDomains(x, r.domains, small, code).value, LoadDomains(x, r.domains, big, code).value;
    AssembleAlike(usable, r, a, b);
    AlikeSymmetric(Assemble(r, a), Assemble(r, b));
    AuditAlike(x, usable, Assemble(r, b), Assemble(r, a), r.domainHeadsRoot);
    IdentityAlike(x, FromCheckpoint(x, Assemble(r, b), r.domainHeadsRoot).value,
                  FromCheckpoint(x, Assemble(r, a), r.domainHeadsRoot).value);
  }

  lemma BaseNeeds(x: Setup, usable: Usable, db: Columns, less: Columns, all: set<Bytes>)
    requires Sound(x, usable) && Trims(less, db) && Apart(x.m.k, db.nodes, all) && Base(x, db).Ok?
    ensures Base(x, less).Ok? <==> forall h | BaseAsks(x, db, h) :: h in less.nodes
  {
    hide DecodeCheckpoint, LoadDomains, FromCheckpoint, Stored, Sound, NeighboursSorted, Assemble, Apart, RecordsAsk;
    if KEY_CHECKPOINT in db.indexes {
      var bytes := db.indexes[KEY_CHECKPOINT];
      var r := DecodeCheckpoint(x.utf8, bytes).value;
      RecordsNeed(x, r.domains, less.nodes, db.nodes, db.code, all);
      if LoadDomains(x, r.domains, less.nodes, db.code).Ok? {
        FewerAudits(x, usable, bytes, less.nodes, db.nodes, db.code);
      }
      assert forall h :: BaseAsks(x, db, h) <==> RecordsAsk(x, db.nodes, r.domains, h);
    }
  }

  /** Whatever pruning takes, the database comes back at the same state if and only if every hash that
      reopening it asked for before is left. */
  lemma TrimmedReopens(x: Setup, usable: Usable, db: Columns, less: Columns, st: ChainState, all: set<Bytes>)
    requires Sound(x, usable) && Recovers(x, usable, db, st) && Trims(less, db) && Apart(x.m.k, db.nodes, all)
    ensures Recovers(x, usable, less, st) <==> forall h | BaseAsks(x, db, h) :: h in less.nodes
    ensures Recovers(x, usable, less, st) <==> Reopen(x, less).Ok?
  {
    hide Base, Replay, Verified, Sound, Apart, AlikeChain, UsableChain, BaseAsks, Trims;
    var base := ReopenSteps(x, db);
    TrimmedIfLoads(x, usable, db, less, st);
    BaseNeeds(x, usable, db, less, all);
    assert less.marker == db.marker by { TrimmedMarker(db, less); }
    if Reopen(x, less).Ok? {
      var fewer := ReopenSteps(x, less);
    }
  }

  lemma TrimmedMarker(db: Columns, less: Columns)
    requires Trims(less, db)
    ensures less.marker == db.marker
  {
  }

  // ----- which nodes a pruning keeps -----

  ghost predicate ManifestLists(manifests: map<RootKey, Manifest>, h: B256) {
    exists key :: key in manifests && h in manifests[key].nodeHashes
  }

  /** Manifests only go, and a node goes exactly when the last manifest that listed it did. */
  ghost predicate Sweeps(c: Columns, less: Columns) {
    && (forall key | key in less.manifests :: key in c.manifests && less.manifests[key] == c.manifests[key])
    && (forall h :: h in less.nodes <==>
          h in c.nodes && (ManifestLists(less.manifests, h) || !ManifestLists(c.manifests, h)))
  }

  lemma SweepsNothing(c: Columns)
    ensures Sweeps(c, c)
  {
  }

  lemma ListedLess(c: Columns, less: Columns, h: B256)
    requires forall key | key in less.manifests :: key in c.manifests && less.manifests[key] == c.manifests[key]
    ensures ManifestLists(less.manifests, h) ==> ManifestLists(c.manifests, h)
  {
    if ManifestLists(less.manifests, h) {
      var key :| key in less.manifests && h in less.manifests[key].nodeHashes;
      assert key in c.manifests && h in c.manifests[key].nodeHashes;
    }
  }

  lemma SweepsTwice(a: Columns, b: Columns, c: Columns)
    requires Sweeps(a, b) && Sweeps(b, c)
    ensures Sweeps(a, c)
  {
    hide ManifestLists;
    forall h
      ensures h in c.nodes <==> h in a.nodes && (ManifestLists(c.manifests, h) || !ManifestLists(a.manifests, h))
    {
      ListedLess(a, b, h);
      ListedLess(b, c, h);
    }
  }

  /** Pruning one root drops exactly the nodes its manifest lists and no other does. */
  lemma PruneSweeps(c: Columns, key: RootKey)
    requires PruneColumns(c, key).Ok?
    ensures Sweeps(c, PruneColumns(c, key).value)
    ensures forall h :: h in PruneColumns(c, key).value.nodes <==>
              h in c.nodes && (h in c.manifests[key].nodeHashes ==> ManifestLists(c.manifests - {key}, h))
  {
    var less := PruneColumns(c, key).value;
    forall h
      ensures ManifestLists(c.manifests - {key}, h) <==> h in LiveHashes(c.manifests - {key})
      ensures ManifestLists(c.manifests, h) <==>
              ManifestLists(c.manifests - {key}, h) || h in c.manifests[key].nodeHashes
    {
      var rest := c.manifests - {key};
      if ManifestLists(rest, h) {
        var other :| other in rest && h in rest[other].nodeHashes;
        assert other in c.manifests && h in c.manifests[other].nodeHashes;
      }
      if ManifestLists(c.manifests, h) && h !in c.manifests[key].nodeHashes {
        var other :| other in c.manifests && h in c.manifests[other].nodeHashes;
        assert other in rest && h in rest[other].nodeHashes;
      }
    }
  }

  lemma {:induction false} PruneHeightsSweeps(c: Columns, d: B256, heights: seq<u64>, cutoff: nat)
    ensures Sweeps(c, PruneHeights(c, d, heights, cutoff).columns)
    decreases |heights|
  {
    hide PruneColumns, Sweeps;
    SweepsNothing(c);
    if heights != [] {
      if heights[0] >= cutoff {
        PruneHeightsSweeps(c, d, heights[1..], cutoff);
      } else if PruneColumns(c, RootKey(d, heights[0])).Ok? {
        var next := PruneColumns(c, RootKey(d, heights[0])).value;
        PruneSweeps(c, RootKey(d, heights[0]));
        PruneHeightsSweeps(next, d, heights[1..], cutoff);
        SweepsTwice(c, next, PruneHeights(next, d, heights[1..], cutoff).columns);
      }
    }
  }

  lemma {:induction false} PruneDomainsSweeps(c: Columns, states: seq<StateCommit>, cutoff: nat)
    ensures Sweeps(c, PruneDomains(c, states, cutoff).columns)
    decreases |states|
  {
    hide PruneHeights, Ascending, HeightsOf, Sweeps;
    SweepsNothing(c);
    if states != [] {
      var d := states[0].domainId;
      var first := PruneHeights(c, d, Ascending(HeightsOf(c, d)), cutoff);
      PruneHeightsSweeps(c, d, Ascending(HeightsOf(c, d)), cutoff);
      if first.error.None? {
        PruneDomainsSweeps(first.columns, states[1..], cutoff);
        SweepsTwice(c, first.columns, PruneDomains(first.columns, states[1..], cutoff).columns);
      }
    }
  }

  lemma AskedStored(x: Setup, usable: Usable, db: Columns, st: ChainState, all: set<Bytes>, h: B256)
    requires Sound(x, usable) && Recovers(x, usable, db, st) && Apart(x.m.k, db.nodes, all) && BaseAsks(x, db, h)
    ensures h in db.nodes
  {
    hide Recovers, Sound, Apart, BaseAsks, Trims;
    TrimsSelf(db);
    TrimmedReopens(x, usable, db, db, st, all);
  }

  /** A database that reopens still does after pruning one root if and only if every hash its reopening
      asks for is not listed by that root's manifest, or is listed by another one. */
  lemma PruneReopens(x: Setup, usable: Usable, db: Columns, key: RootKey, st: ChainState, all: set<Bytes>)
    requires Sound(x, usable) && Recovers(x, usable, db, st) && Apart(x.m.k, db.nodes, all)
    requires PruneColumns(db, key).Ok?
    ensures Recovers(x, usable, PruneColumns(db, key).value, st) <==>
            forall h | BaseAsks(x, db, h) && h in db.manifests[key].nodeHashes :: ManifestLists(db.manifests - {key}, h)
  {
    hide Recovers, Sound, Apart, BaseAsks, Trims, ManifestLists, LiveHashes;
    PruneTrims(db, key);
    PruneSweeps(db, key);
    TrimmedReopens(x, usable, db, PruneColumns(db, key).value, st, all);
    forall h | BaseAsks(x, db, h)
      ensures h in db.nodes
    {
      AskedStored(x, usable, db, st, all, h);
    }
  }

  // ----- a whole pass -----

  /** Every retained root has its manifest, and the other way round. */
  ghost predicate Tidy(c: Columns) {
    c.roots.Keys == c.manifests.Keys
  }

  ghost predicate HeadWithin(c: Columns, d: B256, cutoff: nat) {
    d in c.heads ==> c.heads[d].height >= cutoff
  }

  lemma RootPruned(c: Columns, key: RootKey)
    requires Tidy(c) && key in c.manifests && !IsHead(c, key)
    ensures PruneColumns(c, key).Ok?
    ensures var next := PruneColumns(c, key).value;
            && Tidy(next) && next.heads == c.heads
            && forall other :: other in next.manifests <==> other in c.manifests && other != key
  {
    hide LiveHashes;
  }

  ghost predicate Passed(d: B256, heights: seq<u64>, cutoff: nat, key: RootKey) {
    key.domain == d && key.height in heights && key.height < cutoff
  }

  lemma PassedSplit(d: B256, heights: seq<u64>, cutoff: nat, key: RootKey)
    requires heights != []
    ensures Passed(d, heights, cutoff, key) <==>
            Passed(d, heights[1..], cutoff, key) || (key == RootKey(d, heights[0]) && heights[0] < cutoff)
  {
    assert heights == [heights[0]] + heights[1..];
  }

  lemma {:induction false} HeightsPruned(c: Columns, d: B256, heights: seq<u64>, cutoff: nat)
    requires Tidy(c) && HeadWithin(c, d, cutoff)
    requires forall i, j | 0 <= i < j < |heights| :: heights[i] < heights[j]
    requires forall i | 0 <= i < |heights| :: RootKey(d, heights[i]) in c.manifests
    ensures var p := PruneHeights(c, d, heights, cutoff);
            && p.error.None? && Tidy(p.columns) && p.columns.heads == c.heads
            && forall key :: key in p.columns.manifests <==> key in c.manifests && !Passed(d, heights, cutoff, key)
    decreases |heights|
  {
    hide PruneColumns, Passed, Tidy;
    if heights == [] {
      forall key: RootKey
        ensures !Passed(d, heights, cutoff, key)
      {
        NotPassed(d, heights, cutoff, key);
      }
    } else {
      forall key: RootKey
        ensures Passed(d, heights, cutoff, key) <==>
                Passed(d, heights[1..], cutoff, key) || (key == RootKey(d, heights[0]) && heights[0] < cutoff)
      {
        PassedSplit(d, heights, cutoff, key);
      }
      assert forall i | 0 <= i < |heights[1..]| :: heights[1..][i] == heights[i + 1];
      if heights[0] >= cutoff {
        HeightsPruned(c, d, heights[1..], cutoff);
      } else {
        RootPruned(c, RootKey(d, heights[0]));
        HeightsPruned(PruneColumns(c, RootKey(d, heights[0])).value, d, heights[1..], cutoff);
      }
    }
  }

  lemma NotPassed(d: B256, heights: seq<u64>, cutoff: nat, key: RootKey)
    requires heights == []
    ensures !Passed(d, heights, cutoff, key)
  {
  }

  /** When no head of the named domains lies below the cutoff the pass finishes, and forgets exactly
      their roots below it. */
  lemma {:induction false} DomainsPruned(c: Columns, states: seq<StateCommit>, cutoff: nat)
    requires Tidy(c) && forall i | 0 <= i < |states| :: HeadWithin(c, states[i].domainId, cutoff)
    ensures var p := PruneDomains(c, states, cutoff);
            && p.error.None? && Tidy(p.columns) && p.columns.heads == c.heads
            && forall key :: key in p.columns.manifests <==>
                 key in c.manifests && !(InDomains(states, key.domain) && key.height < cutoff)
    decreases |states|
  {
    hide PruneHeights, InDomains;
    if states == [] {
      forall d: B256
        ensures !InDomains(states, d)
      {
        NoDomain(states, d);
      }
    } else {
      var d := states[0].domainId;
      var heights := Ascending(HeightsOf(c, d));
      assert forall h: u64 :: h in heights <==> RootKey(d, h) in c.roots by {
        assert forall h: u64 | RootKey(d, h) in c.roots :: RootKey(d, h).height in HeightsOf(c, d);
      }
      HeightsPruned(c, d, heights, cutoff);
      var first := PruneHeights(c, d, heights, cutoff).columns;
      DomainsPruned(first, states[1..], cutoff);
      forall e: B256
        ensures InDomains(states, e) <==> e == d || InDomains(states[1..], e)
      {
        InTail(states, e);
      }
    }
  }

  lemma NoDomain(states: seq<StateCommit>, d: B256)
    requires states == []
    ensures !InDomains(states, d)
  {
  }

  /** The manifest of a current head is never pruned, whether or not the pass finishes. */
  lemma {:induction false} HeadsKept(c: Columns, d: B256, heights: seq<u64>, cutoff: nat, key: RootKey)
    requires IsHead(c, key) && key in c.manifests
    ensures var p := PruneHeights(c, d, heights, cutoff).columns;
            p.heads == c.heads && key in p.manifests && p.manifests[key] == c.manifests[key]
    decreases |heights|
  {
    hide LiveHashes;
    if heights != [] {
      if heights[0] >= cutoff {
        HeadsKept(c, d, heights[1..], cutoff, key);
      } else if PruneColumns(c, RootKey(d, heights[0])).Ok? {
        HeadsKept(PruneColumns(c, RootKey(d, heights[0])).value, d, heights[1..], cutoff, key);
      }
    }
  }

  lemma {:induction false} HeadKept(c: Columns, states: seq<StateCommit>, cutoff: nat, key: RootKey)
    requires IsHead(c, key) && key in c.manifests
    ensures var p := PruneDomains(c, states, cutoff).columns;
            key in p.manifests && p.manifests[key] == c.manifests[key]
    decreases |states|
  {
    hide PruneHeights, Ascending, HeightsOf;
    if states != [] {
      var d := states[0].domainId;
      HeadsKept(c, d, Ascending(HeightsOf(c, d)), cutoff, key);
      var first := PruneHeights(c, d, Ascending(HeightsOf(c, d)), cutoff);
      if first.error.None? {
        HeadKept(first.columns, states[1..], cutoff, key);
      }
    }
  }

  /** A manifest outside the pass lists the hash. */
  ghost predicate StaysListed(c: Columns, states: seq<StateCommit>, cutoff: nat, h: B256) {
    hide InDomains;
    exists key :: key in c.manifests && h in c.manifests[key].nodeHashes
                  && !(InDomains(states, key.domain) && key.height < cutoff)
  }

  /** Under full retention, with no committed head older than the window, a database that reopens still
      does after the pass if and only if every hash its reopening asks for is listed by a manifest the
      pass leaves alone, or by none at all. */
  lemma RetainReopens(x: Setup, usable: Usable, db: Columns, history: u64, height: u64, states: seq<StateCommit>,
                      st: ChainState, all: set<Bytes>)
    requires Sound(x, usable) && Recovers(x, usable, db, st) && Apart(x.m.k, db.nodes, all) && Tidy(db)
    requires forall i | 0 <= i < |states| :: HeadWithin(db, states[i].domainId, Cutoff(height, history))
    ensures Recovers(x, usable, Retain(db, Full(history), height, states).columns, st) <==>
            forall h | BaseAsks(x, db, h) ::
              StaysListed(db, states, Cutoff(height, history), h) || !ManifestLists(db.manifests, h)
  {
    hide Recovers, Sound, Apart, BaseAsks, Trims, PruneDomains, InDomains, HeadWithin, Tidy;
    var cutoff := Cutoff(height, history);
    var less := PruneDomains(db, states, cutoff).columns;
    RetainTrims(db, Full(history), height, states);
    PruneDomainsSweeps(db, states, cutoff);
    DomainsPruned(db, states, cutoff);
    TrimmedReopens(x, usable, db, less, st, all);
    forall h
      ensures ManifestLists(less.manifests, h) <==> StaysListed(db, states, cutoff, h)
    {
      ListedAfter(db, less, states, cutoff, h);
    }
    forall h | BaseAsks(x, db, h)
      ensures h in db.nodes
    {
      AskedStored(x, usable, db, st, all, h);
    }
  }

  lemma ListedAfter(c: Columns, less: Columns, states: seq<StateCommit>, cutoff: nat, h: B256)
    requires Sweeps(c, less)
    requires forall key :: key in less.manifests <==>
               key in c.manifests && !(InDomains(states, key.domain) && key.height < cutoff)
    ensures ManifestLists(less.manifests, h) <==> StaysListed(c, states, cutoff, h)
  {
    hide InDomains;
    if ManifestLists(less.manifests, h) {
      var key :| key in less.manifests && h in less.manifests[key].nodeHashes;
      assert key in c.manifests && h in c.manifests[key].nodeHashes;
    }
    if StaysListed(c, states, cutoff, h) {
      var key :| key in c.manifests && h in c.manifests[key].nodeHashes
                 && !(InDomains(states, key.domain) && key.height < cutoff);
      assert key in less.manifests && h in less.manifests[key].nodeHashes;
    }
  }

  // ===== the height window over an imported checkpoint =====

  // ----- what a commit records -----

  function KeyFor(s: StateCommit): RootKey {
    RootKey(s.domainId, s.consensusHeight)
  }

  lemma AppendRecords(k: Keccak, db: Columns, batch: CommitBatch, n: nat)
    requires 0 < n <= |batch.states| && AppendFirst(k, db, batch, n).Ok?
    ensures AppendFirst(k, db, batch, n - 1).Ok?
    ensures var prior, next := AppendFirst(k, db, batch, n - 1).value, AppendFirst(k, db, batch, n).value;
            var s := batch.states[n - 1];
            && next.roots == prior.roots[KeyFor(s) := s.snapshot.root]
            && next.manifests == prior.manifests[KeyFor(s) := ManifestOf(s.snapshot)]
  {
    hide CollectLeaves, Conflicts, CachedKeys, FlatOf;
  }

  /** Among the first states there is one with this key. */
  ghost predicate KeyAmong(states: seq<StateCommit>, n: nat, key: RootKey)
    requires n <= |states|
  {
    exists i :: 0 <= i < n && KeyFor(states[i]) == key
  }

  lemma {:induction false} AppendedTidy(k: Keccak, db: Columns, batch: CommitBatch, n: nat)
    requires Tidy(db) && n <= |batch.states| && AppendFirst(k, db, batch, n).Ok?
    ensures Tidy(AppendFirst(k, db, batch, n).value)
  {
    hide AppendFirst;
    if n == 0 {
      AppendNone(k, db, batch);
    } else {
      AppendRecords(k, db, batch, n);
      AppendedTidy(k, db, batch, n - 1);
    }
  }

  lemma {:induction false} AppendedKept(k: Keccak, db: Columns, batch: CommitBatch, n: nat, key: RootKey)
    requires n <= |batch.states| && AppendFirst(k, db, batch, n).Ok?
    requires key in db.manifests && !KeyAmong(batch.states, n, key)
    ensures var next := AppendFirst(k, db, batch, n).value;
            key in next.manifests && next.manifests[key] == db.manifests[key]
  {
    hide AppendFirst;
    if n == 0 {
      AppendNone(k, db, batch);
    } else {
      AppendRecords(k, db, batch, n);
      assert forall i | 0 <= i < n - 1 :: KeyFor(batch.states[i]) != key;
      AppendedKept(k, db, batch, n - 1, key);
      assert KeyFor(batch.states[n - 1]) != key;
    }
  }

  lemma {:induction false} AppendedRecorded(k: Keccak, db: Columns, batch: CommitBatch, n: nat, i: nat)
    requires i < n <= |batch.states| && UniqueDomains(batch.states) && AppendFirst(k, db, batch, n).Ok?
    ensures var next := AppendFirst(k, db, batch, n).value;
            var key := KeyFor(batch.states[i]);
            key in next.manifests && next.manifests[key] == ManifestOf(batch.states[i].snapshot)
  {
    hide AppendFirst;
    AppendRecords(k, db, batch, n);
    if i < n - 1 {
      AppendedRecorded(k, db, batch, n - 1, i);
      assert batch.states[i].domainId != batch.states[n - 1].domainId;
    }
  }

  /** A commit keeps roots and manifests paired, and records the manifest of every committed state. */
  lemma CommitManifests(k: Keccak, db: Columns, batch: CommitBatch, i: nat)
    requires Tidy(db) && CommitColumns(k, db, batch).Ok? && i < |batch.states|
    ensures var next := CommitColumns(k, db, batch).value;
            var key := KeyFor(batch.states[i]);
            && Tidy(next) && key in next.manifests && IsHead(next, key)
            && next.manifests[key] == ManifestOf(batch.states[i].snapshot)
  {
    hide AppendFirst, PutAll, InDomains, RegistryCheck, UniqueKeys;
    CommitEffect(k, db, batch);
    CommitTidy(k, db, batch);
    AppendedRecorded(k, db, batch, |batch.states|, i);
  }

  lemma CommitKeepsManifest(k: Keccak, db: Columns, batch: CommitBatch, key: RootKey)
    requires CommitColumns(k, db, batch).Ok? && key in db.manifests && !KeyAmong(batch.states, |batch.states|, key)
    ensures var next := CommitColumns(k, db, batch).value;
            key in next.manifests && next.manifests[key] == db.manifests[key]
  {
    hide AppendFirst, PutAll, InDomains, RegistryCheck, UniqueKeys, KeyAmong;
    AppendedKept(k, db, batch, |batch.states|, key);
  }

  // ----- the window -----

  lemma {:induction false} ResultsNow(m: Machine, parent: ChainState, batches: seq<DomainBatch>, n: nat, height: u64,
                                      timestamp: u64, proposer: Address)
    requires n <= |batches| && ExecuteFirst(m, parent, batches, n, height, timestamp, proposer).Ok?
    ensures var blocks := ExecuteFirst(m, parent, batches, n, height, timestamp, proposer).value.blocks;
            forall i | 0 <= i < n :: blocks[i].consensusHeight == height
  {
    hide InsertFirst, HashDomain, EnvFor, ContextFor, NextBaseFee;
    if n > 0 {
      ResultsNow(m, parent, batches, n - 1, height, timestamp, proposer);
    }
  }

  lemma {:induction false} StatesNow(blocks: seq<DomainHeader>, executions: seq<Execution>, height: u64)
    requires |blocks| == |executions| && forall i | 0 <= i < |blocks| :: blocks[i].consensusHeight == height
    ensures forall i | 0 <= i < |StatesOf(blocks, executions, height)| ::
              StatesOf(blocks, executions, height)[i].consensusHeight == height
  {
    if blocks != [] {
      StatesNow(blocks[..|blocks| - 1], executions[..|blocks| - 1], height);
    }
  }

  /** Every state a block commits is at the height of the block. */
  lemma BlockStatesNow(x: Setup, st: ChainState, block: ConsensusBlock)
    requires Validate(x.m, st, block).Ok? && Shaped(Validate(x.m, st, block).value)
    requires ProposalBatch(x, Validate(x.m, st, block).value).Ok?
    ensures var p := Validate(x.m, st, block).value;
            var batch := ProposalBatch(x, p).value;
            && batch.marker.height == p.state.height == st.height + 1
            && forall i | 0 <= i < |batch.states| :: batch.states[i].consensusHeight == batch.marker.height
  {
    hide Covers, EncodeBlock, HashConsensus, StatesOf, ExecuteFirst, Seal, CompareCandidate, BatchesOrdered, HeadsRoot,
         LocationsOf, AllDescriptors, ReceiptsOf, CodeOf;
    ValidatedShape(x.m, st, block);
    var timestamp, proposer := block.header.timestamp, block.header.proposer;
    var run := ExecuteFirst(x.m, st, block.batches, |block.batches|, st.height + 1, timestamp, proposer).value;
    ResultsNow(x.m, st, block.batches, |block.batches|, st.height + 1, timestamp, proposer);
    SealShape(x.m, st, run, block.batches, timestamp, proposer);
    StatesNow(run.blocks, run.executions, st.height + 1);
  }

  // ----- the pruning error -----

  /** A block never leaves an error behind, whatever the window. */
  lemma BlockPruningFinishes(x: Setup, n: Node, block: ConsensusBlock, history: u64)
    requires Tidy(n.db) && CommitBlock(x, n, block).Some?
    ensures Retain(CommitBlock(x, n, block).value.db, Full(history), n.finalized.height + 1,
                   ProposalBatch(x, Validate(x.m, n.finalized, block).value).value.states).error.None?
  {
    hide Validate, ProposalBatch, CommitColumns, PruneDomains, Tidy;
    var batch := ProposalBatch(x, Validate(x.m, n.finalized, block).value).value;
    var db := CommitBlock(x, n, block).value.db;
    BlockStatesNow(x, n.finalized, block);
    CommitEffect(x.m.k, n.db, batch);
    CommitTidy(x.m.k, n.db, batch);
    DomainsPruned(db, batch.states, Cutoff(batch.marker.height, history));
  }

  lemma CommitTidy(k: Keccak, db: Columns, batch: CommitBatch)
    requires Tidy(db) && CommitColumns(k, db, batch).Ok?
    ensures Tidy(CommitColumns(k, db, batch).value)
  {
    hide AppendFirst, PutAll, RegistryCheck, UniqueKeys;
    AppendedTidy(k, db, batch, |batch.states|);
  }

  /** An adopted checkpoint does exactly when one of its domains was last touched before the window: the
      commit stands, and the pruning pass stops with an error. */
  lemma IdleDomainStopsPruning(x: Setup, db: Columns, history: History, cleared: set<B256>, st: ChainState, span: u64)
    requires Consistent(x.m.k, db, history, cleared)
    requires CheckpointBatch(x, st).Ok? && CommitColumns(x.m.k, db, CheckpointBatch(x, st).value).Ok?
    requires ContentAddressed(x.m.k, CheckpointBatch(x, st).value.states)
    requires CollisionFree(x.m.k, BatchBytes(CheckpointBatch(x, st).value.states))
    ensures var batch := CheckpointBatch(x, st).value;
            var (_, stats) := Finished(CommitColumns(x.m.k, db, batch).value, Full(span), batch);
            stats.pruningError.Some? <==>
            exists d :: d in st.domains && st.domains[d].header.consensusHeight < Cutoff(st.height, span)
  {
    hide CommitColumns, EncodeCheckpoint, HeadsRoot, CheckpointDescriptors, EncodeWal, CodeOfDomains, Finished,
         Consistent, ContentAddressed, CollisionFree, SortedKeys, RecordOf;
    var batch := CheckpointBatch(x, st).value;
    FinishedKeeps(x.m.k, db, history, cleared, Full(span), batch);
    var cutoff := Cutoff(st.height, span);
    var ids := SortedKeys(st.domains.Keys);
    if StateBelow(batch.states, cutoff) {
      var i :| 0 <= i < |batch.states| && batch.states[i].consensusHeight < cutoff;
      assert ids[i] in ids;
    }
    if d :| d in st.domains && st.domains[d].header.consensusHeight < cutoff {
      assert d in ids;
      var i :| 0 <= i < |ids| && ids[i] == d;
      assert batch.states[i].consensusHeight < cutoff;
    }
  }

  // ----- a run that loses its checkpoint -----

  /** The node after a commit of these states, once the pruning pass has run. */
  ghost function Swept(n: Node, history: u64, states: seq<StateCommit>): Node {
    n.(db := Retain(n.db, Full(history), n.finalized.height, states).columns)
  }

  ghost function AdoptedStates(st: ChainState): seq<StateCommit> {
    CheckpointStates(Projected(st), SortedKeys(Projected(st).domains.Keys))
  }

  /** A state whose manifest is kept keeps all it carries. */
  lemma KeptStored(c: Columns, less: Columns, key: RootKey, nodes: NodeMap)
    requires Sweeps(c, less) && Stored(nodes, c.nodes) && Stored(less.nodes, c.nodes)
    requires key in less.manifests && less.manifests[key].nodeHashes == nodes.Keys
    ensures Stored(nodes, less.nodes)
  {
    forall h | h in nodes
      ensures h in less.nodes && less.nodes[h] == nodes[h]
    {
      assert ManifestLists(less.manifests, h);
    }
  }

  /** The pass after the adoption touches no node of the checkpoint: its roots are the heads. */
  lemma AdoptedKept(x: Setup, db: Columns, st: ChainState, next: Columns, history: u64, d: B256)
    requires CheckpointComplete.Imports(x, db, st, next) && Tidy(db) && d in st.domains
    requires Restorable(x, st.domains[d].state)
    ensures var states := CheckpointStates(st, SortedKeys(st.domains.Keys));
            var less := Retain(next, Full(history), st.height, states).columns;
            var key := RootKey(d, st.domains[d].header.consensusHeight);
            && Readable(x, st.domains[d].state, less.nodes, less.code)
            && key in less.manifests && less.manifests[key].nodeHashes == st.domains[d].state.snapshot.nodes.Keys
  {
    hide CommitColumns, SortedKeys, ContentAddressed, CollisionFree, PruneDomains, Tidy, Sweeps, CollectLeaves,
         LoadState, CheckpointBatch, CodeCovers, Stored;
    var batch := CheckpointBatch(x, st).value;
    var s := st.domains[d].state;
    AdoptedBatch(x, st);
    var i := AdoptedIndex(x, st, d);
    CommitManifests(x.m.k, db, batch, i);
    CommitStores(x.m.k, db, batch);
    var cutoff := Cutoff(st.height, history);
    var less := PruneDomains(next, batch.states, cutoff).columns;
    HeadKept(next, batch.states, cutoff, KeyFor(batch.states[i]));
    PruneDomainsSweeps(next, batch.states, cutoff);
    PruneDomainsTrims(next, batch.states, cutoff);
    KeptStored(next, less, KeyFor(batch.states[i]), s.snapshot.nodes);
    AdoptedCode(x, db, st, next, d);
    StateReadable(x, s, less.nodes, less.code);
  }

  lemma AdoptedBatch(x: Setup, st: ChainState)
    requires CheckpointBatch(x, st).Ok?
    ensures CheckpointBatch(x, st).value.states == CheckpointStates(st, SortedKeys(st.domains.Keys))
    ensures CheckpointBatch(x, st).value.marker.height == st.height
  {
    hide SortedKeys, EncodeCheckpoint, HeadsRoot, CheckpointDescriptors, EncodeWal, CodeOfDomains, CheckpointStates;
  }

  lemma AdoptedIndex(x: Setup, st: ChainState, d: B256) returns (i: nat)
    requires CheckpointBatch(x, st).Ok? && d in st.domains
    ensures var states := CheckpointBatch(x, st).value.states;
            && i < |states|
            && states[i] == StateCommit(d, st.domains[d].header.consensusHeight, st.domains[d].state.snapshot)
  {
    hide SortedKeys, EncodeCheckpoint, HeadsRoot, CheckpointDescriptors, EncodeWal, CodeOfDomains;
    var ids := SortedKeys(st.domains.Keys);
    assert d in ids;
    i :| 0 <= i < |ids| && ids[i] == d;
  }

  lemma AdoptedCode(x: Setup, db: Columns, st: ChainState, next: Columns, d: B256)
    requires CheckpointBatch(x, st).Ok? && CommitColumns(x.m.k, db, CheckpointBatch(x, st).value) == Ok(next)
    requires d in st.domains
    ensures CodeCovers(x.m.k, st.domains[d].state.code, next.code)
  {
    hide CommitColumns, SortedKeys, EncodeCheckpoint, HeadsRoot, CheckpointDescriptors, EncodeWal, CodeOfDomains,
         PutAll, CodeCovers, Stored;
    var ids := SortedKeys(st.domains.Keys);
    assert d in ids;
    CommitEffect(x.m.k, db, CheckpointBatch(x, st).value);
    CodeListed(st, ids, d);
    CodeCovered(x.m.k, st.domains[d].state.code, db.code, CheckpointBatch(x, st).value.code);
  }

  /** The import a node makes when it adopts a checkpoint. */
  lemma AdoptionImports(x: Setup, usable: Usable, n: Node, st: ChainState)
    requires CommitCheckpoint(x, n, st).Some? && GoodImport(x, usable, st)
    ensures var kept := Projected(st);
            var n1 := CommitCheckpoint(x, n, st).value;
            && n1.finalized == kept && CheckpointComplete.Imports(x, n.db, kept, n1.db)
            && CheckpointFits(x, kept) && SameIdentity(x, kept) && kept.descriptors.Keys <= kept.domains.Keys
  {
    hide CommitColumns, CheckpointFits, HeadsRoot, SortedKeys, CheckpointStates, ContentAddressed, CollisionFree,
         UsableChain, NamesValid, Restorable, FromCheckpoint, CheckpointBatch, Projected;
    KeptFits(x, st, HeadsRoot(x.m.k, st));
    BatchStates(x, Projected(st));
    ProjectedFrame(st);
  }

  /** The record stored with a checkpoint is the one of its chain state. */
  lemma AdoptedRecord(x: Setup, db: Columns, st: ChainState, next: Columns)
    requires CheckpointComplete.Imports(x, db, st, next) && NamesValid(x, st) && CheckpointFits(x, st)
    ensures EncodeCheckpoint(RecordOf(x, st)).Ok? && KEY_CHECKPOINT in next.indexes
    ensures next.indexes[KEY_CHECKPOINT] == EncodeCheckpoint(RecordOf(x, st)).value
    ensures DecodeCheckpoint(x.utf8, next.indexes[KEY_CHECKPOINT]) == Ok(RecordOf(x, st))
  {
    hide CommitColumns, EncodeCheckpoint, DecodeCheckpoint, RecordOf, CheckpointBatch, PutAll, NamesValid,
         CheckpointFits, ContentAddressed, CollisionFree;
    CommitEffect(x.m.k, db, CheckpointBatch(x, st).value);
    ImportIndexes(x, st, db);
    FitsNonEmpty(x, st);
    RecordReadsBack(x, st);
  }

  /** After the adoption and its pass the node comes back. */
  lemma SweptAdoption(x: Setup, usable: Usable, n: Node, st: ChainState, history: u64)
    requires Sound(x, usable) && Durable(x, usable, n) && Tidy(n.db) && GoodImport(x, usable, st)
    requires CommitCheckpoint(x, n, st).Some?
    ensures Durable(x, usable, Swept(CommitCheckpoint(x, n, st).value, history, AdoptedStates(st)))
  {
    hide CommitCheckpoint, Recovers, Sound, CheckpointComplete.Imports, CheckpointFits, NamesValid, Restorable,
         Readable, Retain, RecordOf, EncodeCheckpoint, DecodeCheckpoint, SortedKeys, CheckpointStates, Projected,
         UsableChain, ContentAddressed, CollisionFree, Tidy, LoadCheckpoint;
    var kept, n1 := Projected(st), CommitCheckpoint(x, n, st).value;
    ImportDurable(x, usable, n, st);
    AdoptionImports(x, usable, n, st);
    AdoptedRecord(x, n.db, kept, n1.db);
    RetainTrims(n1.db, Full(history), kept.height, AdoptedStates(st));
    var less := Retain(n1.db, Full(history), kept.height, AdoptedStates(st)).columns;
    forall d | d in kept.domains
      ensures Readable(x, kept.domains[d].state, less.nodes, less.code)
    {
      AdoptedKept(x, n.db, kept, n1.db, history, d);
    }
    StoredCheckpointLoads(x, usable, kept, less.nodes, less.code);
    TrimmedIfLoads(x, usable, n1.db, less, kept);
  }

  lemma {:induction false} HeightsTidy(c: Columns, d: B256, heights: seq<u64>, cutoff: nat)
    requires Tidy(c)
    ensures Tidy(PruneHeights(c, d, heights, cutoff).columns)
    decreases |heights|
  {
    hide LiveHashes;
    if heights != [] {
      if heights[0] >= cutoff {
        HeightsTidy(c, d, heights[1..], cutoff);
      } else if PruneColumns(c, RootKey(d, heights[0])).Ok? {
        HeightsTidy(PruneColumns(c, RootKey(d, heights[0])).value, d, heights[1..], cutoff);
      }
    }
  }

  lemma {:induction false} DomainsTidy(c: Columns, states: seq<StateCommit>, cutoff: nat)
    requires Tidy(c)
    ensures Tidy(PruneDomains(c, states, cutoff).columns)
    decreases |states|
  {
    hide PruneHeights, Ascending, HeightsOf, Tidy;
    if states != [] {
      var d := states[0].domainId;
      HeightsTidy(c, d, Ascending(HeightsOf(c, d)), cutoff);
      DomainsTidy(PruneHeights(c, d, Ascending(HeightsOf(c, d)), cutoff).columns, states[1..], cutoff);
    }
  }

  ghost function BlockStates(x: Setup, n: Node, block: ConsensusBlock): seq<StateCommit>
    requires CommitBlock(x, n, block).Some?
  {
    ProposalBatch(x, Validate(x.m, n.finalized, block).value).value.states
  }

  /** A node that adopted the checkpoint under this window. */
  ghost function Adopter(x: Setup, n: Node, st: ChainState, history: u64): Node
    requires CommitCheckpoint(x, n, st).Some?
  {
    hide CommitCheckpoint;
    Swept(CommitCheckpoint(x, n, st).value, history, AdoptedStates(st))
  }

  /** A block of a domain whose state in the checkpoint is older than the window, and whose old root no
      other retained manifest lists. */
  ghost predicate Forgets(x: Setup, n: Node, st: ChainState, block: ConsensusBlock, history: u64, d: B256) {
    hide CommitBlock;
    && CommitBlock(x, n, block).Some? && d in st.domains && InDomains(BlockStates(x, n, block), d)
    && var db := CommitBlock(x, n, block).value.db;
       var root, height := st.domains[d].state.snapshot.root, st.domains[d].header.consensusHeight;
       && root != x.m.k(EMPTY_TRIE) && height < Cutoff(CommitBlock(x, n, block).value.finalized.height, history)
       && forall key | key in db.manifests && key != RootKey(d, height) :: root !in db.manifests[key].nodeHashes
  }

  /** A pass that leaves no manifest listing a root takes its node. */
  lemma OldRootGoes(k: Keccak, before: Columns, batch: CommitBatch, cutoff: nat, key: RootKey, root: B256)
    requires Tidy(before) && CommitColumns(k, before, batch).Ok? && cutoff <= batch.marker.height
    requires forall i | 0 <= i < |batch.states| :: batch.states[i].consensusHeight == batch.marker.height
    requires key in before.manifests && root in before.manifests[key].nodeHashes
    requires InDomains(batch.states, key.domain) && key.height < cutoff
    requires var next := CommitColumns(k, before, batch).value;
             forall other | other in next.manifests && other != key :: root !in next.manifests[other].nodeHashes
    ensures root !in PruneDomains(CommitColumns(k, before, batch).value, batch.states, cutoff).columns.nodes
  {
    hide CommitColumns, PruneDomains, Tidy, PutAll, UniqueKeys;
    var next := CommitColumns(k, before, batch).value;
    assert !KeyAmong(batch.states, |batch.states|, key);
    CommitKeepsManifest(k, before, batch, key);
    CommitEffect(k, before, batch);
    CommitTidy(k, before, batch);
    DomainsPruned(next, batch.states, cutoff);
    PruneDomainsSweeps(next, batch.states, cutoff);
    assert ManifestLists(next.manifests, root);
  }

  lemma CutoffBelow(height: u64, history: u64)
    ensures Cutoff(height, history) <= height
  {
  }

  /** The pass after the block takes the old root node. */
  lemma RootSwept(x: Setup, n: Node, st: ChainState, block: ConsensusBlock, history: u64, d: B256)
    requires Forgets(x, n, st, block, history, d) && Tidy(n.db)
    requires var key := RootKey(d, st.domains[d].header.consensusHeight);
             key in n.db.manifests && st.domains[d].state.snapshot.root in n.db.manifests[key].nodeHashes
    ensures st.domains[d].state.snapshot.root !in
            Swept(CommitBlock(x, n, block).value, history, BlockStates(x, n, block)).db.nodes
  {
    hide Validate, ProposalBatch, CommitColumns, PruneDomains, Tidy, Shaped, InDomains, Cutoff;
    var batch := ProposalBatch(x, Validate(x.m, n.finalized, block).value).value;
    BlockStatesNow(x, n.finalized, block);
    CutoffBelow(batch.marker.height, history);
    OldRootGoes(x.m.k, n.db, batch, Cutoff(batch.marker.height, history),
                RootKey(d, st.domains[d].header.consensusHeight), st.domains[d].state.snapshot.root);
  }

  /** Everything still recovers after the block, and nothing does after its pruning pass. */
  ghost predicate LosesCheckpoint(x: Setup, usable: Usable, n: Node, block: ConsensusBlock, history: u64) {
    hide CommitBlock, Durable, Reopen;
    && Durable(x, usable, n) && CommitBlock(x, n, block).Some?
    && var next := CommitBlock(x, n, block).value;
       var swept := Swept(next, history, BlockStates(x, n, block));
       Durable(x, usable, next) && swept.db.marker.Some? && Reopen(x, swept.db).Err?
  }

  /** Adopt a checkpoint under full retention, commit one block of a domain that had been idle for the
      whole window, and let the pass run: the database reopened until then, and does not any more. */
  lemma WindowLosesCheckpoint(x: Setup, usable: Usable, n: Node, st: ChainState, block: ConsensusBlock, history: u64,
                              d: B256)
    requires Sound(x, usable) && Durable(x, usable, n) && Tidy(n.db) && GoodImport(x, usable, st)
    requires CommitCheckpoint(x, n, st).Some?
    requires Forgets(x, Adopter(x, n, st, history), Projected(st), block, history, d)
    ensures LosesCheckpoint(x, usable, Adopter(x, n, st, history), block, history)
  {
    hide CommitCheckpoint, CommitBlock, Durable, Reopen, Sound, Tidy, Retain, Projected, CheckpointComplete.Imports,
         CheckpointFits, NamesValid, Restorable, Readable, RecordOf, DecodeCheckpoint, EncodeCheckpoint,
         CheckpointStates, SortedKeys, ContentAddressed, CollisionFree, UsableChain, InDomains, BlockStates;
    var kept, n1, m1 := Projected(st), CommitCheckpoint(x, n, st).value, Adopter(x, n, st, history);
    AdoptionImports(x, usable, n, st);
    AdoptedRecord(x, n.db, kept, n1.db);
    SweptAdoption(x, usable, n, st, history);
    AdoptedKept(x, n.db, kept, n1.db, history, d);
    BlockDurable(x, usable, m1, block);
    AdopterTidy(x, usable, n, st, history);
    OwnRoot(x, kept.domains[d].state);
    RootSwept(x, m1, kept, block, history, d);
    FinalizedNext(x, m1, block);
    var swept := Swept(CommitBlock(x, m1, block).value, history, BlockStates(x, m1, block));
    SweptIndexes(x, n1, history, AdoptedStates(st));
    BlockKeepsRecord(x, m1, block, history);
    var i := RecordIndex(x, kept, d);
    PrunedCheckpointIsLost(x, swept.db, RecordOf(x, kept), i);
  }

  lemma AdopterTidy(x: Setup, usable: Usable, n: Node, st: ChainState, history: u64)
    requires CommitCheckpoint(x, n, st).Some? && Tidy(n.db) && GoodImport(x, usable, st)
    ensures Tidy(Adopter(x, n, st, history).db)
  {
    hide CommitCheckpoint, Tidy, GoodImport, CommitColumns, CheckpointBatch, ContentAddressed, CollisionFree,
         PruneDomains, CheckpointStates, SortedKeys, Projected;
    AdoptionImports(x, usable, n, st);
    CommitTidy(x.m.k, n.db, CheckpointBatch(x, Projected(st)).value);
    var n1 := CommitCheckpoint(x, n, st).value;
    DomainsTidy(n1.db, AdoptedStates(st), Cutoff(n1.finalized.height, history));
  }

  lemma OwnRoot(x: Setup, s: ExecutionState)
    requires Restorable(x, s) && s.snapshot.root != x.m.k(EMPTY_TRIE)
    ensures s.snapshot.root in s.snapshot.nodes
  {
    hide LoadState;
    if s.snapshot.root !in s.snapshot.nodes {
      RootMissing(x, s.snapshot.root, s.snapshot.nodes, s.code);
    }
  }

  lemma FinalizedNext(x: Setup, n: Node, block: ConsensusBlock)
    requires CommitBlock(x, n, block).Some?
    ensures CommitBlock(x, n, block).value.finalized.height == n.finalized.height + 1
    ensures CommitBlock(x, n, block).value.db.marker.Some?
  {
    hide Validate, ProposalBatch, CommitColumns, Shaped;
    BlockStatesNow(x, n.finalized, block);
    CommitEffect(x.m.k, n.db, ProposalBatch(x, Validate(x.m, n.finalized, block).value).value);
  }

  lemma SweptIndexes(x: Setup, n: Node, history: u64, states: seq<StateCommit>)
    ensures Swept(n, history, states).db.indexes == n.db.indexes && Swept(n, history, states).db.marker == n.db.marker
    ensures Swept(n, history, states).finalized == n.finalized
  {
    hide Retain;
    RetainTrims(n.db, Full(history), n.finalized.height, states);
  }

  lemma BlockKeepsRecord(x: Setup, n: Node, block: ConsensusBlock, history: u64)
    requires CommitBlock(x, n, block).Some? && KEY_CHECKPOINT in n.db.indexes
    ensures var swept := Swept(CommitBlock(x, n, block).value, history, BlockStates(x, n, block));
            && KEY_CHECKPOINT in swept.db.indexes && swept.db.indexes[KEY_CHECKPOINT] == n.db.indexes[KEY_CHECKPOINT]
            && swept.db.marker == CommitBlock(x, n, block).value.db.marker
  {
    hide Validate, ProposalBatch, CommitColumns, Shaped, Swept, PutAll, EncodeBlock;
    var p := Validate(x.m, n.finalized, block).value;
    CommitEffect(x.m.k, n.db, ProposalBatch(x, p).value);
    BlockIndexes(x, p, n.db);
    SweptIndexes(x, CommitBlock(x, n, block).value, history, BlockStates(x, n, block));
  }

  lemma RecordIndex(x: Setup, st: ChainState, d: B256) returns (i: nat)
    requires d in st.domains
    ensures i < |RecordOf(x, st).domains| && RecordOf(x, st).domains[i].stateRoot == st.domains[d].state.snapshot.root
  {
    hide SortedKeys, HeadsRoot;
    var ids := SortedKeys(st.domains.Keys);
    assert d in ids;
    i :| 0 <= i < |ids| && ids[i] == d;
  }
}
