/** The database object: commits, retention, pruning and the rebuildable cache, step by step. */
module Database {
  import opened Wrappers
  import opened Bytes
  import opened Ordered
  import opened Hashing
  import Layout
  import opened TrieCommit
  import opened TrieWalk
  import opened TrieWalker
  import opened Storage
  import opened StorageHistory
  import CommitEffects

  // ----- what every valid database answers -----

  /** Every retained root of every domain can still be walked to exactly the leaves committed
      under it, whatever else was committed and pruned. */
  lemma RetainedRootsWalk(k: Keccak, c: Columns, history: History, key: RootKey)
    requires Agrees(k, c, history) && key in history
    ensures key in c.roots && CollectLeaves(k, c.nodes, c.roots[key]) == Ok(history[key].leaves)
    ensures key in c.manifests && c.manifests[key].nodeHashes <= c.nodes.Keys
  {
    hide CollectLeaves;
    assert Recorded(k, c, key, history[key]);
    CollectStable(k, history[key].nodes, c.nodes, history[key].root);
  }

  /** Each head keeps its root, manifest and nodes, and its walk gives the flat entries. */
  lemma HeadsWalk(k: Keccak, c: Columns, history: History, d: B256)
    requires Agrees(k, c, history) && d in c.heads
    ensures var key := RootKey(d, c.heads[d].height);
            && key in c.roots && c.roots[key] == c.heads[d].root
            && key in c.manifests && c.manifests[key].nodeHashes <= c.nodes.Keys
            && CollectLeaves(k, c.nodes, c.heads[d].root) == Ok(LatestLeaves(c, history, d))
    ensures FlatExact(c, history, d) ==> CollectLeaves(k, c.nodes, c.heads[d].root) == Ok(FlatOf(c, d))
  {
    hide CollectLeaves, Recorded;
    assert HeadRecorded(c, history, d);
    var key := RootKey(d, c.heads[d].height);
    RetainedRootsWalk(k, c, history, key);
    assert c.roots[key] == history[key].root by { SameRoot(k, c, history, key); }
  }

  lemma SameRoot(k: Keccak, c: Columns, history: History, key: RootKey)
    requires Agrees(k, c, history) && key in history
    ensures key in c.roots && c.roots[key] == history[key].root
  {
    assert Recorded(k, c, key, history[key]);
  }

  /** Retention does not disturb the flat cache: no head is ever forgotten. */
  lemma FlatSurvives(k: Keccak, c: Columns, p: Pruning, history: History, cleared: set<B256>, domains: iset<B256>,
                     cutoff: nat)
    requires Agrees(k, c, history) && FlatAgrees(c, history, cleared)
    requires Pruned(k, c, p, history, domains, cutoff)
    ensures FlatAgrees(p.columns, HistoryOf(p.columns, history), cleared)
  {
    hide Recorded;
    var after := HistoryOf(p.columns, history);
    forall d
      ensures FlatExact(p.columns, after, d) || (d in cleared && FlatOf(p.columns, d) == map[])
    {
      assert HeadRecorded(p.columns, after, d);
      assert FlatExact(c, history, d) || (d in cleared && FlatOf(c, d) == map[]);
    }
  }

  ghost predicate Consistent(k: Keccak, c: Columns, history: History, cleared: set<B256>) {
    Agrees(k, c, history) && FlatAgrees(c, history, cleared)
  }

  /** Columns and statistics a commit leaves when its transaction was accepted. */
  function Finished(c: Columns, policy: RetentionPolicy, batch: CommitBatch): (Columns, CommitStats) {
    var p := Retain(c, policy, batch.marker.height, batch.states);
    (p.columns, CommitStats(if p.error.Some? then 0 else p.pruned, p.error))
  }

  ghost predicate Window(policy: RetentionPolicy, height: u64, h: u64) {
    policy.Full? ==> h >= Cutoff(height, policy.history)
  }

  /** One of the committed states is older than the cutoff. */
  ghost predicate StateBelow(states: seq<StateCommit>, cutoff: nat) {
    exists i :: 0 <= i < |states| && states[i].consensusHeight < cutoff
  }

  lemma CommittedHeads(k: Keccak, db: Columns, batch: CommitBatch, cutoff: nat)
    requires CommitColumns(k, db, batch).Ok?
    ensures HeadBelow(CommitColumns(k, db, batch).value, batch.states, cutoff) <==> StateBelow(batch.states, cutoff)
  {
    hide CommitColumns, PutAll, UniqueKeys;
    var c := CommitColumns(k, db, batch).value;
    CommitEffects.CommitEffect(k, db, batch);
    if HeadBelow(c, batch.states, cutoff) {
      var d :| InDomains(batch.states, d) && d in c.heads && c.heads[d].height < cutoff;
      var i :| 0 <= i < |batch.states| && batch.states[i].domainId == d;
      assert batch.states[i].consensusHeight < cutoff;
    }
    if StateBelow(batch.states, cutoff) {
      var i :| 0 <= i < |batch.states| && batch.states[i].consensusHeight < cutoff;
      assert InDomains(batch.states, batch.states[i].domainId);
    }
  }

  /** A whole commit under any policy: the history gains the batch and loses only roots of the
      committed domains that left the height window; every committed domain is exact; a pruning
      error is reported exactly when a committed state itself lies outside the window. */
  lemma FinishedKeeps(k: Keccak, db: Columns, history: History, cleared: set<B256>, policy: RetentionPolicy,
                      batch: CommitBatch)
    requires Consistent(k, db, history, cleared)
    requires ContentAddressed(k, batch.states) && CollisionFree(k, BatchBytes(batch.states))
    requires CommitColumns(k, db, batch).Ok?
    ensures var (c, stats) := Finished(CommitColumns(k, db, batch).value, policy, batch);
            var full := HistoryAfter(history, batch.states);
            var after := HistoryOf(c, full);
            && Consistent(k, c, after, cleared)
            && (forall d | InDomains(batch.states, d) :: FlatExact(c, after, d))
            && (policy.Archive? ==> after == full)
            && (forall key | key in full && key !in after ::
                  InDomains(batch.states, key.domain) && !Window(policy, batch.marker.height, key.height))
            && (stats.pruningError.None? ==>
                  forall key | key in after && InDomains(batch.states, key.domain) ::
                    Window(policy, batch.marker.height, key.height))
            && (stats.pruningError.Some? <==>
                  policy.Full? && StateBelow(batch.states, Cutoff(batch.marker.height, policy.history)))
  {
    hide CommitColumns, ContentAddressed, CollisionFree, Agrees, FlatAgrees, FlatExact, HistoryAfter, PruneDomains,
         InDomains, HistoryOf;
    CommitKeeps(k, db, history, cleared, batch);
    var c := CommitColumns(k, db, batch).value;
    var full := HistoryAfter(history, batch.states);
    match policy
    case Archive => HistoryOfAgreeing(k, c, full);
    case Full(span) =>
      var cutoff := Cutoff(batch.marker.height, span);
      var p := PruneDomains(c, batch.states, cutoff);
      var after := HistoryOf(p.columns, full);
      PruneDomainsKeeps(k, c, full, batch.states, cutoff);
      CommittedHeads(k, db, batch, cutoff);
      FlatSurvives(k, c, p, full, cleared, DomainsOf(batch.states), cutoff);
      ManifestsOf(k, p.columns, after);
      forall d | InDomains(batch.states, d)
        ensures FlatExact(p.columns, after, d)
      {
        ExactSurvives(k, c, p.columns, full, d);
      }
  }

  lemma ExactSurvives(k: Keccak, c: Columns, later: Columns, full: History, d: B256)
    requires FlatExact(c, full, d) && SameButRoots(c, later)
    requires Agrees(k, later, HistoryOf(later, full))
    ensures FlatExact(later, HistoryOf(later, full), d)
  {
    hide Recorded;
    assert HeadRecorded(later, HistoryOf(later, full), d);
  }

  lemma PruneConsistent(k: Keccak, c: Columns, history: History, cleared: set<B256>, key: RootKey)
    requires Consistent(k, c, history, cleared) && PruneColumns(c, key).Ok?
    ensures Consistent(k, PruneColumns(c, key).value, history - {key}, cleared)
  {
    hide Agrees, FlatAgrees, PruneColumns, HistoryOf;
    var next := PruneColumns(c, key).value;
    PruneKeeps(k, c, history, key);
    PrunedOnlyRoots(c, key);
    ManifestsOf(k, c, history);
    HistoryOfPruned(c, history, key);
    assert Trimmed(history, history - {key}, iset{key.domain}, key.height + 1);
    FlatSurvives(k, c, Pruning(next, 1, None), history, cleared, iset{key.domain}, key.height + 1);
  }

  // ----- whole runs -----

  datatype Operation =
    | Committing(batch: CommitBatch)
    | PruningRoot(key: RootKey)
    | ClearingFlat(domain: B256)
    | RebuildingFlat(domain: B256)

  /** Columns with the history and the set of cleared caches they stand for. */
  datatype Run = Run(columns: Columns, history: History, cleared: set<B256>)

  /** One operation; refused ones change nothing. A rebuild starts from the domain's head root. */
  ghost function Step(k: Keccak, policy: RetentionPolicy, s: Run, op: Operation): Run {
    var c := s.columns;
    match op
    case Committing(batch) =>
      var spec := CommitColumns(k, c, batch);
      if spec.Err? then s else
      var next := Finished(spec.value, policy, batch).0;
      Run(next, HistoryOf(next, HistoryAfter(s.history, batch.states)),
          set d | d in s.cleared && !InDomains(batch.states, d))
    case PruningRoot(key) =>
      var spec := PruneColumns(c, key);
      if spec.Err? then s else Run(spec.value, s.history - {key}, s.cleared)
    case ClearingFlat(d) => Run(c.(flat := c.flat - {d}), s.history, s.cleared + {d})
    case RebuildingFlat(d) =>
      if d !in c.heads || CollectLeaves(k, c.nodes, c.heads[d].root).Err? then s else
      var leaves := CollectLeaves(k, c.nodes, c.heads[d].root).value;
      Run(c.(flat := c.flat[d := FlatOf(c, d) + leaves]), s.history, s.cleared - {d})
  }

  ghost function After(k: Keccak, policy: RetentionPolicy, ops: seq<Operation>): Run {
    if ops == [] then Run(EMPTY_COLUMNS, map[], {}) else
    Step(k, policy, After(k, policy, ops[..|ops| - 1]), ops[|ops| - 1])
  }

  /** Snapshots as `build` and `extend_nodes` make them, without a hash collision inside a batch. */
  ghost predicate WellMade(k: Keccak, op: Operation) {
    op.Committing? ==> ContentAddressed(k, op.batch.states) && CollisionFree(k, BatchBytes(op.batch.states))
  }

  lemma StepConsistent(k: Keccak, policy: RetentionPolicy, s: Run, op: Operation)
    requires WellMade(k, op) && Consistent(k, s.columns, s.history, s.cleared)
    ensures var t := Step(k, policy, s, op); Consistent(k, t.columns, t.history, t.cleared)
    ensures op.RebuildingFlat? && op.domain in s.columns.heads ==>
              FlatExact(Step(k, policy, s, op).columns, s.history, op.domain)
  {
    hide CommitColumns, PruneColumns, CollectLeaves, Finished, HistoryOf, HistoryAfter, FlatAgrees;
    match op
    case Committing(batch) =>
      if CommitColumns(k, s.columns, batch).Ok? {
        FinishedKeeps(k, s.columns, s.history, s.cleared, policy, batch);
        var next := Finished(CommitColumns(k, s.columns, batch).value, policy, batch).0;
        Narrow(k, next, HistoryOf(next, HistoryAfter(s.history, batch.states)), s.cleared, batch.states);
      }
    case PruningRoot(key) =>
      if PruneColumns(s.columns, key).Ok? {
        PruneConsistent(k, s.columns, s.history, s.cleared, key);
      }
    case ClearingFlat(d) => FlatCleared(k, s.columns, s.history, s.cleared, d);
    case RebuildingFlat(d) =>
      if d in s.columns.heads {
        HeadsWalk(k, s.columns, s.history, d);
        FlatRebuilt(k, s.columns, s.history, s.cleared, d, LatestLeaves(s.columns, s.history, d));
      }
  }

  /** In every run of commits, prunes, clears and rebuilds, under any retention policy, the columns
      agree with the history of retained snapshots. */
  lemma {:induction false} RunConsistent(k: Keccak, policy: RetentionPolicy, ops: seq<Operation>)
    requires forall op | op in ops :: WellMade(k, op)
    ensures var s := After(k, policy, ops); Consistent(k, s.columns, s.history, s.cleared)
  {
    hide WellMade, Step, Consistent;
    if ops == [] {
      NothingStored(k);
    } else {
      RunConsistent(k, policy, ops[..|ops| - 1]);
      StepConsistent(k, policy, After(k, policy, ops[..|ops| - 1]), ops[|ops| - 1]);
    }
  }

  lemma NothingStored(k: Keccak)
    ensures Consistent(k, EMPTY_COLUMNS, map[], {})
  {
  }

  // ----- the object -----

  function Taken<V>(m: map<B256, V>, keys: seq<B256>): map<B256, V> {
    map h | h in m && h in keys :: m[h]
  }

  lemma TakenNone<V>(m: map<B256, V>, keys: seq<B256>)
    ensures Taken(m, keys[..0]) == map[]
  {
  }

  lemma TakenNext<V>(m: map<B256, V>, keys: seq<B256>, i: nat)
    requires i < |keys| && keys[i] in m
    ensures Taken(m, keys[..i + 1]) == Taken(m, keys[..i])[keys[i] := m[keys[i]]]
  {
    assert keys[..i + 1] == keys[..i] + [keys[i]];
  }

  lemma TakenAll<V>(m: map<B256, V>)
    ensures var keys := SortedKeys(m.Keys); Taken(m, keys[..|keys|]) == m
  {
    hide SortedKeys;
    var keys := SortedKeys(m.Keys);
    assert keys[..|keys|] == keys;
    assert forall h | h in m :: h in keys;
  }

  lemma MergedNext(nodes: NodeMap, pending: NodeMap, keys: seq<B256>, i: nat)
    requires i < |keys| && keys[i] in nodes
    ensures var merged := Taken(nodes, keys[..i]) + pending;
            var next := if keys[i] in merged then merged else merged[keys[i] := nodes[keys[i]]];
            next == Taken(nodes, keys[..i + 1]) + pending
  {
    TakenNext(nodes, keys, i);
  }

  ghost function Listed(keys: seq<B256>, n: nat): set<B256>
    requires n <= |keys|
  {
    set i | 0 <= i < n :: keys[i]
  }

  // ----- opening -----

  const SCHEMA_VERSION: u32 := 1

  /** Which network a database belongs to. */
  datatype DatabaseIdentity = DatabaseIdentity(networkId: B256, genesisHash: B256)

  /** The identity records of the metadata column. */
  datatype Meta = Meta(schema: Option<Bytes>, network: Option<Bytes>, genesis: Option<Bytes>)

  const NO_META: Meta := Meta(None, None, None)

  function MetaFor(identity: DatabaseIdentity): Meta {
    Meta(Some(Layout.PutU32(SCHEMA_VERSION)), Some(identity.networkId), Some(identity.genesisHash))
  }

  /** `initialize_or_validate`: the records after opening, or why it is refused. */
  function OpenMeta(meta: Meta, marked: bool, identity: DatabaseIdentity): Result<Meta, StorageError> {
    if meta.schema.None? then
      if meta.network.Some? || meta.genesis.Some? || marked then Err(CorruptMetadata("partial schema identity"))
      else Ok(MetaFor(identity))
    else if |meta.schema.value| != 4 then
      Err(CorruptMetadata("schema version"))
    else if Layout.GetU32(meta.schema.value) != SCHEMA_VERSION then
      Err(UnsupportedSchema(Layout.GetU32(meta.schema.value)))
    else if meta.network.None? then
      Err(CorruptMetadata("missing network id"))
    else if meta.genesis.None? then
      Err(CorruptMetadata("missing genesis hash"))
    else if |meta.network.value| != 32 then
      Err(CorruptMetadata("network id"))
    else if meta.network.value != identity.networkId then
      Err(IdentityMismatch)
    else if |meta.genesis.value| != 32 then
      Err(CorruptMetadata("genesis hash"))
    else if meta.genesis.value != identity.genesisHash then
      Err(IdentityMismatch)
    else
      Ok(meta)
  }

  /** A database opens when it is blank or already belongs to this identity, and then belongs to it: it
      opens again for the same identity and for no other. */
  lemma OpenedBelongs(meta: Meta, marked: bool, identity: DatabaseIdentity, later: bool, other: DatabaseIdentity)
    ensures OpenMeta(meta, marked, identity).Ok? <==>
            (meta == NO_META && !marked) || meta == MetaFor(identity)
    ensures OpenMeta(meta, marked, identity).Ok? ==>
            && OpenMeta(meta, marked, identity).value == MetaFor(identity)
            && (other == identity ==> OpenMeta(MetaFor(identity), later, other) == Ok(MetaFor(identity)))
            && (other != identity ==> OpenMeta(MetaFor(identity), later, other) == Err(IdentityMismatch))
  {
    hide BigEndian, FromBigEndian;
    if meta.schema.Some? && |meta.schema.value| == 4 && Layout.GetU32(meta.schema.value) == SCHEMA_VERSION {
      assert meta.schema.value == Layout.PutU32(SCHEMA_VERSION);
    }
  }

  /** Opens the columns an earlier database left; a refusal leaves them alone. */
  method Open(k: Keccak, identity: DatabaseIdentity, retention: RetentionPolicy, meta: Meta, stored: Columns,
              ghost history: History, ghost cleared: set<B256>)
    returns (r: Result<Database, StorageError>, after: Meta)
    requires Consistent(k, stored, history, cleared)
    ensures r.Ok? <==> retention != Full(0) && OpenMeta(meta, stored.marker.Some?, identity).Ok?
    ensures r.Ok? ==> fresh(r.value) && r.value.Valid() && r.value.columns == stored && r.value.history == history
    ensures r.Ok? ==> r.value.k == k && r.value.retention == retention && after == MetaFor(identity)
    ensures r.Err? ==> after == meta
    ensures r.Err? ==> r.error == if retention == Full(0) then InvalidRetention
                                  else OpenMeta(meta, stored.marker.Some?, identity).error
  {
    hide Consistent, OpenMeta;
    if retention == Full(0) {
      return Err(InvalidRetention), meta;
    }
    var checked := OpenMeta(meta, stored.marker.Some?, identity);
    if checked.Err? {
      return Err(checked.error), meta;
    }
    OpenedBelongs(meta, stored.marker.Some?, identity, true, identity);
    var db := new Database.Over(k, retention, stored, history, cleared);
    return Ok(db), checked.value;
  }

  class Database {
    const k: Keccak
    const retention: RetentionPolicy
    var columns: Columns
    ghost var history: History
    ghost var cleared: set<B256>

    ghost predicate Valid()
      reads this
    {
      Consistent(k, columns, history, cleared)
    }

    constructor (k: Keccak, retention: RetentionPolicy)
      ensures Valid() && columns == EMPTY_COLUMNS && history == map[] && cleared == {}
      ensures this.k == k && this.retention == retention
    {
      this.k, this.retention := k, retention;
      columns, history, cleared := EMPTY_COLUMNS, map[], {};
    }

    constructor Over(k: Keccak, retention: RetentionPolicy, stored: Columns, ghost history: History,
                     ghost cleared: set<B256>)
      requires Consistent(k, stored, history, cleared)
      ensures Valid() && columns == stored && this.history == history && this.cleared == cleared
      ensures this.k == k && this.retention == retention
    {
      hide Consistent;
      this.k, this.retention := k, retention;
      columns, this.history, this.cleared := stored, history, cleared;
    }

    /** Merges one domain into the pending columns: conflict check and node writes in key order,
        stale flat deletions, flat writes, then root, manifest and head. */
    method AppendStateChanges(next: Columns, s: StateCommit) returns (r: Result<Columns, StorageError>)
      ensures r == AppendState(k, columns, next, s)
    {
      hide CollectLeaves;
      var snapshot := s.snapshot;
      var walked := Collect(k, snapshot.nodes, snapshot.root);
      if walked.Err? {
        return Err(State(walked.error));
      }
      if walked.value != snapshot.leaves {
        return Err(CorruptMetadata("snapshot leaves differ from trie"));
      }
      var merged := MergeNodes(next.nodes, snapshot.nodes);
      if merged.Err? {
        return Err(merged.error);
      }
      var cached :- CachedKeys(columns, s.domainId);
      var flat := ReplaceFlat(FlatOf(next, s.domainId), cached, snapshot.leaves);
      var key := RootKey(s.domainId, s.consensusHeight);
      return Ok(next.(nodes := merged.value,
                      flat := next.flat[s.domainId := flat],
                      roots := next.roots[key := snapshot.root],
                      manifests := next.manifests[key := ManifestOf(snapshot)],
                      heads := next.heads[s.domainId := Head(s.consensusHeight, snapshot.root)]));
    }

    /** Only hashes absent from the database and not yet pending are written. */
    method MergeNodes(pending: NodeMap, nodes: NodeMap) returns (r: Result<NodeMap, StorageError>)
      ensures r == if Conflicts(columns.nodes, nodes) then Err(CorruptMetadata("content hash collision"))
                   else Ok(nodes + pending)
    {
      hide SortedKeys, Taken;
      var hashes := SortedKeys(nodes.Keys);
      var merged := pending;
      assert Taken(nodes, hashes[..0]) == map[] by { TakenNone(nodes, hashes); }
      for i := 0 to |hashes|
        invariant merged == Taken(nodes, hashes[..i]) + pending
        invariant forall j | 0 <= j < i :: hashes[j] in columns.nodes ==> columns.nodes[hashes[j]] == nodes[hashes[j]]
      {
        var hash := hashes[i];
        assert hash in nodes.Keys;
        MergedNext(nodes, pending, hashes, i);
        if hash in columns.nodes && columns.nodes[hash] != nodes[hash] {
          return Err(CorruptMetadata("content hash collision"));
        }
        if hash !in merged {
          merged := merged[hash := nodes[hash]];
        }
      }
      TakenAll(nodes);
      assert forall h | h in nodes.Keys :: h in hashes;
      return Ok(merged);
    }

    method ReplaceFlat(flat: map<B256, Bytes>, cached: set<B256>, leaves: map<B256, Bytes>)
      returns (r: map<B256, Bytes>)
      ensures r == (flat - (cached - leaves.Keys)) + leaves
    {
      r := DeleteKeys(flat, cached - leaves.Keys);
      r := PutKeys(r, leaves);
    }

    method DeleteKeys(flat: map<B256, Bytes>, stale: set<B256>) returns (r: map<B256, Bytes>)
      ensures r == flat - stale
    {
      hide SortedKeys;
      var keys := SortedKeys(stale);
      r := flat;
      for i := 0 to |keys|
        invariant r.Keys == flat.Keys - Listed(keys, i)
        invariant forall h | h in r.Keys :: r[h] == flat[h]
      {
        assert Listed(keys, i + 1) == Listed(keys, i) + {keys[i]};
        r := r - {keys[i]};
      }
      assert Listed(keys, |keys|) == stale;
    }

    method PutKeys(flat: map<B256, Bytes>, leaves: map<B256, Bytes>) returns (r: map<B256, Bytes>)
      ensures r == flat + leaves
    {
      hide SortedKeys, Taken;
      var keys := SortedKeys(leaves.Keys);
      r := flat;
      TakenNone(leaves, keys);
      for i := 0 to |keys|
        invariant r == flat + Taken(leaves, keys[..i])
      {
        assert keys[i] in leaves.Keys;
        TakenNext(leaves, keys, i);
        r := r[keys[i] := leaves[keys[i]]];
      }
      TakenAll(leaves);
    }

    /** All-or-nothing: an error leaves the columns as they were. */
    method Commit(batch: CommitBatch) returns (r: Result<CommitStats, StorageError>)
      requires Valid()
      requires ContentAddressed(k, batch.states) && CollisionFree(k, BatchBytes(batch.states))
      modifies this
      ensures Valid()
      ensures var spec := CommitColumns(k, old(columns), batch);
              if spec.Err? then
                r == Err(spec.error) && columns == old(columns) && history == old(history) && cleared == old(cleared)
              else
                var (c, stats) := Finished(spec.value, retention, batch);
                && r == Ok(stats) && columns == c
                && history == HistoryOf(c, HistoryAfter(old(history), batch.states))
                && cleared <= old(cleared)
                && forall d | InDomains(batch.states, d) :: d !in cleared
    {
      hide Consistent, CollectLeaves, AppendState, ContentAddressed, CollisionFree, HistoryAfter, HistoryOf,
           PutAll, PruneDomains, UniqueDomains, UniqueKeys, RegistryCheck;
      if Precheck(columns, batch).Some? {
        return Err(Precheck(columns, batch).value);
      }
      var next := columns;
      for i := 0 to |batch.states|
        invariant columns == old(columns) && history == old(history) && cleared == old(cleared)
        invariant AppendFirst(k, columns, batch, i) == Ok(next)
      {
        var s := batch.states[i];
        if s.consensusHeight > batch.marker.height {
          AppendError(k, columns, batch, i + 1);
          return Err(CorruptMetadata("domain state height exceeds finalized marker"));
        }
        var appended := AppendStateChanges(next, s);
        if appended.Err? {
          AppendError(k, columns, batch, i + 1);
          return Err(appended.error);
        }
        next := appended.value;
      }
      if RecordCheck(k, columns, batch).Some? {
        return Err(RecordCheck(k, columns, batch).value);
      }
      FinishedKeeps(k, columns, history, cleared, retention, batch);
      columns := WithRecords(next, batch);
      ghost var full := HistoryAfter(history, batch.states);
      var pruned, error := ApplyRetention(batch.marker.height, batch.states);
      history := HistoryOf(columns, full);
      Narrow(k, columns, history, cleared, batch.states);
      cleared := set d | d in cleared && !InDomains(batch.states, d);
      return Ok(CommitStats(if error.Some? then 0 else pruned, error));
    }

    /** Domains in ascending order of their stored heights; an error stops the whole pass. */
    method ApplyRetention(height: u64, states: seq<StateCommit>) returns (pruned: nat, error: Option<StorageError>)
      modifies this`columns, this`history
      ensures Pruning(columns, pruned, error) == Retain(old(columns), retention, height, states)
    {
      hide PruneHeights, HeightsOf, Ascending;
      pruned, error := 0, None;
      assert states[0..] == states;
      if retention.Archive? {
        return;
      }
      var cutoff := Cutoff(height, retention.history);
      ghost var whole := PruneDomains(columns, states, cutoff);
      for i := 0 to |states|
        invariant error.None?
        invariant var rest := PruneDomains(columns, states[i..], cutoff);
                  whole == rest.(pruned := pruned + rest.pruned)
      {
        var d := states[i].domainId;
        assert states[i..][1..] == states[i + 1..];
        var count, stopped := PruneBelow(d, cutoff);
        pruned := pruned + count;
        if stopped.Some? {
          error := stopped;
          return;
        }
      }
      assert states[|states|..] == [];
    }

    method PruneBelow(d: B256, cutoff: nat) returns (pruned: nat, error: Option<StorageError>)
      modifies this`columns, this`history
      ensures Pruning(columns, pruned, error)
           == PruneHeights(old(columns), d, Ascending(HeightsOf(old(columns), d)), cutoff)
    {
      hide PruneColumns, HeightsOf, Ascending;
      pruned, error := 0, None;
      var heights := Ascending(HeightsOf(columns, d));
      ghost var whole := PruneHeights(columns, d, heights, cutoff);
      assert heights[0..] == heights;
      for i := 0 to |heights|
        invariant error.None?
        invariant var rest := PruneHeights(columns, d, heights[i..], cutoff);
                  whole == rest.(pruned := pruned + rest.pruned)
      {
        assert heights[i..][1..] == heights[i + 1..];
        if heights[i] < cutoff {
          var removed := PruneRoot(RootKey(d, heights[i]));
          if removed.Err? {
            error := Some(removed.error);
            return;
          }
          pruned := pruned + 1;
        }
      }
      assert heights[|heights|..] == [];
    }

    /** Deletes the nodes of one root that no other manifest of any domain lists. */
    method PruneRoot(key: RootKey) returns (r: Result<nat, StorageError>)
      modifies this`columns, this`history
      ensures old(Valid()) ==> Valid()
      ensures history == if r.Ok? then old(history) - {key} else old(history)
      ensures match PruneColumns(old(columns), key)
              case Err(e) => r == Err(e) && columns == old(columns)
              case Ok(c) => columns == c && r == Ok(|old(columns).manifests[key].nodeHashes - LiveHashes(c.manifests)|)
    {
      hide LiveHashes, Consistent;
      if IsHead(columns, key) {
        return Err(PruneCurrentHead);
      }
      if key !in columns.manifests {
        return Err(MissingRoot(key.domain, key.height));
      }
      var removed := columns.manifests[key];
      var live := LiveNodeHashes(key);
      var doomed := DeadHashes(removed.nodeHashes, live);
      columns := columns.(roots := columns.roots - {key},
                          manifests := columns.manifests - {key},
                          nodes := columns.nodes - doomed);
      history := history - {key};
      if old(Valid()) {
        PruneConsistent(k, old(columns), old(history), cleared, key);
      }
      return Ok(|doomed|);
    }

    method DeadHashes(listed: set<B256>, live: set<B256>) returns (doomed: set<B256>)
      ensures doomed == listed - live
    {
      hide SortedKeys;
      var hashes := SortedKeys(listed);
      doomed := {};
      for i := 0 to |hashes|
        invariant doomed == Listed(hashes, i) - live
      {
        assert Listed(hashes, i + 1) == Listed(hashes, i) + {hashes[i]};
        if hashes[i] !in live {
          doomed := doomed + {hashes[i]};
        }
      }
      assert Listed(hashes, |hashes|) == listed;
    }

    method LiveNodeHashes(excluding: RootKey) returns (live: set<B256>)
      ensures live == LiveHashes(columns.manifests - {excluding})
    {
      live := {};
      var rest := columns.manifests.Keys;
      while rest != {}
        invariant rest <= columns.manifests.Keys
        invariant live == LiveHashes(columns.manifests - {excluding} - rest)
        decreases rest
      {
        var key :| key in rest;
        LiveGrows(columns.manifests - {excluding}, rest, key);
        if key != excluding {
          live := live + columns.manifests[key].nodeHashes;
        }
        rest := rest - {key};
      }
      assert columns.manifests - {excluding} - {} == columns.manifests - {excluding};
    }

    method ClearFlatState(d: B256) returns (count: nat)
      requires Valid()
      modifies this
      ensures Valid()
      ensures count == |FlatOf(old(columns), d)| && FlatOf(columns, d) == map[]
      ensures columns == old(columns).(flat := columns.flat) && history == old(history)
      ensures forall x | x != d :: FlatOf(columns, x) == FlatOf(old(columns), x)
      ensures cleared == old(cleared) + {d}
    {
      hide Consistent;
      count := |FlatOf(columns, d)|;
      columns := columns.(flat := columns.flat - {d});
      cleared := cleared + {d};
      FlatCleared(k, old(columns), history, old(cleared), d);
    }

    /** From the head's root the rebuild cannot fail and restores exactly the head's entries. */
    method RebuildFlatState(d: B256, root: B256) returns (r: Result<nat, StorageError>)
      requires Valid()
      modifies this
      ensures var leaves := CollectLeaves(k, old(columns).nodes, root);
              if leaves.Err? then r == Err(State(leaves.error)) && columns == old(columns)
              else
                && r == Ok(|leaves.value|)
                && columns == old(columns).(flat := old(columns).flat[d := FlatOf(old(columns), d) + leaves.value])
      ensures history == old(history)
      ensures d in columns.heads && columns.heads[d].root == root ==>
                r.Ok? && Valid() && FlatExact(columns, history, d) && cleared == old(cleared) - {d}
    {
      hide CollectLeaves;
      var leaves := Collect(k, columns.nodes, root);
      if leaves.Ok? {
        columns := columns.(flat := columns.flat[d := FlatOf(columns, d) + leaves.value]);
        r := Ok(|leaves.value|);
      } else {
        r := Err(State(leaves.error));
      }
      if d in columns.heads && columns.heads[d].root == root {
        HeadsWalk(k, old(columns), history, d);
        cleared := cleared - {d};
        FlatRebuilt(k, old(columns), history, old(cleared), d, leaves.value);
      }
    }
  }

  lemma {:induction false} AppendError(k: Keccak, db: Columns, batch: CommitBatch, n: nat)
    requires n <= |batch.states| && AppendFirst(k, db, batch, n).Err?
    ensures AppendFirst(k, db, batch, |batch.states|) == AppendFirst(k, db, batch, n)
    decreases |batch.states| - n
  {
    hide AppendState;
    if n < |batch.states| {
      AppendError(k, db, batch, n + 1);
    }
  }

  lemma LiveGrows(manifests: map<RootKey, Manifest>, rest: set<RootKey>, key: RootKey)
    requires key in rest
    ensures LiveHashes(manifests - (rest - {key}))
         == LiveHashes(manifests - rest) + if key in manifests then manifests[key].nodeHashes else {}
  {
    var before, after := manifests - rest, manifests - (rest - {key});
    var added := if key in manifests then manifests[key].nodeHashes else {};
    forall h
      ensures h in LiveHashes(after) <==> h in LiveHashes(before) + added
    {
      if h in LiveHashes(before) {
        var x :| x in before && h in before[x].nodeHashes;
        assert x in after && h in after[x].nodeHashes;
      }
      if h in added {
        assert key in after && h in after[key].nodeHashes;
      }
      if h in LiveHashes(after) {
        var x :| x in after && h in after[x].nodeHashes;
        assert x == key || (x in before && h in before[x].nodeHashes);
      }
    }
  }

  lemma Narrow(k: Keccak, c: Columns, history: History, cleared: set<B256>, states: seq<StateCommit>)
    requires Consistent(k, c, history, cleared)
    requires forall d | InDomains(states, d) :: FlatExact(c, history, d)
    ensures Consistent(k, c, history, set d | d in cleared && !InDomains(states, d))
  {
    hide Agrees, FlatExact, InDomains;
  }

  /** Roots, manifests, nodes and heads do not depend on the flat cache. */
  lemma FlatFree(k: Keccak, c: Columns, flat: map<B256, map<B256, Bytes>>, history: History)
    requires Agrees(k, c, history)
    ensures Agrees(k, c.(flat := flat), history)
    ensures forall d :: HeadRecorded(c, history, d) && HeadRecorded(c.(flat := flat), history, d)
  {
    hide CollectLeaves;
    var next := c.(flat := flat);
    forall key | key in history
      ensures Recorded(k, next, key, history[key])
    {
      assert Recorded(k, c, key, history[key]);
    }
    forall d
      ensures HeadRecorded(c, history, d) && HeadRecorded(next, history, d)
    {
      assert HeadRecorded(c, history, d);
    }
  }

  lemma FlatCleared(k: Keccak, c: Columns, history: History, cleared: set<B256>, d: B256)
    requires Consistent(k, c, history, cleared)
    ensures Consistent(k, c.(flat := c.flat - {d}), history, cleared + {d})
  {
    hide Agrees;
    var next := c.(flat := c.flat - {d});
    FlatFree(k, c, next.flat, history);
    forall x
      ensures FlatExact(next, history, x) || (x in cleared + {d} && FlatOf(next, x) == map[])
    {
      assert FlatExact(c, history, x) || (x in cleared && FlatOf(c, x) == map[]);
    }
  }

  lemma FlatRebuilt(k: Keccak, c: Columns, history: History, cleared: set<B256>, d: B256, leaves: map<B256, Bytes>)
    requires Consistent(k, c, history, cleared)
    requires d in c.heads && HeadRecorded(c, history, d) && leaves == LatestLeaves(c, history, d)
    ensures var next := c.(flat := c.flat[d := FlatOf(c, d) + leaves]);
            Consistent(k, next, history, cleared - {d}) && FlatExact(next, history, d)
  {
    hide Agrees;
    var next := c.(flat := c.flat[d := FlatOf(c, d) + leaves]);
    assert FlatExact(c, history, d) || FlatOf(c, d) == map[];
    assert FlatOf(next, d) == leaves;
    FlatFree(k, c, next.flat, history);
    forall x
      ensures FlatExact(next, history, x) || (x in cleared - {d} && FlatOf(next, x) == map[])
    {
      assert FlatExact(c, history, x) || (x in cleared && FlatOf(c, x) == map[]);
    }
  }
}
