/** The durable columns: atomic commits, reachability manifests, pruning and the flat cache. */
module Storage {
  import opened Wrappers
  import opened Bytes
  import opened Hashing
  import opened Rlp
  import opened HexPrefix
  import opened TrieNode
  import opened TrieCommit
  import opened TrieLookup
  import opened TrieWalk

  datatype RootKey = RootKey(domain: B256, height: u64)
  datatype Manifest = Manifest(nodeHashes: set<B256>, leafKeys: set<B256>)
  datatype Head = Head(height: u64, root: B256)
  datatype Marker = Marker(height: u64, consensusHash: B256, domainHeadsRoot: B256)
  datatype StateCommit = StateCommit(domainId: B256, consensusHeight: u64, snapshot: TrieSnapshot)
  datatype IndexedValue = IndexedValue(key: Bytes, value: Bytes)
  datatype RetentionPolicy = Archive | Full(history: u64)

  /** One map per key prefix of every column; the flat column is keyed by domain, then by key. */
  datatype Columns = Columns(
    nodes: NodeMap,
    flat: map<B256, map<B256, Bytes>>,
    code: map<B256, Bytes>,
    receipts: map<Bytes, Bytes>,
    indexes: map<Bytes, Bytes>,
    registry: map<Bytes, Bytes>,
    roots: map<RootKey, B256>,
    manifests: map<RootKey, Manifest>,
    heads: map<B256, Head>,
    marker: Option<Marker>)

  datatype CommitBatch = CommitBatch(
    marker: Marker,
    states: seq<StateCommit>,
    code: map<B256, Bytes>,
    receipts: seq<IndexedValue>,
    indexes: seq<IndexedValue>,
    registry: seq<IndexedValue>)

  datatype StorageError =
    | State(error: StateError)
    | CorruptMetadata(reason: string)
    | NonMonotonicCommit(current: u64, proposed: u64)
    | DuplicateCommitKey(reason: string)
    | MissingRoot(domain: B256, height: u64)
    | PruneCurrentHead
    | InvalidRetention
    | UnsupportedSchema(actual: u32)
    | IdentityMismatch

  datatype CommitStats = CommitStats(prunedRoots: nat, pruningError: Option<StorageError>)

  const EMPTY_COLUMNS: Columns :=
    Columns(map[], map[], map[], map[], map[], map[], map[], map[], map[], None)

  // ----- one domain's state -----

  function FlatOf(c: Columns, d: B256): map<B256, Bytes> {
    if d in c.flat then c.flat[d] else map[]
  }

  function ManifestOf(snapshot: TrieSnapshot): Manifest {
    Manifest(snapshot.nodes.Keys, snapshot.leaves.Keys)
  }

  predicate Conflicts(stored: NodeMap, nodes: NodeMap) {
    exists h :: h in nodes && h in stored && stored[h] != nodes[h]
  }

  /** Leaf keys the flat cache holds according to the manifest of the latest head. */
  function CachedKeys(db: Columns, d: B256): Result<set<B256>, StorageError> {
    if d !in db.heads then
      Ok({})
    else
      var key := RootKey(d, db.heads[d].height);
      if key in db.manifests then Ok(db.manifests[key].leafKeys)
      else Err(CorruptMetadata("missing latest manifest"))
  }

  function Appended(next: Columns, s: StateCommit, stale: set<B256>): Columns {
    var d, snapshot := s.domainId, s.snapshot;
    var key := RootKey(d, s.consensusHeight);
    next.(nodes := snapshot.nodes + next.nodes,
          flat := next.flat[d := (FlatOf(next, d) - stale) + snapshot.leaves],
          roots := next.roots[key := snapshot.root],
          manifests := next.manifests[key := ManifestOf(snapshot)],
          heads := next.heads[d := Head(s.consensusHeight, snapshot.root)])
  }

  /** `append_state_changes`: reads go to `db`, writes to the pending `next`. */
  function AppendState(k: Keccak, db: Columns, next: Columns, s: StateCommit): Result<Columns, StorageError> {
    match CollectLeaves(k, s.snapshot.nodes, s.snapshot.root)
    case Err(e) => Err(State(e))
    case Ok(rebuilt) =>
      if rebuilt != s.snapshot.leaves then
        Err(CorruptMetadata("snapshot leaves differ from trie"))
      else if Conflicts(db.nodes, s.snapshot.nodes) then
        Err(CorruptMetadata("content hash collision"))
      else
        var cached :- CachedKeys(db, s.domainId);
        Ok(Appended(next, s, cached - s.snapshot.leaves.Keys))
  }

  // ----- a whole batch -----

  predicate UniqueDomains(states: seq<StateCommit>) {
    forall i, j | 0 <= i < j < |states| :: states[i].domainId != states[j].domainId
  }

  predicate UniqueKeys(values: seq<IndexedValue>) {
    forall i, j | 0 <= i < j < |values| :: values[i].key != values[j].key
  }

  function AppendFirst(k: Keccak, db: Columns, batch: CommitBatch, n: nat): Result<Columns, StorageError>
    requires n <= |batch.states|
  {
    if n == 0 then
      Ok(db)
    else
      var next :- AppendFirst(k, db, batch, n - 1);
      var s := batch.states[n - 1];
      if s.consensusHeight > batch.marker.height then
        Err(CorruptMetadata("domain state height exceeds finalized marker"))
      else
        AppendState(k, db, next, s)
  }

  function PutAll(m: map<Bytes, Bytes>, values: seq<IndexedValue>): map<Bytes, Bytes> {
    if values == [] then m else
    var last := values[|values| - 1];
    PutAll(m, values[..|values| - 1])[last.key := last.value]
  }

  /** The first record that is malformed or contradicts an immutable one. */
  function RegistryCheck(stored: map<Bytes, Bytes>, records: seq<IndexedValue>): Option<StorageError> {
    if records == [] then
      None
    else
      var key := records[0].key;
      if |key| != 32 then
        Some(CorruptMetadata("domain registry key length"))
      else if key in stored && stored[key] != records[0].value then
        Some(CorruptMetadata("immutable domain registry conflict"))
      else
        RegistryCheck(stored, records[1..])
  }

  function Precheck(db: Columns, batch: CommitBatch): Option<StorageError> {
    if db.marker.Some? && batch.marker.height <= db.marker.value.height then
      Some(NonMonotonicCommit(db.marker.value.height, batch.marker.height))
    else if !UniqueDomains(batch.states) then
      Some(DuplicateCommitKey("domain state"))
    else if !UniqueKeys(batch.receipts) then
      Some(DuplicateCommitKey("receipt"))
    else if !UniqueKeys(batch.indexes) then
      Some(DuplicateCommitKey("index"))
    else if !UniqueKeys(batch.registry) then
      Some(DuplicateCommitKey("domain registry"))
    else
      None
  }

  function RecordCheck(k: Keccak, db: Columns, batch: CommitBatch): Option<StorageError> {
    if exists h :: h in batch.code && k(batch.code[h]) != h then
      Some(CorruptMetadata("contract code hash"))
    else
      RegistryCheck(db.registry, batch.registry)
  }

  function WithRecords(next: Columns, batch: CommitBatch): Columns {
    next.(code := next.code + batch.code,
          receipts := PutAll(next.receipts, batch.receipts),
          indexes := PutAll(next.indexes, batch.indexes),
          registry := PutAll(next.registry, batch.registry),
          marker := Some(batch.marker))
  }

  /** What the atomic transaction of `commit` installs. */
  function CommitColumns(k: Keccak, db: Columns, batch: CommitBatch): Result<Columns, StorageError> {
    if Precheck(db, batch).Some? then
      Err(Precheck(db, batch).value)
    else
      var next :- AppendFirst(k, db, batch, |batch.states|);
      if RecordCheck(k, db, batch).Some? then
        Err(RecordCheck(k, db, batch).value)
      else
        Ok(WithRecords(next, batch))
  }

  // ----- pruning -----

  function LiveHashes(manifests: map<RootKey, Manifest>): set<B256> {
    set key, h | key in manifests && h in manifests[key].nodeHashes :: h
  }

  predicate IsHead(c: Columns, key: RootKey) {
    key.domain in c.heads && c.heads[key.domain].height == key.height
  }

  function PruneColumns(c: Columns, key: RootKey): Result<Columns, StorageError> {
    if IsHead(c, key) then
      Err(PruneCurrentHead)
    else if key !in c.manifests then
      Err(MissingRoot(key.domain, key.height))
    else
      var manifests := c.manifests - {key};
      Ok(c.(roots := c.roots - {key},
            manifests := manifests,
            nodes := c.nodes - (c.manifests[key].nodeHashes - LiveHashes(manifests))))
  }

  /** Columns after pruning, how many roots went, and the error that stopped it. */
  datatype Pruning = Pruning(columns: Columns, pruned: nat, error: Option<StorageError>)

  function PruneHeights(c: Columns, d: B256, heights: seq<u64>, cutoff: nat): Pruning
    decreases |heights|
  {
    if heights == [] then
      Pruning(c, 0, None)
    else if heights[0] >= cutoff then
      PruneHeights(c, d, heights[1..], cutoff)
    else
      match PruneColumns(c, RootKey(d, heights[0]))
      case Err(e) => Pruning(c, 0, Some(e))
      case Ok(next) =>
        var rest := PruneHeights(next, d, heights[1..], cutoff);
        rest.(pruned := rest.pruned + 1)
  }

  function HeightsOf(c: Columns, d: B256): set<u64> {
    set key | key in c.roots && key.domain == d :: key.height
  }

  function Ascending(heights: set<u64>): (r: seq<u64>)
    ensures forall h :: h in r <==> h in heights
    ensures forall i, j | 0 <= i < j < |r| :: r[i] < r[j]
  {
    if heights == {} then [] else
    var least := LeastHeight(heights);
    [least] + Ascending(heights - {least})
  }

  function LeastHeight(heights: set<u64>): (r: u64)
    requires heights != {}
    ensures r in heights && forall h | h in heights :: r <= h
  {
    assert exists m :: m in heights && forall h | h in heights :: m <= h by {
      var m := LeastHeightExists(heights);
    }
    var m :| m in heights && forall h | h in heights :: m <= h;
    m
  }

  lemma {:induction false} LeastHeightExists(heights: set<u64>) returns (m: u64)
    requires heights != {}
    ensures m in heights && forall h | h in heights :: m <= h
  {
    m :| m in heights;
    var rest := heights - {m};
    assert heights == rest + {m};
    if rest != {} {
      var least := LeastHeightExists(rest);
      if least < m {
        m := least;
      }
    }
  }

  function PruneDomains(c: Columns, states: seq<StateCommit>, cutoff: nat): Pruning
    decreases |states|
  {
    if states == [] then
      Pruning(c, 0, None)
    else
      var d := states[0].domainId;
      var first := PruneHeights(c, d, Ascending(HeightsOf(c, d)), cutoff);
      if first.error.Some? then
        first
      else
        var rest := PruneDomains(first.columns, states[1..], cutoff);
        rest.(pruned := first.pruned + rest.pruned)
  }

  function Cutoff(height: u64, history: u64): nat {
    var below := if history == 0 then 0 else history - 1;
    if height < below then 0 else height - below
  }

  function Retain(c: Columns, policy: RetentionPolicy, height: u64, states: seq<StateCommit>): Pruning {
    match policy
    case Archive => Pruning(c, 0, None)
    case Full(history) => PruneDomains(c, states, Cutoff(height, history))
  }

  // ----- what the columns stand for -----

  /** The abstract store: the snapshot committed at every retained domain and height. */
  type History = map<RootKey, TrieSnapshot>

  ghost predicate Stored(nodes: NodeMap, store: NodeMap) {
    forall h | h in nodes :: h in store && store[h] == nodes[h]
  }

  ghost predicate Recorded(k: Keccak, c: Columns, key: RootKey, snapshot: TrieSnapshot) {
    && key in c.roots && c.roots[key] == snapshot.root
    && key in c.manifests && c.manifests[key] == ManifestOf(snapshot)
    && Stored(snapshot.nodes, c.nodes)
    && CollectLeaves(k, snapshot.nodes, snapshot.root) == Ok(snapshot.leaves)
  }

  ghost predicate HeadRecorded(c: Columns, history: History, d: B256) {
    d in c.heads ==>
      var key := RootKey(d, c.heads[d].height);
      key in history && history[key].root == c.heads[d].root
  }

  /** Roots and manifests are exactly those of the history, with every node still in place, and
      every head is one of them. */
  ghost predicate Agrees(k: Keccak, c: Columns, history: History) {
    && c.roots.Keys == history.Keys
    && c.manifests.Keys == history.Keys
    && (forall key | key in history :: Recorded(k, c, key, history[key]))
    && (forall d :: HeadRecorded(c, history, d))
  }

  /** The leaves of the latest snapshot of a domain. */
  ghost function LatestLeaves(c: Columns, history: History, d: B256): map<B256, Bytes>
    requires HeadRecorded(c, history, d)
  {
    if d in c.heads then history[RootKey(d, c.heads[d].height)].leaves else map[]
  }

  ghost predicate FlatExact(c: Columns, history: History, d: B256) {
    HeadRecorded(c, history, d) && FlatOf(c, d) == LatestLeaves(c, history, d)
  }

  /** Exact, except that domains in `cleared` may hold nothing. */
  ghost predicate FlatAgrees(c: Columns, history: History, cleared: set<B256>) {
    forall d :: FlatExact(c, history, d) || (d in cleared && FlatOf(c, d) == map[])
  }

  ghost function BatchBytes(states: seq<StateCommit>): set<Bytes> {
    set s, h | s in states && h in s.snapshot.nodes :: s.snapshot.nodes[h]
  }

  /** What `TrieSnapshot` guarantees: its nodes are stored under their own hash. */
  ghost predicate ContentAddressed(k: Keccak, states: seq<StateCommit>) {
    forall s, h | s in states && h in s.snapshot.nodes :: k(s.snapshot.nodes[h]) == h
  }

  ghost function HistoryAfter(history: History, states: seq<StateCommit>): History {
    if states == [] then history else
    var last := states[|states| - 1];
    HistoryAfter(history, states[..|states| - 1])[RootKey(last.domainId, last.consensusHeight) := last.snapshot]
  }

  // ----- a completed walk does not depend on what else is stored -----

  lemma {:induction false} WalkNodeStable(k: Keccak, small: NodeMap, big: NodeMap, encoded: Bytes, path: Nibbles,
                                          st: Walked)
    requires Stored(small, big) && WalkNode(k, small, encoded, path, st).Ok?
    ensures WalkNode(k, big, encoded, path, st) == WalkNode(k, small, encoded, path, st)
    decreases small.Keys - st.visited, |encoded|, 1, 0
  {
    hide DecodeNode, PackKey;
    var node := DecodeNode(encoded).value;
    match node
    case DecodedLeaf(_, _) =>
    case DecodedExtension(suffix, child) =>
      DecodedChildren(encoded);
      WalkChildStable(k, small, big, Some(child), path + suffix, st);
    case DecodedBranch(children) =>
      DecodedChildren(encoded);
      WalkChildrenStable(k, small, big, children, 0, path, st, |encoded|);
  }

  lemma {:induction false} WalkChildStable(k: Keccak, small: NodeMap, big: NodeMap, child: Option<ChildReference>,
                                           path: Nibbles, st: Walked)
    requires Stored(small, big) && WalkChild(k, small, child, path, st).Ok?
    ensures WalkChild(k, big, child, path, st) == WalkChild(k, small, child, path, st)
    decreases small.Keys - st.visited, Size(child), 2, 0
  {
    hide WalkNode;
    match child
    case None =>
    case Some(Embedded(encoded)) => WalkNodeStable(k, small, big, encoded, path, st);
    case Some(Hash(hash)) =>
      assert hash in small.Keys - st.visited;
      WalkNodeStable(k, small, big, small[hash], path, st.(visited := st.visited + {hash}));
  }

  lemma {:induction false} WalkChildrenStable(k: Keccak, small: NodeMap, big: NodeMap,
                                              children: seq<Option<ChildReference>>, from: nat, path: Nibbles,
                                              st: Walked, bound: nat)
    requires |children| == 16 && from <= 16
    requires forall i | 0 <= i < 16 :: Size(children[i]) < bound
    requires Stored(small, big) && WalkChildren(k, small, children, from, path, st, bound).Ok?
    ensures WalkChildren(k, big, children, from, path, st, bound) ==
      WalkChildren(k, small, children, from, path, st, bound)
    decreases small.Keys - st.visited, bound, 0, 16 - from
  {
    hide WalkChild;
    if from < 16 {
      WalkChildStable(k, small, big, children[from], path + [from], st);
      var next := WalkChild(k, small, children[from], path + [from], st).value;
      WalkChildrenStable(k, small, big, children, from + 1, path, next, bound);
    }
  }

  lemma CollectStable(k: Keccak, small: NodeMap, big: NodeMap, root: B256)
    requires Stored(small, big) && CollectLeaves(k, small, root).Ok?
    ensures CollectLeaves(k, big, root) == CollectLeaves(k, small, root)
  {
    hide WalkNode;
    if root != k(EMPTY_TRIE) {
      WalkNodeStable(k, small, big, small[root], [], Walked(map[], {root}));
    }
  }
}
