/** Receiving a snapshot: chunks staged in any order, then rebuilt and audited as one checkpoint. */
module Staging {
  import opened Wrappers
  import opened Bytes
  import opened Ordered
  import opened Hashing
  import opened Canonical
  import opened TrieCommit
  import opened TrieWalk
  import opened Chain
  import opened Alike
  import opened CheckpointCodec
  import opened Recovery
  import opened EngineStore
  import opened EngineRecovery
  import opened EngineCheckpoint
  import opened Snapshot
  import opened Sums

  const MAX_SNAPSHOT_TOTAL_BYTES: nat := 512 * 1024 * 1024

  datatype ChunkKey = ChunkKey(domain: B256, index: nat)

  datatype ChunkInfo = ChunkInfo(length: nat, hash: B256)

  /** The checkpoint record and, domain by domain, the chunks that carry its state. */
  datatype Manifest = Manifest(genesisHash: B256, checkpoint: CheckpointRecord, chunks: seq<seq<ChunkInfo>>)

  /** What decoding a manifest has already established about it. */
  predicate ManifestShaped(m: Manifest) {
    && |m.chunks| == |m.checkpoint.domains|
    && NeighboursSorted(RecordIds(m.checkpoint.domains))
    && forall i :: 0 <= i < |m.chunks| ==> |m.chunks[i]| <= MAX_CHUNKS_PER_DOMAIN
  }

  // ----- lists of chunks by domain, as one map -----

  function Keyed<T>(domain: B256, items: seq<T>, n: nat): map<ChunkKey, T>
    requires n <= |items|
  {
    if n == 0 then map[] else Keyed(domain, items, n - 1)[ChunkKey(domain, n - 1) := items[n - 1]]
  }

  function AllKeyed<T>(ids: seq<B256>, lists: seq<seq<T>>, n: nat): map<ChunkKey, T>
    requires n <= |ids| && n <= |lists|
  {
    if n == 0 then map[] else AllKeyed(ids, lists, n - 1) + Keyed(ids[n - 1], lists[n - 1], |lists[n - 1]|)
  }

  lemma {:induction false} KeyedLookup<T>(domain: B256, items: seq<T>, n: nat, key: ChunkKey)
    requires n <= |items|
    ensures key in Keyed(domain, items, n) <==> key.domain == domain && key.index < n
    ensures key in Keyed(domain, items, n) ==> Keyed(domain, items, n)[key] == items[key.index]
  {
    if n > 0 {
      KeyedLookup(domain, items, n - 1, key);
    }
  }

  lemma {:induction false} AllKeyedLookup<T>(ids: seq<B256>, lists: seq<seq<T>>, n: nat, i: nat, key: ChunkKey)
    requires StrictlySorted(ids) && i < n <= |ids| && n <= |lists| && key.domain == ids[i]
    ensures key in AllKeyed(ids, lists, n) <==> key.index < |lists[i]|
    ensures key in AllKeyed(ids, lists, n) ==> AllKeyed(ids, lists, n)[key] == lists[i][key.index]
  {
    hide LexLess;
    KeyedLookup(ids[n - 1], lists[n - 1], |lists[n - 1]|, key);
    if i < n - 1 {
      LexIrreflexive(ids[n - 1]);
      AllKeyedLookup(ids, lists, n - 1, i, key);
    } else {
      KeyedOutside(ids, lists, n - 1, key);
    }
  }

  lemma {:induction false} KeyedOutside<T>(ids: seq<B256>, lists: seq<seq<T>>, n: nat, key: ChunkKey)
    requires n <= |ids| && n <= |lists|
    requires forall i | 0 <= i < n :: LexLess(ids[i], key.domain) || ids[i] != key.domain
    ensures key !in AllKeyed(ids, lists, n)
  {
    hide LexLess;
    if n > 0 {
      LexIrreflexive(key.domain);
      KeyedLookup(ids[n - 1], lists[n - 1], |lists[n - 1]|, key);
      KeyedOutside(ids, lists, n - 1, key);
    }
  }

  function Expected(m: Manifest): map<ChunkKey, ChunkInfo>
    requires ManifestShaped(m)
  {
    AllKeyed(RecordIds(m.checkpoint.domains), m.chunks, |m.chunks|)
  }

  // ----- staging -----

  datatype Staged = Staged(chunks: map<ChunkKey, Bytes>, total: nat)

  predicate VerifyChunk(k: Keccak, info: ChunkInfo, bytes: Bytes) {
    info.length == |bytes| && k(bytes) == info.hash
  }

  /** `stage_chunk`. */
  function Stage(k: Keccak, expected: map<ChunkKey, ChunkInfo>, s: Staged, key: ChunkKey, bytes: Bytes)
    : Result<Staged, SnapshotError> {
    if key !in expected then
      Err(UnexpectedChunk)
    else if !VerifyChunk(k, expected[key], bytes) then
      Err(ChunkHash)
    else if key in s.chunks then
      if s.chunks[key] == bytes then Ok(s) else Err(ConflictingChunk)
    else if s.total + |bytes| > MAX_SNAPSHOT_TOTAL_BYTES then
      Err(Limit("snapshot staged bytes"))
    else
      Ok(Staged(s.chunks[key := bytes], s.total + |bytes|))
  }

  datatype Delivery = Delivery(key: ChunkKey, bytes: Bytes)

  /** Every delivery in turn; a refused one changes nothing. */
  function Received(k: Keccak, expected: map<ChunkKey, ChunkInfo>, deliveries: seq<Delivery>): Staged
    decreases |deliveries|
  {
    if deliveries == [] then
      Staged(map[], 0)
    else
      var n := |deliveries| - 1;
      var before := Received(k, expected, deliveries[..n]);
      var after := Stage(k, expected, before, deliveries[n].key, deliveries[n].bytes);
      if after.Ok? then after.value else before
  }

  ghost function Lengths(chunks: map<ChunkKey, Bytes>): map<ChunkKey, nat> {
    map key | key in chunks :: |chunks[key]|
  }

  /** Staged chunks are declared and verified, and their bytes are counted and bounded. */
  ghost predicate StagedWell(k: Keccak, expected: map<ChunkKey, ChunkInfo>, s: Staged) {
    && (forall key | key in s.chunks :: key in expected && VerifyChunk(k, expected[key], s.chunks[key]))
    && s.total == Sum(Lengths(s.chunks)) && s.total <= MAX_SNAPSHOT_TOTAL_BYTES
  }

  lemma StageKeeps(k: Keccak, expected: map<ChunkKey, ChunkInfo>, s: Staged, key: ChunkKey, bytes: Bytes)
    requires StagedWell(k, expected, s) && Stage(k, expected, s, key, bytes).Ok?
    ensures StagedWell(k, expected, Stage(k, expected, s, key, bytes).value)
    ensures forall other | other in s.chunks ::
              other in Stage(k, expected, s, key, bytes).value.chunks
              && Stage(k, expected, s, key, bytes).value.chunks[other] == s.chunks[other]
  {
    if key !in s.chunks {
      SumPut(Lengths(s.chunks), key, |bytes|);
      assert Lengths(s.chunks[key := bytes]) == Lengths(s.chunks)[key := |bytes|];
    }
  }

  lemma {:induction false} ReceivedWell(k: Keccak, expected: map<ChunkKey, ChunkInfo>, deliveries: seq<Delivery>)
    ensures StagedWell(k, expected, Received(k, expected, deliveries))
    decreases |deliveries|
  {
    hide Stage, StagedWell;
    if deliveries == [] {
      NothingStaged(k, expected);
    } else {
      var n := |deliveries| - 1;
      ReceivedWell(k, expected, deliveries[..n]);
      var before := Received(k, expected, deliveries[..n]);
      if Stage(k, expected, before, deliveries[n].key, deliveries[n].bytes).Ok? {
        StageKeeps(k, expected, before, deliveries[n].key, deliveries[n].bytes);
      }
    }
  }

  lemma NothingStaged(k: Keccak, expected: map<ChunkKey, ChunkInfo>)
    ensures StagedWell(k, expected, Staged(map[], 0))
  {
    assert Lengths(map[]) == map[];
  }

  // ----- any arrival order -----

  /** What the producer declares about the chunks it serves. */
  ghost predicate Declares(k: Keccak, expected: map<ChunkKey, ChunkInfo>, served: map<ChunkKey, Bytes>) {
    && expected.Keys == served.Keys
    && forall key | key in served :: VerifyChunk(k, expected[key], served[key])
  }

  ghost function Bodies(deliveries: seq<Delivery>): set<Bytes> {
    set d | d in deliveries :: d.bytes
  }

  ghost predicate PartOf(chunks: map<ChunkKey, Bytes>, served: map<ChunkKey, Bytes>) {
    forall key | key in chunks :: key in served && chunks[key] == served[key]
  }

  /** Without hash collisions a staged chunk can only be the served one. */
  lemma StagedServed(k: Keccak, expected: map<ChunkKey, ChunkInfo>, served: map<ChunkKey, Bytes>, s: Staged,
                     bodies: set<Bytes>)
    requires Declares(k, expected, served) && StagedWell(k, expected, s) && s.chunks.Values <= bodies
    requires CollisionFree(k, served.Values + bodies)
    ensures PartOf(s.chunks, served)
  {
    forall key | key in s.chunks
      ensures key in served && s.chunks[key] == served[key]
    {
      assert k(s.chunks[key]) == k(served[key]);
      assert s.chunks[key] in s.chunks.Values && served[key] in served.Values;
    }
  }

  lemma {:induction false} ReceivedBodies(k: Keccak, expected: map<ChunkKey, ChunkInfo>, deliveries: seq<Delivery>)
    ensures Received(k, expected, deliveries).chunks.Values <= Bodies(deliveries)
    decreases |deliveries|
  {
    if deliveries != [] {
      var n := |deliveries| - 1;
      ReceivedBodies(k, expected, deliveries[..n]);
      assert deliveries == deliveries[..n] + [deliveries[n]];
      assert Bodies(deliveries[..n]) <= Bodies(deliveries);
      assert deliveries[n].bytes in Bodies(deliveries);
    }
  }

  /** One honest delivery that does not overflow the budget is in place from then on. */
  lemma StageHonest(k: Keccak, expected: map<ChunkKey, ChunkInfo>, served: map<ChunkKey, Bytes>, s: Staged,
                    key: ChunkKey)
    requires Declares(k, expected, served) && StagedWell(k, expected, s) && PartOf(s.chunks, served) && key in served
    requires Sum(Lengths(served)) <= MAX_SNAPSHOT_TOTAL_BYTES
    ensures Stage(k, expected, s, key, served[key]).Ok?
    ensures key in Stage(k, expected, s, key, served[key]).value.chunks
  {
    if key !in s.chunks {
      var next := s.chunks[key := served[key]];
      SumPut(Lengths(s.chunks), key, |served[key]|);
      assert Lengths(next) == Lengths(s.chunks)[key := |served[key]|];
      SumPart(Lengths(next), Lengths(served));
    }
  }

  ghost predicate Delivered(served: map<ChunkKey, Bytes>, deliveries: seq<Delivery>, key: ChunkKey)
    requires key in served
  {
    Delivery(key, served[key]) in deliveries
  }

  lemma {:induction false} HonestStaged(k: Keccak, expected: map<ChunkKey, ChunkInfo>, served: map<ChunkKey, Bytes>,
                                        deliveries: seq<Delivery>, key: ChunkKey)
    requires Declares(k, expected, served) && CollisionFree(k, served.Values + Bodies(deliveries))
    requires Sum(Lengths(served)) <= MAX_SNAPSHOT_TOTAL_BYTES && key in served && Delivered(served, deliveries, key)
    ensures key in Received(k, expected, deliveries).chunks
    decreases |deliveries|
  {
    hide Stage, StagedWell, Declares, CollisionFree, PartOf;
    var n := |deliveries| - 1;
    var prefix := deliveries[..n];
    assert deliveries == prefix + [deliveries[n]];
    assert Bodies(prefix) <= Bodies(deliveries);
    FewerCollide(k, served.Values + Bodies(prefix), served.Values + Bodies(deliveries));
    ReceivedWell(k, expected, prefix);
    ReceivedBodies(k, expected, prefix);
    var before := Received(k, expected, prefix);
    StagedServed(k, expected, served, before, Bodies(prefix));
    if deliveries[n] == Delivery(key, served[key]) {
      StageHonest(k, expected, served, before, key);
    } else {
      HonestStaged(k, expected, served, prefix, key);
      if Stage(k, expected, before, deliveries[n].key, deliveries[n].bytes).Ok? {
        StageKeeps(k, expected, before, deliveries[n].key, deliveries[n].bytes);
      }
    }
  }

  /** In every arrival order, with duplicates and with corrupted or undeclared chunks in between, staging
      ends with exactly the served chunks if and only if they fit the 512 MiB budget together. */
  lemma StagingConverges(k: Keccak, expected: map<ChunkKey, ChunkInfo>, served: map<ChunkKey, Bytes>,
                         deliveries: seq<Delivery>)
    requires Declares(k, expected, served) && CollisionFree(k, served.Values + Bodies(deliveries))
    requires forall key | key in served :: Delivered(served, deliveries, key)
    ensures Received(k, expected, deliveries).chunks == served <==> Sum(Lengths(served)) <= MAX_SNAPSHOT_TOTAL_BYTES
    ensures |Received(k, expected, deliveries).chunks| == |expected| <==>
      Received(k, expected, deliveries).chunks == served
  {
    hide Declares, CollisionFree, Delivered;
    var s := Received(k, expected, deliveries);
    ReceivedWell(k, expected, deliveries);
    ReceivedBodies(k, expected, deliveries);
    StagedServed(k, expected, served, s, Bodies(deliveries));
    if Sum(Lengths(served)) <= MAX_SNAPSHOT_TOTAL_BYTES {
      forall key | key in served
        ensures key in s.chunks
      {
        HonestStaged(k, expected, served, deliveries, key);
      }
      assert s.chunks.Keys == served.Keys;
      assert s.chunks == served;
    }
    CompleteIsServed(k, expected, served, s.chunks);
  }

  lemma CompleteIsServed(k: Keccak, expected: map<ChunkKey, ChunkInfo>, served: map<ChunkKey, Bytes>,
                         chunks: map<ChunkKey, Bytes>)
    requires Declares(k, expected, served) && PartOf(chunks, served)
    ensures |chunks| == |expected| <==> chunks == served
  {
    assert chunks.Keys <= served.Keys;
    assert |chunks| == |chunks.Keys| && |served| == |served.Keys| && |expected| == |expected.Keys|;
    if |chunks| == |expected| {
      SameSize(chunks.Keys, served.Keys);
      assert chunks == served;
    }
  }

  lemma SameSize<T>(part: set<T>, whole: set<T>)
    requires part <= whole && |part| == |whole|
    ensures part == whole
  {
    assert |whole - part| == |whole| - |part|;
    assert whole - part == {};
    assert part == whole - (whole - part);
  }

  // ----- finishing -----

  /** The chunks of one domain in index order. */
  function DecodeStaged(k: Keccak, domain: B256, chunks: map<ChunkKey, Bytes>, i: nat, n: nat, s: Stores)
    : Result<Stores, SnapshotError>
    requires i <= n <= MAX_CHUNKS_PER_DOMAIN
    decreases n - i
  {
    hide DecodeChunk;
    if i == n then
      Ok(s)
    else if ChunkKey(domain, i) !in chunks then
      Err(Incomplete)
    else
      var next :- DecodeChunk(k, domain, i, chunks[ChunkKey(domain, i)], s);
      DecodeStaged(k, domain, chunks, i + 1, n, next)
  }

  /** Rebuilds one domain's state; every code body carried along must be referenced. */
  function FinishDomain(x: Setup, r: DomainRecord, n: nat, chunks: map<ChunkKey, Bytes>)
    : Result<ExecutionState, SnapshotError>
    requires n <= MAX_CHUNKS_PER_DOMAIN
  {
    var stores :- DecodeStaged(x.m.k, r.domainId, chunks, 0, n, Stores(map[], map[]));
    match LoadState(x, r.stateRoot, stores.nodes, stores.code)
    case Err(_) => Err(SnapshotError.StateFailure)
    case Ok(state) =>
      if state.code.Keys != stores.code.Keys then Err(Invalid("snapshot contains unreferenced contract code"))
          else Ok(state)
  }

  function FinishDomains(x: Setup, m: Manifest, chunks: map<ChunkKey, Bytes>, n: nat): Result<Loaded, SnapshotError>
    requires ManifestShaped(m) && n <= |m.chunks|
  {
    if n == 0 then
      Ok(Loaded(map[], map[]))
    else
      var first :- FinishDomains(x, m, chunks, n - 1);
      var r := m.checkpoint.domains[n - 1];
      var state :- FinishDomain(x, r, |m.chunks[n - 1]|, chunks);
      Ok(WithDomain(first, r, state))
  }

  /** `finish`. */
  function FinishImport(x: Setup, m: Manifest, chunks: map<ChunkKey, Bytes>): Result<ChainState, SnapshotError>
    requires ManifestShaped(m)
  {
    if |chunks| != |Expected(m)| then
      Err(Incomplete)
    else
      var loaded :- FinishDomains(x, m, chunks, |m.chunks|);
      match FromCheckpoint(x, Assemble(m.checkpoint, loaded), m.checkpoint.domainHeadsRoot)
      case Err(_) => Err(SnapshotError.StateFailure)
      case Ok(st) => Ok(st)
  }

  // ----- the staging area -----

  /** Decodes one domain's chunks in index order into growing maps. */
  method DecodeDomain(k: Keccak, domain: B256, chunks: map<ChunkKey, Bytes>, n: nat)
    returns (r: Result<Stores, SnapshotError>)
    requires n <= MAX_CHUNKS_PER_DOMAIN
    ensures r == DecodeStaged(k, domain, chunks, 0, n, Stores(map[], map[]))
  {
    hide DecodeChunk;
    var s := Stores(map[], map[]);
    for i := 0 to n
      invariant DecodeStaged(k, domain, chunks, i, n, s) == DecodeStaged(k, domain, chunks, 0, n, Stores(map[], map[]))
    {
      if ChunkKey(domain, i) !in chunks {
        return Err(Incomplete);
      }
      s :- DecodeStateChunk(k, domain, i, chunks[ChunkKey(domain, i)], s);
    }
    return Ok(s);
  }

  /** Holds chunks until all are there; nothing partial ever leaves it. */
  class SnapshotStaging {
    const x: Setup
    const manifest: Manifest
    const expected: map<ChunkKey, ChunkInfo>
    var chunks: map<ChunkKey, Bytes>
    var stagedBytes: nat

    function State(): Staged
      reads this
    {
      Staged(chunks, stagedBytes)
    }

    ghost predicate Valid()
      reads this
    {
      ManifestShaped(manifest) && expected == Expected(manifest) && StagedWell(x.m.k, expected, State())
    }

    constructor (x: Setup, manifest: Manifest)
      requires ManifestShaped(manifest)
      ensures Valid() && State() == Staged(map[], 0) && this.x == x && this.manifest == manifest
    {
      this.x := x;
      this.manifest := manifest;
      expected := Expected(manifest);
      chunks := map[];
      stagedBytes := 0;
      NothingStaged(x.m.k, Expected(manifest));
    }

    /** Identical duplicates change nothing; a refusal leaves what is staged as it was. */
    method StageChunk(domain: B256, index: nat, bytes: Bytes) returns (r: Result<(), SnapshotError>)
      requires Valid()
      modifies this
      ensures Valid()
      ensures match Stage(x.m.k, expected, old(State()), ChunkKey(domain, index), bytes)
              case Ok(next) => r == Ok(()) && State() == next
              case Err(error) => r == Err(error) && State() == old(State())
    {
      hide Expected, Sum, Lengths, ManifestShaped;
      var key := ChunkKey(domain, index);
      if key !in expected {
        return Err(UnexpectedChunk);
      }
      if !VerifyChunk(x.m.k, expected[key], bytes) {
        return Err(ChunkHash);
      }
      if key in chunks {
        return if chunks[key] == bytes then Ok(()) else Err(ConflictingChunk);
      }
      var total := stagedBytes + |bytes|;
      if total > MAX_SNAPSHOT_TOTAL_BYTES {
        return Err(Limit("snapshot staged bytes"));
      }
      StageKeeps(x.m.k, expected, State(), key, bytes);
      chunks := chunks[key := bytes];
      stagedBytes := total;
      return Ok(());
    }

    /** Counting is enough: only declared chunks are ever staged. */
    method IsComplete() returns (complete: bool)
      requires Valid()
      ensures complete <==> chunks.Keys == expected.Keys
    {
      hide Expected, Sum, Lengths, ManifestShaped;
      complete := |chunks| == |expected|;
      assert |chunks| == |chunks.Keys| && |expected| == |expected.Keys| && chunks.Keys <= expected.Keys;
      if complete {
        SameSize(chunks.Keys, expected.Keys);
      }
    }

    method Finish() returns (r: Result<ChainState, SnapshotError>)
      requires Valid()
      ensures r == FinishImport(x, manifest, chunks)
    {
      hide LoadState, FromCheckpoint, Expected, StagedWell, DecodeStaged, NeighboursSorted, Assemble, WithDomain;
      if |chunks| != |expected| {
        return Err(Incomplete);
      }
      var loaded := Loaded(map[], map[]);
      ghost var whole := FinishDomains(x, manifest, chunks, |manifest.chunks|);
      for i := 0 to |manifest.chunks|
        invariant FinishDomains(x, manifest, chunks, i) == Ok(loaded)
      {
        var record := manifest.checkpoint.domains[i];
        var state := RebuildDomain(record, |manifest.chunks[i]|);
        if state.Err? {
          FailsEarly(x, manifest, chunks, i + 1, |manifest.chunks|);
          return Err(state.error);
        }
        loaded := WithDomain(loaded, record, state.value);
      }
      var st := FromCheckpoint(x, Assemble(manifest.checkpoint, loaded), manifest.checkpoint.domainHeadsRoot);
      return if st.Ok? then Ok(st.value) else Err(SnapshotError.StateFailure);
    }

    method RebuildDomain(record: DomainRecord, n: nat) returns (r: Result<ExecutionState, SnapshotError>)
      requires n <= MAX_CHUNKS_PER_DOMAIN
      ensures r == FinishDomain(x, record, n, chunks)
    {
      hide LoadState, DecodeStaged;
      var stores :- DecodeDomain(x.m.k, record.domainId, chunks, n);
      var state := LoadState(x, record.stateRoot, stores.nodes, stores.code);
      if state.Err? {
        return Err(SnapshotError.StateFailure);
      }
      if state.value.code.Keys != stores.code.Keys {
        return Err(Invalid("snapshot contains unreferenced contract code"));
      }
      return Ok(state.value);
    }
  }

  lemma {:induction false} FailsEarly(x: Setup, m: Manifest, chunks: map<ChunkKey, Bytes>, n: nat, end: nat)
    requires ManifestShaped(m) && n <= end <= |m.chunks| && FinishDomains(x, m, chunks, n).Err?
    ensures FinishDomains(x, m, chunks, end) == FinishDomains(x, m, chunks, n)
  {
    hide FinishDomain, NeighboursSorted;
    if n < end {
      FailsEarly(x, m, chunks, n, end - 1);
    }
  }

  /** `SnapshotStaging::new` on a decoded manifest: identity first, then finality. */
  method OpenStaging(x: Setup, manifest: Manifest, network: B256, genesisHash: B256, verify: Manifest -> bool)
    returns (r: Result<SnapshotStaging, SnapshotError>)
    requires ManifestShaped(manifest)
    ensures r.Ok? <==>
              manifest.checkpoint.networkId == network && manifest.genesisHash == genesisHash && verify(manifest)
    ensures r.Ok? ==> fresh(r.value) && r.value.Valid() && r.value.x == x
    ensures r.Ok? ==> r.value.manifest == manifest && r.value.chunks == map[]
    ensures r.Err? ==> r.error == Identity || r.error == Finality
  {
    hide Expected, StagedWell, ManifestShaped;
    if manifest.checkpoint.networkId != network || manifest.genesisHash != genesisHash {
      return Err(Identity);
    }
    if !verify(manifest) {
      return Err(Finality);
    }
    var staging := new SnapshotStaging(x, manifest);
    return Ok(staging);
  }
}
