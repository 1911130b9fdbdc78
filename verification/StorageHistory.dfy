/** Every commit and every prune keeps the columns in step with the history they stand for. */
module StorageHistory {
  import opened Wrappers
  import opened Bytes
  import opened Hashing
  import opened TrieCommit
  import opened TrieWalk
  import opened Storage

  // ----- commits -----

  ghost predicate InDomains(states: seq<StateCommit>, d: B256) {
    exists i :: 0 <= i < |states| && states[i].domainId == d
  }

  /** Pending nodes: those of the database as they were, and content-addressed ones of the batch. */
  ghost predicate PendingNodes(k: Keccak, db: NodeMap, next: NodeMap, bytes: set<Bytes>) {
    && Stored(db, next)
    && forall h | h in next && h !in db :: next[h] in bytes && k(next[h]) == h
  }

  ghost predicate Untouched(db: Columns, next: Columns, d: B256) {
    && (d in next.heads <==> d in db.heads)
    && (d in db.heads ==> next.heads[d] == db.heads[d])
    && FlatOf(next, d) == FlatOf(db, d)
  }

  ghost predicate SameRoots(history: History, after: History, d: B256) {
    && (forall h: u64 :: RootKey(d, h) in after <==> RootKey(d, h) in history)
    && (forall h: u64 | RootKey(d, h) in history :: after[RootKey(d, h)] == history[RootKey(d, h)])
  }

  ghost predicate DomainAt(db: Columns, next: Columns, history: History, after: History, d: B256, done: bool) {
    if done then FlatExact(next, after, d) else Untouched(db, next, d) && SameRoots(history, after, d)
  }

  /** The first `n` domains of a batch are exact and the others as they were. */
  ghost predicate DomainsDone(db: Columns, next: Columns, history: History, after: History,
                              states: seq<StateCommit>, n: nat)
    requires n <= |states|
  {
    forall d :: DomainAt(db, next, history, after, d, InDomains(states[..n], d))
  }

  /** State after the first `n` domains of a batch. */
  ghost predicate Progress(k: Keccak, db: Columns, next: Columns, history: History, after: History,
                           states: seq<StateCommit>, n: nat, bytes: set<Bytes>)
    requires n <= |states|
  {
    && Agrees(k, next, after)
    && PendingNodes(k, db.nodes, next.nodes, bytes)
    && DomainsDone(db, next, history, after, states, n)
  }

  lemma NoConflict(k: Keccak, db: NodeMap, next: NodeMap, nodes: NodeMap, bytes: set<Bytes>)
    requires PendingNodes(k, db, next, bytes) && CollisionFree(k, bytes)
    requires !Conflicts(db, nodes)
    requires forall h | h in nodes :: k(nodes[h]) == h && nodes[h] in bytes
    ensures Stored(nodes, nodes + next)
    ensures PendingNodes(k, db, nodes + next, bytes)
  {
    forall h | h in nodes
      ensures (nodes + next)[h] == nodes[h]
    {
      if h in next && h !in db {
        assert k(next[h]) == k(nodes[h]);
      }
    }
  }

  lemma AppendedFields(next: Columns, s: StateCommit, stale: set<B256>)
    ensures var c := Appended(next, s, stale);
            var key := RootKey(s.domainId, s.consensusHeight);
            && c.nodes == s.snapshot.nodes + next.nodes
            && c.roots == next.roots[key := s.snapshot.root]
            && c.manifests == next.manifests[key := ManifestOf(s.snapshot)]
            && c.heads == next.heads[s.domainId := Head(s.consensusHeight, s.snapshot.root)]
  {
  }

  lemma AppendedAgrees(k: Keccak, next: Columns, after: History, s: StateCommit, stale: set<B256>)
    requires Agrees(k, next, after)
    requires Stored(s.snapshot.nodes, s.snapshot.nodes + next.nodes)
    requires CollectLeaves(k, s.snapshot.nodes, s.snapshot.root) == Ok(s.snapshot.leaves)
    ensures Agrees(k, Appended(next, s, stale), after[RootKey(s.domainId, s.consensusHeight) := s.snapshot])
  {
    hide CollectLeaves, FlatOf, Appended;
    var c := Appended(next, s, stale);
    AppendedFields(next, s, stale);
    var key := RootKey(s.domainId, s.consensusHeight);
    var later := after[key := s.snapshot];
    forall other | other in later
      ensures Recorded(k, c, other, later[other])
    {
      if other != key {
        assert Recorded(k, next, other, after[other]);
      }
    }
    forall d
      ensures HeadRecorded(c, later, d)
    {
      assert HeadRecorded(next, after, d);
    }
  }

  /** Deleting the keys the old manifest lists and the new state lacks leaves no stale entry. */
  lemma FlatReplaced(cached: set<B256>, flat: map<B256, Bytes>, leaves: map<B256, Bytes>)
    requires flat.Keys <= cached
    ensures (flat - (cached - leaves.Keys)) + leaves == leaves
  {
  }

  lemma CachedCovers(k: Keccak, db: Columns, history: History, cleared: set<B256>, d: B256)
    requires Agrees(k, db, history) && FlatAgrees(db, history, cleared)
    ensures CachedKeys(db, d).Ok? && FlatOf(db, d).Keys <= CachedKeys(db, d).value
  {
    hide CollectLeaves;
    assert HeadRecorded(db, history, d);
    assert FlatExact(db, history, d) || FlatOf(db, d) == map[];
    if d in db.heads {
      var key := RootKey(d, db.heads[d].height);
      assert Recorded(k, db, key, history[key]);
    }
  }

  lemma InPrefix(states: seq<StateCommit>, n: nat, d: B256)
    requires 0 < n <= |states|
    ensures InDomains(states[..n], d) <==> InDomains(states[..n - 1], d) || states[n - 1].domainId == d
  {
    if InDomains(states[..n - 1], d) {
      var i :| 0 <= i < n - 1 && states[..n - 1][i].domainId == d;
      assert states[..n][i].domainId == d;
    }
    if states[n - 1].domainId == d {
      assert states[..n][n - 1].domainId == d;
    }
    if InDomains(states[..n], d) {
      var i :| 0 <= i < n && states[..n][i].domainId == d;
      if i < n - 1 {
        assert states[..n - 1][i].domainId == d;
      }
    }
  }

  lemma FreshDomain(states: seq<StateCommit>, n: nat)
    requires 0 < n <= |states| && UniqueDomains(states)
    ensures !InDomains(states[..n - 1], states[n - 1].domainId)
  {
  }

  lemma ProgressStep(k: Keccak, db: Columns, prior: Columns, history: History, before: History,
                     states: seq<StateCommit>, n: nat, bytes: set<Bytes>, cached: set<B256>)
    requires 0 < n <= |states| && UniqueDomains(states)
    requires Progress(k, db, prior, history, before, states, n - 1, bytes)
    requires CollisionFree(k, bytes)
    requires FlatOf(db, states[n - 1].domainId).Keys <= cached
    requires var s := states[n - 1];
             && (forall h | h in s.snapshot.nodes :: k(s.snapshot.nodes[h]) == h && s.snapshot.nodes[h] in bytes)
             && !Conflicts(db.nodes, s.snapshot.nodes)
             && CollectLeaves(k, s.snapshot.nodes, s.snapshot.root) == Ok(s.snapshot.leaves)
    ensures var s := states[n - 1];
            Progress(k, db, Appended(prior, s, cached - s.snapshot.leaves.Keys), history,
                     before[RootKey(s.domainId, s.consensusHeight) := s.snapshot], states, n, bytes)
  {
    hide CollectLeaves, Agrees, PendingNodes, CollisionFree, Conflicts, Stored, DomainsDone, UniqueDomains, FlatOf;
    var s := states[n - 1];
    NoConflict(k, db.nodes, prior.nodes, s.snapshot.nodes, bytes);
    AppendedAgrees(k, prior, before, s, cached - s.snapshot.leaves.Keys);
    DomainDone(db, prior, history, before, states, n, cached);
  }

  lemma DomainDone(db: Columns, prior: Columns, history: History, before: History,
                   states: seq<StateCommit>, n: nat, cached: set<B256>)
    requires 0 < n <= |states| && UniqueDomains(states)
    requires DomainsDone(db, prior, history, before, states, n - 1)
    requires FlatOf(db, states[n - 1].domainId).Keys <= cached
    ensures var s := states[n - 1];
            DomainsDone(db, Appended(prior, s, cached - s.snapshot.leaves.Keys), history,
                        before[RootKey(s.domainId, s.consensusHeight) := s.snapshot], states, n)
  {
    hide InDomains, UniqueDomains, DomainAt;
    var s := states[n - 1];
    var next := Appended(prior, s, cached - s.snapshot.leaves.Keys);
    var after := before[RootKey(s.domainId, s.consensusHeight) := s.snapshot];
    forall d
      ensures DomainAt(db, next, history, after, d, InDomains(states[..n], d))
    {
      InPrefix(states, n, d);
      assert DomainAt(db, prior, history, before, d, InDomains(states[..n - 1], d));
      if d == s.domainId {
        FreshDomain(states, n);
        CommittedDomain(db, prior, history, before, s, cached);
      } else {
        OtherDomain(db, prior, history, before, s, cached, d, InDomains(states[..n - 1], d));
      }
    }
  }

  lemma CommittedDomain(db: Columns, prior: Columns, history: History, before: History, s: StateCommit,
                        cached: set<B256>)
    requires DomainAt(db, prior, history, before, s.domainId, false)
    requires FlatOf(db, s.domainId).Keys <= cached
    ensures DomainAt(db, Appended(prior, s, cached - s.snapshot.leaves.Keys), history,
                     before[RootKey(s.domainId, s.consensusHeight) := s.snapshot], s.domainId, true)
  {
    FlatReplaced(cached, FlatOf(prior, s.domainId), s.snapshot.leaves);
  }

  lemma OtherDomain(db: Columns, prior: Columns, history: History, before: History, s: StateCommit,
                    cached: set<B256>, d: B256, done: bool)
    requires DomainAt(db, prior, history, before, d, done) && d != s.domainId
    ensures DomainAt(db, Appended(prior, s, cached - s.snapshot.leaves.Keys), history,
                     before[RootKey(s.domainId, s.consensusHeight) := s.snapshot], d, done)
  {
  }

  lemma NoProgress(k: Keccak, db: Columns, history: History, states: seq<StateCommit>, bytes: set<Bytes>)
    requires Agrees(k, db, history)
    ensures Progress(k, db, db, history, history, states, 0, bytes)
  {
    hide Agrees;
  }

  lemma {:induction false} AppendFirstProgress(k: Keccak, db: Columns, history: History, cleared: set<B256>,
                                               batch: CommitBatch, n: nat)
    requires n <= |batch.states| && UniqueDomains(batch.states)
    requires Agrees(k, db, history) && FlatAgrees(db, history, cleared)
    requires ContentAddressed(k, batch.states) && CollisionFree(k, BatchBytes(batch.states))
    requires AppendFirst(k, db, batch, n).Ok?
    ensures Progress(k, db, AppendFirst(k, db, batch, n).value, history, HistoryAfter(history, batch.states[..n]),
                     batch.states, n, BatchBytes(batch.states))
  {
    hide CollectLeaves, Agrees, FlatAgrees, Progress, CollisionFree, UniqueDomains, Appended, Conflicts, CachedKeys;
    var states := batch.states;
    if n == 0 {
      NoProgress(k, db, history, states, BatchBytes(states));
    } else {
      AppendFirstProgress(k, db, history, cleared, batch, n - 1);
      var s := states[n - 1];
      CachedCovers(k, db, history, cleared, s.domainId);
      assert states[..n][..n - 1] == states[..n - 1];
      assert s in states;
      ProgressStep(k, db, AppendFirst(k, db, batch, n - 1).value, history, HistoryAfter(history, states[..n - 1]),
                   states, n, BatchBytes(states), CachedKeys(db, s.domainId).value);
    }
  }

  /** The invariants do not look at the record columns or the marker. */
  lemma RecordsKeep(k: Keccak, next: Columns, batch: CommitBatch, history: History)
    requires Agrees(k, next, history)
    ensures Agrees(k, WithRecords(next, batch), history)
  {
    hide CollectLeaves;
    var c := WithRecords(next, batch);
    forall key | key in history
      ensures Recorded(k, c, key, history[key])
    {
      assert Recorded(k, next, key, history[key]);
    }
    forall d
      ensures HeadRecorded(c, history, d)
    {
      assert HeadRecorded(next, history, d);
    }
  }

  /** A commit adds exactly its snapshots to the history, leaves the flat cache of every committed
      domain exact, and touches no other domain. */
  lemma CommitKeeps(k: Keccak, db: Columns, history: History, cleared: set<B256>, batch: CommitBatch)
    requires Agrees(k, db, history) && FlatAgrees(db, history, cleared)
    requires ContentAddressed(k, batch.states) && CollisionFree(k, BatchBytes(batch.states))
    requires CommitColumns(k, db, batch).Ok?
    ensures var c := CommitColumns(k, db, batch).value;
            var after := HistoryAfter(history, batch.states);
            && Agrees(k, c, after)
            && FlatAgrees(c, after, cleared)
            && Stored(db.nodes, c.nodes)
            && (forall d | InDomains(batch.states, d) :: FlatExact(c, after, d))
            && (forall d | !InDomains(batch.states, d) :: Untouched(db, c, d))
  {
    hide CollectLeaves, Agrees, AppendFirst, CollisionFree, ContentAddressed, UniqueDomains, Stored, Recorded,
         HistoryAfter, FlatExact, FlatOf, Untouched, HeadRecorded, InDomains, DomainAt, UniqueKeys, RecordCheck, PutAll;
    var states := batch.states;
    var n := |states|;
    AppendFirstProgress(k, db, history, cleared, batch, n);
    assert states[..n] == states;
    var next := AppendFirst(k, db, batch, n).value;
    var after := HistoryAfter(history, states);
    RecordsKeep(k, next, batch, after);
    var c := WithRecords(next, batch);
    HeadsOf(k, c, after);
    forall d
      ensures FlatExact(c, after, d) || (d in cleared && FlatOf(c, d) == map[])
      ensures if InDomains(states, d) then FlatExact(c, after, d) else Untouched(db, c, d)
    {
      assert HeadRecorded(c, after, d);
      assert FlatExact(db, history, d) || (d in cleared && FlatOf(db, d) == map[]);
      SettledDomain(db, next, history, after, batch, d, InDomains(states, d));
    }
  }

  lemma SettledDomain(db: Columns, next: Columns, history: History, after: History, batch: CommitBatch, d: B256,
                      done: bool)
    requires DomainAt(db, next, history, after, d, done)
    ensures var c := WithRecords(next, batch);
            && (if done then FlatExact(c, after, d) else Untouched(db, c, d))
            && (FlatExact(db, history, d) ==> FlatExact(c, after, d))
            && (FlatOf(db, d) == map[] ==> FlatExact(c, after, d) || FlatOf(c, d) == map[])
  {
  }

  lemma HeadsOf(k: Keccak, c: Columns, history: History)
    requires Agrees(k, c, history)
    ensures forall d :: HeadRecorded(c, history, d)
  {
  }

  // ----- pruning -----

  lemma LiveStays(manifests: map<RootKey, Manifest>, key: RootKey, h: B256)
    requires key in manifests && h in manifests[key].nodeHashes
    ensures h in LiveHashes(manifests)
  {
  }

  /** Pruning forgets one snapshot and keeps every node any other retained snapshot lists,
      whichever domain that snapshot belongs to. */
  lemma PruneKeeps(k: Keccak, c: Columns, history: History, key: RootKey)
    requires Agrees(k, c, history) && PruneColumns(c, key).Ok?
    ensures key in history && !IsHead(c, key)
    ensures Agrees(k, PruneColumns(c, key).value, history - {key})
  {
    hide CollectLeaves, LiveHashes;
    var next := PruneColumns(c, key).value;
    var after := history - {key};
    forall other | other in after
      ensures Recorded(k, next, other, after[other])
    {
      assert Recorded(k, c, other, history[other]);
      forall h | h in after[other].nodes
        ensures h in next.nodes && next.nodes[h] == after[other].nodes[h]
      {
        LiveStays(next.manifests, other, h);
      }
    }
    forall d
      ensures HeadRecorded(next, after, d)
    {
      assert HeadRecorded(c, history, d);
    }
  }

  /** Exactly the current head and unknown roots are refused. */
  lemma PruneDecides(k: Keccak, c: Columns, history: History, key: RootKey)
    requires Agrees(k, c, history)
    ensures PruneColumns(c, key).Ok? <==> key in history && !IsHead(c, key)
    ensures IsHead(c, key) ==> PruneColumns(c, key) == Err(PruneCurrentHead)
  {
    hide Recorded;
  }

  /** `later` is `earlier` without some roots of the given domains below the cutoff. */
  ghost predicate Trimmed(earlier: History, later: History, domains: iset<B256>, cutoff: nat) {
    && later.Keys <= earlier.Keys
    && (forall key | key in later :: later[key] == earlier[key])
    && (forall key | key in earlier && key !in later :: key.domain in domains && key.height < cutoff)
  }

  ghost predicate SameButRoots(a: Columns, b: Columns) {
    b == a.(nodes := b.nodes, roots := b.roots, manifests := b.manifests)
  }

  ghost function HistoryOf(c: Columns, history: History): History {
    map key | key in history && key in c.manifests :: history[key]
  }

  lemma HistoryOfAgreeing(k: Keccak, c: Columns, history: History)
    requires Agrees(k, c, history)
    ensures HistoryOf(c, history) == history
  {
  }

  lemma HistoryOfPruned(c: Columns, history: History, key: RootKey)
    requires PruneColumns(c, key).Ok? && c.manifests.Keys == history.Keys
    ensures HistoryOf(PruneColumns(c, key).value, history) == history - {key}
  {
  }

  ghost predicate Pruned(k: Keccak, c: Columns, p: Pruning, history: History, domains: iset<B256>, cutoff: nat) {
    && SameButRoots(c, p.columns)
    && Agrees(k, p.columns, HistoryOf(p.columns, history))
    && Trimmed(history, HistoryOf(p.columns, history), domains, cutoff)
  }

  lemma {:induction false} PruneHeightsKeeps(k: Keccak, c: Columns, history: History, d: B256, heights: seq<u64>,
                                             cutoff: nat)
    requires Agrees(k, c, history)
    ensures Pruned(k, c, PruneHeights(c, d, heights, cutoff), history, iset{d}, cutoff)
    decreases |heights|
  {
    hide Agrees, PruneColumns, HistoryOf, Trimmed;
    HistoryOfAgreeing(k, c, history);
    AllKept(history, iset{d}, cutoff);
    if heights != [] {
      var key := RootKey(d, heights[0]);
      if heights[0] >= cutoff {
        PruneHeightsKeeps(k, c, history, d, heights[1..], cutoff);
      } else if PruneColumns(c, key).Ok? {
        PruneKeeps(k, c, history, key);
        PrunedOnlyRoots(c, key);
        var next := PruneColumns(c, key).value;
        PruneHeightsKeeps(k, next, history - {key}, d, heights[1..], cutoff);
        PrunedAfter(k, c, next, PruneHeights(next, d, heights[1..], cutoff), history, key, cutoff);
      }
    }
  }

  /** The pass stops exactly when it meets the current head; otherwise nothing below the cutoff is left. */
  lemma {:induction false} PruneHeightsDecides(k: Keccak, c: Columns, history: History, d: B256, heights: seq<u64>,
                                               cutoff: nat)
    requires Agrees(k, c, history)
    requires forall i, j | 0 <= i < j < |heights| :: heights[i] < heights[j]
    requires forall h | h in heights :: RootKey(d, h) in history
    ensures var p := PruneHeights(c, d, heights, cutoff);
            && (p.error.Some? <==> d in c.heads && c.heads[d].height in heights && c.heads[d].height < cutoff)
            && (p.error.None? ==> forall h | h in heights && h < cutoff :: RootKey(d, h) !in p.columns.manifests)
    decreases |heights|
  {
    hide Agrees, PruneColumns;
    if heights != [] {
      var key := RootKey(d, heights[0]);
      var rest := heights[1..];
      assert heights == [heights[0]] + rest;
      assert forall h | h in rest :: h > heights[0];
      PruneDecides(k, c, history, key);
      if heights[0] >= cutoff {
        PruneHeightsDecides(k, c, history, d, rest, cutoff);
      } else if PruneColumns(c, key).Ok? {
        PruneKeeps(k, c, history, key);
        PrunedOnlyRoots(c, key);
        var next := PruneColumns(c, key).value;
        PruneHeightsDecides(k, next, history - {key}, d, rest, cutoff);
        StaysGone(next, d, rest, cutoff, key);
      }
    }
  }

  lemma {:induction false} StaysGone(c: Columns, d: B256, heights: seq<u64>, cutoff: nat, key: RootKey)
    requires key !in c.manifests
    ensures key !in PruneHeights(c, d, heights, cutoff).columns.manifests
    decreases |heights|
  {
    hide LiveHashes;
    if heights != [] {
      if heights[0] >= cutoff {
        StaysGone(c, d, heights[1..], cutoff, key);
      } else if PruneColumns(c, RootKey(d, heights[0])).Ok? {
        StaysGone(PruneColumns(c, RootKey(d, heights[0])).value, d, heights[1..], cutoff, key);
      }
    }
  }

  lemma PrunedAfter(k: Keccak, c: Columns, next: Columns, p: Pruning, history: History, key: RootKey, cutoff: nat)
    requires SameButRoots(c, next) && key in history && key.height < cutoff
    requires Pruned(k, next, p, history - {key}, iset{key.domain}, cutoff)
    ensures HistoryOf(p.columns, history) == HistoryOf(p.columns, history - {key})
    ensures key !in HistoryOf(p.columns, history)
    ensures Pruned(k, c, p, history, iset{key.domain}, cutoff)
  {
    hide Agrees;
    var kept := HistoryOf(p.columns, history - {key});
    ManifestsOf(k, p.columns, kept);
    assert forall x | x in p.columns.manifests :: x in kept.Keys;
    assert HistoryOf(p.columns, history) == kept;
  }

  lemma AllKept(history: History, domains: iset<B256>, cutoff: nat)
    ensures Trimmed(history, history, domains, cutoff)
  {
  }

  lemma ManifestsOf(k: Keccak, c: Columns, history: History)
    requires Agrees(k, c, history)
    ensures c.manifests.Keys == history.Keys == c.roots.Keys
  {
  }

  lemma PrunedOnlyRoots(c: Columns, key: RootKey)
    requires PruneColumns(c, key).Ok?
    ensures SameButRoots(c, PruneColumns(c, key).value)
    ensures PruneColumns(c, key).value.manifests == c.manifests - {key}
    ensures PruneColumns(c, key).value.roots == c.roots - {key}
  {
  }

  // ----- retention after a commit -----

  ghost function DomainsOf(states: seq<StateCommit>): iset<B256> {
    iset d | InDomains(states, d)
  }

  lemma InTail(states: seq<StateCommit>, d: B256)
    requires states != []
    ensures InDomains(states, d) <==> states[0].domainId == d || InDomains(states[1..], d)
  {
    if InDomains(states[1..], d) {
      var i :| 0 <= i < |states[1..]| && states[1..][i].domainId == d;
      assert states[i + 1].domainId == d;
    }
    if InDomains(states, d) && states[0].domainId != d {
      var i :| 0 <= i < |states| && states[i].domainId == d;
      assert states[1..][i - 1].domainId == d;
    }
  }

  /** Some domain's current head lies below the cutoff, so its pass cannot finish. */
  ghost predicate HeadBelow(c: Columns, states: seq<StateCommit>, cutoff: nat) {
    exists d :: InDomains(states, d) && d in c.heads && c.heads[d].height < cutoff
  }

  ghost predicate NothingBelow(c: Columns, d: B256, cutoff: nat) {
    forall h: u64 | h < cutoff :: RootKey(d, h) !in c.manifests
  }

  lemma PruneDomain(k: Keccak, c: Columns, history: History, d: B256, cutoff: nat)
    requires Agrees(k, c, history)
    ensures var p := PruneHeights(c, d, Ascending(HeightsOf(c, d)), cutoff);
            && Pruned(k, c, p, history, iset{d}, cutoff)
            && (p.error.Some? <==> d in c.heads && c.heads[d].height < cutoff)
            && (p.error.None? ==> NothingBelow(p.columns, d, cutoff))
  {
    hide PruneHeights, Recorded, HistoryOf, Pruned, Ascending;
    var heights := Ascending(HeightsOf(c, d));
    PruneHeightsKeeps(k, c, history, d, heights, cutoff);
    PruneHeightsDecides(k, c, history, d, heights, cutoff);
    assert HeadRecorded(c, history, d);
    if d in c.heads {
      assert RootKey(d, c.heads[d].height) in c.roots;
    }
    var p := PruneHeights(c, d, heights, cutoff);
    if p.error.None? {
      forall h: u64 | h < cutoff
        ensures RootKey(d, h) !in p.columns.manifests
      {
        if h !in heights {
          assert RootKey(d, h) !in c.roots;
          StaysGone(c, d, heights, cutoff, RootKey(d, h));
        }
      }
    }
  }

  lemma PrunedTwice(k: Keccak, c: Columns, first: Pruning, rest: Pruning, history: History,
                    d: B256, domains: iset<B256>, both: iset<B256>, cutoff: nat)
    requires Pruned(k, c, first, history, iset{d}, cutoff)
    requires Pruned(k, first.columns, rest, HistoryOf(first.columns, history), domains, cutoff)
    requires forall x :: x in both <==> x == d || x in domains
    ensures Pruned(k, c, rest, history, both, cutoff)
    ensures rest.columns.manifests.Keys <= first.columns.manifests.Keys
  {
    hide Agrees, Trimmed, HistoryOf;
    var middle := HistoryOf(first.columns, history);
    ManifestsOf(k, rest.columns, HistoryOf(rest.columns, middle));
    ManifestsOf(k, first.columns, middle);
    HistoryWithin(rest.columns, first.columns, history);
    TrimmedTwice(history, middle, HistoryOf(rest.columns, history), d, domains, both, cutoff);
  }

  lemma HistoryWithin(c: Columns, middle: Columns, history: History)
    requires c.manifests.Keys == HistoryOf(c, HistoryOf(middle, history)).Keys
    ensures HistoryOf(c, HistoryOf(middle, history)) == HistoryOf(c, history)
    ensures c.manifests.Keys <= middle.manifests.Keys
  {
    assert forall key | key in c.manifests :: key in HistoryOf(c, HistoryOf(middle, history)).Keys;
  }

  lemma TrimmedTwice(earlier: History, middle: History, later: History, d: B256, domains: iset<B256>,
                     both: iset<B256>, cutoff: nat)
    requires Trimmed(earlier, middle, iset{d}, cutoff) && Trimmed(middle, later, domains, cutoff)
    requires forall x :: x in both <==> x == d || x in domains
    ensures Trimmed(earlier, later, both, cutoff)
  {
  }

  /** Retention forgets only roots of the committed domains below the cutoff and stays in step with
      the history; it stops early exactly when one of those domains has its head below the cutoff,
      and otherwise leaves them nothing below it. */
  lemma {:induction false} PruneDomainsKeeps(k: Keccak, c: Columns, history: History, states: seq<StateCommit>,
                                             cutoff: nat)
    requires Agrees(k, c, history)
    ensures var p := PruneDomains(c, states, cutoff);
            && Pruned(k, c, p, history, DomainsOf(states), cutoff)
            && (p.error.Some? <==> HeadBelow(c, states, cutoff))
            && (p.error.None? ==> forall d | InDomains(states, d) :: NothingBelow(p.columns, d, cutoff))
    decreases |states|
  {
    hide Agrees, PruneHeights, HistoryOf, Trimmed, InDomains, HeightsOf, Ascending;
    if states == [] {
      HistoryOfAgreeing(k, c, history);
      AllKept(history, DomainsOf(states), cutoff);
      NoDomains();
    } else {
      var d := states[0].domainId;
      var first := PruneHeights(c, d, Ascending(HeightsOf(c, d)), cutoff);
      PruneDomain(k, c, history, d, cutoff);
      forall x
        ensures InDomains(states, x) <==> d == x || InDomains(states[1..], x)
      {
        InTail(states, x);
      }
      if first.error.None? {
        var middle := HistoryOf(first.columns, history);
        PruneDomainsKeeps(k, first.columns, middle, states[1..], cutoff);
        var rest := PruneDomains(first.columns, states[1..], cutoff);
        PrunedTwice(k, c, first, rest, history, d, DomainsOf(states[1..]), DomainsOf(states), cutoff);
        StillNothingBelow(first.columns, rest.columns, d, cutoff);
      } else {
        TrimmedMore(history, HistoryOf(first.columns, history), iset{d}, DomainsOf(states), cutoff);
      }
    }
  }

  lemma NoDomains()
    ensures forall d :: !InDomains([], d)
  {
  }

  lemma StillNothingBelow(c: Columns, later: Columns, d: B256, cutoff: nat)
    requires later.manifests.Keys <= c.manifests.Keys && NothingBelow(c, d, cutoff)
    ensures NothingBelow(later, d, cutoff)
  {
  }

  lemma TrimmedMore(earlier: History, later: History, some: iset<B256>, more: iset<B256>, cutoff: nat)
    requires Trimmed(earlier, later, some, cutoff) && some <= more
    ensures Trimmed(earlier, later, more, cutoff)
  {
  }
}
