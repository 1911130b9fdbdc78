/** What an accepted commit leaves in the index, head, node and code columns. */
module CommitEffects {
  import opened Wrappers
  import opened Bytes
  import opened Hashing
  import opened TrieCommit
  import opened TrieWalk
  import opened Storage
  import opened StorageHistory

  ghost predicate HasKey(values: seq<IndexedValue>, key: Bytes) {
    exists i :: 0 <= i < |values| && values[i].key == key
  }

  lemma {:induction false} PutAllLookup(m: map<Bytes, Bytes>, values: seq<IndexedValue>, key: Bytes)
    requires UniqueKeys(values)
    ensures !HasKey(values, key) ==> (key in PutAll(m, values) <==> key in m)
    ensures !HasKey(values, key) && key in m ==> PutAll(m, values)[key] == m[key]
    ensures forall i | 0 <= i < |values| && values[i].key == key ::
              key in PutAll(m, values) && PutAll(m, values)[key] == values[i].value
  {
    if values != [] {
      var first, last := values[..|values| - 1], values[|values| - 1];
      PutAllLookup(m, first, key);
      if HasKey(first, key) {
        var i :| 0 <= i < |first| && first[i].key == key;
        assert values[i].key == key;
      }
      assert last.key == key ==> values[|values| - 1].key == key;
    }
  }

  /** Heads of committed domains are those of the batch; other heads stay. */
  lemma {:induction false} AppendHeads(k: Keccak, db: Columns, batch: CommitBatch, n: nat)
    requires n <= |batch.states| && UniqueDomains(batch.states) && AppendFirst(k, db, batch, n).Ok?
    ensures var next := AppendFirst(k, db, batch, n).value;
            && (forall i | 0 <= i < n ::
                  batch.states[i].domainId in next.heads
                  && next.heads[batch.states[i].domainId] ==
                       Head(batch.states[i].consensusHeight, batch.states[i].snapshot.root))
            && (forall d | !InDomains(batch.states, d) :: d in next.heads <==> d in db.heads)
            && (forall d | !InDomains(batch.states, d) && d in db.heads :: next.heads[d] == db.heads[d])
            && next.indexes == db.indexes && next.code == db.code
            && Stored(db.nodes, next.nodes)
  {
    hide AppendFirst;
    if n == 0 {
      AppendNone(k, db, batch);
    } else {
      AppendStep(k, db, batch, n);
      AppendHeads(k, db, batch, n - 1);
      assert InDomains(batch.states, batch.states[n - 1].domainId);
    }
  }

  lemma AppendNone(k: Keccak, db: Columns, batch: CommitBatch)
    ensures AppendFirst(k, db, batch, 0) == Ok(db)
  {
  }

  /** One more domain of a batch. */
  lemma AppendStep(k: Keccak, db: Columns, batch: CommitBatch, n: nat)
    requires 0 < n <= |batch.states| && AppendFirst(k, db, batch, n).Ok?
    ensures AppendFirst(k, db, batch, n - 1).Ok?
    ensures var prior, next := AppendFirst(k, db, batch, n - 1).value, AppendFirst(k, db, batch, n).value;
            var s := batch.states[n - 1];
            && next.heads == prior.heads[s.domainId := Head(s.consensusHeight, s.snapshot.root)]
            && next.indexes == prior.indexes && next.code == prior.code
            && next.nodes == s.snapshot.nodes + prior.nodes
            && !Conflicts(db.nodes, s.snapshot.nodes)
            && CollectLeaves(k, s.snapshot.nodes, s.snapshot.root) == Ok(s.snapshot.leaves)
  {
    hide CollectLeaves, Conflicts, CachedKeys, FlatOf;
  }

  lemma CommitEffect(k: Keccak, db: Columns, batch: CommitBatch)
    requires CommitColumns(k, db, batch).Ok?
    ensures var c := CommitColumns(k, db, batch).value;
            && UniqueDomains(batch.states) && UniqueKeys(batch.indexes)
            && c.marker == Some(batch.marker)
            && c.indexes == PutAll(db.indexes, batch.indexes)
            && c.code == db.code + batch.code
            && (forall h | h in batch.code :: k(batch.code[h]) == h)
            && Stored(db.nodes, c.nodes)
            && (forall i | 0 <= i < |batch.states| ::
                  batch.states[i].domainId in c.heads
                  && c.heads[batch.states[i].domainId] ==
                       Head(batch.states[i].consensusHeight, batch.states[i].snapshot.root))
            && (forall d | !InDomains(batch.states, d) :: d in c.heads <==> d in db.heads)
            && (forall d | !InDomains(batch.states, d) && d in db.heads :: c.heads[d] == db.heads[d])
            && (db.marker.Some? ==> db.marker.value.height < batch.marker.height)
  {
    hide AppendFirst, PutAll, Stored, UniqueDomains, InDomains;
    AppendHeads(k, db, batch, |batch.states|);
  }

  /** Snapshots of the batch are stored node for node, with their leaves walkable. */
  lemma {:induction false} AppendStores(k: Keccak, db: Columns, batch: CommitBatch, n: nat)
    requires n <= |batch.states| && AppendFirst(k, db, batch, n).Ok?
    requires ContentAddressed(k, batch.states) && CollisionFree(k, BatchBytes(batch.states))
    ensures var next := AppendFirst(k, db, batch, n).value;
            && PendingNodes(k, db.nodes, next.nodes, BatchBytes(batch.states))
            && (forall i | 0 <= i < n :: Stored(batch.states[i].snapshot.nodes, next.nodes))
            && (forall i | 0 <= i < n ::
                  CollectLeaves(k, batch.states[i].snapshot.nodes, batch.states[i].snapshot.root) ==
                      Ok(batch.states[i].snapshot.leaves))
  {
    hide CollectLeaves, Conflicts, AppendFirst, Stored, PendingNodes, CollisionFree;
    var bytes := BatchBytes(batch.states);
    if n == 0 {
      AppendNone(k, db, batch);
      NothingPending(k, db.nodes, bytes);
    } else {
      AppendStep(k, db, batch, n);
      AppendStores(k, db, batch, n - 1);
      var prior := AppendFirst(k, db, batch, n - 1).value;
      var s := batch.states[n - 1];
      assert s in batch.states;
      assert forall h | h in s.snapshot.nodes :: k(s.snapshot.nodes[h]) == h && s.snapshot.nodes[h] in bytes;
      NoConflict(k, db.nodes, prior.nodes, s.snapshot.nodes, bytes);
      var next := AppendFirst(k, db, batch, n).value;
      assert next.nodes == s.snapshot.nodes + prior.nodes;
      forall i | 0 <= i < n - 1
        ensures Stored(batch.states[i].snapshot.nodes, next.nodes)
      {
        StoredMore(batch.states[i].snapshot.nodes, prior.nodes, s.snapshot.nodes);
      }
    }
  }

  lemma NothingPending(k: Keccak, db: NodeMap, bytes: set<Bytes>)
    ensures PendingNodes(k, db, db, bytes)
  {
  }

  lemma StoredMore(nodes: NodeMap, store: NodeMap, more: NodeMap)
    requires Stored(nodes, store)
    ensures Stored(nodes, more + store)
  {
  }

  lemma CommitStores(k: Keccak, db: Columns, batch: CommitBatch)
    requires CommitColumns(k, db, batch).Ok?
    requires ContentAddressed(k, batch.states) && CollisionFree(k, BatchBytes(batch.states))
    ensures var c := CommitColumns(k, db, batch).value;
            forall i | 0 <= i < |batch.states| ::
              && Stored(batch.states[i].snapshot.nodes, c.nodes)
              && CollectLeaves(k, batch.states[i].snapshot.nodes, batch.states[i].snapshot.root) ==
                   Ok(batch.states[i].snapshot.leaves)
  {
    hide AppendFirst, PutAll, Stored, CollectLeaves, ContentAddressed, CollisionFree, PendingNodes;
    AppendStores(k, db, batch, |batch.states|);
  }
}
