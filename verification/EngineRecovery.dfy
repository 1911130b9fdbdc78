/** Every committed block and checkpoint can be read back. */
module EngineRecovery {
  import opened Wrappers
  import opened Bytes
  import opened Hashing
  import opened Canonical
  import opened BlockBody
  import opened TrieCommit
  import opened TrieWalk
  import opened Storage
  import opened StorageHistory
  import opened CommitEffects
  import opened Chain
  import opened ChainAgreement
  import opened DomainTree
  import opened Alike
  import opened CheckpointCodec
  import opened Recovery
  import opened EngineStore

  // ----- hypotheses -----

  ghost predicate LoadsUsable(x: Setup, usable: Usable) {
    forall root: B256, nodes: NodeMap, code: map<B256, Bytes> | LoadState(x, root, nodes, code).Ok? ::
      usable(LoadState(x, root, nodes, code).value)
  }

  /** Whether the registry commits to a descriptor is read through the authenticated root. */
  ghost predicate CommittedRespects(x: Setup, usable: Usable) {
    forall a: ExecutionState, b: ExecutionState, d: Descriptor | usable(a) && usable(b) && AlikeState(a, b) ::
      x.committed(a, d) == x.committed(b, d)
  }

  ghost predicate Sound(x: Setup, usable: Usable) {
    && Respects(x.m, usable) && LoadsUsable(x, usable) && CommittedRespects(x, usable)
    && UsableChain(usable, x.genesis) && x.genesis.height == 0
  }

  // ----- alike states pass the same audit -----

  lemma {:induction false} AncestryAlike(a: ChainState, b: ChainState, d: B256, seen: set<B256>)
    requires a.descriptors == b.descriptors && a.rootDomainId == b.rootDomainId
    ensures Ancestry(a, d, seen) == Ancestry(b, d, seen)
    decreases Parents(a.descriptors) - seen
  {
    if d != a.rootDomainId && d in a.descriptors {
      var parent := a.descriptors[d].parentDomainId;
      if parent !in seen {
        assert parent in Parents(a.descriptors) - seen;
        AncestryAlike(a, b, parent, seen + {parent});
      }
    }
  }

  lemma FitsAlike(x: Setup, usable: Usable, a: ChainState, b: ChainState)
    requires Sound(x, usable) && AlikeChain(a, b) && UsableChain(usable, a) && UsableChain(usable, b)
    requires CheckpointFits(x, a)
    ensures CheckpointFits(x, b)
  {
    hide DomainFits, Described, Genealogy, SameChainId, Sound, UsableChain;
    AlikeFrame(a, b);
    forall d | d in b.domains
      ensures DomainFits(x, b, d)
    {
      assert DomainFits(x, a, d);
      DomainFitsAlike(x, a, b, d);
    }
    forall p, q | p in b.domains && q in b.domains && SameChainId(b, p, q)
      ensures p == q
    {
      SameChainIdAlike(a, b, p, q);
    }
    forall d | d in b.descriptors
      ensures Described(x, b, d) && Genealogy(b, d).Ok?
    {
      assert Described(x, a, d) && Genealogy(a, d).Ok?;
      DescribedAlike(x, usable, a, b, d);
    }
  }

  lemma DomainFitsAlike(x: Setup, a: ChainState, b: ChainState, d: B256)
    requires AlikeChain(a, b) && d in a.domains && DomainFits(x, a, d)
    ensures DomainFits(x, b, d)
  {
    hide ValidConfig, HashDomain, DeriveDomainId;
    assert AlikeDomain(a.domains[d], b.domains[d]);
  }

  lemma SameChainIdAlike(a: ChainState, b: ChainState, p: B256, q: B256)
    requires AlikeChain(a, b) && p in b.domains && q in b.domains && SameChainId(b, p, q)
    ensures SameChainId(a, p, q)
  {
    assert AlikeDomain(a.domains[p], b.domains[p]) && AlikeDomain(a.domains[q], b.domains[q]);
  }

  lemma DescribedAlike(x: Setup, usable: Usable, a: ChainState, b: ChainState, d: B256)
    requires Sound(x, usable) && AlikeChain(a, b) && UsableChain(usable, a) && UsableChain(usable, b)
    requires a.rootDomainId in a.domains && d in a.descriptors && Described(x, a, d) && Genealogy(a, d).Ok?
    ensures Described(x, b, d) && Genealogy(b, d).Ok?
  {
    hide Ancestry, Respects, LoadsUsable;
    assert AlikeDomain(a.domains[a.rootDomainId], b.domains[a.rootDomainId]);
    AncestryAlike(a, b, d, {d});
  }

  lemma ProjectedAlike(usable: Usable, a: ChainState, b: ChainState)
    requires AlikeChain(a, b) && UsableChain(usable, a) && UsableChain(usable, b)
    ensures AlikeChain(Projected(a), Projected(b)) && UsableChain(usable, Projected(a)) &&
      UsableChain(usable, Projected(b))
  {
    assert Projected(a).descriptors == Projected(b).descriptors;
  }

  lemma AuditAlike(x: Setup, usable: Usable, a: ChainState, b: ChainState, headsRoot: B256)
    requires Sound(x, usable) && AlikeChain(a, b) && UsableChain(usable, a) && UsableChain(usable, b)
    requires FromCheckpoint(x, a, headsRoot).Ok?
    ensures FromCheckpoint(x, b, headsRoot).Ok?
    ensures AlikeChain(FromCheckpoint(x, a, headsRoot).value, FromCheckpoint(x, b, headsRoot).value)
    ensures UsableChain(usable, FromCheckpoint(x, a, headsRoot).value) &&
      UsableChain(usable, FromCheckpoint(x, b, headsRoot).value)
  {
    hide CheckpointFits, HeadsRoot, Sound, Projected;
    ProjectedAlike(usable, a, b);
    FitsAlike(x, usable, Projected(a), Projected(b));
    RootAlike(x.m.k, Projected(a), Projected(b));
  }

  // ----- the base of replay is stable -----

  ghost predicate AlikeLoaded(a: Loaded, b: Loaded) {
    && a.descriptors == b.descriptors && a.domains.Keys == b.domains.Keys
    && forall d | d in a.domains :: AlikeDomain(a.domains[d], b.domains[d])
  }

  ghost predicate UsableLoaded(usable: Usable, l: Loaded) {
    forall d | d in l.domains :: usable(l.domains[d].state)
  }

  lemma {:induction false} LoadDomainsUsable(x: Setup, usable: Usable, records: seq<DomainRecord>, nodes: NodeMap,
                                             code: map<B256, Bytes>)
    requires LoadsUsable(x, usable) && LoadDomains(x, records, nodes, code).Ok?
    ensures UsableLoaded(usable, LoadDomains(x, records, nodes, code).value)
  {
    hide LoadState;
    if records != [] {
      LoadDomainsUsable(x, usable, records[..|records| - 1], nodes, code);
    }
  }

  lemma {:induction false} LoadDomainsStable(x: Setup, records: seq<DomainRecord>, small: NodeMap, big: NodeMap,
                                             code: map<B256, Bytes>, more: map<B256, Bytes>)
    requires Stored(small, big) && CodeCovers(x.m.k, code, more) && LoadDomains(x, records, small, code).Ok?
    ensures LoadDomains(x, records, big, more).Ok?
    ensures AlikeLoaded(LoadDomains(x, records, small, code).value, LoadDomains(x, records, big, more).value)
  {
    hide LoadState, Stored, CodeCovers, AlikeLoaded;
    if records == [] {
      NothingLoaded();
    } else {
      var first, r := records[..|records| - 1], records[|records| - 1];
      LoadDomainsStable(x, first, small, big, code, more);
      LoadStable(x, r.stateRoot, small, big, code, more);
      LoadedMore(LoadDomains(x, first, small, code).value, LoadDomains(x, first, big, more).value, r,
                 LoadState(x, r.stateRoot, small, code).value, LoadState(x, r.stateRoot, big, more).value);
    }
  }

  lemma NothingLoaded()
    ensures AlikeLoaded(Loaded(map[], map[]), Loaded(map[], map[]))
  {
  }

  function WithDomain(l: Loaded, r: DomainRecord, state: ExecutionState): Loaded {
    Loaded(l.domains[r.domainId := FinalizedDomain(r.config, r.header, r.blockHash, state)],
           if r.descriptor.Some? then l.descriptors[r.domainId := r.descriptor.value] else l.descriptors)
  }

  lemma LoadedMore(a: Loaded, b: Loaded, r: DomainRecord, s: ExecutionState, t: ExecutionState)
    requires AlikeLoaded(a, b) && AlikeState(s, t)
    ensures AlikeLoaded(WithDomain(a, r, s), WithDomain(b, r, t))
  {
    var c, d := WithDomain(a, r, s), WithDomain(b, r, t);
    forall e | e in c.domains
      ensures AlikeDomain(c.domains[e], d.domains[e])
    {
      if e != r.domainId {
        assert AlikeDomain(a.domains[e], b.domains[e]);
      }
    }
  }

  lemma AssembleAlike(usable: Usable, r: CheckpointRecord, a: Loaded, b: Loaded)
    requires AlikeLoaded(a, b) && UsableLoaded(usable, a) && UsableLoaded(usable, b)
    ensures AlikeChain(Assemble(r, a), Assemble(r, b)) && UsableChain(usable, Assemble(r, a)) &&
      UsableChain(usable, Assemble(r, b))
  {
  }

  lemma CheckpointStable(x: Setup, usable: Usable, bytes: Bytes, small: NodeMap, big: NodeMap,
                         code: map<B256, Bytes>, more: map<B256, Bytes>)
    requires Sound(x, usable) && Stored(small, big) && CodeCovers(x.m.k, code, more)
    requires LoadCheckpoint(x, bytes, small, code).Ok?
    ensures LoadCheckpoint(x, bytes, big, more).Ok?
    ensures AlikeChain(LoadCheckpoint(x, bytes, small, code).value, LoadCheckpoint(x, bytes, big, more).value)
    ensures UsableChain(usable, LoadCheckpoint(x, bytes, small, code).value)
    ensures UsableChain(usable, LoadCheckpoint(x, bytes, big, more).value)
  {
    hide DecodeCheckpoint, LoadDomains, FromCheckpoint, Stored, CodeCovers, Respects, CommittedRespects, LoadsUsable,
         NeighboursSorted, Assemble, UsableChain, AlikeLoaded, UsableLoaded;
    var r := DecodeCheckpoint(x.utf8, bytes).value;
    LoadDomainsStable(x, r.domains, small, big, code, more);
    LoadDomainsUsable(x, usable, r.domains, small, code);
    LoadDomainsUsable(x, usable, r.domains, big, more);
    var a, b := LoadDomains(x, r.domains, small, code).value, LoadDomains(x, r.domains, big, more).value;
    AssembleAlike(usable, r, a, b);
    AuditAlike(x, usable, Assemble(r, a), Assemble(r, b), r.domainHeadsRoot);
  }

  /** More nodes, more code, the same checkpoint record: an alike base. */
  lemma BaseStable(x: Setup, usable: Usable, db: Columns, next: Columns)
    requires Sound(x, usable) && Stored(db.nodes, next.nodes) && CodeCovers(x.m.k, db.code, next.code)
    requires KEY_CHECKPOINT in db.indexes <==> KEY_CHECKPOINT in next.indexes
    requires KEY_CHECKPOINT in db.indexes ==> next.indexes[KEY_CHECKPOINT] == db.indexes[KEY_CHECKPOINT]
    requires Base(x, db).Ok?
    ensures Base(x, next).Ok? && AlikeChain(Base(x, db).value, Base(x, next).value)
    ensures UsableChain(usable, Base(x, db).value) && UsableChain(usable, Base(x, next).value)
  {
    hide LoadCheckpoint, Stored, CodeCovers, Respects, CommittedRespects, LoadsUsable;
    if KEY_CHECKPOINT in db.indexes {
      CheckpointStable(x, usable, db.indexes[KEY_CHECKPOINT], db.nodes, next.nodes, db.code, next.code);
    } else {
      AlikeSelf(x.genesis);
    }
  }

  lemma AlikeSelf(st: ChainState)
    ensures AlikeChain(st, st)
  {
  }

  // ----- replay -----

  ghost predicate AlikeReplay(usable: Usable, a: Result<ChainState, EngineError>, b: Result<ChainState, EngineError>) {
    if a.Err? || b.Err? then a == b
    else AlikeChain(a.value, b.value) && UsableChain(usable, a.value) && UsableChain(usable, b.value)
  }

  /** Bodies up to the target are the same in both indexes. */
  ghost predicate SameBodies(a: map<Bytes, Bytes>, b: map<Bytes, Bytes>, target: u64) {
    forall h: u64 | h <= target ::
      && (BlockKey(h) in a <==> BlockKey(h) in b)
      && (BlockKey(h) in a ==> a[BlockKey(h)] == b[BlockKey(h)])
  }

  lemma AllStored(nodes: map<B256, Bytes>)
    ensures Stored(nodes, nodes)
  {
  }

  lemma AllCovered(k: Keccak, code: map<B256, Bytes>)
    ensures CodeCovers(k, code, code)
  {
  }

  lemma SameBodiesSelf(indexes: map<Bytes, Bytes>, target: u64)
    ensures SameBodies(indexes, indexes, target)
  {
  }

  lemma {:induction false} ReplayAlike(x: Setup, usable: Usable, first: map<Bytes, Bytes>, second: map<Bytes, Bytes>,
                                       a: ChainState, b: ChainState, height: nat, target: u64)
    requires Respects(x.m, usable) && SameBodies(first, second, target)
    requires AlikeChain(a, b) && UsableChain(usable, a) && UsableChain(usable, b)
    ensures AlikeReplay(usable, Replay(x, first, a, height, target), Replay(x, second, b, height, target))
    decreases target + 1 - height
  {
    hide BlockKey, DecodeBlock, Validate, AlikeChain, UsableChain, Respects;
    if height <= target && BlockKey(height) in first {
      var block := DecodeBlock(first[BlockKey(height)]);
      if block.Ok? {
        ValidatedAlike(x.m, usable, a, b, block.value);
        var p, q := Validate(x.m, a, block.value), Validate(x.m, b, block.value);
        if p.Ok? && q.Ok? {
          ReplayAlike(x, usable, first, second, p.value.state, q.value.state, height + 1, target);
        }
      }
    }
  }

  /** One more stored body is one more step. */
  lemma {:induction false} ReplayMore(x: Setup, indexes: map<Bytes, Bytes>, st: ChainState, height: nat, target: u64)
    requires target < U64_MAX && height <= target + 1 && Replay(x, indexes, st, height, target).Ok?
    ensures Replay(x, indexes, st, height, target + 1)
         == Replay(x, indexes, Replay(x, indexes, st, height, target).value, target + 1, target + 1)
    decreases target + 1 - height
  {
    hide BlockKey, DecodeBlock, Validate;
    if height <= target {
      var p := Validate(x.m, st, DecodeBlock(indexes[BlockKey(height)]).value).value;
      ReplayMore(x, indexes, p.state, height + 1, target);
    }
  }

  lemma ReplayOne(x: Setup, indexes: map<Bytes, Bytes>, st: ChainState, height: u64, block: ConsensusBlock)
    requires BlockKey(height) in indexes && DecodeBlock(indexes[BlockKey(height)]) == Ok(block)
    requires Validate(x.m, st, block).Ok?
    ensures Replay(x, indexes, st, height, height) == Ok(Validate(x.m, st, block).value.state)
  {
    hide BlockKey, DecodeBlock, Validate;
    var p := Validate(x.m, st, block).value;
    assert Replay(x, indexes, p.state, height + 1, height) == Ok(p.state);
  }

  // ===== a checkpoint that passes the audit is a domain tree, exactly as one grown block by block =====

  /** What was seen before can only stop the walk to the root, never change it. */
  lemma {:induction false} SeenOnlyStops(st: ChainState, d: B256, few: set<B256>, many: set<B256>)
    requires few <= many && Ancestry(st, d, many).Ok?
    ensures Ancestry(st, d, few) == Ancestry(st, d, many)
    decreases Parents(st.descriptors) - many
  {
    if d != st.rootDomainId {
      var parent := st.descriptors[d].parentDomainId;
      assert parent in Parents(st.descriptors) - many;
      SeenOnlyStops(st, parent, few + {parent}, many + {parent});
    }
  }

  /** A domain's genealogy is one longer than its parent's. */
  lemma ParentIsCloser(st: ChainState, d: B256)
    requires d in st.domains && d in st.descriptors && d != st.rootDomainId
    requires st.descriptors[d].parentDomainId in st.domains && Genealogy(st, d).Ok?
    ensures var up := Genealogy(st, st.descriptors[d].parentDomainId);
            up.Ok? && |Genealogy(st, d).value| == |up.value| + 1
  {
    var parent := st.descriptors[d].parentDomainId;
    SeenOnlyStops(st, parent, {parent}, {d} + {parent});
  }

  ghost function Depth(st: ChainState, d: B256): nat {
    var path := Genealogy(st, d);
    if path.Ok? then |path.value| else 0
  }

  /** The audit of an imported checkpoint accepts only domain trees. */
  lemma CheckpointIsTree(x: Setup, st: ChainState)
    requires CheckpointFits(x, st) && st.descriptors.Keys <= st.domains.Keys
    ensures Tree(st)
  {
    hide ValidConfig, HashDomain, DeriveDomainId, Ancestry;
    var rank := map d | d in st.domains :: Depth(st, d);
    forall d | d in st.domains
      ensures d in st.descriptors <==> d != st.rootDomainId
      ensures d in st.descriptors ==> st.descriptors[d].domainId == d
    {
      assert DomainFits(x, st, d);
    }
    assert st.descriptors.Keys == st.domains.Keys - {st.rootDomainId};
    forall d | d in st.descriptors
      ensures var p := st.descriptors[d].parentDomainId; d in rank && p in rank && rank[p] < rank[d]
    {
      assert Described(x, st, d) && Genealogy(st, d).Ok?;
      ParentIsCloser(st, d);
    }
    assert Ranks(st, rank);
    assert DistinctChainIds(st) by { ChainIdsDiffer(x, st); }
  }

  lemma ChainIdsDiffer(x: Setup, st: ChainState)
    requires CheckpointFits(x, st)
    ensures DistinctChainIds(st)
  {
    hide DomainFits, Described, Genealogy;
    forall a, b | a in st.domains && b in st.domains && st.domains[a].config.chainId == st.domains[b].config.chainId
      ensures a == b
    {
      assert SameChainId(st, a, b);
    }
  }

  /** Imported or grown from genesis, and then extended by any blocks: always a tree. */
  lemma {:induction false} ImportedStaysTree(x: Setup, offered: ChainState, headsRoot: B256,
                                             blocks: seq<ConsensusBlock>)
    requires FromCheckpoint(x, offered, headsRoot).Ok?
    requires Committed(x.m, FromCheckpoint(x, offered, headsRoot).value, blocks).Ok?
    ensures Tree(Committed(x.m, FromCheckpoint(x, offered, headsRoot).value, blocks).value)
  {
    hide Tree, Validate, CheckpointFits, HeadsRoot;
    var start := FromCheckpoint(x, offered, headsRoot).value;
    if blocks == [] {
      CheckpointIsTree(x, start);
    } else {
      var n := |blocks| - 1;
      ImportedStaysTree(x, offered, headsRoot, blocks[..n]);
      BlockKeepsTree(x.m, Committed(x.m, start, blocks[..n]).value, blocks[n]);
    }
  }
}
