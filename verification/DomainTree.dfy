/** The finalized domains form a tree under the root, in every state committed blocks reach. */
module DomainTree {
  import opened Wrappers
  import opened Bytes
  import opened Canonical
  import opened BlockBody
  import opened Chain
  import opened ChainAgreement

  // ----- genealogy -----

  function Parents(descriptors: map<B256, Descriptor>): set<B256> {
    set d | d in descriptors :: descriptors[d].parentDomainId
  }

  /** From the root down to `current`; every domain met must be new. */
  function Ancestry(st: ChainState, current: B256, seen: set<B256>): Result<seq<B256>, ChainError>
    decreases Parents(st.descriptors) - seen
  {
    if current == st.rootDomainId then
      Ok([current])
    else if current !in st.descriptors then
      Err(RegistryInvariant("missing parent descriptor"))
    else
      var parent := st.descriptors[current].parentDomainId;
      if parent in seen then
        Err(RegistryInvariant("cyclic domain genealogy"))
      else
        assert parent in Parents(st.descriptors) - seen;
        var above :- Ancestry(st, parent, seen + {parent});
        Ok(above + [current])
  }

  function Genealogy(st: ChainState, d: B256): Result<seq<B256>, ChainError> {
    if d !in st.domains then Err(UnknownDomain(d)) else Ancestry(st, d, {d})
  }

  function Reversed(s: seq<B256>): seq<B256> {
    if s == [] then [] else Reversed(s[1..]) + [s[0]]
  }

  lemma {:induction false} ReversedPush(s: seq<B256>, x: B256)
    ensures Reversed(s + [x]) == [x] + Reversed(s)
  {
    if s == [] {
      assert s + [x] == [x];
    } else {
      ReversedPush(s[1..], x);
      assert (s + [x])[1..] == s[1..] + [x];
    }
  }

  /** `genealogy` with its growing list and seen set. */
  method FindGenealogy(st: ChainState, d: B256) returns (r: Result<seq<B256>, ChainError>)
    ensures r == Genealogy(st, d)
  {
    if d !in st.domains {
      return Err(UnknownDomain(d));
    }
    var reversed := [d];
    var current := d;
    var seen := {d};
    ghost var below: seq<B256> := [];
    ghost var whole := Ancestry(st, d, {d});
    assert whole.Ok? ==> whole.value + below == whole.value;
    while current != st.rootDomainId
      invariant reversed != [] && reversed[|reversed| - 1] == current
      invariant Reversed(reversed) == [current] + below
      invariant var rest := Ancestry(st, current, seen);
                Genealogy(st, d) == if rest.Err? then rest else Ok(rest.value + below)
      decreases Parents(st.descriptors) - seen
    {
      if current !in st.descriptors {
        return Err(RegistryInvariant("missing parent descriptor"));
      }
      var parent := st.descriptors[current].parentDomainId;
      if parent in seen {
        return Err(RegistryInvariant("cyclic domain genealogy"));
      }
      assert parent in Parents(st.descriptors) - seen;
      ghost var above := Ancestry(st, parent, seen + {parent});
      if above.Ok? {
        assert (above.value + [current]) + below == above.value + ([current] + below);
      }
      below := [current] + below;
      current := parent;
      seen := seen + {parent};
      ReversedPush(reversed, current);
      reversed := reversed + [current];
    }
    return Ok(Reversed(reversed));
  }

  // ----- the tree -----

  ghost predicate DistinctChainIds(st: ChainState) {
    forall a, b | a in st.domains && b in st.domains && st.domains[a].config.chainId == st.domains[b].config.chainId ::
        a == b
  }

  /** Ranks fall from every domain to its parent. */
  ghost predicate Ranks(st: ChainState, rank: map<B256, nat>) {
    && (forall d | d in st.domains :: d in rank)
    && (forall d | d in st.descriptors ::
          var p := st.descriptors[d].parentDomainId; d in rank && p in rank && rank[p] < rank[d])
  }

  ghost predicate Tree(st: ChainState) {
    && st.rootDomainId in st.domains
    && st.descriptors.Keys == st.domains.Keys - {st.rootDomainId}
    && (forall d | d in st.descriptors ::
          st.descriptors[d].domainId == d && st.descriptors[d].parentDomainId in st.domains)
    && DistinctChainIds(st)
    && exists rank :: Ranks(st, rank)
  }

  /** A path from the root to `d`, each step from parent to child, no domain twice. */
  ghost predicate RootPath(st: ChainState, d: B256, path: seq<B256>) {
    && path != [] && path[0] == st.rootDomainId && path[|path| - 1] == d
    && (forall i | 0 < i < |path| ::
          path[i] in st.descriptors && st.descriptors[path[i]].parentDomainId == path[i - 1])
    && (forall i, j | 0 <= i < j < |path| :: path[i] != path[j])
  }

  lemma {:induction false} AncestrySucceeds(st: ChainState, rank: map<B256, nat>, current: B256, seen: set<B256>)
    requires Tree(st) && Ranks(st, rank) && current in st.domains
    requires forall x | x in seen :: x in rank && rank[x] >= rank[current]
    ensures var r := Ancestry(st, current, seen);
            && r.Ok? && RootPath(st, current, r.value)
            && (forall i | 0 <= i < |r.value| :: r.value[i] in rank && rank[r.value[i]] <= rank[current])
    decreases rank[current]
  {
    hide DistinctChainIds;
    if current != st.rootDomainId {
      assert current in st.descriptors;
      var parent := st.descriptors[current].parentDomainId;
      assert rank[parent] < rank[current];
      AncestrySucceeds(st, rank, parent, seen + {parent});
      var above := Ancestry(st, parent, seen + {parent}).value;
      var path := above + [current];
      forall i | 0 < i < |path|
        ensures path[i] in st.descriptors && st.descriptors[path[i]].parentDomainId == path[i - 1]
      {
        if i == |path| - 1 {
          assert path[i - 1] == above[|above| - 1] == parent;
        } else {
          assert path[i] == above[i] && path[i - 1] == above[i - 1];
        }
      }
      forall i, j | 0 <= i < j < |path|
        ensures path[i] != path[j]
      {
        if j == |path| - 1 {
          assert rank[above[i]] <= rank[parent];
        }
      }
    }
  }

  /** In a tree the genealogy of every domain is found: the repeat-free path from the root. */
  lemma GenealogySucceeds(st: ChainState, d: B256)
    requires Tree(st) && d in st.domains
    ensures Genealogy(st, d).Ok? && RootPath(st, d, Genealogy(st, d).value)
  {
    var rank :| Ranks(st, rank);
    AncestrySucceeds(st, rank, d, {d});
  }

  // ----- kept by every block -----

  lemma InsertKeepsTree(m: Machine, st: ChainState, c: CreatedDomain, height: u64)
    requires Tree(st) && InsertCreated(m, st, c, height).Ok?
    ensures Tree(InsertCreated(m, st, c, height).value)
  {
    hide HashDomain, DeriveDomainId, ValidConfig;
    var next := InsertCreated(m, st, c, height).value;
    var d := c.descriptor;
    assert forall x | x in st.domains :: st.domains[x].config.chainId != d.evmChainId;
    PlantKeepsTree(st, d, next.domains[d.domainId]);
  }

  /** A new leaf under a present parent, with a chain ID of its own. */
  lemma PlantKeepsTree(st: ChainState, d: Descriptor, f: FinalizedDomain)
    requires Tree(st) && d.domainId !in st.domains && d.parentDomainId in st.domains
    requires forall x | x in st.domains :: st.domains[x].config.chainId != f.config.chainId
    ensures Tree(st.(domains := st.domains[d.domainId := f], descriptors := st.descriptors[d.domainId := d]))
  {
    var next := st.(domains := st.domains[d.domainId := f], descriptors := st.descriptors[d.domainId := d]);
    PlantRanks(st, next, d);
    assert next.descriptors.Keys == next.domains.Keys - {st.rootDomainId};
    assert DistinctChainIds(next);
  }

  lemma PlantRanks(st: ChainState, next: ChainState, d: Descriptor)
    requires Tree(st) && d.domainId !in st.domains && d.parentDomainId in st.domains
    requires next.domains.Keys == st.domains.Keys + {d.domainId} && next.descriptors == st.descriptors[d.domainId := d]
    ensures exists rank :: Ranks(next, rank)
  {
    hide DistinctChainIds;
    var rank :| Ranks(st, rank);
    var more := rank[d.domainId := rank[d.parentDomainId] + 1];
    forall x | x in next.descriptors
      ensures var p := next.descriptors[x].parentDomainId; x in more && p in more && more[p] < more[x]
    {
      if x != d.domainId {
        assert st.descriptors[x].parentDomainId in st.domains;
      }
    }
    assert Ranks(next, more);
  }

  lemma {:induction false} InsertAllKeepsTree(m: Machine, st: ChainState, created: seq<CreatedDomain>, n: nat,
                                              height: u64)
    requires n <= |created| && Tree(st) && InsertFirst(m, st, created, n, height).Ok?
    ensures Tree(InsertFirst(m, st, created, n, height).value)
  {
    hide Tree, InsertCreated;
    if n > 0 {
      InsertAllKeepsTree(m, st, created, n - 1, height);
      InsertKeepsTree(m, InsertFirst(m, st, created, n - 1, height).value, created[n - 1], height);
    }
  }

  /** Replacing a domain by one of the same configuration changes nothing the tree looks at. */
  lemma AdvanceKeepsTree(st: ChainState, d: B256, f: FinalizedDomain)
    requires Tree(st) && d in st.domains && f.config == st.domains[d].config
    ensures Tree(st.(domains := st.domains[d := f]))
  {
    var next := st.(domains := st.domains[d := f]);
    var rank :| Ranks(st, rank);
    assert Ranks(next, rank);
    assert next.domains.Keys == st.domains.Keys;
  }

  lemma {:induction false} ExecuteKeepsTree(m: Machine, parent: ChainState, batches: seq<DomainBatch>, n: nat,
                                            height: u64, timestamp: u64, proposer: Address)
    requires n <= |batches| && Tree(parent)
    requires InBatchOrder(batches)
    requires ExecuteFirst(m, parent, batches, n, height, timestamp, proposer).Ok?
    ensures Tree(ExecuteFirst(m, parent, batches, n, height, timestamp, proposer).value.state)
  {
    hide Tree, InsertFirst, HashDomain, EnvFor, ContextFor, NextBaseFee;
    if n > 0 {
      ExecuteKeepsTree(m, parent, batches, n - 1, height, timestamp, proposer);
      ExecuteMoves(m, parent, batches, n - 1, height, timestamp, proposer);
      var prior := ExecuteFirst(m, parent, batches, n - 1, height, timestamp, proposer).value;
      var batch := batches[n - 1];
      var (_, execution, domain) := ExecuteDomain(m, parent, batch, height, timestamp, proposer).value;
      assert !Batched(batches, n - 1, batch.domainId);
      assert prior.state.domains[batch.domainId] == parent.domains[batch.domainId];
      AdvanceKeepsTree(prior.state, batch.domainId, domain);
      var middle := prior.state.(domains := prior.state.domains[batch.domainId := domain]);
      InsertAllKeepsTree(m, middle, execution.created, |execution.created|, height);
    }
  }

  ghost predicate InBatchOrder(batches: seq<DomainBatch>) {
    forall i, j | 0 <= i < j < |batches| :: batches[i].domainId != batches[j].domainId
  }

  lemma OrderedDistinct(batches: seq<DomainBatch>)
    requires BatchesOrdered(batches)
    ensures InBatchOrder(batches)
  {
    hide LexLess;
    forall i, j | 0 <= i < j < |batches|
      ensures batches[i].domainId != batches[j].domainId
    {
      OrderedFar(batches, i, j);
      LexIrreflexive(BatchRank(batches[i]));
    }
  }

  lemma TreeFrame(a: ChainState, b: ChainState)
    requires Tree(a) && b.domains == a.domains && b.descriptors == a.descriptors && b.rootDomainId == a.rootDomainId
    ensures Tree(b)
  {
    var rank :| Ranks(a, rank);
    assert Ranks(b, rank);
  }

  /** Committed blocks keep the tree. */
  lemma BlockKeepsTree(m: Machine, parent: ChainState, block: ConsensusBlock)
    requires Tree(parent) && Validate(m, parent, block).Ok?
    ensures Tree(Validate(m, parent, block).value.state)
  {
    hide Tree, Seal, ExecuteFirst, CompareCandidate, BatchesOrdered, HashConsensus, EncodeBlock;
    OrderedDistinct(block.batches);
    var timestamp, proposer := block.header.timestamp, block.header.proposer;
    var p := ExecuteFirst(m, parent, block.batches, |block.batches|, parent.height + 1, timestamp, proposer).value;
    ExecuteKeepsTree(m, parent, block.batches, |block.batches|, parent.height + 1, timestamp, proposer);
    ExecuteMoves(m, parent, block.batches, |block.batches|, parent.height + 1, timestamp, proposer);
    SealShape(m, parent, p, block.batches, timestamp, proposer);
    TreeFrame(p.state, Validate(m, parent, block).value.state);
  }

  // ----- every reachable state -----

  /** Height zero: the root domain alone. */
  ghost predicate IsGenesis(st: ChainState) {
    st.height == 0 && st.domains.Keys == {st.rootDomainId} && st.descriptors == map[]
  }

  lemma GenesisIsTree(st: ChainState)
    requires IsGenesis(st)
    ensures Tree(st)
  {
    assert Ranks(st, map[st.rootDomainId := 0]);
  }

  ghost function Committed(m: Machine, genesis: ChainState, blocks: seq<ConsensusBlock>)
    : Result<ChainState, ChainError> {
    if blocks == [] then
      Ok(genesis)
    else
      var st :- Committed(m, genesis, blocks[..|blocks| - 1]);
      var p :- Validate(m, st, blocks[|blocks| - 1]);
      Ok(p.state)
  }

  /** In every state committed blocks reach from genesis chain IDs are distinct, every other domain
      has a descriptor with a present parent, and every genealogy is found. */
  lemma {:induction false} ReachableIsTree(m: Machine, genesis: ChainState, blocks: seq<ConsensusBlock>)
    requires IsGenesis(genesis) && Committed(m, genesis, blocks).Ok?
    ensures Tree(Committed(m, genesis, blocks).value)
  {
    hide Tree, Validate;
    if blocks == [] {
      GenesisIsTree(genesis);
    } else {
      ReachableIsTree(m, genesis, blocks[..|blocks| - 1]);
      BlockKeepsTree(m, Committed(m, genesis, blocks[..|blocks| - 1]).value, blocks[|blocks| - 1]);
    }
  }
}
