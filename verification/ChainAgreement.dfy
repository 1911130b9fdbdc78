/** Proposer and validator reach the same block and the same state; what one block changes. */
module ChainAgreement {
  import opened Wrappers
  import opened Bytes
  import opened Sorting
  import opened Canonical
  import opened BlockBody
  import opened Chain

  // ----- what a sealed block says -----

  lemma SealShape(m: Machine, parent: ChainState, p: Progress, batches: seq<DomainBatch>, timestamp: u64,
                  proposer: Address)
    requires parent.height < U64_MAX && |batches| <= MAX_BATCHES_PER_BLOCK && |p.blocks| == |batches|
    requires Seal(m, parent, p, batches, timestamp, proposer).Ok?
    ensures var s := Seal(m, parent, p, batches, timestamp, proposer).value;
            && s.block.batches == batches && s.block.domainBlocks == p.blocks && s.executions == p.executions
            && s.block.header.timestamp == timestamp && s.block.header.proposer == proposer
            && ExtendsParent(parent, s.block.header)
            && EncodeBlock(s.block).Ok?
            && s.state == p.state.(validatorSetHash := parent.nextValidatorSetHash,
                 nextValidatorSetHash := parent.nextValidatorSetHash,
                                   height := parent.height + 1, consensusHash := s.state.consensusHash,
                                       timestamp := timestamp)
            && HashConsensus(m.k, s.block.header) == Ok(s.state.consensusHash)
            && s.block.header.domainHeadsRoot == HeadsRoot(m.k, p.state)
  {
    hide EncodeBlock, BatchesRoot, ResultsRoot, HeadsRoot, HashConsensus;
  }

  lemma {:induction false} ExecuteAligned(m: Machine, parent: ChainState, batches: seq<DomainBatch>, n: nat,
                                          height: u64, timestamp: u64, proposer: Address)
    requires n <= |batches| && ExecuteFirst(m, parent, batches, n, height, timestamp, proposer).Ok?
    ensures var blocks := ExecuteFirst(m, parent, batches, n, height, timestamp, proposer).value.blocks;
            forall i | 0 <= i < n :: blocks[i].domainId == batches[i].domainId
  {
    hide InsertFirst, HashDomain, EnvFor, ContextFor, NextBaseFee;
    if n > 0 {
      ExecuteAligned(m, parent, batches, n - 1, height, timestamp, proposer);
    }
  }

  // ----- comparison -----

  lemma {:induction false} CompareDecides(actual: seq<DomainHeader>, expected: seq<DomainHeader>)
    requires |actual| == |expected|
    ensures CompareResults(actual, expected).None? <==> actual == expected
  {
    if actual != [] {
      CompareDecides(actual[1..], expected[1..]);
      assert actual == [actual[0]] + actual[1..] && expected == [expected[0]] + expected[1..];
    }
  }

  /** Blocks over the same batches and with as many results compare equal only if they are. */
  lemma CandidateDecides(actual: ConsensusBlock, expected: ConsensusBlock)
    requires actual.batches == expected.batches && |actual.domainBlocks| == |expected.domainBlocks|
    ensures CompareCandidate(actual, expected).None? <==> actual == expected
  {
    hide CompareResults;
    CompareDecides(actual.domainBlocks, expected.domainBlocks);
  }

  lemma ExecuteShape(m: Machine, parent: ChainState, batches: seq<DomainBatch>, timestamp: u64, proposer: Address)
    requires Execute(m, parent, batches, timestamp, proposer).Ok?
    ensures var s := Execute(m, parent, batches, timestamp, proposer).value;
            && s.block.batches == batches && |s.block.domainBlocks| == |batches| && Aligned(s.block)
            && s.block.header.timestamp == timestamp && s.block.header.proposer == proposer
            && ExtendsParent(parent, s.block.header)
            && EncodeBlock(s.block).Ok? && |s.block.batches| <= MAX_BATCHES_PER_BLOCK
            && s.state.height == parent.height + 1 && parent.height < U64_MAX
            && HashConsensus(m.k, s.block.header) == Ok(s.state.consensusHash)
  {
    hide Seal, ExecuteFirst, EncodeBlock, HashConsensus;
    var p := ExecuteFirst(m, parent, batches, |batches|, parent.height + 1, timestamp, proposer).value;
    SealShape(m, parent, p, batches, timestamp, proposer);
    ExecuteAligned(m, parent, batches, |batches|, parent.height + 1, timestamp, proposer);
  }

  // ----- agreement -----

  /** What execution seals validates, whenever the batches are in order. */
  lemma ExecutedValidates(m: Machine, parent: ChainState, batches: seq<DomainBatch>, timestamp: u64, proposer: Address)
    requires BatchesOrdered(batches) && Execute(m, parent, batches, timestamp, proposer).Ok?
    ensures var p := Execute(m, parent, batches, timestamp, proposer).value;
            Validate(m, parent, p.block) == Ok(p)
  {
    hide Execute, EncodeBlock, CompareCandidate, HashConsensus;
    ExecuteShape(m, parent, batches, timestamp, proposer);
    var p := Execute(m, parent, batches, timestamp, proposer).value;
    CandidateDecides(p.block, p.block);
  }

  /** Every built block validates against the same parent, to the same block, state and executions. */
  lemma BuiltValidates(m: Machine, parent: ChainState, batches: seq<DomainBatch>, timestamp: u64, proposer: Address)
    requires Build(m, parent, batches, timestamp, proposer).Ok?
    ensures var p := Build(m, parent, batches, timestamp, proposer).value;
            Validate(m, parent, p.block) == Ok(p)
  {
    hide Execute, Sort, Validate, BatchesOrdered;
    ExecutedValidates(m, parent, Sort(BatchRank, batches), timestamp, proposer);
  }

  lemma OrderedIsInOrder(batches: seq<DomainBatch>)
    ensures BatchesOrdered(batches) <==> InOrder(BatchRank, batches)
  {
    hide LexLess;
    if BatchesOrdered(batches) {
      forall i, j | 0 <= i < j < |batches|
        ensures LexLess(BatchRank(batches[i]), BatchRank(batches[j]))
      {
        OrderedFar(batches, i, j);
      }
    }
  }

  lemma {:induction false} OrderedFar(batches: seq<DomainBatch>, i: nat, j: nat)
    requires BatchesOrdered(batches) && i < j < |batches|
    ensures LexLess(BatchRank(batches[i]), BatchRank(batches[j]))
    decreases j
  {
    hide LexLess;
    assert LexLess(BatchRank(batches[j - 1]), BatchRank(batches[j - 1 + 1]));
    if i < j - 1 {
      OrderedFar(batches, i, j - 1);
      LexTransitive(BatchRank(batches[i]), BatchRank(batches[j - 1]), BatchRank(batches[j]));
    }
  }

  lemma InOrderApart(batches: seq<DomainBatch>)
    requires InOrder(BatchRank, batches)
    ensures Apart(BatchRank, batches)
  {
    hide LexLess;
    forall i, j | 0 <= i < j < |batches|
      ensures BatchRank(batches[i]) != BatchRank(batches[j])
    {
      LexIrreflexive(BatchRank(batches[i]));
    }
  }

  /** Sorting leaves an ordered list alone. */
  lemma SortOrdered(batches: seq<DomainBatch>)
    requires BatchesOrdered(batches)
    ensures Sort(BatchRank, batches) == batches
  {
    hide LexLess, Sort;
    OrderedIsInOrder(batches);
    InOrderApart(batches);
    SortOrders(BatchRank, batches);
    SameElements(Sort(BatchRank, batches), batches);
    OrderUnique(BatchRank, Sort(BatchRank, batches), batches);
  }

  /** Every validated block is the block rebuilt from its own batches, timestamp and proposer. */
  lemma ValidatedIsRebuilt(m: Machine, parent: ChainState, candidate: ConsensusBlock)
    requires Validate(m, parent, candidate).Ok?
    ensures Validate(m, parent, candidate).value.block == candidate
    ensures Build(m, parent, candidate.batches, candidate.header.timestamp, candidate.header.proposer)
         == Validate(m, parent, candidate)
  {
    hide Execute, Sort, EncodeBlock, CompareCandidate, BatchesOrdered, HashConsensus;
    ExecuteShape(m, parent, candidate.batches, candidate.header.timestamp, candidate.header.proposer);
    var expected := Execute(m, parent, candidate.batches, candidate.header.timestamp, candidate.header.proposer).value;
    CandidateDecides(candidate, expected.block);
    SortOrdered(candidate.batches);
  }

  /** Whether ranks repeat does not depend on the order. */
  lemma ApartSame(a: seq<DomainBatch>, b: seq<DomainBatch>)
    requires multiset(a) == multiset(b) && Apart(BatchRank, a)
    ensures Apart(BatchRank, b)
  {
    SameElements(a, b);
    forall i, j | 0 <= i < j < |b|
      ensures BatchRank(b[i]) != BatchRank(b[j])
    {
      assert b[i] in b && b[j] in b;
      var x :| 0 <= x < |a| && a[x] == b[i];
      var y :| 0 <= y < |a| && a[y] == b[j];
      OnceIn(a, x);
      if b[i] == b[j] {
        TwiceIn(b, i, j);
      }
    }
  }

  lemma TwiceIn(b: seq<DomainBatch>, i: nat, j: nat)
    requires i < j < |b| && b[i] == b[j]
    ensures multiset(b)[b[i]] >= 2
  {
    var first, second := b[..j], b[j..];
    assert b == first + second;
    assert first[i] == b[i] && second[0] == b[i];
    assert b[i] in multiset(first) && b[i] in multiset(second);
  }

  lemma OnceIn(a: seq<DomainBatch>, x: nat)
    requires x < |a| && Apart(BatchRank, a)
    ensures multiset(a)[a[x]] == 1
  {
    var left, right := a[..x], a[x + 1..];
    assert a == left + [a[x]] + right;
    assert a[x] !in left && a[x] !in right by {
      forall i | 0 <= i < x
        ensures left[i] != a[x]
      {
        assert BatchRank(a[i]) != BatchRank(a[x]);
      }
      forall i | 0 <= i < |right|
        ensures right[i] != a[x]
      {
        assert BatchRank(a[x]) != BatchRank(a[x + 1 + i]);
      }
    }
    assert a[x] !in multiset(left) && a[x] !in multiset(right);
  }

  /** The order in which batches are handed to the proposer does not matter; repeated domains are
      refused in every order. */
  lemma BatchOrderIrrelevant(m: Machine, parent: ChainState, a: seq<DomainBatch>, b: seq<DomainBatch>,
                             timestamp: u64, proposer: Address)
    requires multiset(a) == multiset(b)
    ensures Build(m, parent, a, timestamp, proposer) == Build(m, parent, b, timestamp, proposer)
    ensures !Apart(BatchRank, a) ==> Build(m, parent, a, timestamp, proposer) == Err(NonCanonicalBatches)
  {
    hide Execute, LexLess, Sort, Apart, InOrder, BatchesOrdered;
    var x, y := Sort(BatchRank, a), Sort(BatchRank, b);
    OrderedIsInOrder(x);
    OrderedIsInOrder(y);
    if InOrder(BatchRank, x) {
      InOrderApart(x);
      ApartSame(x, a);
    }
    if InOrder(BatchRank, y) {
      InOrderApart(y);
      ApartSame(y, b);
      ApartSame(b, a);
    }
    if Apart(BatchRank, a) {
      ApartSame(a, b);
      SameElements(a, b);
      SortSame(BatchRank, a, b);
    }
  }

  // ----- what one block changes -----

  ghost predicate Kept(before: map<B256, FinalizedDomain>, after: map<B256, FinalizedDomain>) {
    forall d | d in before :: d in after && after[d] == before[d]
  }

  /** Everything but the domains and descriptors. */
  ghost predicate SameFrame(a: ChainState, b: ChainState) {
    b == a.(domains := b.domains, descriptors := b.descriptors)
  }

  /** A domain that starts at this height. */
  ghost predicate Newborn(f: FinalizedDomain, height: u64) {
    f.header.number == 0 && f.header.consensusHeight == height
  }

  lemma {:induction false} InsertFrame(m: Machine, st: ChainState, created: seq<CreatedDomain>, n: nat, height: u64)
    requires n <= |created| && InsertFirst(m, st, created, n, height).Ok?
    ensures var next := InsertFirst(m, st, created, n, height).value;
            && SameFrame(st, next)
            && Kept(st.domains, next.domains)
            && (forall d | d in next.domains && d !in st.domains :: Newborn(next.domains[d], height))
  {
    hide HashDomain, DeriveDomainId, ValidConfig, ChainIdTaken;
    if n > 0 {
      InsertFrame(m, st, created, n - 1, height);
    }
  }

  ghost predicate Batched(batches: seq<DomainBatch>, n: nat, d: B256)
    requires n <= |batches|
  {
    exists i :: 0 <= i < n && batches[i].domainId == d
  }

  /** One step of a domain: the next number on top of the finalized block. */
  ghost predicate Advanced(before: FinalizedDomain, after: FinalizedDomain, height: u64) {
    && after.config == before.config
    && after.header.number == before.header.number + 1
    && after.header.parentHash == before.blockHash
    && after.header.consensusHeight == height
    && after.header.stateRoot == after.state.snapshot.root
  }

  ghost predicate Moved(parent: ChainState, st: ChainState, batches: seq<DomainBatch>, n: nat, height: u64)
    requires n <= |batches|
  {
    && (forall d | d in parent.domains :: d in st.domains)
    && (forall d | d in parent.domains && !Batched(batches, n, d) :: st.domains[d] == parent.domains[d])
    && (forall d | d in parent.domains && Batched(batches, n, d) :: Advanced(parent.domains[d], st.domains[d], height))
    && (forall d | d in st.domains && d !in parent.domains :: Newborn(st.domains[d], height))
  }

  lemma MovedStep(parent: ChainState, prior: ChainState, middle: ChainState, next: ChainState,
                  batches: seq<DomainBatch>, n: nat, height: u64, domain: FinalizedDomain)
    requires 0 < n <= |batches| && Moved(parent, prior, batches, n - 1, height)
    requires batches[n - 1].domainId in parent.domains
    requires Advanced(parent.domains[batches[n - 1].domainId], domain, height)
    requires middle.domains == prior.domains[batches[n - 1].domainId := domain]
    requires Kept(middle.domains, next.domains)
    requires forall d | d in next.domains && d !in middle.domains :: Newborn(next.domains[d], height)
    ensures Moved(parent, next, batches, n, height)
  {
    hide Advanced, Newborn;
    forall d
      ensures Batched(batches, n, d) <==> Batched(batches, n - 1, d) || batches[n - 1].domainId == d
    {
    }
  }

  lemma {:induction false} ExecuteMoves(m: Machine, parent: ChainState, batches: seq<DomainBatch>, n: nat, height: u64,
                                        timestamp: u64, proposer: Address)
    requires n <= |batches| && ExecuteFirst(m, parent, batches, n, height, timestamp, proposer).Ok?
    ensures var p := ExecuteFirst(m, parent, batches, n, height, timestamp, proposer).value;
            SameFrame(parent, p.state) && Moved(parent, p.state, batches, n, height)
  {
    hide InsertFirst, HashDomain, EnvFor, ContextFor, NextBaseFee, Moved;
    if n == 0 {
      NothingMoved(parent, batches, height);
    } else {
      ExecuteMoves(m, parent, batches, n - 1, height, timestamp, proposer);
      var prior := ExecuteFirst(m, parent, batches, n - 1, height, timestamp, proposer).value;
      var batch := batches[n - 1];
      var (_, execution, domain) := ExecuteDomain(m, parent, batch, height, timestamp, proposer).value;
      var middle := prior.state.(domains := prior.state.domains[batch.domainId := domain]);
      InsertFrame(m, middle, execution.created, |execution.created|, height);
      var next := InsertFirst(m, middle, execution.created, |execution.created|, height).value;
      MovedStep(parent, prior.state, middle, next, batches, n, height, domain);
    }
  }

  lemma NothingMoved(parent: ChainState, batches: seq<DomainBatch>, height: u64)
    ensures Moved(parent, parent, batches, 0, height)
  {
  }

  /** A block leaves every domain without a batch exactly as it was, advances each domain with a
      batch by one number on top of its finalized block, and starts created domains at zero. */
  lemma BlockMoves(m: Machine, parent: ChainState, batches: seq<DomainBatch>, timestamp: u64, proposer: Address)
    requires Execute(m, parent, batches, timestamp, proposer).Ok?
    ensures var s := Execute(m, parent, batches, timestamp, proposer).value;
            && parent.height < U64_MAX
            && Moved(parent, s.state, batches, |batches|, parent.height + 1)
            && s.state.networkId == parent.networkId && s.state.rootDomainId == parent.rootDomainId
            && s.state.governance == parent.governance
  {
    hide Seal, ExecuteFirst, EncodeBlock, HashConsensus, Moved;
    var p := ExecuteFirst(m, parent, batches, |batches|, parent.height + 1, timestamp, proposer).value;
    ExecuteMoves(m, parent, batches, |batches|, parent.height + 1, timestamp, proposer);
    SealShape(m, parent, p, batches, timestamp, proposer);
    var s := Execute(m, parent, batches, timestamp, proposer).value;
    SameDomainsMoved(parent, p.state, s.state, batches, parent.height + 1);
  }

  lemma SameDomainsMoved(parent: ChainState, a: ChainState, b: ChainState, batches: seq<DomainBatch>, height: u64)
    requires Moved(parent, a, batches, |batches|, height) && a.domains == b.domains
    ensures Moved(parent, b, batches, |batches|, height)
  {
  }
}
