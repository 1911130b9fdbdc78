/** Header, body and import stages of block synchronization. */
module Sync {
  import opened Wrappers
  import opened Bytes
  import opened Hashing
  import opened Canonical
  import opened BlockBody
  import opened Chain
  import opened EngineCommit
  import opened Engine

  const MAX_BLOCKS_PER_RESPONSE: nat := 1
  const MAX_HEADERS_PER_RESPONSE: nat := 64
  const MAX_CONSENSUS_MESSAGE_BYTES: nat := 1024 * 1024

  datatype SyncStatus = SyncStatus(height: u64, consensusHash: B256, domainHeadsRoot: B256)

  datatype FinalizedHeader = FinalizedHeader(height: u64, header: Bytes, finalityProof: Bytes)

  datatype VerifiedHeader = VerifiedHeader(header: ConsensusHeader, finalityProof: Bytes)

  datatype Body = Body(height: u64, block: Bytes)

  datatype FinalizedBlock = FinalizedBlock(height: u64, block: Bytes, finalityProof: Bytes)

  datatype SyncError =
    | TooMany
    | Unsolicited
    | EmptyResponse
    | NonSequential(expected: u64, actual: u64)
    | ClaimedHeight
    | Parent
    | Decode
    | Finality
    | RemoteTip
    | BodyCount
    | BodyHeight
    | BodyHeader
    | Transport(reason: string)
    | InvalidLimit
    | Application

  /** The hash and the finality verifier of the selected consensus mode. */
  datatype HeaderRules = HeaderRules(k: Keccak, verify: (FinalizedHeader, ConsensusHeader) -> bool)

  /** Heights saturate at the top of their range. */
  function NextHeight(height: u64): u64 {
    if height == U64_MAX then height else height + 1
  }

  // ----- headers -----

  /** One header against the height and parent it must have; its hash is the next parent. */
  function VerifyHeader(rules: HeaderRules, f: FinalizedHeader, height: u64, parent: B256, top: u64)
    : Result<(VerifiedHeader, B256), SyncError>
  {
    if f.height != height || f.height > top then
      Err(NonSequential(height, f.height))
    else
      match DecodeConsensusHeader(f.header)
      case Err(_) => Err(SyncError.Decode)
      case Ok(header) =>
        if header.height != f.height then Err(ClaimedHeight)
        else if header.parentHash != parent then Err(Parent)
        else if !rules.verify(f, header) then Err(Finality)
        else
          match HashConsensus(rules.k, header)
          case Err(_) => Err(SyncError.Decode)
          case Ok(hash) => Ok((VerifiedHeader(header, f.finalityProof), hash))
  }

  /** The first headers, and the parent the next one must have. */
  function VerifyFirst(rules: HeaderRules, local: SyncStatus, top: u64, headers: seq<FinalizedHeader>, n: nat)
    : (r: Result<(seq<VerifiedHeader>, B256), SyncError>)
    requires n <= |headers|
    ensures r.Ok? ==> |r.value.0| == n
  {
    hide VerifyHeader;
    if n == 0 then
      Ok(([], local.consensusHash))
    else
      var before :- VerifyFirst(rules, local, top, headers, n - 1);
      var last :- VerifyHeader(rules, headers[n - 1], HeightAt(local, n - 1), before.1, top);
      Ok((before.0 + [last.0], last.1))
  }

  function HeightAt(local: SyncStatus, i: nat): u64 {
    Min(local.height + 1 + i, U64_MAX)
  }

  predicate TipMismatch(remote: SyncStatus, accepted: seq<VerifiedHeader>, tip: B256)
    requires accepted != []
  {
    var last := accepted[|accepted| - 1].header;
    last.height == remote.height && (tip != remote.consensusHash || last.domainHeadsRoot != remote.domainHeadsRoot)
  }

  /** `HeaderSync::verify_response`. */
  function VerifyHeaders(rules: HeaderRules, local: SyncStatus, remote: SyncStatus, headers: seq<FinalizedHeader>)
    : Result<seq<VerifiedHeader>, SyncError>
  {
    if |headers| > MAX_HEADERS_PER_RESPONSE then
      Err(TooMany)
    else if remote.height <= local.height then
      if headers == [] then Ok([]) else Err(Unsolicited)
    else if headers == [] then
      Err(EmptyResponse)
    else
      var verified :- VerifyFirst(rules, local, remote.height, headers, |headers|);
      if TipMismatch(remote, verified.0, verified.1) then Err(RemoteTip) else Ok(verified.0)
  }

  /** The loop of `verify_response` with its running height and parent. */
  method VerifyResponse(rules: HeaderRules, local: SyncStatus, remote: SyncStatus, headers: seq<FinalizedHeader>)
    returns (r: Result<seq<VerifiedHeader>, SyncError>)
    ensures r == VerifyHeaders(rules, local, remote, headers)
  {
    hide VerifyHeader;
    if |headers| > MAX_HEADERS_PER_RESPONSE {
      return Err(TooMany);
    }
    if remote.height <= local.height {
      return if headers == [] then Ok([]) else Err(Unsolicited);
    }
    if headers == [] {
      return Err(EmptyResponse);
    }
    var expectedHeight := NextHeight(local.height);
    var expectedParent := local.consensusHash;
    var accepted: seq<VerifiedHeader> := [];
    for i := 0 to |headers|
      invariant expectedHeight == HeightAt(local, i)
      invariant VerifyFirst(rules, local, remote.height, headers, i) == Ok((accepted, expectedParent))
    {
      var next := VerifyHeader(rules, headers[i], expectedHeight, expectedParent, remote.height);
      if next.Err? {
        StopsEarly(rules, local, remote.height, headers, i + 1, |headers|);
        return Err(next.error);
      }
      accepted, expectedParent := accepted + [next.value.0], next.value.1;
      expectedHeight := NextHeight(expectedHeight);
    }
    return if TipMismatch(remote, accepted, expectedParent) then Err(RemoteTip) else Ok(accepted);
  }

  lemma {:induction false} StopsEarly(rules: HeaderRules, local: SyncStatus, top: u64, headers: seq<FinalizedHeader>,
                                      n: nat, end: nat)
    requires n <= end <= |headers| && VerifyFirst(rules, local, top, headers, n).Err?
    ensures VerifyFirst(rules, local, top, headers, end) == VerifyFirst(rules, local, top, headers, n)
  {
    hide VerifyHeader;
    if n < end {
      StopsEarly(rules, local, top, headers, n, end - 1);
    }
  }

  // ----- the accepted headers are one chain -----

  /** Hash of the head after the first `i` accepted headers. */
  ghost function HashAt(k: Keccak, local: SyncStatus, accepted: seq<VerifiedHeader>, i: nat): Result<B256, ChainError>
    requires i <= |accepted|
  {
    if i == 0 then Ok(local.consensusHash) else HashConsensus(k, accepted[i - 1].header)
  }

  /** Header `i` extends what came before it and passed the finality verifier. */
  ghost predicate Extends(rules: HeaderRules, local: SyncStatus, headers: seq<FinalizedHeader>,
                          accepted: seq<VerifiedHeader>, i: nat)
    requires i < |accepted| == |headers|
  {
    && HashAt(rules.k, local, accepted, i) == Ok(accepted[i].header.parentHash)
    && accepted[i].header.height == HeightAt(local, i) == headers[i].height
    && DecodeConsensusHeader(headers[i].header) == Ok(accepted[i].header)
    && accepted[i].finalityProof == headers[i].finalityProof
    && rules.verify(headers[i], accepted[i].header)
  }

  lemma {:induction false} FirstExtend(rules: HeaderRules, local: SyncStatus, top: u64, headers: seq<FinalizedHeader>,
                                       n: nat)
    requires n <= |headers| && VerifyFirst(rules, local, top, headers, n).Ok?
    ensures var (accepted, tip) := VerifyFirst(rules, local, top, headers, n).value;
            && (forall i: nat | i < n :: Extends(rules, local, headers[..n], accepted, i))
            && (forall i: nat | i < n :: HeightAt(local, i) <= top)
            && HashAt(rules.k, local, accepted, n) == Ok(tip)
  {
    hide DecodeConsensusHeader, HashConsensus;
    if n > 0 {
      FirstExtend(rules, local, top, headers, n - 1);
      var (accepted, tip) := VerifyFirst(rules, local, top, headers, n).value;
      var (before, parent) := VerifyFirst(rules, local, top, headers, n - 1).value;
      forall i: nat | i < n
        ensures Extends(rules, local, headers[..n], accepted, i)
      {
        if i < n - 1 {
          ExtendsMore(rules, local, headers[..n - 1], before, headers[n - 1], accepted[n - 1], i);
          assert headers[..n] == headers[..n - 1] + [headers[n - 1]];
          assert accepted == before + [accepted[n - 1]];
        } else if n > 1 {
          assert accepted[n - 2] == before[n - 2];
        }
      }
    }
  }

  lemma ExtendsMore(rules: HeaderRules, local: SyncStatus, headers: seq<FinalizedHeader>, accepted: seq<VerifiedHeader>,
                    f: FinalizedHeader, v: VerifiedHeader, i: nat)
    requires i < |accepted| == |headers| && Extends(rules, local, headers, accepted, i)
    ensures Extends(rules, local, headers + [f], accepted + [v], i)
  {
  }

  /** One hash-linked chain from the local head, every header final, ending at the advertised tip when
      it reaches the advertised height. Heights are consecutive if and only if the last one still fits
      in 64 bits; below that they always are. */
  lemma AcceptedChain(rules: HeaderRules, local: SyncStatus, remote: SyncStatus, headers: seq<FinalizedHeader>)
    requires VerifyHeaders(rules, local, remote, headers).Ok?
    ensures var accepted := VerifyHeaders(rules, local, remote, headers).value;
            var n := |accepted|;
            && n == |headers| <= MAX_HEADERS_PER_RESPONSE
            && (forall i: nat | i < n :: Extends(rules, local, headers, accepted, i))
            && ((forall i: nat | i < n :: accepted[i].header.height == local.height + 1 + i) <==>
                 local.height + n <= U64_MAX || n == 0)
            && (remote.height < U64_MAX && n > 0 ==> local.height + n <= remote.height)
            && (n > 0 && accepted[n - 1].header.height == remote.height ==>
                  && HashConsensus(rules.k, accepted[n - 1].header) == Ok(remote.consensusHash)
                  && accepted[n - 1].header.domainHeadsRoot == remote.domainHeadsRoot)
  {
    hide DecodeConsensusHeader, HashConsensus, VerifyFirst;
    var accepted := VerifyHeaders(rules, local, remote, headers).value;
    var n := |accepted|;
    if n > 0 {
      FirstExtend(rules, local, remote.height, headers, |headers|);
      assert headers[..|headers|] == headers;
      assert Extends(rules, local, headers, accepted, n - 1);
      assert HeightAt(local, n - 1) <= remote.height;
      forall i: nat | i < n
        ensures accepted[i].header.height == HeightAt(local, i)
      {
        assert Extends(rules, local, headers, accepted, i);
      }
      HeightsConsecutive(local, accepted);
    }
  }

  lemma HeightsConsecutive(local: SyncStatus, accepted: seq<VerifiedHeader>)
    requires accepted != [] && forall i: nat | i < |accepted| :: accepted[i].header.height == HeightAt(local, i)
    ensures (forall i: nat | i < |accepted| :: accepted[i].header.height == local.height + 1 + i) <==>
      local.height + |accepted| <= U64_MAX
  {
    assert accepted[|accepted| - 1].header.height == HeightAt(local, |accepted| - 1);
  }

  /** At the top of the range the saturated height repeats: two headers at the same height pass. */
  lemma SaturatedHeights(rules: HeaderRules, base: ConsensusHeader, local: SyncStatus)
    returns (remote: SyncStatus, headers: seq<FinalizedHeader>)
    requires local.height == U64_MAX - 1
    requires forall f: FinalizedHeader, h: ConsensusHeader | f.finalityProof == [] :: rules.verify(f, h)
    ensures var r := VerifyHeaders(rules, local, remote, headers);
            r.Ok? && |r.value| == 2 && r.value[0].header.height == r.value[1].header.height == U64_MAX
  {
    hide EncodeConsensusHeader, DecodeConsensusHeader;
    var k := rules.k;
    var first := base.(height := U64_MAX, parentHash := local.consensusHash);
    ConsensusHeaderEncodes(first);
    ConsensusHeaderExact(first, []);
    var second := first.(parentHash := HashConsensus(k, first).value);
    ConsensusHeaderEncodes(second);
    ConsensusHeaderExact(second, []);
    headers := [FinalizedHeader(U64_MAX, EncodeConsensusHeader(first).value, []),
                FinalizedHeader(U64_MAX, EncodeConsensusHeader(second).value, [])];
    var tip := HashConsensus(k, second).value;
    remote := SyncStatus(U64_MAX, tip, second.domainHeadsRoot);
    var a, b := VerifiedHeader(first, []), VerifiedHeader(second, []);
    assert [] + [a] == [a] && [a] + [b] == [a, b];
    assert VerifyFirst(rules, local, U64_MAX, headers, 0) == Ok(([], local.consensusHash));
    assert VerifyHeader(rules, headers[0], U64_MAX, local.consensusHash, U64_MAX) == Ok((a, second.parentHash));
    assert VerifyHeader(rules, headers[1], U64_MAX, second.parentHash, U64_MAX) == Ok((b, tip));
    assert VerifyFirst(rules, local, U64_MAX, headers, 1) == Ok(([a], second.parentHash));
    assert VerifyFirst(rules, local, U64_MAX, headers, 2) == Ok(([a, b], tip));
  }

  // ----- bodies -----

  /** One body against the header already verified for its place. */
  function CombineOne(v: VerifiedHeader, body: Body): Result<FinalizedBlock, SyncError> {
    if body.height != v.header.height then
      Err(BodyHeight)
    else
      match DecodeBlock(body.block)
      case Err(_) => Err(SyncError.Decode)
      case Ok(block) =>
        if block.header != v.header then Err(BodyHeader)
            else Ok(FinalizedBlock(body.height, body.block, v.finalityProof))
  }

  function CombineFrom(headers: seq<VerifiedHeader>, bodies: seq<Body>): (r: Result<seq<FinalizedBlock>, SyncError>)
    requires |headers| == |bodies|
    ensures r.Ok? ==> |r.value| == |bodies|
  {
    hide CombineOne;
    if headers == [] then
      Ok([])
    else
      var first :- CombineOne(headers[0], bodies[0]);
      var rest :- CombineFrom(headers[1..], bodies[1..]);
      Ok([first] + rest)
  }

  /** `finalized_blocks_from_bodies`. */
  function CombineBodies(headers: seq<VerifiedHeader>, bodies: seq<Body>): (r: Result<seq<FinalizedBlock>, SyncError>)
  {
    if |bodies| != |headers| then Err(BodyCount) else CombineFrom(headers, bodies)
  }

  /** A body that carries exactly this header at its height. */
  ghost predicate Carries(v: VerifiedHeader, body: Body) {
    && body.height == v.header.height
    && DecodeBlock(body.block).Ok? && DecodeBlock(body.block).value.header == v.header
  }

  lemma {:induction false} CombineDecides(headers: seq<VerifiedHeader>, bodies: seq<Body>)
    requires |headers| == |bodies|
    ensures CombineFrom(headers, bodies).Ok? <==> forall i | 0 <= i < |bodies| :: Carries(headers[i], bodies[i])
    ensures CombineFrom(headers, bodies).Ok? ==>
              forall i | 0 <= i < |bodies| ::
                CombineFrom(headers, bodies).value[i] ==
                    FinalizedBlock(bodies[i].height, bodies[i].block, headers[i].finalityProof)
  {
    hide DecodeBlock;
    if headers != [] {
      CombineDecides(headers[1..], bodies[1..]);
      assert forall i | 0 <= i < |bodies| - 1 :: headers[1..][i] == headers[i + 1] && bodies[1..][i] == bodies[i + 1];
      assert forall i | 0 < i < |bodies| :: headers[i] == headers[1..][i - 1] && bodies[i] == bodies[1..][i - 1];
      assert CombineOne(headers[0], bodies[0]).Ok? <==> Carries(headers[0], bodies[0]);
    }
  }

  /** Bodies combine if and only if there is one per verified header and each carries exactly that header;
      proofs and bytes are passed on unchanged. */
  lemma BodiesDecide(headers: seq<VerifiedHeader>, bodies: seq<Body>)
    ensures CombineBodies(headers, bodies).Ok? <==>
            |headers| == |bodies| && forall i | 0 <= i < |bodies| :: Carries(headers[i], bodies[i])
    ensures CombineBodies(headers, bodies).Ok? ==>
              && |CombineBodies(headers, bodies).value| == |bodies|
              && forall i | 0 <= i < |bodies| ::
                   CombineBodies(headers, bodies).value[i] ==
                       FinalizedBlock(bodies[i].height, bodies[i].block, headers[i].finalityProof)
  {
    hide CombineFrom, Carries;
    if |headers| == |bodies| {
      CombineDecides(headers, bodies);
    }
  }

  // ----- requests -----

  /** `BlockSync::next_request`. */
  function NextRequest(limit: u16, local: SyncStatus, remote: SyncStatus): Option<(u64, u16)> {
    if remote.height <= local.height then
      None
    else
      var remaining := remote.height - local.height;
      Some((NextHeight(local.height), Min(if remaining <= U16_MAX then remaining else U16_MAX, limit)))
  }

  /** A request starts right after the local head, is never empty and never reaches past the remote head. */
  lemma RequestInRange(limit: u16, local: SyncStatus, remote: SyncStatus)
    requires 0 < limit
    ensures match NextRequest(limit, local, remote)
            case None => remote.height <= local.height
            case Some((first, count)) =>
              first == local.height + 1 && 0 < count <= limit && first + count - 1 <= remote.height
  {
  }

  /** `BlockSync::new`: a request budget within the protocol's. */
  function SyncLimit(limit: u16): Result<u16, SyncError> {
    if limit == 0 || limit > MAX_BLOCKS_PER_RESPONSE then Err(InvalidLimit) else Ok(limit)
  }

  /** Every budget that can be constructed asks for exactly the next block while behind. */
  lemma OneAtATime(limit: u16, local: SyncStatus, remote: SyncStatus)
    requires SyncLimit(limit).Ok?
    ensures NextRequest(SyncLimit(limit).value, local, remote)
         == if remote.height <= local.height then None else Some((local.height + 1, 1))
  {
  }

  // ----- import -----

  function StatusOf(k: Keccak, st: ChainState): SyncStatus {
    SyncStatus(st.height, st.consensusHash, HeadsRoot(k, st))
  }

  predicate TransportValid(f: FinalizedBlock) {
    0 < |f.block| <= MAX_CONSENSUS_BLOCK_BYTES && |f.finalityProof| <= MAX_CONSENSUS_MESSAGE_BYTES
  }

  /** The state after the first `n` blocks have been decoded, validated and applied. */
  function Along(m: Machine, st: ChainState, blocks: seq<FinalizedBlock>, n: nat): Option<ChainState>
    requires n <= |blocks|
  {
    hide Validate, DecodeBlock;
    if n == 0 then
      Some(st)
    else
      var before := Along(m, st, blocks, n - 1);
      var block := DecodeBlock(blocks[n - 1].block);
      if before.None? || block.Err? then None else
      var p := Validate(m, before.value, block.value);
      if p.Ok? then Some(p.value.state) else None
  }

  /** A validated block becomes the head it names. */
  lemma ValidatedHead(m: Machine, st: ChainState, block: ConsensusBlock)
    requires Validate(m, st, block).Ok?
    ensures var next := Validate(m, st, block).value.state;
            && next.height == block.header.height == st.height + 1
            && block.header.parentHash == st.consensusHash
            && HashConsensus(m.k, block.header) == Ok(next.consensusHash)
            && block.header.domainHeadsRoot == HeadsRoot(m.k, next)
  {
    hide Execute, HeadsRoot, HashConsensus, CompareCandidate, BatchesOrdered, Aligned;
    ValidatedShape(m, st, block);
  }

  datatype Report = Report(before: SyncStatus, after: SyncStatus, imported: nat)

  /** What is checked of a block before the importer sees it. */
  ghost predicate Cleared(verify: (FinalizedBlock, ConsensusBlock) -> bool, remote: SyncStatus, f: FinalizedBlock,
                          height: nat) {
    && TransportValid(f) && f.height == height <= remote.height
    && DecodeBlock(f.block).Ok? && DecodeBlock(f.block).value.header.height == f.height
    && verify(f, DecodeBlock(f.block).value)
  }

  /** `BlockSync::import_response` driving the engine. Whatever the outcome, the head has moved along
      exactly the first `imported` blocks, and each of those was cleared first. */
  method ImportResponse(engine: SingleValidatorEngine, limit: u16, remote: SyncStatus, blocks: seq<FinalizedBlock>,
                        verify: (FinalizedBlock, ConsensusBlock) -> bool)
    returns (r: Result<Report, SyncError>, ghost imported: nat)
    requires engine.Valid()
    modifies engine
    ensures engine.Valid() && imported <= |blocks|
    ensures Along(engine.x.m, old(engine.finalized), blocks, imported) == Some(engine.finalized)
    ensures forall i: nat | i < imported :: Cleared(verify, remote, blocks[i], old(engine.finalized).height + 1 + i)
    ensures r.Ok? ==>
              && imported == |blocks| == r.value.imported <= limit
              && r.value.before == StatusOf(engine.x.m.k, old(engine.finalized))
              && r.value.after == StatusOf(engine.x.m.k, engine.finalized)
              && (blocks != [] && r.value.after.height == remote.height ==> r.value.after == remote)
    ensures remote.height <= old(engine.finalized).height || blocks == [] ==> imported == 0
  {
    hide Validate, DecodeBlock, HeadsRoot, HashConsensus, Recovers, Along;
    imported := 0;
    AlongNone(engine.x.m, engine.finalized, blocks);
    if |blocks| > limit {
      return Err(TooMany), 0;
    }
    var before := StatusOf(engine.x.m.k, engine.finalized);
    if remote.height <= before.height {
      return if blocks == [] then Ok(Report(before, before, 0)) else Err(Unsolicited), 0;
    }
    if blocks == [] {
      return Err(EmptyResponse), 0;
    }
    var expectedHeight := NextHeight(before.height);
    var current := before;
    for i := 0 to |blocks|
      invariant engine.Valid() && imported == i
      invariant expectedHeight == HeightAt(before, i)
      invariant Along(engine.x.m, old(engine.finalized), blocks, i) == Some(engine.finalized)
      invariant current == StatusOf(engine.x.m.k, engine.finalized) && current.height == before.height + i
      invariant forall j: nat | j < i :: Cleared(verify, remote, blocks[j], before.height + 1 + j)
    {
      var cleared := ClearBlock(verify, remote, blocks[i], expectedHeight);
      if cleared.Err? {
        return Err(cleared.error), i;
      }
      var block := cleared.value;
      ghost var parent := engine.finalized;
      var done := engine.ImportBlock(block);
      if done.Err? {
        return Err(Application), i;
      }
      ValidatedHead(engine.x.m, parent, block);
      AlongMore(engine.x.m, old(engine.finalized), blocks, i, parent, engine.finalized);
      imported := i + 1;
      current := StatusOf(engine.x.m.k, engine.finalized);
      if current.height != expectedHeight || Ok(current.consensusHash) != HashConsensus(engine.x.m.k, block.header) {
        return Err(Application), imported;
      }
      expectedHeight := NextHeight(expectedHeight);
    }
    if current.height == remote.height && (current.consensusHash != remote.consensusHash ||
        current.domainHeadsRoot != remote.domainHeadsRoot) {
      return Err(RemoteTip), imported;
    }
    return Ok(Report(before, current, |blocks|)), imported;
  }

  /** Transport limits, order, decoding, claimed height, then finality. */
  method ClearBlock(verify: (FinalizedBlock, ConsensusBlock) -> bool, remote: SyncStatus, f: FinalizedBlock,
                    expected: u64)
    returns (r: Result<ConsensusBlock, SyncError>)
    ensures r.Ok? <==> Cleared(verify, remote, f, expected)
    ensures r.Ok? ==> DecodeBlock(f.block) == Ok(r.value)
  {
    hide DecodeBlock;
    if !TransportValid(f) {
      return Err(Transport("finalized block"));
    }
    if f.height != expected || f.height > remote.height {
      return Err(NonSequential(expected, f.height));
    }
    var decoded := DecodeBlock(f.block);
    if decoded.Err? {
      return Err(SyncError.Decode);
    }
    var block := decoded.value;
    if block.header.height != f.height {
      return Err(ClaimedHeight);
    }
    return if verify(f, block) then Ok(block) else Err(Finality);
  }

  lemma AlongNone(m: Machine, st: ChainState, blocks: seq<FinalizedBlock>)
    ensures Along(m, st, blocks, 0) == Some(st)
  {
  }

  lemma AlongMore(m: Machine, st: ChainState, blocks: seq<FinalizedBlock>, n: nat, before: ChainState,
                  after: ChainState)
    requires n < |blocks| && Along(m, st, blocks, n) == Some(before)
    requires DecodeBlock(blocks[n].block).Ok? && Validate(m, before, DecodeBlock(blocks[n].block).value).Ok?
    requires after == Validate(m, before, DecodeBlock(blocks[n].block).value).value.state
    ensures Along(m, st, blocks, n + 1) == Some(after)
  {
    hide Validate, DecodeBlock;
  }

  // ----- the stages together -----

  /** The head is the local one moved along the first `i` accepted headers. */
  ghost predicate OnChain(k: Keccak, local: SyncStatus, accepted: seq<VerifiedHeader>, i: nat, st: ChainState)
    requires i <= |accepted|
  {
    && st.height == local.height + i && HashAt(k, local, accepted, i) == Ok(st.consensusHash)
    && (i > 0 ==> accepted[i - 1].header.domainHeadsRoot == HeadsRoot(k, st))
  }

  /** Importing any prefix of the bodies of a stretch of accepted headers moves the head along exactly
      those headers. */
  lemma {:induction false} ImportFollows(m: Machine, local: SyncStatus, accepted: seq<VerifiedHeader>, i: nat, j: nat,
                                         st: ChainState, bodies: seq<Body>, n: nat)
    requires i <= j <= |accepted| && CombineBodies(accepted[i..j], bodies).Ok? && OnChain(m.k, local, accepted, i, st)
    requires n <= |CombineBodies(accepted[i..j], bodies).value|
    requires Along(m, st, CombineBodies(accepted[i..j], bodies).value, n).Some?
    ensures i + n <= j
    ensures OnChain(m.k, local, accepted, i + n, Along(m, st, CombineBodies(accepted[i..j], bodies).value, n).value)
  {
    hide Validate, DecodeBlock, CombineBodies, HeadsRoot, HashConsensus;
    BodiesDecide(accepted[i..j], bodies);
    if n > 0 {
      ImportFollows(m, local, accepted, i, j, st, bodies, n - 1);
      var blocks := CombineBodies(accepted[i..j], bodies).value;
      assert Carries(accepted[i..j][n - 1], bodies[n - 1]);
      assert accepted[i..j][n - 1] == accepted[i + n - 1];
      ValidatedHead(m, Along(m, st, blocks, n - 1).value, DecodeBlock(blocks[n - 1].block).value);
    }
  }

  /** One round after the headers are verified: bodies for the next `count` headers, and how many of the
      resulting blocks the importer got through before it stopped. */
  datatype Round = Round(count: nat, bodies: seq<Body>, imported: nat)

  datatype Position = Position(done: nat, state: ChainState)

  /** A round that fails to combine, or whose import is refused, leaves the head where it stood. */
  ghost function Pull(m: Machine, accepted: seq<VerifiedHeader>, p: Position, r: Round): Position
    requires p.done <= |accepted|
  {
    hide CombineBodies, Along;
    var end := Min(p.done + r.count, |accepted|);
    var blocks := CombineBodies(accepted[p.done..end], r.bodies);
    if blocks.Err? || r.imported > |blocks.value| then
      p
    else
      var moved := Along(m, p.state, blocks.value, r.imported);
      if moved.None? then p else Position(Min(p.done + r.imported, |accepted|), moved.value)
  }

  ghost function Rounds(m: Machine, accepted: seq<VerifiedHeader>, start: ChainState, rounds: seq<Round>): (p: Position)
    ensures p.done <= |accepted|
  {
    hide Pull;
    if rounds == [] then
      Position(0, start)
    else
      var before := Rounds(m, accepted, start, rounds[..|rounds| - 1]);
      PullWithin(m, accepted, before, rounds[|rounds| - 1]);
      Pull(m, accepted, before, rounds[|rounds| - 1])
  }

  lemma PullWithin(m: Machine, accepted: seq<VerifiedHeader>, p: Position, r: Round)
    requires p.done <= |accepted|
    ensures Pull(m, accepted, p, r).done <= |accepted|
  {
    hide CombineBodies, Along;
  }

  lemma PullFollows(m: Machine, local: SyncStatus, accepted: seq<VerifiedHeader>, p: Position, r: Round)
    requires p.done <= |accepted| && OnChain(m.k, local, accepted, p.done, p.state)
    ensures var next := Pull(m, accepted, p, r);
            p.done <= next.done <= |accepted| && OnChain(m.k, local, accepted, next.done, next.state)
  {
    hide CombineBodies, Along, OnChain;
    var end := Min(p.done + r.count, |accepted|);
    var blocks := CombineBodies(accepted[p.done..end], r.bodies);
    if blocks.Ok? && r.imported <= |blocks.value| && Along(m, p.state, blocks.value, r.imported).Some? {
      ImportFollows(m, local, accepted, p.done, end, p.state, r.bodies, r.imported);
    }
  }

  /** In every run of rounds, whatever bodies arrive and wherever an import stops, the head only moves
      along the verified chain, and once it reaches the advertised height it has the advertised status. */
  lemma {:induction false} SyncFollowsChain(m: Machine, rules: HeaderRules, st: ChainState, remote: SyncStatus,
                                            headers: seq<FinalizedHeader>, rounds: seq<Round>)
    requires rules.k == m.k && VerifyHeaders(rules, StatusOf(m.k, st), remote, headers).Ok?
    ensures var local := StatusOf(m.k, st);
            var accepted := VerifyHeaders(rules, local, remote, headers).value;
            var p := Rounds(m, accepted, st, rounds);
            && OnChain(m.k, local, accepted, p.done, p.state)
            && p.state.height == st.height + p.done
            && (p.done > 0 && p.state.height == remote.height < U64_MAX ==> StatusOf(m.k, p.state) == remote)
  {
    hide Pull, VerifyHeaders, HeadsRoot, HashConsensus;
    var local := StatusOf(m.k, st);
    var accepted := VerifyHeaders(rules, local, remote, headers).value;
    if rounds != [] {
      var n := |rounds| - 1;
      SyncFollowsChain(m, rules, st, remote, headers, rounds[..n]);
      PullFollows(m, local, accepted, Rounds(m, accepted, st, rounds[..n]), rounds[n]);
    }
    AcceptedChain(rules, local, remote, headers);
    var p := Rounds(m, accepted, st, rounds);
    if p.done > 0 && p.state.height == remote.height < U64_MAX {
      TipReached(m, rules, local, remote, headers, p);
    }
  }

  lemma TipReached(m: Machine, rules: HeaderRules, local: SyncStatus, remote: SyncStatus, headers: seq<FinalizedHeader>,
                   p: Position)
    requires rules.k == m.k && VerifyHeaders(rules, local, remote, headers).Ok?
    requires 0 < p.done <= |VerifyHeaders(rules, local, remote, headers).value|
    requires OnChain(m.k, local, VerifyHeaders(rules, local, remote, headers).value, p.done, p.state)
    requires p.state.height == remote.height < U64_MAX
    ensures StatusOf(m.k, p.state) == remote
  {
    hide VerifyHeaders, HeadsRoot, HashConsensus;
    var accepted := VerifyHeaders(rules, local, remote, headers).value;
    AcceptedChain(rules, local, remote, headers);
    assert p.done == |accepted|;
    assert Extends(rules, local, headers, accepted, p.done - 1);
  }
}
