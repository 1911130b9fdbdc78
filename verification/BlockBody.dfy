/** The durable and network form of a finalized block body. */
module BlockBody {
  import opened Wrappers
  import opened Bytes
  import opened Layout
  import opened Canonical

  datatype ConsensusBlock = ConsensusBlock(
    header: ConsensusHeader, batches: seq<DomainBatch>, domainBlocks: seq<DomainHeader>)

  datatype BlockError =
    | ResultAlignment
    | BlockBytes(limit: nat, actual: nat)
    | TooManyBatches(limit: nat, actual: nat)
    | Encoding(error: CodecError)
    | Decode(what: string)

  function Lift<T>(r: Result<T, CodecError>): Result<T, BlockError> {
    if r.Ok? then Ok(r.value) else Err(Encoding(r.error))
  }

  function Expect<T>(r: Result<T, CodecError>, what: string): Result<T, BlockError> {
    if r.Ok? then Ok(r.value) else Err(Decode(what))
  }

  // ----- encoding -----

  function PutBatches(batches: seq<DomainBatch>): Result<Bytes, BlockError> {
    if batches == [] then
      Ok([])
    else
      var first :- Lift(EncodeDomainBatch(batches[0]));
      BatchFits(batches[0]);
      var rest :- PutBatches(batches[1..]);
      Ok(PutBytes(first) + rest)
  }

  function PutResults(results: seq<DomainHeader>): Result<Bytes, BlockError> {
    if results == [] then
      Ok([])
    else
      var first :- Lift(EncodeDomainHeader(results[0]));
      ResultFits(results[0]);
      var rest :- PutResults(results[1..]);
      Ok(PutBytes(first) + rest)
  }

  lemma BatchFits(b: DomainBatch)
    ensures EncodeDomainBatch(b).Ok? ==> |EncodeDomainBatch(b).value| <= MAX_CANONICAL_OBJECT_BYTES
  {
    hide BatchBody, Tagged, Oversized;
  }

  lemma ResultFits(h: DomainHeader)
    ensures EncodeDomainHeader(h).Ok? ==> |EncodeDomainHeader(h).value| <= MAX_CANONICAL_OBJECT_BYTES
  {
    hide Flatten, Tagged, DomainFields;
  }

  lemma HeaderFits(h: ConsensusHeader)
    ensures EncodeConsensusHeader(h).Ok? ==> |EncodeConsensusHeader(h).value| <= MAX_CANONICAL_OBJECT_BYTES
  {
    hide Flatten, Tagged, ConsensusFields;
  }

  function CountedBody(header: Bytes, count: u32, batches: Bytes, results: Bytes): Bytes
    requires |header| <= MAX_CANONICAL_OBJECT_BYTES
  {
    PutBytes(header) + (PutU32(count) + (batches + (PutU32(count) + results)))
  }

  function EncodeBlock(block: ConsensusBlock): (r: Result<Bytes, BlockError>)
    ensures r.Ok? ==> |r.value| <= MAX_CONSENSUS_BLOCK_BYTES
  {
    if |block.batches| != |block.domainBlocks| then
      Err(ResultAlignment)
    else
      var header :- Lift(EncodeConsensusHeader(block.header));
      HeaderFits(block.header);
      if |block.batches| > U32_MAX then
        Err(Encoding(LimitExceeded("u32 length", U32_MAX, |block.batches|)))
      else
        var batches :- PutBatches(block.batches);
        var results :- PutResults(block.domainBlocks);
        var out := Tagged(BLOCK_BODY_TAG, CountedBody(header, |block.batches|, batches, results));
        if |out| > MAX_CONSENSUS_BLOCK_BYTES then Err(BlockBytes(MAX_CONSENSUS_BLOCK_BYTES, |out|)) else Ok(out)
  }

  // ----- decoding -----

  function TakeExact(input: Bytes, length: nat): Result<(Bytes, Bytes), BlockError> {
    Expect(Take(input, length), "unexpected end")
  }

  function TakeNested(input: Bytes): (r: Result<(Bytes, Bytes), BlockError>) {
    Expect(ReadBytes("nested", MAX_CANONICAL_OBJECT_BYTES, input), "nested object")
  }

  function ReadBatches(count: nat, input: Bytes): (r: Result<(seq<DomainBatch>, Bytes), BlockError>)
    ensures r.Ok? ==> |r.value.0| == count
  {
    if count == 0 then
      Ok(([], input))
    else
      var (bytes, rest) :- TakeNested(input);
      var first :- Expect(DecodeDomainBatch(bytes), "domain batch");
      var (batches, left) :- ReadBatches(count - 1, rest);
      Ok(([first] + batches, left))
  }

  function ReadResults(count: nat, input: Bytes): (r: Result<(seq<DomainHeader>, Bytes), BlockError>)
    ensures r.Ok? ==> |r.value.0| == count
  {
    if count == 0 then
      Ok(([], input))
    else
      var (bytes, rest) :- TakeNested(input);
      var first :- Expect(DecodeDomainHeader(bytes), "domain header");
      var (results, left) :- ReadResults(count - 1, rest);
      Ok(([first] + results, left))
  }

  function OpenBlock(input: Bytes): Result<Bytes, BlockError> {
    if |input| > MAX_CONSENSUS_BLOCK_BYTES then
      Err(BlockBytes(MAX_CONSENSUS_BLOCK_BYTES, |input|))
    else
      var (tag, rest) :- TakeExact(input, |BLOCK_BODY_TAG|);
      if tag != BLOCK_BODY_TAG then
        Err(Decode("block body tag/version"))
      else
        var (version, body) :- TakeExact(rest, 1);
        if version != [CANONICAL_CODEC_VERSION] then Err(Decode("block body tag/version")) else Ok(body)
  }

  function DecodeBlockBody(body: Bytes): Result<ConsensusBlock, BlockError> {
    var (headerBytes, rest) :- TakeNested(body);
    var header :- Expect(DecodeConsensusHeader(headerBytes), "consensus header");
    var (count, rest) :- TakeExact(rest, 4);
    if GetU32(count) > MAX_BATCHES_PER_BLOCK then
      Err(TooManyBatches(MAX_BATCHES_PER_BLOCK, GetU32(count)))
    else
      var (batches, rest) :- ReadBatches(GetU32(count), rest);
      var (resultCount, rest) :- TakeExact(rest, 4);
      if GetU32(resultCount) != GetU32(count) then
        Err(ResultAlignment)
      else
        var (results, rest) :- ReadResults(GetU32(count), rest);
        if rest != [] then Err(Decode("trailing bytes")) else Ok(ConsensusBlock(header, batches, results))
  }

  function DecodeBlock(input: Bytes): Result<ConsensusBlock, BlockError> {
    var body :- OpenBlock(input);
    DecodeBlockBody(body)
  }

  // ----- exactness -----

  lemma TakePut(b: Bytes, rest: Bytes)
    ensures TakeExact(b + rest, |b|) == Ok((b, rest))
  {
    assert (b + rest)[..|b|] == b && (b + rest)[|b|..] == rest;
  }

  lemma NestedPut(b: Bytes, rest: Bytes)
    requires |b| <= MAX_CANONICAL_OBJECT_BYTES
    ensures TakeNested(PutBytes(b) + rest) == Ok((b, rest))
  {
    ReadPutBytes("nested", MAX_CANONICAL_OBJECT_BYTES, b, rest);
  }

  lemma PutNested(input: Bytes)
    requires TakeNested(input).Ok?
    ensures |TakeNested(input).value.0| <= MAX_CANONICAL_OBJECT_BYTES
    ensures PutBytes(TakeNested(input).value.0) + TakeNested(input).value.1 == input
  {
    PutReadBytes("nested", MAX_CANONICAL_OBJECT_BYTES, input);
  }

  lemma {:induction false} ReadPutBatches(batches: seq<DomainBatch>, rest: Bytes)
    requires PutBatches(batches).Ok?
    ensures ReadBatches(|batches|, PutBatches(batches).value + rest) == Ok((batches, rest))
    decreases |batches|
  {
    hide EncodeDomainBatch, DecodeDomainBatch, PutBytes, TakeNested;
    if batches == [] {
      assert PutBatches(batches).value + rest == rest;
    } else {
      var first := EncodeDomainBatch(batches[0]).value;
      BatchFits(batches[0]);
      DomainBatchExact(batches[0], []);
      var tail := PutBatches(batches[1..]).value + rest;
      assert PutBatches(batches).value + rest == PutBytes(first) + tail;
      NestedPut(first, tail);
      ReadPutBatches(batches[1..], rest);
      assert [batches[0]] + batches[1..] == batches;
    }
  }

  lemma {:induction false} PutReadBatches(count: nat, input: Bytes)
    requires ReadBatches(count, input).Ok?
    ensures var r := ReadBatches(count, input).value;
            PutBatches(r.0).Ok? && PutBatches(r.0).value + r.1 == input
    decreases count
  {
    hide EncodeDomainBatch, DecodeDomainBatch, PutBytes, TakeNested;
    if count == 0 {
      assert PutBatches([]).value + input == input;
    } else {
      PutNested(input);
      var nested := TakeNested(input).value;
      var first := DecodeDomainBatch(nested.0).value;
      DomainBatchExact(first, nested.0);
      var later := ReadBatches(count - 1, nested.1).value;
      PutReadBatches(count - 1, nested.1);
      assert ReadBatches(count, input) == Ok(([first] + later.0, later.1));
      assert ([first] + later.0)[1..] == later.0;
      var list := PutBatches(later.0).value;
      assert PutBytes(nested.0) + (list + later.1) == (PutBytes(nested.0) + list) + later.1;
    }
  }

  lemma {:induction false} ReadPutResults(results: seq<DomainHeader>, rest: Bytes)
    requires PutResults(results).Ok?
    ensures ReadResults(|results|, PutResults(results).value + rest) == Ok((results, rest))
    decreases |results|
  {
    hide EncodeDomainHeader, DecodeDomainHeader, PutBytes, TakeNested;
    if results == [] {
      assert PutResults(results).value + rest == rest;
    } else {
      var first := EncodeDomainHeader(results[0]).value;
      ResultFits(results[0]);
      DomainHeaderExact(results[0], []);
      var tail := PutResults(results[1..]).value + rest;
      assert PutResults(results).value + rest == PutBytes(first) + tail;
      NestedPut(first, tail);
      ReadPutResults(results[1..], rest);
      assert [results[0]] + results[1..] == results;
    }
  }

  lemma {:induction false} PutReadResults(count: nat, input: Bytes)
    requires ReadResults(count, input).Ok?
    ensures var r := ReadResults(count, input).value;
            PutResults(r.0).Ok? && PutResults(r.0).value + r.1 == input
    decreases count
  {
    hide EncodeDomainHeader, DecodeDomainHeader, PutBytes, TakeNested;
    if count == 0 {
      assert PutResults([]).value + input == input;
    } else {
      PutNested(input);
      var nested := TakeNested(input).value;
      var first := DecodeDomainHeader(nested.0).value;
      DomainHeaderExact(first, nested.0);
      var later := ReadResults(count - 1, nested.1).value;
      PutReadResults(count - 1, nested.1);
      assert ReadResults(count, input) == Ok(([first] + later.0, later.1));
      assert ([first] + later.0)[1..] == later.0;
      var list := PutResults(later.0).value;
      assert PutBytes(nested.0) + (list + later.1) == (PutBytes(nested.0) + list) + later.1;
    }
  }

  lemma OpenBlockTagged(body: Bytes)
    requires |Tagged(BLOCK_BODY_TAG, body)| <= MAX_CONSENSUS_BLOCK_BYTES
    ensures OpenBlock(Tagged(BLOCK_BODY_TAG, body)) == Ok(body)
  {
    TakePut(BLOCK_BODY_TAG, [CANONICAL_CODEC_VERSION] + body);
    TakePut([CANONICAL_CODEC_VERSION], body);
    assert Tagged(BLOCK_BODY_TAG, body) == BLOCK_BODY_TAG + ([CANONICAL_CODEC_VERSION] + body);
  }

  lemma TaggedOpenBlock(input: Bytes)
    requires OpenBlock(input).Ok?
    ensures Tagged(BLOCK_BODY_TAG, OpenBlock(input).value) == input && |input| <= MAX_CONSENSUS_BLOCK_BYTES
  {
    var first := Take(input, |BLOCK_BODY_TAG|).value;
    var second := Take(first.1, 1).value;
    assert BLOCK_BODY_TAG + ([CANONICAL_CODEC_VERSION] + second.1) == Tagged(BLOCK_BODY_TAG, second.1);
  }

  lemma BodyDecodes(block: ConsensusBlock, header: Bytes, batches: Bytes, results: Bytes)
    requires |block.batches| == |block.domainBlocks| <= U32_MAX
    requires EncodeConsensusHeader(block.header) == Ok(header) && |header| <= MAX_CANONICAL_OBJECT_BYTES
    requires PutBatches(block.batches) == Ok(batches) && PutResults(block.domainBlocks) == Ok(results)
    ensures DecodeBlockBody(CountedBody(header, |block.batches|, batches, results)) ==
            if |block.batches| > MAX_BATCHES_PER_BLOCK
            then Err(TooManyBatches(MAX_BATCHES_PER_BLOCK, |block.batches|)) else Ok(block)
  {
    hide TakeNested, TakeExact, ReadBatches, ReadResults, EncodeConsensusHeader, DecodeConsensusHeader,
         PutBatches, PutResults, PutBytes, PutU32, GetU32;
    var count := PutU32(|block.batches|);
    var tail := count + results;
    ConsensusHeaderExact(block.header, []);
    NestedPut(header, count + (batches + tail));
    TakePut(count, batches + tail);
    ReadPutBatches(block.batches, tail);
    TakePut(count, results);
    ReadPutResults(block.domainBlocks, []);
    assert results + [] == results;
  }

  /** What a decoded body was made of. */
  lemma BodyReencodes(body: Bytes)
    requires DecodeBlockBody(body).Ok?
    ensures var block := DecodeBlockBody(body).value;
            && |block.batches| == |block.domainBlocks| <= MAX_BATCHES_PER_BLOCK
            && EncodeConsensusHeader(block.header).Ok?
            && |EncodeConsensusHeader(block.header).value| <= MAX_CANONICAL_OBJECT_BYTES
            && PutBatches(block.batches).Ok? && PutResults(block.domainBlocks).Ok?
            && CountedBody(EncodeConsensusHeader(block.header).value, |block.batches|,
                           PutBatches(block.batches).value, PutResults(block.domainBlocks).value) == body
  {
    hide TakeNested, ReadBatches, ReadResults, EncodeConsensusHeader, DecodeConsensusHeader,
         PutBatches, PutResults, PutBytes, PutU32, GetU32, Take;
    PutNested(body);
    var nested := TakeNested(body).value;
    var header := DecodeConsensusHeader(nested.0).value;
    ConsensusHeaderExact(header, nested.0);
    var count := TakeExact(nested.1, 4).value;
    assert PutU32(GetU32(count.0)) == count.0;
    PutReadBatches(GetU32(count.0), count.1);
    var batches := ReadBatches(GetU32(count.0), count.1).value;
    var again := TakeExact(batches.1, 4).value;
    assert PutU32(GetU32(again.0)) == again.0;
    PutReadResults(GetU32(count.0), again.1);
    var results := ReadResults(GetU32(count.0), again.1).value;
    var list := PutResults(results.0).value;
    assert list + [] == list;
  }

  /** Block bodies are exact both ways; the encoder alone lets more than 256 batches through, and
      exactly those the decoder refuses. */
  lemma BlockExact(block: ConsensusBlock, input: Bytes)
    ensures EncodeBlock(block).Ok? ==>
              DecodeBlock(EncodeBlock(block).value) ==
              if |block.batches| > MAX_BATCHES_PER_BLOCK
              then Err(TooManyBatches(MAX_BATCHES_PER_BLOCK, |block.batches|)) else Ok(block)
    ensures DecodeBlock(input).Ok? ==> EncodeBlock(DecodeBlock(input).value) == Ok(input)
  {
    hide OpenBlock, DecodeBlockBody, EncodeConsensusHeader, PutBatches, PutResults, Tagged, CountedBody;
    if EncodeBlock(block).Ok? {
      var header := EncodeConsensusHeader(block.header).value;
      HeaderFits(block.header);
      var batches, results := PutBatches(block.batches).value, PutResults(block.domainBlocks).value;
      OpenBlockTagged(CountedBody(header, |block.batches|, batches, results));
      BodyDecodes(block, header, batches, results);
    }
    if DecodeBlock(input).Ok? {
      TaggedOpenBlock(input);
      BodyReencodes(OpenBlock(input).value);
    }
  }

  // ----- blocks only the encoder accepts -----

  lemma EmptyBatchSize(b: DomainBatch)
    requires b.transactions == []
    ensures EncodeDomainBatch(b).Ok? && |EncodeDomainBatch(b).value| <= 200
  {
    hide Flatten, PutU32;
    FlattenBound([b.domainId, b.parentHash, PutU32(0)], 32);
  }

  lemma ResultSize(h: DomainHeader)
    ensures EncodeDomainHeader(h).Ok? && |EncodeDomainHeader(h).value| <= 4000
  {
    hide DomainFields, Flatten;
    FlattenBound(DomainFields(h), 256);
  }

  lemma HeaderSize(h: ConsensusHeader)
    ensures EncodeConsensusHeader(h).Ok? && |EncodeConsensusHeader(h).value| <= 4000
  {
    hide ConsensusFields, Flatten;
    FlattenBound(ConsensusFields(h), 32);
  }

  lemma {:induction false} EmptyBatchesSize(batches: seq<DomainBatch>)
    requires forall b | b in batches :: b.transactions == []
    ensures PutBatches(batches).Ok? && |PutBatches(batches).value| <= 204 * |batches|
  {
    hide EncodeDomainBatch, PutU32;
    if batches != [] {
      EmptyBatchSize(batches[0]);
      EmptyBatchesSize(batches[1..]);
    }
  }

  lemma {:induction false} ResultsSize(results: seq<DomainHeader>)
    ensures PutResults(results).Ok? && |PutResults(results).value| <= 4004 * |results|
  {
    hide EncodeDomainHeader, PutU32;
    if results != [] {
      ResultSize(results[0]);
      ResultsSize(results[1..]);
    }
  }

  /** Every aligned block of 257 to 1,000 batches without transactions encodes, and its bytes cannot be
      decoded. */
  lemma LargeBlockUndecodable(block: ConsensusBlock)
    requires MAX_BATCHES_PER_BLOCK < |block.batches| == |block.domainBlocks| <= 1000
    requires forall b | b in block.batches :: b.transactions == []
    ensures EncodeBlock(block).Ok?
    ensures DecodeBlock(EncodeBlock(block).value) == Err(TooManyBatches(MAX_BATCHES_PER_BLOCK, |block.batches|))
  {
    hide EncodeConsensusHeader, PutBatches, PutResults, DecodeBlock, PutU32;
    HeaderSize(block.header);
    EmptyBatchesSize(block.batches);
    ResultsSize(block.domainBlocks);
    BlockExact(block, []);
  }
}
