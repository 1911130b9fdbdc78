/** Canonical codecs: headers, batches, validator sets, votes, certificates and block bodies. */
module Canonical {
  import opened Wrappers
  import opened Bytes
  import opened Layout

  const MAX_TRANSACTIONS_PER_BATCH: nat := 10_000
  const MAX_TRANSACTION_ENVELOPE_BYTES: nat := 256 * 1024
  const MAX_ACTIVE_VALIDATORS: nat := 100
  const MAX_BATCHES_PER_BLOCK: nat := 256
  const MAX_CONSENSUS_BLOCK_BYTES: nat := 16 * 1024 * 1024

  type Address = s: Bytes | |s| == 20 witness seq(20, _ => 0)
  type Bloom = s: Bytes | |s| == 256 witness seq(256, _ => 0)
  type PublicKey = s: Bytes | |s| == 33 witness seq(33, _ => 0)
  type Signature = s: Bytes | |s| == 64 witness seq(64, _ => 0)

  const CONSENSUS_HEADER_TAG: Bytes := Ascii("ARBOR_CONSENSUS_HEADER_V1")
  const DOMAIN_HEADER_TAG: Bytes := Ascii("ARBOR_DOMAIN_HEADER_V1")
  const DOMAIN_BATCH_TAG: Bytes := Ascii("ARBOR_DOMAIN_BATCH_V1")
  const VALIDATOR_SET_TAG: Bytes := Ascii("ARBOR_VALIDATOR_SET_V1")
  const VOTE_TAG: Bytes := Ascii("ARBOR_VOTE_V1")
  const QC_TAG: Bytes := Ascii("ARBOR_QC_V1")
  const BLOCK_BODY_TAG: Bytes := Ascii("ARBOR_CONSENSUS_BLOCK_BODY_V1")

  // ----- headers -----

  datatype ConsensusHeader = ConsensusHeader(
    protocolVersion: u32, networkId: B256, height: u64, parentHash: B256, timestamp: u64,
    batchesRoot: B256, domainResultsRoot: B256, domainHeadsRoot: B256,
    validatorSetHash: B256, nextValidatorSetHash: B256, proposer: Address)

  const CONSENSUS_WIDTHS: seq<nat> := [4, 32, 8, 32, 8, 32, 32, 32, 32, 32, 20]

  function ConsensusFields(h: ConsensusHeader): (r: seq<Bytes>)
    ensures Fits(r, CONSENSUS_WIDTHS)
  {
    [PutU32(h.protocolVersion), h.networkId, PutU64(h.height), h.parentHash, PutU64(h.timestamp),
     h.batchesRoot, h.domainResultsRoot, h.domainHeadsRoot, h.validatorSetHash, h.nextValidatorSetHash, h.proposer]
  }

  function ConsensusFromFields(f: seq<Bytes>): ConsensusHeader
    requires Fits(f, CONSENSUS_WIDTHS)
  {
    ConsensusHeader(GetU32(f[0]), f[1], GetU64(f[2]), f[3], GetU64(f[4]), f[5], f[6], f[7], f[8], f[9], f[10])
  }

  function EncodeConsensusHeader(h: ConsensusHeader): Result<Bytes, CodecError> {
    EncodeRecord(CONSENSUS_HEADER_TAG, ConsensusFields(h))
  }

  function DecodeConsensusHeader(input: Bytes): Result<ConsensusHeader, CodecError> {
    var fields :- DecodeRecord(CONSENSUS_HEADER_TAG, CONSENSUS_WIDTHS, input);
    Ok(ConsensusFromFields(fields))
  }

  /** Headers have a fixed size, far below the object limit, so encoding them cannot fail. */
  lemma ConsensusHeaderEncodes(h: ConsensusHeader)
    ensures EncodeConsensusHeader(h).Ok?
  {
    hide ConsensusFields, Flatten;
    FlattenBound(ConsensusFields(h), 32);
  }

  lemma ConsensusHeaderExact(h: ConsensusHeader, input: Bytes)
    ensures EncodeConsensusHeader(h).Ok? ==> DecodeConsensusHeader(EncodeConsensusHeader(h).value) == Ok(h)
    ensures DecodeConsensusHeader(input).Ok? ==> EncodeConsensusHeader(DecodeConsensusHeader(input).value) == Ok(input)
  {
    hide EncodeRecord, DecodeRecord, PutU32, GetU32, PutU64, GetU64;
    if EncodeConsensusHeader(h).Ok? {
      RecordDecodes(CONSENSUS_HEADER_TAG, CONSENSUS_WIDTHS, ConsensusFields(h));
    }
    if DecodeConsensusHeader(input).Ok? {
      RecordReencodes(CONSENSUS_HEADER_TAG, CONSENSUS_WIDTHS, input);
      var f := DecodeRecord(CONSENSUS_HEADER_TAG, CONSENSUS_WIDTHS, input).value;
      ConsensusFieldsBack(f);
    }
  }

  lemma ConsensusFieldsBack(f: seq<Bytes>)
    requires Fits(f, CONSENSUS_WIDTHS)
    ensures ConsensusFields(ConsensusFromFields(f)) == f
  {
    var g := ConsensusFields(ConsensusFromFields(f));
    assert g[0] == f[0] && g[2] == f[2] && g[4] == f[4];
    assert forall i | 0 <= i < 11 :: g[i] == f[i];
  }

  datatype DomainHeader = DomainHeader(
    protocolVersion: u32, domainId: B256, number: u64, parentHash: B256, consensusHeight: u64,
    transactionsRoot: B256, stateRoot: B256, receiptsRoot: B256, logsBloom: Bloom,
    gasLimit: u64, gasUsed: u64, baseFeePerGas: u128)

  const DOMAIN_WIDTHS: seq<nat> := [4, 32, 8, 32, 8, 32, 32, 32, 256, 8, 8, 16]

  function DomainFields(h: DomainHeader): (r: seq<Bytes>)
    ensures Fits(r, DOMAIN_WIDTHS)
  {
    [PutU32(h.protocolVersion), h.domainId, PutU64(h.number), h.parentHash, PutU64(h.consensusHeight),
     h.transactionsRoot, h.stateRoot, h.receiptsRoot, h.logsBloom,
     PutU64(h.gasLimit), PutU64(h.gasUsed), PutU128(h.baseFeePerGas)]
  }

  function DomainFromFields(f: seq<Bytes>): DomainHeader
    requires Fits(f, DOMAIN_WIDTHS)
  {
    DomainHeader(GetU32(f[0]), f[1], GetU64(f[2]), f[3], GetU64(f[4]), f[5], f[6], f[7], f[8],
                 GetU64(f[9]), GetU64(f[10]), GetU128(f[11]))
  }

  function EncodeDomainHeader(h: DomainHeader): Result<Bytes, CodecError> {
    EncodeRecord(DOMAIN_HEADER_TAG, DomainFields(h))
  }

  function DecodeDomainHeader(input: Bytes): Result<DomainHeader, CodecError> {
    var fields :- DecodeRecord(DOMAIN_HEADER_TAG, DOMAIN_WIDTHS, input);
    Ok(DomainFromFields(fields))
  }

  lemma DomainHeaderEncodes(h: DomainHeader)
    ensures EncodeDomainHeader(h).Ok?
  {
    hide DomainFields, Flatten;
    FlattenBound(DomainFields(h), 256);
  }

  lemma DomainHeaderExact(h: DomainHeader, input: Bytes)
    ensures EncodeDomainHeader(h).Ok? ==> DecodeDomainHeader(EncodeDomainHeader(h).value) == Ok(h)
    ensures DecodeDomainHeader(input).Ok? ==> EncodeDomainHeader(DecodeDomainHeader(input).value) == Ok(input)
  {
    hide EncodeRecord, DecodeRecord, PutU32, GetU32, PutU64, GetU64, PutU128, GetU128;
    if EncodeDomainHeader(h).Ok? {
      RecordDecodes(DOMAIN_HEADER_TAG, DOMAIN_WIDTHS, DomainFields(h));
    }
    if DecodeDomainHeader(input).Ok? {
      RecordReencodes(DOMAIN_HEADER_TAG, DOMAIN_WIDTHS, input);
      DomainFieldsBack(DecodeRecord(DOMAIN_HEADER_TAG, DOMAIN_WIDTHS, input).value);
    }
  }

  lemma DomainFieldsBack(f: seq<Bytes>)
    requires Fits(f, DOMAIN_WIDTHS)
    ensures DomainFields(DomainFromFields(f)) == f
  {
    var g := DomainFields(DomainFromFields(f));
    assert g[0] == f[0] && g[2] == f[2] && g[4] == f[4] && g[9] == f[9] && g[10] == f[10] && g[11] == f[11];
    assert forall i | 0 <= i < 12 :: g[i] == f[i];
  }

  // ----- votes -----

  datatype Vote = Vote(networkId: B256, height: u64, round: u64, phase: byte, blockHash: B256, validatorId: B256)

  const VOTE_WIDTHS: seq<nat> := [32, 8, 8, 1, 32, 32]

  function VoteFields(v: Vote): (r: seq<Bytes>)
    ensures Fits(r, VOTE_WIDTHS)
  {
    [v.networkId, PutU64(v.height), PutU64(v.round), [v.phase], v.blockHash, v.validatorId]
  }

  function EncodeVote(v: Vote): Result<Bytes, CodecError> {
    if v.phase == 0 then Err(InvalidValue("vote phase")) else EncodeRecord(VOTE_TAG, VoteFields(v))
  }

  function DecodeVote(input: Bytes): Result<Vote, CodecError> {
    var f :- DecodeRecord(VOTE_TAG, VOTE_WIDTHS, input);
    if f[3][0] == 0 then Err(InvalidValue("vote phase"))
    else Ok(Vote(f[0], GetU64(f[1]), GetU64(f[2]), f[3][0], f[4], f[5]))
  }

  lemma VoteExact(v: Vote, input: Bytes)
    ensures EncodeVote(v).Ok? ==> DecodeVote(EncodeVote(v).value) == Ok(v)
    ensures DecodeVote(input).Ok? ==> EncodeVote(DecodeVote(input).value) == Ok(input)
  {
    hide EncodeRecord, DecodeRecord, PutU64, GetU64;
    if EncodeVote(v).Ok? {
      RecordDecodes(VOTE_TAG, VOTE_WIDTHS, VoteFields(v));
    }
    if DecodeVote(input).Ok? {
      RecordReencodes(VOTE_TAG, VOTE_WIDTHS, input);
      var f := DecodeRecord(VOTE_TAG, VOTE_WIDTHS, input).value;
      var g := VoteFields(DecodeVote(input).value);
      assert g[1] == f[1] && g[2] == f[2] && g[3] == [f[3][0]] == f[3];
      assert forall i | 0 <= i < 6 :: g[i] == f[i];
      assert g == f;
    }
  }

  // ----- batches -----

  datatype DomainBatch = DomainBatch(domainId: B256, parentHash: B256, transactions: seq<Bytes>)

  const BATCH_WIDTHS: seq<nat> := [32, 32, 4]

  predicate EnvelopesFit(transactions: seq<Bytes>) {
    forall i | 0 <= i < |transactions| :: |transactions[i]| <= MAX_TRANSACTION_ENVELOPE_BYTES
  }

  function BatchBody(b: DomainBatch): Bytes
    requires |b.transactions| <= MAX_TRANSACTIONS_PER_BATCH && EnvelopesFit(b.transactions)
  {
    Flatten([b.domainId, b.parentHash, PutU32(|b.transactions|)]) + PutAll(b.transactions)
  }

  /** Length of the first envelope over the limit. */
  function Oversized(transactions: seq<Bytes>): (r: Option<nat>)
    ensures r.None? <==> EnvelopesFit(transactions)
  {
    if transactions == [] then
      None
    else if |transactions[0]| > MAX_TRANSACTION_ENVELOPE_BYTES then
      Some(|transactions[0]|)
    else
      assert forall i | 1 <= i < |transactions| :: transactions[i] == transactions[1..][i - 1];
      Oversized(transactions[1..])
  }

  function EncodeDomainBatch(b: DomainBatch): Result<Bytes, CodecError> {
    var _ :- CheckLimit("domain batch transactions", |b.transactions|, MAX_TRANSACTIONS_PER_BATCH);
    var oversized := Oversized(b.transactions);
    if oversized.Some? then
      Err(LimitExceeded("transaction envelope", MAX_TRANSACTION_ENVELOPE_BYTES, oversized.value))
    else
      Finish(Tagged(DOMAIN_BATCH_TAG, BatchBody(b)))
  }

  function DecodeBatchBody(body: Bytes): (r: Result<DomainBatch, CodecError>)
    ensures r.Ok? ==> |r.value.transactions| <= MAX_TRANSACTIONS_PER_BATCH && EnvelopesFit(r.value.transactions)
  {
    var (f, rest) :- ReadFields(BATCH_WIDTHS, body);
    var count := GetU32(f[2]);
    var _ :- CheckLimit("domain batch transactions", count, MAX_TRANSACTIONS_PER_BATCH);
    var (transactions, left) :- ReadAll("transaction envelope", MAX_TRANSACTION_ENVELOPE_BYTES, count, rest);
    var _ :- Close(left);
    Ok(DomainBatch(f[0], f[1], transactions))
  }

  function DecodeDomainBatch(input: Bytes): Result<DomainBatch, CodecError> {
    var body :- Open(DOMAIN_BATCH_TAG, input);
    DecodeBatchBody(body)
  }

  lemma BatchBodyDecodes(b: DomainBatch)
    requires |b.transactions| <= MAX_TRANSACTIONS_PER_BATCH && EnvelopesFit(b.transactions)
    ensures DecodeBatchBody(BatchBody(b)) == Ok(b)
  {
    hide ReadFields, ReadAll, PutAll, Flatten, PutU32, GetU32;
    var fields := [b.domainId, b.parentHash, PutU32(|b.transactions|)];
    ReadFlattened(fields, BATCH_WIDTHS, PutAll(b.transactions));
    ReadPutAll("transaction envelope", MAX_TRANSACTION_ENVELOPE_BYTES, b.transactions, []);
    assert PutAll(b.transactions) + [] == PutAll(b.transactions);
  }

  lemma BatchBodyReencodes(body: Bytes)
    requires DecodeBatchBody(body).Ok?
    ensures BatchBody(DecodeBatchBody(body).value) == body
  {
    hide ReadFields, ReadAll, PutAll, Flatten, PutU32, GetU32;
    FlattenRead(BATCH_WIDTHS, body);
    var first := ReadFields(BATCH_WIDTHS, body).value;
    var f, rest := first.0, first.1;
    PutReadAll("transaction envelope", MAX_TRANSACTION_ENVELOPE_BYTES, GetU32(f[2]), rest);
    var b := DecodeBatchBody(body).value;
    assert PutU32(|b.transactions|) == f[2];
    assert [b.domainId, b.parentHash, PutU32(|b.transactions|)] == f;
    assert PutAll(b.transactions) + [] == PutAll(b.transactions);
  }

  lemma DomainBatchExact(b: DomainBatch, input: Bytes)
    ensures EncodeDomainBatch(b).Ok? ==> DecodeDomainBatch(EncodeDomainBatch(b).value) == Ok(b)
    ensures DecodeDomainBatch(input).Ok? ==> EncodeDomainBatch(DecodeDomainBatch(input).value) == Ok(input)
  {
    hide Open, DecodeBatchBody, BatchBody, Tagged, Oversized;
    if EncodeDomainBatch(b).Ok? {
      OpenTagged(DOMAIN_BATCH_TAG, BatchBody(b));
      BatchBodyDecodes(b);
    }
    if DecodeDomainBatch(input).Ok? {
      TaggedOpen(DOMAIN_BATCH_TAG, input);
      BatchBodyReencodes(Open(DOMAIN_BATCH_TAG, input).value);
    }
  }

  // ----- validator sets -----

  datatype Validator = Validator(id: B256, publicKey: PublicKey, power: u64)
  datatype ValidatorSet = ValidatorSet(epoch: u64, validators: seq<Validator>)

  const SET_WIDTHS: seq<nat> := [8, 4]
  const VALIDATOR_WIDTHS: seq<nat> := [32, 33, 8]

  /** `check_strictly_sorted` looks at neighbours only. */
  predicate NeighboursSorted(ids: seq<B256>) {
    forall i | 0 <= i < |ids| - 1 :: LexLess(ids[i], ids[i + 1])
  }

  function IdsOf(validators: seq<Validator>): seq<B256> {
    seq(|validators|, i requires 0 <= i < |validators| => validators[i].id)
  }

  function ValidatorFields(v: Validator): (r: seq<Bytes>)
    ensures Fits(r, VALIDATOR_WIDTHS)
  {
    [v.id, v.publicKey, PutU64(v.power)]
  }

  function PutValidators(validators: seq<Validator>): Result<Bytes, CodecError> {
    if validators == [] then
      Ok([])
    else if validators[0].power == 0 then
      Err(InvalidValue("validator power"))
    else
      var rest :- PutValidators(validators[1..]);
      Ok(Flatten(ValidatorFields(validators[0])) + rest)
  }

  function ReadValidators(count: nat, input: Bytes): (r: Result<(seq<Validator>, Bytes), CodecError>)
    ensures r.Ok? ==> |r.value.0| == count
  {
    if count == 0 then
      Ok(([], input))
    else
      var (f, rest) :- ReadFields(VALIDATOR_WIDTHS, input);
      if GetU64(f[2]) == 0 then
        Err(InvalidValue("validator power"))
      else
        var (validators, left) :- ReadValidators(count - 1, rest);
        Ok(([Validator(f[0], f[1], GetU64(f[2]))] + validators, left))
  }

  function EncodeValidatorSet(s: ValidatorSet): Result<Bytes, CodecError> {
    var _ :- CheckLimit("validators", |s.validators|, MAX_ACTIVE_VALIDATORS);
    if s.validators == [] then
      Err(InvalidValue("validator set"))
    else if !NeighboursSorted(IdsOf(s.validators)) then
      Err(NonCanonicalOrder("validators"))
    else
      var list :- PutValidators(s.validators);
      Finish(Tagged(VALIDATOR_SET_TAG, Flatten([PutU64(s.epoch), PutU32(|s.validators|)]) + list))
  }

  function DecodeSetBody(body: Bytes): Result<ValidatorSet, CodecError> {
    var (f, rest) :- ReadFields(SET_WIDTHS, body);
    var count := GetU32(f[1]);
    var _ :- CheckLimit("validators", count, MAX_ACTIVE_VALIDATORS);
    if count == 0 then
      Err(InvalidValue("validator set"))
    else
      var (validators, left) :- ReadValidators(count, rest);
      if !NeighboursSorted(IdsOf(validators)) then
        Err(NonCanonicalOrder("validators"))
      else
        var _ :- Close(left);
        Ok(ValidatorSet(GetU64(f[0]), validators))
  }

  function DecodeValidatorSet(input: Bytes): Result<ValidatorSet, CodecError> {
    var body :- Open(VALIDATOR_SET_TAG, input);
    DecodeSetBody(body)
  }

  lemma {:induction false} ReadPutValidators(validators: seq<Validator>, rest: Bytes)
    requires PutValidators(validators).Ok?
    ensures ReadValidators(|validators|, PutValidators(validators).value + rest) == Ok((validators, rest))
    decreases |validators|
  {
    hide ReadFields, Flatten, PutU64, GetU64;
    if validators == [] {
      assert PutValidators(validators).value + rest == rest;
    } else {
      var tail := PutValidators(validators[1..]).value + rest;
      var f := ValidatorFields(validators[0]);
      assert PutValidators(validators).value + rest == Flatten(f) + tail;
      ReadFlattened(f, VALIDATOR_WIDTHS, tail);
      ReadPutValidators(validators[1..], rest);
      assert [validators[0]] + validators[1..] == validators;
    }
  }

  lemma {:induction false} PutReadValidators(count: nat, input: Bytes)
    requires ReadValidators(count, input).Ok?
    ensures var (validators, rest) := ReadValidators(count, input).value;
            PutValidators(validators).Ok? && PutValidators(validators).value + rest == input
    decreases count
  {
    hide ReadFields, Flatten, PutU64, GetU64;
    if count == 0 {
      assert PutValidators([]).value + input == input;
    } else {
      FlattenRead(VALIDATOR_WIDTHS, input);
      var first := ReadFields(VALIDATOR_WIDTHS, input).value;
      var f := first.0;
      var later := ReadValidators(count - 1, first.1).value;
      PutReadValidators(count - 1, first.1);
      var v := Validator(f[0], f[1], GetU64(f[2]));
      assert ReadValidators(count, input) == Ok(([v] + later.0, later.1));
      assert ValidatorFields(v) == f;
      assert ([v] + later.0)[1..] == later.0;
      var list := PutValidators(later.0).value;
      assert Flatten(f) + (list + later.1) == (Flatten(f) + list) + later.1;
    }
  }

  lemma SetBodyDecodes(s: ValidatorSet, list: Bytes)
    requires 0 < |s.validators| <= MAX_ACTIVE_VALIDATORS && NeighboursSorted(IdsOf(s.validators))
    requires PutValidators(s.validators) == Ok(list)
    ensures DecodeSetBody(Flatten([PutU64(s.epoch), PutU32(|s.validators|)]) + list) == Ok(s)
  {
    hide ReadFields, Flatten, PutU64, GetU64, PutU32, GetU32, PutValidators, ReadValidators, NeighboursSorted;
    ReadFlattened([PutU64(s.epoch), PutU32(|s.validators|)], SET_WIDTHS, list);
    ReadPutValidators(s.validators, []);
    assert list + [] == list;
  }

  lemma SetBodyReencodes(body: Bytes)
    requires DecodeSetBody(body).Ok?
    ensures var s := DecodeSetBody(body).value;
            && 0 < |s.validators| <= MAX_ACTIVE_VALIDATORS && NeighboursSorted(IdsOf(s.validators))
            && PutValidators(s.validators).Ok?
            && Flatten([PutU64(s.epoch), PutU32(|s.validators|)]) + PutValidators(s.validators).value == body
  {
    hide ReadFields, Flatten, PutU64, GetU64, PutU32, GetU32, PutValidators, ReadValidators, NeighboursSorted;
    FlattenRead(SET_WIDTHS, body);
    var first := ReadFields(SET_WIDTHS, body).value;
    var f := first.0;
    PutReadValidators(GetU32(f[1]), first.1);
    var s := DecodeSetBody(body).value;
    assert [PutU64(s.epoch), PutU32(|s.validators|)] == f;
    var list := PutValidators(s.validators).value;
    assert list + [] == list;
  }

  lemma ValidatorSetExact(s: ValidatorSet, input: Bytes)
    ensures EncodeValidatorSet(s).Ok? ==> DecodeValidatorSet(EncodeValidatorSet(s).value) == Ok(s)
    ensures DecodeValidatorSet(input).Ok? ==> EncodeValidatorSet(DecodeValidatorSet(input).value) == Ok(input)
  {
    hide Open, DecodeSetBody, Tagged, PutValidators, NeighboursSorted, Flatten;
    if EncodeValidatorSet(s).Ok? {
      var list := PutValidators(s.validators).value;
      OpenTagged(VALIDATOR_SET_TAG, Flatten([PutU64(s.epoch), PutU32(|s.validators|)]) + list);
      SetBodyDecodes(s, list);
    }
    if DecodeValidatorSet(input).Ok? {
      TaggedOpen(VALIDATOR_SET_TAG, input);
      SetBodyReencodes(Open(VALIDATOR_SET_TAG, input).value);
    }
  }

  // ----- quorum certificates -----

  datatype CommitSignature = CommitSignature(validatorId: B256, signature: Signature)
  datatype Certificate = Certificate(
    networkId: B256, height: u64, round: u64, phase: byte, blockHash: B256, signatures: seq<CommitSignature>)

  const QC_WIDTHS: seq<nat> := [32, 8, 8, 1, 32, 4]
  const SIGNATURE_WIDTHS: seq<nat> := [32, 64]

  function SignersOf(signatures: seq<CommitSignature>): seq<B256> {
    seq(|signatures|, i requires 0 <= i < |signatures| => signatures[i].validatorId)
  }

  function SignatureRecords(signatures: seq<CommitSignature>): (r: seq<seq<Bytes>>)
    ensures |r| == |signatures|
    ensures forall i | 0 <= i < |r| :: Fits(r[i], SIGNATURE_WIDTHS)
  {
    seq(|signatures|, i requires 0 <= i < |signatures| => [signatures[i].validatorId, signatures[i].signature])
  }

  function SignaturesFrom(records: seq<seq<Bytes>>): (r: seq<CommitSignature>)
    requires forall i | 0 <= i < |records| :: Fits(records[i], SIGNATURE_WIDTHS)
    ensures |r| == |records| && SignatureRecords(r) == records
  {
    var r := seq(|records|, i requires 0 <= i < |records| => SignatureFrom(records[i]));
    assert forall i | 0 <= i < |records| :: SignatureRecords(r)[i] == records[i];
    r
  }

  function SignatureFrom(record: seq<Bytes>): (r: CommitSignature)
    requires Fits(record, SIGNATURE_WIDTHS)
    ensures [r.validatorId, r.signature] == record
  {
    CommitSignature(record[0], record[1])
  }

  function CertificateFields(c: Certificate): (r: seq<Bytes>)
    requires |c.signatures| <= MAX_ACTIVE_VALIDATORS
    ensures Fits(r, QC_WIDTHS)
  {
    [c.networkId, PutU64(c.height), PutU64(c.round), [c.phase], c.blockHash, PutU32(|c.signatures|)]
  }

  function EncodeCertificate(c: Certificate): Result<Bytes, CodecError> {
    if c.phase == 0 then
      Err(InvalidValue("certificate phase"))
    else
      var _ :- CheckLimit("certificate signatures", |c.signatures|, MAX_ACTIVE_VALIDATORS);
      if c.signatures == [] then
        Err(InvalidValue("certificate signatures"))
      else if !NeighboursSorted(SignersOf(c.signatures)) then
        Err(NonCanonicalOrder("certificate signatures"))
      else
        Finish(Tagged(QC_TAG, Flatten(CertificateFields(c)) + FlattenAll(SignatureRecords(c.signatures))))
  }

  function DecodeCertificateBody(body: Bytes): Result<Certificate, CodecError> {
    var (early, rest) :- ReadFields(QC_WIDTHS[..4], body);
    if early[3][0] == 0 then
      Err(InvalidValue("certificate phase"))
    else
      var (late, rest) :- ReadFields(QC_WIDTHS[4..], rest);
      var count := GetU32(late[1]);
      var _ :- CheckLimit("certificate signatures", count, MAX_ACTIVE_VALIDATORS);
      if count == 0 then
        Err(InvalidValue("certificate signatures"))
      else
        var (records, left) :- ReadRecords(SIGNATURE_WIDTHS, count, rest);
        var signatures := SignaturesFrom(records);
        if !NeighboursSorted(SignersOf(signatures)) then
          Err(NonCanonicalOrder("certificate signatures"))
        else
          var _ :- Close(left);
          Ok(Certificate(early[0], GetU64(early[1]), GetU64(early[2]), early[3][0], late[0], signatures))
  }

  function DecodeCertificate(input: Bytes): Result<Certificate, CodecError> {
    var body :- Open(QC_TAG, input);
    DecodeCertificateBody(body)
  }

  lemma {:induction false} FlattenTwo(a: seq<Bytes>, b: seq<Bytes>, rest: Bytes)
    ensures Flatten(a + b) + rest == Flatten(a) + (Flatten(b) + rest)
    decreases |a|
  {
    if a == [] {
      assert a + b == b;
      assert Flatten(a) + (Flatten(b) + rest) == Flatten(b) + rest;
    } else {
      hide Flatten;
      var tail := a[1..];
      FlattenTwo(tail, b, rest);
      assert a == [a[0]] + tail && a + b == [a[0]] + (tail + b);
      FlattenCons(a[0], tail);
      FlattenCons(a[0], tail + b);
      assert (a[0] + Flatten(tail + b)) + rest == a[0] + (Flatten(tail + b) + rest);
      assert (a[0] + Flatten(tail)) + (Flatten(b) + rest) == a[0] + (Flatten(tail) + (Flatten(b) + rest));
    }
  }

  lemma CertificateBodyDecodes(c: Certificate)
    requires c.phase != 0 && 0 < |c.signatures| <= MAX_ACTIVE_VALIDATORS && NeighboursSorted(SignersOf(c.signatures))
    ensures DecodeCertificateBody(Flatten(CertificateFields(c)) + FlattenAll(SignatureRecords(c.signatures))) == Ok(c)
  {
    hide ReadFields, Flatten, FlattenAll, ReadRecords, PutU64, GetU64, PutU32, GetU32, NeighboursSorted;
    var f := CertificateFields(c);
    var records := SignatureRecords(c.signatures);
    var tail := FlattenAll(records);
    assert f == f[..4] + f[4..];
    FlattenTwo(f[..4], f[4..], tail);
    ReadFlattened(f[..4], QC_WIDTHS[..4], Flatten(f[4..]) + tail);
    ReadFlattened(f[4..], QC_WIDTHS[4..], tail);
    ReadFlattenedRecords(records, SIGNATURE_WIDTHS, []);
    assert tail + [] == tail;
    var back := SignaturesFrom(records);
    assert forall i | 0 <= i < |back| :: back[i] == c.signatures[i];
    assert back == c.signatures;
  }

  lemma CertificateBodyReencodes(body: Bytes)
    requires DecodeCertificateBody(body).Ok?
    ensures var c := DecodeCertificateBody(body).value;
            && c.phase != 0 && 0 < |c.signatures| <= MAX_ACTIVE_VALIDATORS
            && NeighboursSorted(SignersOf(c.signatures))
            && Flatten(CertificateFields(c)) + FlattenAll(SignatureRecords(c.signatures)) == body
  {
    hide ReadFields, Flatten, FlattenAll, ReadRecords, PutU64, GetU64, PutU32, GetU32, NeighboursSorted;
    FlattenRead(QC_WIDTHS[..4], body);
    var first := ReadFields(QC_WIDTHS[..4], body).value;
    FlattenRead(QC_WIDTHS[4..], first.1);
    var second := ReadFields(QC_WIDTHS[4..], first.1).value;
    FlattenReadRecords(SIGNATURE_WIDTHS, GetU32(second.0[1]), second.1);
    var c := DecodeCertificateBody(body).value;
    var f := CertificateFields(c);
    assert [first.0[3][0]] == first.0[3];
    assert f == first.0 + second.0;
    FlattenTwo(first.0, second.0, FlattenAll(SignatureRecords(c.signatures)));
    assert FlattenAll(SignatureRecords(c.signatures)) + [] == FlattenAll(SignatureRecords(c.signatures));
  }

  lemma CertificateExact(c: Certificate, input: Bytes)
    ensures EncodeCertificate(c).Ok? ==> DecodeCertificate(EncodeCertificate(c).value) == Ok(c)
    ensures DecodeCertificate(input).Ok? ==> EncodeCertificate(DecodeCertificate(input).value) == Ok(input)
  {
    hide Open, DecodeCertificateBody, Tagged, NeighboursSorted, Flatten, FlattenAll, SignatureRecords;
    if EncodeCertificate(c).Ok? {
      OpenTagged(QC_TAG, Flatten(CertificateFields(c)) + FlattenAll(SignatureRecords(c.signatures)));
      CertificateBodyDecodes(c);
    }
    if DecodeCertificate(input).Ok? {
      TaggedOpen(QC_TAG, input);
      CertificateBodyReencodes(Open(QC_TAG, input).value);
    }
  }
}
