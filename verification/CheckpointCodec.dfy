/** The stored form of a development checkpoint and of the domain descriptors inside it. */
module CheckpointCodec {
  import opened Wrappers
  import opened Bytes
  import opened Layout
  import opened Canonical
  import opened BlockBody
  import opened Chain

  // ----- 256-bit words -----

  function PutU256(n: u256): (r: Bytes)
    ensures |r| == 32
  {
    BigEndian(n, 32)
  }

  lemma Pow32()
    ensures Pow256(32) == 0x1_0000_0000_0000_0000_0000_0000_0000_0000_0000_0000_0000_0000_0000_0000_0000_0000
  {
    Pow256Values();
    PowSum(16, 16);
  }

  lemma {:induction false} PowSum(a: nat, b: nat)
    ensures Pow256(a + b) == Pow256(a) * Pow256(b)
    decreases b
  {
    if b > 0 {
      PowSum(a, b - 1);
      assert Pow256(a + b) == 256 * (Pow256(a) * Pow256(b - 1)) == Pow256(a) * (256 * Pow256(b - 1));
    }
  }

  function GetU256(b: Bytes): (r: u256)
    requires |b| == 32
  {
    Pow32();
    EncodeBigEndian(b);
    FromBigEndian(b)
  }

  lemma U256Exact(n: u256, b: Bytes)
    requires |b| == 32
    ensures GetU256(PutU256(n)) == n
    ensures PutU256(GetU256(b)) == b
  {
    hide Pow256;
    Pow32();
    DecodeBigEndian(n, 32);
    EncodeBigEndian(b);
  }

  // ----- descriptors -----

  const DESCRIPTOR_TAG: Bytes := Ascii("ARBOR_DOMAIN_DESCRIPTOR_V1")
  const MAX_NAME: nat := 64
  const MAX_SYMBOL: nat := 16

  const ID_WIDTHS: seq<nat> := [32, 32, 32, 32, 32]
  const TERM_WIDTHS: seq<nat> := [8, 20, 4, 8, 16, 32, 32, 1]

  function StatusByte(s: DomainStatus): byte {
    match s case Pending => 0 case Active => 1 case Frozen => 2
  }

  function StatusFrom(b: byte): Option<DomainStatus> {
    if b == 0 then Some(Pending) else if b == 1 then Some(Active) else if b == 2 then Some(Frozen) else None
  }

  function IdFields(d: Descriptor): (r: seq<Bytes>)
    ensures Fits(r, ID_WIDTHS)
  {
    [d.domainId, d.parentDomainId, d.jointHash, d.createTxHash, d.originHash]
  }

  function TermFields(d: Descriptor): (r: seq<Bytes>)
    ensures Fits(r, TERM_WIDTHS)
  {
    [PutU64(d.evmChainId), d.owner, PutU32(d.protocolRevision), PutU64(d.gasLimit), PutU128(d.initialBaseFee),
     PutU256(d.initialSupply), PutU256(d.creationDeposit), [StatusByte(d.status)]]
  }

  function DescriptorBody(d: Descriptor): Bytes
    requires |d.name| <= MAX_NAME && |d.symbol| <= MAX_SYMBOL
  {
    Flatten(IdFields(d)) + (PutBytes(d.name) + (PutBytes(d.symbol) + Flatten(TermFields(d))))
  }

  function EncodeDescriptor(d: Descriptor): Result<Bytes, CodecError> {
    var _ :- CheckLimit("domain name", |d.name|, MAX_NAME);
    var _ :- CheckLimit("domain symbol", |d.symbol|, MAX_SYMBOL);
    if d.evmChainId == 0 then Err(InvalidValue("evm chain id"))
    else Finish(Tagged(DESCRIPTOR_TAG, DescriptorBody(d)))
  }

  function DescriptorFrom(ids: seq<Bytes>, name: Bytes, symbol: Bytes, terms: seq<Bytes>): Option<Descriptor>
    requires Fits(ids, ID_WIDTHS) && Fits(terms, TERM_WIDTHS)
  {
    var status := StatusFrom(terms[7][0]);
    if status.None? then None else
    Some(Descriptor(ids[0], ids[1], ids[2], ids[3], ids[4], name, symbol, GetU64(terms[0]), terms[1], GetU32(terms[2]),
                    GetU64(terms[3]), GetU128(terms[4]), GetU256(terms[5]), GetU256(terms[6]), status.value))
  }

  /** `utf8` is the validity check a decoded string must pass. */
  function DecodeDescriptor(utf8: Bytes -> bool, input: Bytes): Result<Descriptor, CodecError> {
    var body :- Open(DESCRIPTOR_TAG, input);
    var (ids, rest) :- ReadFields(ID_WIDTHS, body);
    var (name, rest) :- ReadBytes("domain name", MAX_NAME, rest);
    var (symbol, rest) :- ReadBytes("domain symbol", MAX_SYMBOL, rest);
    if !utf8(name) || !utf8(symbol) then
      Err(InvalidValue("utf-8"))
    else
      var (terms, rest) :- ReadFields(TERM_WIDTHS, rest);
      if GetU64(terms[0]) == 0 then
        Err(InvalidValue("evm chain id"))
      else
        match DescriptorFrom(ids, name, symbol, terms)
        case None => Err(InvalidValue("domain status"))
        case Some(d) => var _ :- Close(rest); Ok(d)
  }

  lemma TermsBack(d: Descriptor)
    ensures DescriptorFrom(IdFields(d), d.name, d.symbol, TermFields(d)) == Some(d)
    ensures GetU64(TermFields(d)[0]) == d.evmChainId
  {
    hide PutU32, GetU32, PutU64, GetU64, PutU128, GetU128, PutU256, GetU256;
    U256Exact(d.initialSupply, PutU256(d.initialSupply));
    U256Exact(d.creationDeposit, PutU256(d.creationDeposit));
    assert StatusFrom(StatusByte(d.status)) == Some(d.status);
  }

  /** An encodable descriptor with valid names comes back unchanged. */
  lemma DescriptorDecodes(utf8: Bytes -> bool, d: Descriptor)
    requires EncodeDescriptor(d).Ok? && utf8(d.name) && utf8(d.symbol)
    ensures DecodeDescriptor(utf8, EncodeDescriptor(d).value) == Ok(d)
    ensures EncodeDescriptor(d).value != [] && |EncodeDescriptor(d).value| <= MAX_CANONICAL_OBJECT_BYTES
  {
    hide Open, ReadFields, ReadBytes, Tagged, Flatten, PutBytes, DescriptorFrom, IdFields, TermFields, PutU64, GetU64;
    var body := DescriptorBody(d);
    OpenTagged(DESCRIPTOR_TAG, body);
    var third := Flatten(TermFields(d));
    var second := PutBytes(d.symbol) + third;
    var first := PutBytes(d.name) + second;
    ReadFlattened(IdFields(d), ID_WIDTHS, first);
    ReadPutBytes("domain name", MAX_NAME, d.name, second);
    ReadPutBytes("domain symbol", MAX_SYMBOL, d.symbol, third);
    ReadFlattened(TermFields(d), TERM_WIDTHS, []);
    assert third + [] == third;
    TermsBack(d);
    TaggedNonEmpty(DESCRIPTOR_TAG, body);
  }

  lemma TaggedNonEmpty(tag: Bytes, body: Bytes)
    ensures Tagged(tag, body) != []
  {
    assert |Tagged(tag, body)| > 0;
  }

  // ----- one domain of a checkpoint -----

  datatype DomainRecord = DomainRecord(
    domainId: B256, config: DomainConfig, header: DomainHeader, blockHash: B256, stateRoot: B256,
    descriptor: Option<Descriptor>)

  const CONFIG_WIDTHS: seq<nat> := [32, 8, 4, 8, 16]
  const HASH_WIDTHS: seq<nat> := [32, 32]

  function ConfigFields(r: DomainRecord): (f: seq<Bytes>)
    ensures Fits(f, CONFIG_WIDTHS)
  {
    [r.domainId, PutU64(r.config.chainId), PutU32(r.config.protocolRevision), PutU64(r.config.gasLimit),
     PutU128(r.config.initialBaseFee)]
  }

  function DescriptorBytes(d: Option<Descriptor>): (r: Result<Bytes, CodecError>)
    ensures r.Ok? ==> |r.value| <= MAX_CANONICAL_OBJECT_BYTES
  {
    if d.None? then Ok([]) else
    DescriptorLimit(d.value);
    EncodeDescriptor(d.value)
  }

  lemma DescriptorLimit(d: Descriptor)
    ensures EncodeDescriptor(d).Ok? ==> |EncodeDescriptor(d).value| <= MAX_CANONICAL_OBJECT_BYTES
  {
    hide DescriptorBody, Tagged;
  }

  function PutDomain(r: DomainRecord): Result<Bytes, CodecError> {
    var header :- EncodeDomainHeader(r.header);
    var descriptor :- DescriptorBytes(r.descriptor);
    assert |header| <= MAX_CANONICAL_OBJECT_BYTES by { ResultFits(r.header); }
    Ok(Flatten(ConfigFields(r)) + (PutBytes(header) + (Flatten([r.blockHash, r.stateRoot]) + PutBytes(descriptor))))
  }

  function ReadDomain(utf8: Bytes -> bool, input: Bytes): Result<(DomainRecord, Bytes), CodecError> {
    var (f, rest) :- ReadFields(CONFIG_WIDTHS, input);
    var (headerBytes, rest) :- ReadBytes("header", U32_MAX, rest);
    var header :- DecodeDomainHeader(headerBytes);
    var (h, rest) :- ReadFields(HASH_WIDTHS, rest);
    var (descriptorBytes, rest) :- ReadBytes("descriptor", U32_MAX, rest);
    var descriptor :- (if descriptorBytes == [] then Ok(None) else
                       var d :- DecodeDescriptor(utf8, descriptorBytes); Ok(Some(d)));
    Ok((DomainRecord(f[0], DomainConfig(GetU64(f[1]), GetU32(f[2]), GetU64(f[3]), GetU128(f[4])), header, h[0], h[1],
        descriptor), rest))
  }

  ghost predicate ValidNames(utf8: Bytes -> bool, r: DomainRecord) {
    r.descriptor.Some? ==> utf8(r.descriptor.value.name) && utf8(r.descriptor.value.symbol)
  }

  lemma DomainDecodes(utf8: Bytes -> bool, r: DomainRecord, rest: Bytes)
    requires PutDomain(r).Ok? && ValidNames(utf8, r)
    ensures ReadDomain(utf8, PutDomain(r).value + rest) == Ok((r, rest))
  {
    hide ReadFields, ReadBytes, Flatten, PutBytes, EncodeDomainHeader, DecodeDomainHeader, EncodeDescriptor,
         DecodeDescriptor, PutU32, GetU32, PutU64, GetU64, PutU128, GetU128;
    var header := EncodeDomainHeader(r.header).value;
    var descriptor := DescriptorBytes(r.descriptor).value;
    ResultFits(r.header);
    var third := PutBytes(descriptor) + rest;
    var second := Flatten([r.blockHash, r.stateRoot]) + third;
    var first := PutBytes(header) + second;
    assert PutDomain(r).value + rest == Flatten(ConfigFields(r)) + first;
    ReadFlattened(ConfigFields(r), CONFIG_WIDTHS, first);
    ReadPutBytes("header", U32_MAX, header, second);
    DomainHeaderExact(r.header, header);
    ReadFlattened([r.blockHash, r.stateRoot], HASH_WIDTHS, third);
    ReadPutBytes("descriptor", U32_MAX, descriptor, rest);
    if r.descriptor.Some? {
      DescriptorDecodes(utf8, r.descriptor.value);
    }
  }

  function PutDomains(domains: seq<DomainRecord>): Result<Bytes, CodecError> {
    if domains == [] then
      Ok([])
    else
      var first :- PutDomain(domains[0]);
      var rest :- PutDomains(domains[1..]);
      Ok(first + rest)
  }

  function ReadDomains(utf8: Bytes -> bool, count: nat, input: Bytes): Result<(seq<DomainRecord>, Bytes), CodecError> {
    if count == 0 then
      Ok(([], input))
    else
      var (first, rest) :- ReadDomain(utf8, input);
      var (domains, left) :- ReadDomains(utf8, count - 1, rest);
      Ok(([first] + domains, left))
  }

  lemma {:induction false} DomainsDecode(utf8: Bytes -> bool, domains: seq<DomainRecord>, rest: Bytes)
    requires PutDomains(domains).Ok? && forall r | r in domains :: ValidNames(utf8, r)
    ensures ReadDomains(utf8, |domains|, PutDomains(domains).value + rest) == Ok((domains, rest))
    decreases |domains|
  {
    hide PutDomain, ReadDomain;
    if domains == [] {
      assert PutDomains(domains).value + rest == rest;
    } else {
      var tail := PutDomains(domains[1..]).value + rest;
      assert PutDomains(domains).value + rest == PutDomain(domains[0]).value + tail;
      DomainDecodes(utf8, domains[0], tail);
      DomainsDecode(utf8, domains[1..], rest);
      assert [domains[0]] + domains[1..] == domains;
    }
  }

  // ----- the checkpoint record -----

  const CHECKPOINT_TAG: Bytes := Ascii("ARBOR_DEV_CHECKPOINT_V1")
  const MAX_CHECKPOINT_DOMAINS: nat := 65_536
  const MAX_CHECKPOINT_BYTES: nat := 16 * 1024 * 1024

  const TOP_WIDTHS: seq<nat> := [32, 8, 32, 8, 32, 32, 32, 20, 32]

  datatype CheckpointRecord = CheckpointRecord(
    networkId: B256, height: u64, consensusHash: B256, timestamp: u64, validatorSetHash: B256,
    nextValidatorSetHash: B256, rootDomainId: B256, governance: Address, domainHeadsRoot: B256,
    validatorSet: ValidatorSet, finalityProof: Bytes, domains: seq<DomainRecord>)

  function TopFields(r: CheckpointRecord): (f: seq<Bytes>)
    ensures Fits(f, TOP_WIDTHS)
  {
    [r.networkId, PutU64(r.height), r.consensusHash, PutU64(r.timestamp), r.validatorSetHash, r.nextValidatorSetHash,
     r.rootDomainId, r.governance, r.domainHeadsRoot]
  }

  function CheckpointBody(r: CheckpointRecord, validatorSet: Bytes, domains: Bytes): Bytes
    requires |validatorSet| <= U32_MAX && |r.finalityProof| <= U32_MAX && |r.domains| <= U32_MAX
  {
    Flatten(TopFields(r)) + (PutBytes(validatorSet) + (PutBytes(r.finalityProof) + (PutU32(|r.domains|) + domains)))
  }

  function EncodeCheckpoint(r: CheckpointRecord): Result<Bytes, CodecError> {
    var validatorSet :- EncodeValidatorSet(r.validatorSet);
    if |r.domains| > U32_MAX || |validatorSet| > U32_MAX || |r.finalityProof| > U32_MAX then
      Err(LimitExceeded("checkpoint", U32_MAX, |r.domains|))
    else
      var domains :- PutDomains(r.domains);
      var out := Tagged(CHECKPOINT_TAG, CheckpointBody(r, validatorSet, domains));
      if |out| > MAX_CHECKPOINT_BYTES then Err(LimitExceeded("checkpoint", MAX_CHECKPOINT_BYTES, |out|)) else Ok(out)
  }

  function DecodeCheckpoint(utf8: Bytes -> bool, input: Bytes): Result<CheckpointRecord, CodecError> {
    if |input| > MAX_CHECKPOINT_BYTES then
      Err(LimitExceeded("checkpoint", MAX_CHECKPOINT_BYTES, |input|))
    else
      var body :- Open(CHECKPOINT_TAG, input);
      var (f, rest) :- ReadFields(TOP_WIDTHS, body);
      var (setBytes, rest) :- ReadBytes("validator set", U32_MAX, rest);
      var validatorSet :- DecodeValidatorSet(setBytes);
      var (proof, rest) :- ReadBytes("finality proof", U32_MAX, rest);
      var (count, rest) :- Take(rest, 4);
      if GetU32(count) == 0 || GetU32(count) > MAX_CHECKPOINT_DOMAINS then
        Err(InvalidValue("checkpoint domain count"))
      else
        var (domains, rest) :- ReadDomains(utf8, GetU32(count), rest);
        var _ :- Close(rest);
        Ok(CheckpointRecord(f[0], GetU64(f[1]), f[2], GetU64(f[3]), f[4], f[5], f[6], f[7], f[8], validatorSet, proof,
            domains))
  }

  // Every domain takes at least 256 bytes, so the byte limit is reached before the domain limit.

  lemma DomainSize(r: DomainRecord)
    requires PutDomain(r).Ok?
    ensures |PutDomain(r).value| >= 256
  {
    hide EncodeDescriptor, PutBytes;
    var header := EncodeDomainHeader(r.header).value;
    ResultFits(r.header);
    HeaderSize(r.header);
    PutSize(header);
  }

  lemma PutSize(b: Bytes)
    requires |b| <= U32_MAX
    ensures |PutBytes(b)| >= |b|
  {
  }

  lemma HeaderSize(h: DomainHeader)
    requires EncodeDomainHeader(h).Ok?
    ensures |EncodeDomainHeader(h).value| >= 256
  {
    hide PutU32, PutU64, PutU128;
    var fields := DomainFields(h);
    FlattenPart(fields, 8);
    assert fields[8] == h.logsBloom;
  }

  lemma {:induction false} FlattenPart(fields: seq<Bytes>, i: nat)
    requires i < |fields|
    ensures |Flatten(fields)| >= |fields[i]|
    decreases i
  {
    if i > 0 {
      FlattenPart(fields[1..], i - 1);
    }
  }

  lemma {:induction false} DomainsSize(domains: seq<DomainRecord>)
    requires PutDomains(domains).Ok?
    ensures |PutDomains(domains).value| >= 256 * |domains|
    decreases |domains|
  {
    hide PutDomain;
    if domains != [] {
      DomainSize(domains[0]);
      DomainsSize(domains[1..]);
    }
  }

  /** Every checkpoint that can be stored is read back exactly, whatever its number of domains. */
  lemma CheckpointDecodes(utf8: Bytes -> bool, r: CheckpointRecord)
    requires EncodeCheckpoint(r).Ok? && r.domains != [] && forall d | d in r.domains :: ValidNames(utf8, d)
    ensures DecodeCheckpoint(utf8, EncodeCheckpoint(r).value) == Ok(r)
  {
    hide Open, ReadFields, ReadBytes, ReadDomains, Tagged, Flatten, PutBytes, PutDomains, EncodeValidatorSet,
         DecodeValidatorSet, PutU64, GetU64, PutU32, GetU32, ValidNames;
    var set_ := EncodeValidatorSet(r.validatorSet).value;
    var domains := PutDomains(r.domains).value;
    var body := CheckpointBody(r, set_, domains);
    var fourth := PutU32(|r.domains|) + domains;
    var third := PutBytes(r.finalityProof) + fourth;
    var second := PutBytes(set_) + third;
    OpenTagged(CHECKPOINT_TAG, body);
    ReadFlattened(TopFields(r), TOP_WIDTHS, second);
    ReadPutBytes("validator set", U32_MAX, set_, third);
    ValidatorSetExact(r.validatorSet, set_);
    ReadPutBytes("finality proof", U32_MAX, r.finalityProof, fourth);
    assert fourth[..4] == PutU32(|r.domains|) && fourth[4..] == domains;
    DomainsDecode(utf8, r.domains, []);
    assert domains + [] == domains;
    DomainsSize(r.domains);
    BodySize(r, set_, domains);
  }

  lemma BodySize(r: CheckpointRecord, set_: Bytes, domains: Bytes)
    requires |set_| <= U32_MAX && |r.finalityProof| <= U32_MAX && |r.domains| <= U32_MAX
    ensures |Tagged(CHECKPOINT_TAG, CheckpointBody(r, set_, domains))| >= |domains|
  {
    hide Flatten, PutBytes, PutU32;
  }
}
