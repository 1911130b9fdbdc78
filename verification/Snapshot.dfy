/** State chunks: greedy packing of node and code records, and their decoding. */
module Snapshot {
  import opened Wrappers
  import opened Bytes
  import opened Ordered
  import opened Hashing
  import opened Layout
  import opened Canonical
  import opened Cursor

  const MAX_SNAPSHOT_CHUNK_BYTES: nat := 8 * 1024 * 1024
  const MAX_CHUNKS_PER_DOMAIN: nat := 65_536
  const CHUNK_FIXED_BYTES: nat := 22 + 1 + 32 + 4 + 4
  const CHUNK_RECORD_FIXED_BYTES: nat := 1 + 32 + 4
  const STATE_CHUNK_TAG: Bytes := Ascii("ARBOR_STATE_CHUNK_V1")
  const STATE_CHUNK_VERSION: byte := 1
  const CHUNK_NODE: byte := 1
  const CHUNK_CODE: byte := 2

  datatype SnapshotError =
    | Identity
    | Finality
    | Limit(field: string)
    | Malformed(reason: string)
    | Invalid(reason: string)
    | StateFailure
    | UnexpectedChunk
    | ChunkHash
    | ConflictingChunk
    | Incomplete

  datatype Record = Record(kind: byte, hash: B256, bytes: Bytes)

  /** The trie nodes and code bodies gathered so far. */
  datatype Stores = Stores(nodes: map<B256, Bytes>, code: map<B256, Bytes>)

  // ----- records in a chunk -----

  function RecordSize(r: Record): nat {
    CHUNK_RECORD_FIXED_BYTES + |r.bytes|
  }

  function SizeOf(records: seq<Record>): nat {
    if records == [] then 0 else RecordSize(records[0]) + SizeOf(records[1..])
  }

  predicate Encodable(records: seq<Record>) {
    |records| <= U32_MAX && forall i | 0 <= i < |records| :: |records[i].bytes| <= U32_MAX
  }

  function PutRecord(r: Record): Bytes
    requires |r.bytes| <= U32_MAX
  {
    [r.kind] + (r.hash + (PutU32(|r.bytes|) + r.bytes))
  }

  function PutRecords(records: seq<Record>): Bytes
    requires Encodable(records)
  {
    if records == [] then [] else PutRecord(records[0]) + PutRecords(records[1..])
  }

  function EncodeChunk(domain: B256, index: u32, records: seq<Record>): Bytes
    requires Encodable(records)
  {
    STATE_CHUNK_TAG + ([STATE_CHUNK_VERSION] + (domain + (PutU32(index) + (PutU32(|records|) + PutRecords(records)))))
  }

  // ----- reading a chunk -----

  /** `Cursor::take`. */
  function Cut(input: Bytes, length: nat): (r: Result<(Bytes, Bytes), SnapshotError>)
    ensures r.Ok? ==> |r.value.0| == length && r.value.0 + r.value.1 == input
  {
    if length <= |input| then Ok((input[..length], input[length..])) else Err(Malformed("truncated encoded input"))
  }

  lemma CutJoined(first: Bytes, rest: Bytes)
    ensures Cut(first + rest, |first|) == Ok((first, rest))
  {
    assert (first + rest)[..|first|] == first && (first + rest)[|first|..] == rest;
  }

  /** Tag, version and identity; what is left is the record count and the records. */
  function OpenChunk(domain: B256, index: u32, input: Bytes): Result<(u32, Bytes), SnapshotError> {
    var (tag, afterTag) :- Cut(input, |STATE_CHUNK_TAG|);
    if tag != STATE_CHUNK_TAG then Err(Malformed("encoded tag mismatch")) else
    var (version, afterVersion) :- Cut(afterTag, 1);
    if version[0] != STATE_CHUNK_VERSION then Err(Malformed("snapshot chunk identity")) else
    var (id, afterId) :- Cut(afterVersion, 32);
    if id != domain then Err(Malformed("snapshot chunk identity")) else
    var (found, afterIndex) :- Cut(afterId, 4);
    if GetU32(found) != index then Err(Malformed("snapshot chunk identity")) else
    var (count, body) :- Cut(afterIndex, 4);
    Ok((GetU32(count), body))
  }

  function ReadRecord(input: Bytes): (r: Result<(Record, Bytes), SnapshotError>) {
    var (kind, afterKind) :- Cut(input, 1);
    var (hash, afterHash) :- Cut(afterKind, 32);
    var (length, afterLength) :- Cut(afterHash, 4);
    var (bytes, rest) :- Cut(afterLength, GetU32(length));
    Ok((Record(kind[0], hash, bytes), rest))
  }

  function Held(s: Stores, kind: byte): map<B256, Bytes> {
    if kind == CHUNK_NODE then s.nodes else s.code
  }

  function WithHeld(s: Stores, kind: byte, held: map<B256, Bytes>): Stores {
    if kind == CHUNK_NODE then s.(nodes := held) else s.(code := held)
  }

  /** One record enters its map: hash, kind and freshness are checked in that order. */
  function AddRecord(k: Keccak, s: Stores, r: Record): Result<Stores, SnapshotError> {
    if k(r.bytes) != r.hash then
      Err(ChunkHash)
    else if r.kind != CHUNK_NODE && r.kind != CHUNK_CODE then
      Err(Malformed("snapshot record kind"))
    else if r.hash in Held(s, r.kind) then
      Err(Invalid("duplicate snapshot record"))
    else
      Ok(WithHeld(s, r.kind, Held(s, r.kind)[r.hash := r.bytes]))
  }

  function AddAll(k: Keccak, s: Stores, records: seq<Record>): Result<Stores, SnapshotError>
    decreases |records|
  {
    if records == [] then
      Ok(s)
    else
      var next :- AddRecord(k, s, records[0]);
      AddAll(k, next, records[1..])
  }

  function ReadRecords(k: Keccak, count: nat, input: Bytes, s: Stores): Result<(Stores, Bytes), SnapshotError>
    decreases count
  {
    if count == 0 then
      Ok((s, input))
    else
      var (r, rest) :- ReadRecord(input);
      var next :- AddRecord(k, s, r);
      ReadRecords(k, count - 1, rest, next)
  }

  /** `decode_state_chunk`. */
  function DecodeChunk(k: Keccak, domain: B256, index: u32, input: Bytes, s: Stores): Result<Stores, SnapshotError> {
    if input == [] || |input| > MAX_SNAPSHOT_CHUNK_BYTES then
      Err(Limit("snapshot chunk bytes"))
    else
      var (count, body) :- OpenChunk(domain, index, input);
      var (out, rest) :- ReadRecords(k, count, body, s);
      if rest != [] then Err(Malformed("trailing encoded bytes")) else Ok(out)
  }

  function DecodeChunks(k: Keccak, domain: B256, index: nat, chunks: seq<Bytes>, s: Stores)
    : Result<Stores, SnapshotError>
    requires index + |chunks| <= U32_MAX
    decreases |chunks|
  {
    hide DecodeChunk;
    if chunks == [] then
      Ok(s)
    else
      var next :- DecodeChunk(k, domain, index, chunks[0], s);
      DecodeChunks(k, domain, index + 1, chunks[1..], next)
  }

  // ----- packing -----

  predicate Fitting(r: Record) {
    CHUNK_FIXED_BYTES + RecordSize(r) <= MAX_SNAPSHOT_CHUNK_BYTES
  }

  /** Where the inner loop stops: records are taken while the running size stays within the limit. */
  function Fill(records: seq<Record>, from: nat, size: nat): (to: nat)
    requires from <= |records| && size <= MAX_SNAPSHOT_CHUNK_BYTES
    ensures from <= to <= |records|
    ensures size + SizeOf(records[from..to]) <= MAX_SNAPSHOT_CHUNK_BYTES
    ensures to < |records| ==> size + SizeOf(records[from..to]) + RecordSize(records[to]) > MAX_SNAPSHOT_CHUNK_BYTES
    decreases |records| - from
  {
    if from == |records| || size + RecordSize(records[from]) > MAX_SNAPSHOT_CHUNK_BYTES then
      from
    else
      var to := Fill(records, from + 1, size + RecordSize(records[from]));
      assert records[from..to][1..] == records[from + 1..to];
      to
  }

  lemma {:induction false} SizeBounds(records: seq<Record>)
    ensures |records| <= SizeOf(records)
    ensures forall i | 0 <= i < |records| :: RecordSize(records[i]) <= SizeOf(records)
  {
    if records != [] {
      SizeBounds(records[1..]);
      assert forall i | 1 <= i < |records| :: records[i] == records[1..][i - 1];
    }
  }

  lemma SmallEncodes(records: seq<Record>)
    requires CHUNK_FIXED_BYTES + SizeOf(records) <= MAX_SNAPSHOT_CHUNK_BYTES
    ensures Encodable(records)
  {
    SizeBounds(records);
    forall i | 0 <= i < |records|
      ensures |records[i].bytes| <= U32_MAX
    {
      assert RecordSize(records[i]) <= SizeOf(records);
    }
  }

  /** The outer loop of `encode_state_chunks` from one record on. */
  function Pack(domain: B256, records: seq<Record>, from: nat, index: nat): (r: Result<seq<Bytes>, SnapshotError>)
    requires from <= |records| && index <= MAX_CHUNKS_PER_DOMAIN
    ensures r.Ok? ==> 0 < |r.value| && index + |r.value| <= MAX_CHUNKS_PER_DOMAIN
    decreases |records| - from
  {
    var to := Fill(records, from, CHUNK_FIXED_BYTES);
    if to == from && from < |records| then
      Err(Limit("snapshot record bytes"))
    else
      SmallEncodes(records[from..to]);
      var chunk := EncodeChunk(domain, index, records[from..to]);
      if index + 1 > MAX_CHUNKS_PER_DOMAIN then
        Err(Limit("snapshot chunks"))
      else if to == |records| then
        Ok([chunk])
      else
        var rest :- Pack(domain, records, to, index + 1);
        Ok([chunk] + rest)
  }

  function Listed(kind: byte, m: map<B256, Bytes>, keys: seq<B256>): seq<Record>
    requires forall h | h in keys :: h in m
  {
    seq(|keys|, i requires 0 <= i < |keys| => Record(kind, keys[i], m[keys[i]]))
  }

  /** Nodes in key order, then code in key order. */
  function RecordsOf(s: Stores): seq<Record> {
    Listed(CHUNK_NODE, s.nodes, SortedKeys(s.nodes.Keys)) + Listed(CHUNK_CODE, s.code, SortedKeys(s.code.Keys))
  }

  // ----- when packing succeeds -----

  ghost predicate AllFitting(records: seq<Record>, from: nat)
  {
    forall i | from <= i < |records| :: Fitting(records[i])
  }

  lemma FittingFills(records: seq<Record>, from: nat)
    requires from < |records|
    ensures Fitting(records[from]) <==> Fill(records, from, CHUNK_FIXED_BYTES) > from
  {
  }

  lemma {:induction false} FilledFit(records: seq<Record>, from: nat, size: nat)
    requires from <= |records| && CHUNK_FIXED_BYTES <= size <= MAX_SNAPSHOT_CHUNK_BYTES
    ensures forall i | from <= i < Fill(records, from, size) :: Fitting(records[i])
    decreases |records| - from
  {
    if from < |records| && size + RecordSize(records[from]) <= MAX_SNAPSHOT_CHUNK_BYTES {
      FilledFit(records, from + 1, size + RecordSize(records[from]));
    }
  }

  /** How many chunks the greedy rule needs. */
  ghost function ChunkCount(records: seq<Record>, from: nat): nat
    requires from <= |records| && AllFitting(records, from)
    decreases |records| - from
  {
    var to := Fill(records, from, CHUNK_FIXED_BYTES);
    if to == |records| then 1 else
    FittingFills(records, from);
    1 + ChunkCount(records, to)
  }

  /** Packing fails only on a record too large for any chunk, or on more than 65,536 chunks. */
  lemma {:induction false} PackDecides(domain: B256, records: seq<Record>, from: nat, index: nat)
    requires from <= |records| && index <= MAX_CHUNKS_PER_DOMAIN
    ensures Pack(domain, records, from, index).Ok? <==>
            AllFitting(records, from) && index + ChunkCount(records, from) <= MAX_CHUNKS_PER_DOMAIN
    ensures Pack(domain, records, from, index).Ok? ==>
      |Pack(domain, records, from, index).value| == ChunkCount(records, from)
    decreases |records| - from
  {
    hide EncodeChunk, Fitting, Encodable;
    var to := Fill(records, from, CHUNK_FIXED_BYTES);
    FilledFit(records, from, CHUNK_FIXED_BYTES);
    if from < |records| {
      FittingFills(records, from);
    }
    if to > from && to < |records| && index + 1 <= MAX_CHUNKS_PER_DOMAIN {
      PackDecides(domain, records, to, index + 1);
    }
  }

  // ----- sizes -----

  lemma {:induction false} RecordsLength(records: seq<Record>)
    requires Encodable(records)
    ensures |PutRecords(records)| == SizeOf(records)
  {
    if records != [] {
      RecordsLength(records[1..]);
    }
  }

  lemma ChunkLength(domain: B256, index: u32, records: seq<Record>)
    requires Encodable(records)
    ensures |EncodeChunk(domain, index, records)| == CHUNK_FIXED_BYTES - 2 + SizeOf(records)
  {
    RecordsLength(records);
    assert |STATE_CHUNK_TAG| == 20;
  }

  /** A record alone in its chunk is refused although the chunk would be within the limit exactly when it
      leaves one of the two bytes the packer reserves in excess. */
  lemma TightRecordRefused(domain: B256, r: Record)
    requires Encodable([r])
    ensures Pack(domain, [r], 0, 0) == Err(Limit("snapshot record bytes"))
            && |EncodeChunk(domain, 0, [r])| <= MAX_SNAPSHOT_CHUNK_BYTES <==>
            RecordSize(r) == MAX_SNAPSHOT_CHUNK_BYTES - 62 || RecordSize(r) == MAX_SNAPSHOT_CHUNK_BYTES - 61
  {
    hide EncodeChunk;
    ChunkLength(domain, 0, [r]);
    assert SizeOf([r]) == RecordSize(r) + SizeOf([r][1..]);
    var to := Fill([r], 0, CHUNK_FIXED_BYTES);
    assert [r][0..0] == [] && [r][0..1] == [r];
  }

  lemma {:induction false} PackedWithin(domain: B256, records: seq<Record>, from: nat, index: nat)
    requires from <= |records| && index <= MAX_CHUNKS_PER_DOMAIN && Pack(domain, records, from, index).Ok?
    ensures forall c | c in Pack(domain, records, from, index).value :: 0 < |c| <= MAX_SNAPSHOT_CHUNK_BYTES
    decreases |records| - from
  {
    hide EncodeChunk, SizeOf, Encodable;
    var to := Fill(records, from, CHUNK_FIXED_BYTES);
    SmallEncodes(records[from..to]);
    ChunkLength(domain, index, records[from..to]);
    if to < |records| {
      PackedWithin(domain, records, to, index + 1);
    }
  }

  // ----- decoding what was packed -----

  lemma ReadPutRecord(r: Record, rest: Bytes)
    requires |r.bytes| <= U32_MAX
    ensures ReadRecord(PutRecord(r) + rest) == Ok((r, rest))
  {
    var length := PutU32(|r.bytes|);
    assert PutRecord(r) + rest == [r.kind] + (r.hash + (length + (r.bytes + rest)));
    CutJoined([r.kind], r.hash + (length + (r.bytes + rest)));
    CutJoined(r.hash, length + (r.bytes + rest));
    CutJoined(length, r.bytes + rest);
    CutJoined(r.bytes, rest);
  }

  lemma {:induction false} ReadPutRecords(k: Keccak, records: seq<Record>, s: Stores)
    requires Encodable(records)
    ensures var added := AddAll(k, s, records);
            ReadRecords(k, |records|, PutRecords(records), s) == if added.Ok? then Ok((added.value, []))
                else Err(added.error)
  {
    hide ReadRecord, PutRecord, AddRecord;
    if records != [] {
      ReadPutRecord(records[0], PutRecords(records[1..]));
      var next := AddRecord(k, s, records[0]);
      if next.Ok? {
        ReadPutRecords(k, records[1..], next.value);
      }
    }
  }

  lemma OpenEncoded(domain: B256, index: u32, records: seq<Record>)
    requires Encodable(records)
    ensures OpenChunk(domain, index, EncodeChunk(domain, index, records)) == Ok((|records|, PutRecords(records)))
  {
    hide PutRecords;
    var body := PutRecords(records);
    var count := PutU32(|records|);
    CutJoined(STATE_CHUNK_TAG, [STATE_CHUNK_VERSION] + (domain + (PutU32(index) + (count + body))));
    CutJoined([STATE_CHUNK_VERSION], domain + (PutU32(index) + (count + body)));
    CutJoined(domain, PutU32(index) + (count + body));
    CutJoined(PutU32(index), count + body);
    CutJoined(count, body);
  }

  /** Decoding an encoded chunk adds exactly its records, or fails as adding them does. */
  lemma ChunkDecodes(k: Keccak, domain: B256, index: u32, records: seq<Record>, s: Stores)
    requires CHUNK_FIXED_BYTES + SizeOf(records) <= MAX_SNAPSHOT_CHUNK_BYTES && Encodable(records)
    ensures DecodeChunk(k, domain, index, EncodeChunk(domain, index, records), s) == AddAll(k, s, records)
  {
    hide OpenChunk, EncodeChunk, ReadRecords, AddAll, Encodable, SizeOf, PutRecords;
    ChunkLength(domain, index, records);
    OpenEncoded(domain, index, records);
    ReadPutRecords(k, records, s);
  }

  lemma {:induction false} AddAllSplit(k: Keccak, s: Stores, a: seq<Record>, b: seq<Record>)
    ensures var first := AddAll(k, s, a);
            AddAll(k, s, a + b) == if first.Ok? then AddAll(k, first.value, b) else first
    decreases |a|
  {
    hide AddRecord;
    if a == [] {
      assert a + b == b;
    } else {
      assert (a + b)[0] == a[0] && (a + b)[1..] == a[1..] + b;
      var next := AddRecord(k, s, a[0]);
      if next.Ok? {
        AddAllSplit(k, next.value, a[1..], b);
      }
    }
  }

  lemma {:induction false} PackDecodes(k: Keccak, domain: B256, records: seq<Record>, from: nat, index: nat, s: Stores)
    requires from <= |records| && index <= MAX_CHUNKS_PER_DOMAIN && Pack(domain, records, from, index).Ok?
    ensures DecodeChunks(k, domain, index, Pack(domain, records, from, index).value, s) == AddAll(k, s, records[from..])
    decreases |records| - from
  {
    hide EncodeChunk, DecodeChunk, AddAll, Encodable, SizeOf;
    var to := Fill(records, from, CHUNK_FIXED_BYTES);
    var part := records[from..to];
    SmallEncodes(part);
    ChunkDecodes(k, domain, index, part, s);
    AddAllSplit(k, s, part, records[to..]);
    assert part + records[to..] == records[from..];
    var chunks := Pack(domain, records, from, index).value;
    var first := AddAll(k, s, part);
    if to == |records| {
      assert records[to..] == [];
      if first.Ok? {
        AddNone(k, first.value);
      }
      assert chunks[1..] == [];
    } else {
      assert chunks[1..] == Pack(domain, records, to, index + 1).value;
      if first.Ok? {
        PackDecodes(k, domain, records, to, index + 1, first.value);
      }
    }
  }

  lemma AddNone(k: Keccak, s: Stores)
    ensures AddAll(k, s, []) == Ok(s)
  {
  }

  // ----- both maps come back -----

  ghost predicate Addressed(k: Keccak, m: map<B256, Bytes>) {
    forall h | h in m :: k(m[h]) == h
  }

  ghost function Restricted(m: map<B256, Bytes>, keys: seq<B256>): map<B256, Bytes>
    requires forall h | h in keys :: h in m
  {
    map h | h in keys :: m[h]
  }

  lemma {:induction false} AddListed(k: Keccak, s: Stores, kind: byte, m: map<B256, Bytes>, keys: seq<B256>)
    requires kind == CHUNK_NODE || kind == CHUNK_CODE
    requires Held(s, kind) == map[] && StrictlySorted(keys) && forall h | h in keys :: h in m
    ensures var added := AddAll(k, s, Listed(kind, m, keys));
            if forall h | h in keys :: k(m[h]) == h then added == Ok(WithHeld(s, kind, Restricted(m, keys)))
            else added == Err(ChunkHash)
  {
    hide AddAll, LexLess;
    if keys == [] {
      AddNone(k, s);
      assert Restricted(m, keys) == map[];
      assert Listed(kind, m, keys) == [];
    } else {
      var n := |keys| - 1;
      var init, last := keys[..n], keys[n];
      assert keys == init + [last];
      assert Listed(kind, m, keys) == Listed(kind, m, init) + [Record(kind, last, m[last])];
      AddListed(k, s, kind, m, init);
      AddAllSplit(k, s, Listed(kind, m, init), [Record(kind, last, m[last])]);
      if forall h | h in init :: k(m[h]) == h {
        var held := WithHeld(s, kind, Restricted(m, init));
        AddOne(k, held, Record(kind, last, m[last]));
        assert last !in init by { SortedDistinct(keys); }
        assert Restricted(m, init)[last := m[last]] == Restricted(m, keys);
        assert last in keys;
      }
    }
  }

  lemma AddOne(k: Keccak, s: Stores, r: Record)
    ensures AddAll(k, s, [r]) == AddRecord(k, s, r)
  {
  }

  lemma SortedDistinct(keys: seq<B256>)
    requires StrictlySorted(keys) && keys != []
    ensures keys[|keys| - 1] !in keys[..|keys| - 1]
  {
    hide LexLess;
    var n := |keys| - 1;
    forall i | 0 <= i < n
      ensures keys[i] != keys[n]
    {
      LexIrreflexive(keys[n]);
    }
  }

  /** Adding the records of two maps to nothing gives both maps back if and only if each is keyed by
      content hash. */
  lemma RecordsRestore(k: Keccak, s: Stores)
    ensures AddAll(k, Stores(map[], map[]), RecordsOf(s)) ==
            if Addressed(k, s.nodes) && Addressed(k, s.code) then Ok(s) else Err(ChunkHash)
  {
    hide AddAll, SortedKeys, Listed, StrictlySorted;
    var nodeKeys, codeKeys := SortedKeys(s.nodes.Keys), SortedKeys(s.code.Keys);
    var empty := Stores(map[], map[]);
    AddAllSplit(k, empty, Listed(CHUNK_NODE, s.nodes, nodeKeys), Listed(CHUNK_CODE, s.code, codeKeys));
    AddListed(k, empty, CHUNK_NODE, s.nodes, nodeKeys);
    assert Restricted(s.nodes, nodeKeys) == s.nodes;
    assert Restricted(s.code, codeKeys) == s.code;
    assert (forall h | h in nodeKeys :: k(s.nodes[h]) == h) <==> Addressed(k, s.nodes);
    assert (forall h | h in codeKeys :: k(s.code[h]) == h) <==> Addressed(k, s.code);
    if Addressed(k, s.nodes) {
      AddListed(k, Stores(s.nodes, map[]), CHUNK_CODE, s.code, codeKeys);
    }
  }

  /** Every packed chunk is within 8 MiB, and decoding them in index order gives back exactly both
      maps if and only if each is keyed by content hash. */
  lemma ChunksLossless(k: Keccak, domain: B256, s: Stores)
    requires Pack(domain, RecordsOf(s), 0, 0).Ok?
    ensures var chunks := Pack(domain, RecordsOf(s), 0, 0).value;
            && (forall c | c in chunks :: 0 < |c| <= MAX_SNAPSHOT_CHUNK_BYTES)
            && DecodeChunks(k, domain, 0, chunks, Stores(map[], map[])) ==
               if Addressed(k, s.nodes) && Addressed(k, s.code) then Ok(s) else Err(ChunkHash)
  {
    hide Pack, DecodeChunks, AddAll, Addressed, RecordsOf;
    PackedWithin(domain, RecordsOf(s), 0, 0);
    PackDecodes(k, domain, RecordsOf(s), 0, 0, Stores(map[], map[]));
    RecordsRestore(k, s);
    assert RecordsOf(s)[0..] == RecordsOf(s);
  }

  // ----- the loops -----

  /** The inner loop: as many records as fit after `start`. */
  method TakeRecords(records: seq<Record>, start: nat) returns (cursor: nat)
    requires start <= |records|
    ensures cursor == Fill(records, start, CHUNK_FIXED_BYTES)
  {
    hide SizeOf;
    var size: nat := CHUNK_FIXED_BYTES;
    cursor := start;
    while cursor < |records| && size + RecordSize(records[cursor]) <= MAX_SNAPSHOT_CHUNK_BYTES
      invariant start <= cursor <= |records| && size <= MAX_SNAPSHOT_CHUNK_BYTES
      invariant Fill(records, start, CHUNK_FIXED_BYTES) == Fill(records, cursor, size)
    {
      size := size + RecordSize(records[cursor]);
      cursor := cursor + 1;
    }
  }

  /** The chunks so far, followed by what the outer loop still makes, are the whole packing. */
  ghost predicate Continues(domain: B256, records: seq<Record>, cursor: nat, chunks: seq<Bytes>)
    requires cursor <= |records| && |chunks| <= MAX_CHUNKS_PER_DOMAIN
  {
    hide Pack;
    var whole, rest := Pack(domain, records, 0, 0), Pack(domain, records, cursor, |chunks|);
    if cursor == |records| && chunks != [] then whole == Ok(chunks)
    else whole == if rest.Ok? then Ok(chunks + rest.value) else rest
  }

  lemma ContinuesFirst(domain: B256, records: seq<Record>)
    ensures Continues(domain, records, 0, [])
  {
    hide Pack;
    assert forall all: seq<Bytes> :: [] + all == all;
  }

  lemma ContinuesNext(domain: B256, records: seq<Record>, cursor: nat, chunks: seq<Bytes>, to: nat)
    requires cursor <= |records| && |chunks| < MAX_CHUNKS_PER_DOMAIN && (cursor < |records| || chunks == [])
    requires Continues(domain, records, cursor, chunks)
    requires to == Fill(records, cursor, CHUNK_FIXED_BYTES) && (to > cursor || to == |records|) &&
      Encodable(records[cursor..to])
    ensures Continues(domain, records, to, chunks + [EncodeChunk(domain, |chunks|, records[cursor..to])])
  {
    hide EncodeChunk, Encodable, Fill;
    var chunk := EncodeChunk(domain, |chunks|, records[cursor..to]);
    if to < |records| {
      var rest := Pack(domain, records, to, |chunks| + 1);
      if rest.Ok? {
        assert chunks + ([chunk] + rest.value) == (chunks + [chunk]) + rest.value;
      }
    }
  }

  /** Where the outer loop gives up, so does the packing. */
  lemma ContinuesFails(domain: B256, records: seq<Record>, cursor: nat, chunks: seq<Bytes>)
    requires cursor <= |records| && |chunks| <= MAX_CHUNKS_PER_DOMAIN && (cursor < |records| || chunks == [])
    requires Continues(domain, records, cursor, chunks)
    ensures var to := Fill(records, cursor, CHUNK_FIXED_BYTES);
            && (to == cursor < |records| ==> Pack(domain, records, 0, 0) == Err(Limit("snapshot record bytes")))
            && ((to > cursor || to == |records|) && |chunks| == MAX_CHUNKS_PER_DOMAIN ==>
                  Pack(domain, records, 0, 0) == Err(Limit("snapshot chunks")))
  {
    hide EncodeChunk, Encodable, Fill;
  }

  /** `encode_state_chunks`. */
  method EncodeStateChunks(domain: B256, nodes: map<B256, Bytes>, code: map<B256, Bytes>)
    returns (r: Result<seq<Bytes>, SnapshotError>)
    ensures r == Pack(domain, RecordsOf(Stores(nodes, code)), 0, 0)
  {
    hide EncodeChunk, RecordsOf, Encodable, Pack, Continues, SizeOf;
    var records := RecordsOf(Stores(nodes, code));
    var chunks: seq<Bytes> := [];
    var cursor: nat := 0;
    ContinuesFirst(domain, records);
    while cursor < |records| || chunks == []
      invariant cursor <= |records| && |chunks| <= MAX_CHUNKS_PER_DOMAIN
      invariant Continues(domain, records, cursor, chunks)
      decreases |records| - cursor, if chunks == [] then 1 else 0
    {
      var index, start := |chunks|, cursor;
      ContinuesFails(domain, records, start, chunks);
      cursor := TakeRecords(records, start);
      if cursor < |records| && cursor == start {
        return Err(Limit("snapshot record bytes"));
      }
      SmallEncodes(records[start..cursor]);
      if index < MAX_CHUNKS_PER_DOMAIN {
        ContinuesNext(domain, records, start, chunks, cursor);
      }
      chunks := chunks + [EncodeChunk(domain, index, records[start..cursor])];
      if |chunks| > MAX_CHUNKS_PER_DOMAIN {
        return Err(Limit("snapshot chunks"));
      }
    }
    Finished(domain, records, chunks);
    return Ok(chunks);
  }

  lemma Finished(domain: B256, records: seq<Record>, chunks: seq<Bytes>)
    requires chunks != [] && |chunks| <= MAX_CHUNKS_PER_DOMAIN && Continues(domain, records, |records|, chunks)
    ensures Pack(domain, records, 0, 0) == Ok(chunks)
  {
    hide Pack;
  }

  method NextRecord(cursor: Decoder) returns (r: Result<Record, SnapshotError>)
    requires cursor.Valid()
    modifies cursor
    ensures cursor.Valid()
    ensures match ReadRecord(old(cursor.Rest()))
            case Ok((record, rest)) => r == Ok(record) && cursor.Rest() == rest
            case Err(error) => r == Err(error)
  {
    var kind := cursor.Next(1);
    if kind.Err? { return Err(Malformed("truncated encoded input")); }
    var hash := cursor.Next(32);
    if hash.Err? { return Err(Malformed("truncated encoded input")); }
    var length := cursor.Next(4);
    if length.Err? { return Err(Malformed("truncated encoded input")); }
    var bytes := cursor.Next(GetU32(length.value));
    if bytes.Err? { return Err(Malformed("truncated encoded input")); }
    return Ok(Record(kind.value[0], hash.value, bytes.value));
  }

  lemma ReadsFirst(k: Keccak, count: nat, input: Bytes, s: Stores)
    ensures count == 0 ==> ReadRecords(k, count, input, s) == Ok((s, input))
    ensures count > 0 && ReadRecord(input).Err? ==>
              ReadRecords(k, count, input, s) == Err(ReadRecord(input).error)
    ensures count > 0 && ReadRecord(input).Ok? ==>
              var (r, rest) := ReadRecord(input).value;
              var next := AddRecord(k, s, r);
              ReadRecords(k, count, input, s) ==
              if next.Err? then Err(next.error) else ReadRecords(k, count - 1, rest, next.value)
  {
    hide ReadRecord, AddRecord;
  }

  /** `decode_state_chunk`: a cursor moves over the input while the maps grow. */
  method DecodeStateChunk(k: Keccak, domain: B256, index: u32, input: Bytes, stores: Stores)
    returns (r: Result<Stores, SnapshotError>)
    ensures r == DecodeChunk(k, domain, index, input, stores)
  {
    hide AddRecord, OpenChunk, ReadRecord, ReadRecords;
    if input == [] || |input| > MAX_SNAPSHOT_CHUNK_BYTES {
      return Err(Limit("snapshot chunk bytes"));
    }
    var header :- OpenChunk(domain, index, input);
    var cursor := new Decoder(header.1);
    var s := stores;
    ghost var whole := ReadRecords(k, header.0, header.1, stores);
    for i := 0 to header.0
      invariant cursor.Valid() && cursor.input == header.1
      invariant ReadRecords(k, header.0 - i, cursor.Rest(), s) == whole
    {
      ReadsFirst(k, header.0 - i, cursor.Rest(), s);
      var record :- NextRecord(cursor);
      s :- AddRecord(k, s, record);
    }
    ReadsFirst(k, 0, cursor.Rest(), s);
    if cursor.Rest() != [] {
      return Err(Malformed("trailing encoded bytes"));
    }
    return Ok(s);
  }
}
