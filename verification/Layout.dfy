/** The field encoder and cursor decoder under every canonical object. */
module Layout {
  import opened Wrappers
  import opened Bytes

  const MAX_CANONICAL_OBJECT_BYTES: nat := 16 * 1024 * 1024
  const CANONICAL_CODEC_VERSION: byte := 1

  datatype CodecError =
    | UnexpectedEof
    | InvalidTag
    | UnknownVersion(version: byte)
    | TrailingBytes
    | LimitExceeded(field: string, limit: nat, actual: nat)
    | InvalidValue(field: string)
    | NonCanonicalOrder(field: string)

  // ----- scalars -----

  function PutU32(n: u32): (r: Bytes)
    ensures |r| == 4 && GetU32(r) == n
  {
    Pow256Values();
    DecodeBigEndian(n, 4);
    BigEndian(n, 4)
  }

  function GetU32(b: Bytes): (r: u32)
    requires |b| == 4
    ensures BigEndian(r, 4) == b
  {
    Pow256Values();
    EncodeBigEndian(b);
    FromBigEndian(b)
  }

  function PutU64(n: u64): (r: Bytes)
    ensures |r| == 8 && GetU64(r) == n
  {
    Pow256Values();
    DecodeBigEndian(n, 8);
    BigEndian(n, 8)
  }

  function GetU64(b: Bytes): (r: u64)
    requires |b| == 8
    ensures BigEndian(r, 8) == b
  {
    Pow256Values();
    EncodeBigEndian(b);
    FromBigEndian(b)
  }

  function PutU128(n: u128): (r: Bytes)
    ensures |r| == 16 && GetU128(r) == n
  {
    Pow256Values();
    DecodeBigEndian(n, 16);
    BigEndian(n, 16)
  }

  function GetU128(b: Bytes): (r: u128)
    requires |b| == 16
    ensures BigEndian(r, 16) == b
  {
    Pow256Values();
    EncodeBigEndian(b);
    FromBigEndian(b)
  }

  // ----- runs of fixed-width fields -----

  function Flatten(fields: seq<Bytes>): Bytes {
    if fields == [] then [] else fields[0] + Flatten(fields[1..])
  }

  predicate Fits(fields: seq<Bytes>, widths: seq<nat>) {
    |fields| == |widths| && forall i | 0 <= i < |fields| :: |fields[i]| == widths[i]
  }

  /** One bounded read: `Decoder::take`. */
  function Take(input: Bytes, length: nat): (r: Result<(Bytes, Bytes), CodecError>)
    ensures r.Ok? <==> length <= |input|
    ensures r.Ok? ==> |r.value.0| == length && r.value.0 + r.value.1 == input
  {
    if length <= |input| then Ok((input[..length], input[length..])) else Err(UnexpectedEof)
  }

  /** Reads one field after the other and returns what is left. */
  function ReadFields(widths: seq<nat>, input: Bytes): (r: Result<(seq<Bytes>, Bytes), CodecError>)
    ensures r.Ok? ==> Fits(r.value.0, widths)
  {
    if widths == [] then
      Ok(([], input))
    else
      var (first, rest) :- Take(input, widths[0]);
      var (fields, left) :- ReadFields(widths[1..], rest);
      Ok(([first] + fields, left))
  }

  lemma {:induction false} ReadFlattened(fields: seq<Bytes>, widths: seq<nat>, rest: Bytes)
    requires Fits(fields, widths)
    ensures ReadFields(widths, Flatten(fields) + rest) == Ok((fields, rest))
  {
    if fields == [] {
      assert Flatten(fields) + rest == rest;
    } else {
      ReadFlattened(fields[1..], widths[1..], rest);
      var tail := Flatten(fields[1..]) + rest;
      assert Flatten(fields) + rest == fields[0] + tail;
      assert (fields[0] + tail)[..widths[0]] == fields[0];
      assert (fields[0] + tail)[widths[0]..] == tail;
      assert [fields[0]] + fields[1..] == fields;
    }
  }

  lemma {:induction false} FlattenRead(widths: seq<nat>, input: Bytes)
    requires ReadFields(widths, input).Ok?
    ensures var (fields, rest) := ReadFields(widths, input).value;
            Flatten(fields) + rest == input
  {
    if widths == [] {
      assert Flatten([]) + input == input;
    } else {
      hide Take, Flatten, Fits;
      var first := Take(input, widths[0]).value;
      var later := ReadFields(widths[1..], first.1).value;
      assert ReadFields(widths, input) == Ok(([first.0] + later.0, later.1));
      FlattenRead(widths[1..], first.1);
      FlattenCons(first.0, later.0);
      assert first.0 + (Flatten(later.0) + later.1) == (first.0 + Flatten(later.0)) + later.1;
    }
  }

  lemma FlattenCons(first: Bytes, fields: seq<Bytes>)
    ensures Flatten([first] + fields) == first + Flatten(fields)
  {
    assert ([first] + fields)[1..] == fields;
  }

  lemma {:induction false} FlattenBound(fields: seq<Bytes>, width: nat)
    requires forall f | f in fields :: |f| <= width
    ensures |Flatten(fields)| <= |fields| * width
  {
    if fields != [] {
      FlattenBound(fields[1..], width);
      assert |fields| * width == width + (|fields| - 1) * width;
    }
  }

  // ----- tagged objects -----

  function Tagged(tag: Bytes, body: Bytes): Bytes {
    tag + [CANONICAL_CODEC_VERSION] + body
  }

  function CheckLimit(field: string, actual: nat, limit: nat): Result<(), CodecError> {
    if actual > limit then Err(LimitExceeded(field, limit, actual)) else Ok(())
  }

  function Finish(encoded: Bytes): Result<Bytes, CodecError> {
    var _ :- CheckLimit("canonical object", |encoded|, MAX_CANONICAL_OBJECT_BYTES);
    Ok(encoded)
  }

  /** `Decoder::tagged`: everything after a matching tag and version. */
  function Open(tag: Bytes, input: Bytes): Result<Bytes, CodecError> {
    var _ :- CheckLimit("canonical object", |input|, MAX_CANONICAL_OBJECT_BYTES);
    var (found, rest) :- Take(input, |tag|);
    if found != tag then
      Err(InvalidTag)
    else
      var (version, body) :- Take(rest, 1);
      if version[0] != CANONICAL_CODEC_VERSION then Err(UnknownVersion(version[0])) else Ok(body)
  }

  function Close(rest: Bytes): Result<(), CodecError> {
    if rest == [] then Ok(()) else Err(TrailingBytes)
  }

  lemma OpenTagged(tag: Bytes, body: Bytes)
    requires |Tagged(tag, body)| <= MAX_CANONICAL_OBJECT_BYTES
    ensures Open(tag, Tagged(tag, body)) == Ok(body)
  {
    var encoded := Tagged(tag, body);
    assert encoded[..|tag|] == tag;
    var rest := encoded[|tag|..];
    assert rest[..1] == [CANONICAL_CODEC_VERSION] && rest[1..] == body;
  }

  lemma TaggedOpen(tag: Bytes, input: Bytes)
    requires Open(tag, input).Ok?
    ensures Tagged(tag, Open(tag, input).value) == input
    ensures |input| <= MAX_CANONICAL_OBJECT_BYTES
  {
    var (found, rest) := Take(input, |tag|).value;
    var (version, body) := Take(rest, 1).value;
    assert version == [CANONICAL_CODEC_VERSION];
    assert tag + ([CANONICAL_CODEC_VERSION] + body) == Tagged(tag, body);
  }

  /** A tagged object that is one run of fixed-width fields. */
  function EncodeRecord(tag: Bytes, fields: seq<Bytes>): Result<Bytes, CodecError> {
    Finish(Tagged(tag, Flatten(fields)))
  }

  function DecodeRecord(tag: Bytes, widths: seq<nat>, input: Bytes): (r: Result<seq<Bytes>, CodecError>)
    ensures r.Ok? ==> Fits(r.value, widths)
  {
    var body :- Open(tag, input);
    var (fields, rest) :- ReadFields(widths, body);
    var _ :- Close(rest);
    Ok(fields)
  }

  lemma RecordDecodes(tag: Bytes, widths: seq<nat>, fields: seq<Bytes>)
    requires Fits(fields, widths) && EncodeRecord(tag, fields).Ok?
    ensures DecodeRecord(tag, widths, EncodeRecord(tag, fields).value) == Ok(fields)
  {
    hide Open, ReadFields, Tagged, Flatten;
    OpenTagged(tag, Flatten(fields));
    ReadFlattened(fields, widths, []);
    assert Flatten(fields) + [] == Flatten(fields);
  }

  lemma RecordReencodes(tag: Bytes, widths: seq<nat>, input: Bytes)
    requires DecodeRecord(tag, widths, input).Ok?
    ensures EncodeRecord(tag, DecodeRecord(tag, widths, input).value) == Ok(input)
  {
    hide Open, ReadFields, Tagged, Flatten;
    TaggedOpen(tag, input);
    var body := Open(tag, input).value;
    FlattenRead(widths, body);
    var (fields, rest) := ReadFields(widths, body).value;
    assert Flatten(fields) + [] == Flatten(fields);
  }

  // ----- counted runs of equal records -----

  function FlattenAll(records: seq<seq<Bytes>>): Bytes {
    if records == [] then [] else Flatten(records[0]) + FlattenAll(records[1..])
  }

  function ReadRecords(widths: seq<nat>, count: nat, input: Bytes): (r: Result<(seq<seq<Bytes>>, Bytes), CodecError>)
    ensures r.Ok? ==> |r.value.0| == count && forall i | 0 <= i < count :: Fits(r.value.0[i], widths)
  {
    if count == 0 then
      Ok(([], input))
    else
      var (first, rest) :- ReadFields(widths, input);
      var (records, left) :- ReadRecords(widths, count - 1, rest);
      Ok(([first] + records, left))
  }

  lemma {:induction false} ReadFlattenedRecords(records: seq<seq<Bytes>>, widths: seq<nat>, rest: Bytes)
    requires forall i | 0 <= i < |records| :: Fits(records[i], widths)
    ensures ReadRecords(widths, |records|, FlattenAll(records) + rest) == Ok((records, rest))
    decreases |records|
  {
    hide ReadFields, Flatten;
    if records == [] {
      assert FlattenAll(records) + rest == rest;
    } else {
      var tail := FlattenAll(records[1..]) + rest;
      assert FlattenAll(records) + rest == Flatten(records[0]) + tail;
      ReadFlattened(records[0], widths, tail);
      ReadFlattenedRecords(records[1..], widths, rest);
      assert [records[0]] + records[1..] == records;
    }
  }

  lemma {:induction false} FlattenReadRecords(widths: seq<nat>, count: nat, input: Bytes)
    requires ReadRecords(widths, count, input).Ok?
    ensures var (records, rest) := ReadRecords(widths, count, input).value;
            FlattenAll(records) + rest == input
    decreases count
  {
    hide ReadFields, Flatten;
    if count == 0 {
      assert FlattenAll([]) + input == input;
    } else {
      FlattenRead(widths, input);
      var (first, next) := ReadFields(widths, input).value;
      FlattenReadRecords(widths, count - 1, next);
      var (records, rest) := ReadRecords(widths, count - 1, next).value;
      assert ([first] + records)[1..] == records;
      assert Flatten(first) + (FlattenAll(records) + rest) == (Flatten(first) + FlattenAll(records)) + rest;
    }
  }

  // ----- counted runs of length-prefixed byte strings -----

  function PutBytes(b: Bytes): Bytes
    requires |b| <= U32_MAX
  {
    PutU32(|b|) + b
  }

  function ReadBytes(field: string, limit: nat, input: Bytes): (r: Result<(Bytes, Bytes), CodecError>)
    ensures r.Ok? ==> |r.value.0| <= limit
  {
    var (length, rest) :- Take(input, 4);
    var _ :- CheckLimit(field, GetU32(length), limit);
    Take(rest, GetU32(length))
  }

  lemma ReadPutBytes(field: string, limit: nat, b: Bytes, rest: Bytes)
    requires |b| <= limit <= U32_MAX
    ensures ReadBytes(field, limit, PutBytes(b) + rest) == Ok((b, rest))
  {
    var input := PutBytes(b) + rest;
    assert input[..4] == PutU32(|b|);
    assert input[4..] == b + rest;
    assert (b + rest)[..|b|] == b && (b + rest)[|b|..] == rest;
  }

  lemma PutReadBytes(field: string, limit: nat, input: Bytes)
    requires limit <= U32_MAX && ReadBytes(field, limit, input).Ok?
    ensures var (b, rest) := ReadBytes(field, limit, input).value; PutBytes(b) + rest == input
  {
    var (length, next) := Take(input, 4).value;
    var (b, rest) := Take(next, GetU32(length)).value;
    assert PutU32(|b|) == length;
    assert length + (b + rest) == (length + b) + rest;
  }

  function PutAll(items: seq<Bytes>): Bytes
    requires forall i | 0 <= i < |items| :: |items[i]| <= U32_MAX
  {
    if items == [] then [] else PutBytes(items[0]) + PutAll(items[1..])
  }

  function ReadAll(field: string, limit: nat, count: nat, input: Bytes): (r: Result<(seq<Bytes>, Bytes), CodecError>)
    ensures r.Ok? ==> |r.value.0| == count && forall i | 0 <= i < count :: |r.value.0[i]| <= limit
  {
    if count == 0 then
      Ok(([], input))
    else
      var (first, rest) :- ReadBytes(field, limit, input);
      var (items, left) :- ReadAll(field, limit, count - 1, rest);
      Ok(([first] + items, left))
  }

  lemma {:induction false} ReadPutAll(field: string, limit: nat, items: seq<Bytes>, rest: Bytes)
    requires limit <= U32_MAX && forall i | 0 <= i < |items| :: |items[i]| <= limit
    ensures ReadAll(field, limit, |items|, PutAll(items) + rest) == Ok((items, rest))
    decreases |items|
  {
    hide ReadBytes, PutBytes;
    if items == [] {
      assert PutAll(items) + rest == rest;
    } else {
      var tail := PutAll(items[1..]) + rest;
      assert PutAll(items) + rest == PutBytes(items[0]) + tail;
      ReadPutBytes(field, limit, items[0], tail);
      ReadPutAll(field, limit, items[1..], rest);
      assert [items[0]] + items[1..] == items;
    }
  }

  lemma {:induction false} PutReadAll(field: string, limit: nat, count: nat, input: Bytes)
    requires limit <= U32_MAX && ReadAll(field, limit, count, input).Ok?
    ensures var (items, rest) := ReadAll(field, limit, count, input).value; PutAll(items) + rest == input
    decreases count
  {
    hide ReadBytes, PutBytes;
    if count == 0 {
      assert PutAll([]) + input == input;
    } else {
      PutReadBytes(field, limit, input);
      var (first, next) := ReadBytes(field, limit, input).value;
      PutReadAll(field, limit, count - 1, next);
      var (items, rest) := ReadAll(field, limit, count - 1, next).value;
      assert ([first] + items)[1..] == items;
      assert PutBytes(first) + (PutAll(items) + rest) == (PutBytes(first) + PutAll(items)) + rest;
    }
  }
}
