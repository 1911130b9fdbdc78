/** The mutable encoder and decoder of the canonical codec, run on the batch format. */
module Cursor {
  import opened Wrappers
  import opened Bytes
  import opened Layout
  import opened Canonical

  class Encoder {
    var bytes: Bytes

    constructor (tag: Bytes)
      ensures bytes == Tagged(tag, [])
    {
      bytes := tag + [CANONICAL_CODEC_VERSION];
    }

    method Raw(value: Bytes)
      modifies this
      ensures bytes == old(bytes) + value
    {
      bytes := bytes + value;
    }

    method Count(value: u32)
      modifies this
      ensures bytes == old(bytes) + PutU32(value)
    {
      bytes := bytes + PutU32(value);
    }

    method Prefixed(value: Bytes)
      requires |value| <= U32_MAX
      modifies this
      ensures bytes == old(bytes) + PutBytes(value)
    {
      Count(|value|);
      bytes := bytes + value;
      assert old(bytes) + PutU32(|value|) + value == old(bytes) + PutBytes(value);
    }
  }

  class Decoder {
    const input: Bytes
    var position: nat

    ghost predicate Valid()
      reads this
    {
      position <= |input|
    }

    /** What is still to be read. */
    function Rest(): Bytes
      requires Valid()
      reads this
    {
      input[position..]
    }

    constructor (input: Bytes)
      ensures Valid() && this.input == input && Rest() == input
    {
      this.input := input;
      position := 0;
    }

    method Next(length: nat) returns (r: Result<Bytes, CodecError>)
      requires Valid()
      modifies this
      ensures Valid()
      ensures match Take(old(Rest()), length)
              case Ok((value, rest)) => r == Ok(value) && Rest() == rest
              case Err(error) => r == Err(error) && Rest() == old(Rest())
    {
      var end := position + length;
      if end > |input| {
        return Err(UnexpectedEof);
      }
      var value := input[position..end];
      assert Rest()[..length] == value && Rest()[length..] == input[end..];
      position := end;
      return Ok(value);
    }

    method Prefixed(field: string, limit: nat) returns (r: Result<Bytes, CodecError>)
      requires Valid()
      modifies this
      ensures Valid()
      ensures match ReadBytes(field, limit, old(Rest()))
              case Ok((value, rest)) => r == Ok(value) && Rest() == rest
              case Err(error) => r == Err(error)
    {
      var length :- Next(4);
      var checked :- CheckLimit(field, GetU32(length), limit);
      r := Next(GetU32(length));
    }
  }

  /** `encode_domain_batch`: checks each envelope as it appends it. */
  method EncodeBatch(b: DomainBatch) returns (r: Result<Bytes, CodecError>)
    ensures r == EncodeDomainBatch(b)
  {
    hide Oversized, EnvelopesFit, PutBytes, PutU32;
    var counted :- CheckLimit("domain batch transactions", |b.transactions|, MAX_TRANSACTIONS_PER_BATCH);
    var out := new Encoder(DOMAIN_BATCH_TAG);
    out.Raw(b.domainId);
    out.Raw(b.parentHash);
    out.Count(|b.transactions|);
    ghost var head := out.bytes;
    for i := 0 to |b.transactions|
      invariant FittingPrefix(b.transactions, i)
      invariant out.bytes == head + PutPrefix(b.transactions, i)
    {
      var transaction := b.transactions[i];
      FitsNext(b.transactions, i);
      var sized :- CheckLimit("transaction envelope", |transaction|, MAX_TRANSACTION_ENVELOPE_BYTES);
      out.Prefixed(transaction);
    }
    AllFit(b.transactions);
    BatchParts(b, head);
    return Finish(out.bytes);
  }

  ghost predicate FittingPrefix(items: seq<Bytes>, i: nat) {
    i <= |items| && forall j | 0 <= j < i :: |items[j]| <= MAX_TRANSACTION_ENVELOPE_BYTES
  }

  /** The envelopes appended so far. */
  ghost function PutPrefix(items: seq<Bytes>, i: nat): Bytes
    requires FittingPrefix(items, i)
  {
    if i == 0 then [] else PutPrefix(items, i - 1) + PutBytes(items[i - 1])
  }

  lemma {:induction false} FitsNext(items: seq<Bytes>, i: nat)
    requires FittingPrefix(items, i) && i < |items|
    ensures |items[i]| > MAX_TRANSACTION_ENVELOPE_BYTES ==> Oversized(items) == Some(|items[i]|)
    decreases i
  {
    if i > 0 {
      assert forall j | 0 <= j < i - 1 :: items[1..][j] == items[j + 1];
      FitsNext(items[1..], i - 1);
      assert items[1..][i - 1] == items[i];
    }
  }

  lemma AllFit(items: seq<Bytes>)
    requires FittingPrefix(items, |items|)
    ensures EnvelopesFit(items) && Oversized(items).None?
  {
  }

  lemma {:induction false} PrefixIsAll(items: seq<Bytes>, i: nat)
    requires FittingPrefix(items, |items|) && i <= |items|
    ensures PutPrefix(items, i) + PutAll(items[i..]) == PutAll(items)
    decreases i
  {
    hide PutBytes;
    if i == 0 {
      assert items[0..] == items;
    } else {
      PrefixIsAll(items, i - 1);
      assert items[i - 1..][1..] == items[i..];
      assert PutPrefix(items, i - 1) + (PutBytes(items[i - 1]) + PutAll(items[i..]))
          == (PutPrefix(items, i - 1) + PutBytes(items[i - 1])) + PutAll(items[i..]);
    }
  }

  lemma BatchParts(b: DomainBatch, head: Bytes)
    requires |b.transactions| <= MAX_TRANSACTIONS_PER_BATCH && FittingPrefix(b.transactions, |b.transactions|)
    requires head == Tagged(DOMAIN_BATCH_TAG, []) + b.domainId + b.parentHash + PutU32(|b.transactions|)
    ensures EnvelopesFit(b.transactions)
    ensures head + PutPrefix(b.transactions, |b.transactions|) == Tagged(DOMAIN_BATCH_TAG, BatchBody(b))
  {
    hide PutPrefix, PutAll, PutU32;
    var items := b.transactions;
    PrefixIsAll(items, |items|);
    assert items[|items|..] == [];
    NothingLeft();
    assert PutPrefix(items, |items|) + [] == PutPrefix(items, |items|);
    var n := PutU32(|items|);
    FlattenThree(b.domainId, b.parentHash, n);
    assert head + PutAll(items) == DOMAIN_BATCH_TAG + [CANONICAL_CODEC_VERSION] +
        (b.domainId + b.parentHash + n + PutAll(items));
  }

  lemma NothingLeft()
    ensures PutAll([]) == []
  {
  }

  lemma FlattenThree(a: Bytes, b: Bytes, c: Bytes)
    ensures Flatten([a, b, c]) == a + b + c
  {
    assert [a, b, c][1..] == [b, c] && [b, c][1..] == [c] && [c][1..] == [];
    assert Flatten([c]) == c + [] == c;
    assert Flatten([b, c]) == b + Flatten([c]);
    assert a + (b + c) == a + b + c;
  }

  /** `decode_domain_batch`: a counted loop over the cursor. */
  method DecodeBatch(input: Bytes) returns (r: Result<DomainBatch, CodecError>)
    ensures r == DecodeDomainBatch(input)
  {
    hide Open, ReadBytes, Close, Fits;
    var body :- Open(DOMAIN_BATCH_TAG, input);
    var decoder := new Decoder(body);
    BatchFieldReads(body);
    var domainId :- decoder.Next(32);
    var parentHash :- decoder.Next(32);
    var countBytes :- decoder.Next(4);
    var count := GetU32(countBytes);
    var counted :- CheckLimit("domain batch transactions", count, MAX_TRANSACTIONS_PER_BATCH);
    var transactions: seq<Bytes> := [];
    ghost var all := ReadAll("transaction envelope", MAX_TRANSACTION_ENVELOPE_BYTES, count, decoder.Rest());
    assert all.Ok? ==> [] + all.value.0 == all.value.0;
    for i := 0 to count
      invariant decoder.Valid() && |transactions| == i
      invariant all ==
        Resume(transactions, ReadAll("transaction envelope", MAX_TRANSACTION_ENVELOPE_BYTES, count - i, decoder.Rest()))
    {
      ghost var before := decoder.Rest();
      ReadOneMore(transactions, count - i, before);
      var transaction :- decoder.Prefixed("transaction envelope", MAX_TRANSACTION_ENVELOPE_BYTES);
      transactions := transactions + [transaction];
    }
    assert transactions + [] == transactions;
    var closed :- Close(decoder.Rest());
    return Ok(DomainBatch(domainId, parentHash, transactions));
  }

  lemma BatchFieldReads(body: Bytes)
    ensures ReadFields(BATCH_WIDTHS, body) ==
            var a := Take(body, 32);
            if a.Err? then Err(a.error) else
            var b := Take(a.value.1, 32);
            if b.Err? then Err(b.error) else
            var c := Take(b.value.1, 4);
            if c.Err? then Err(c.error) else Ok(([a.value.0, b.value.0, c.value.0], c.value.1))
  {
    hide Take, Fits, ReadFields;
    assert BATCH_WIDTHS == [32] + [32, 4] && [32, 4] == [32] + [4] && [4] == [4] + [];
    ReadOneField(32, [32, 4], body);
    var first := Take(body, 32);
    if first.Ok? {
      ReadOneField(32, [4], first.value.1);
      var second := Take(first.value.1, 32);
      if second.Ok? {
        ReadOneField(4, [], second.value.1);
        var third := Take(second.value.1, 4);
        if third.Ok? {
          ReadNoField(third.value.1);
          assert [third.value.0] + [] == [third.value.0];
          assert [second.value.0] + [third.value.0] == [second.value.0, third.value.0];
          assert [first.value.0] + [second.value.0, third.value.0] == [first.value.0, second.value.0, third.value.0];
        }
      }
    }
  }

  lemma ReadNoField(input: Bytes)
    ensures ReadFields([], input) == Ok(([], input))
  {
  }

  lemma ReadOneField(width: nat, widths: seq<nat>, input: Bytes)
    ensures ReadFields([width] + widths, input) ==
            var first := Take(input, width);
            if first.Err? then Err(first.error) else
            var later := ReadFields(widths, first.value.1);
            if later.Err? then later else Ok(([first.value.0] + later.value.0, later.value.1))
  {
    hide Take, Fits;
    assert ([width] + widths)[1..] == widths;
  }

  ghost function Resume(done: seq<Bytes>, rest: Result<(seq<Bytes>, Bytes), CodecError>)
    : Result<(seq<Bytes>, Bytes), CodecError> {
    if rest.Ok? then Ok((done + rest.value.0, rest.value.1)) else rest
  }

  lemma ReadOneMore(done: seq<Bytes>, count: nat, input: Bytes)
    requires count > 0
    ensures var field, limit := "transaction envelope", MAX_TRANSACTION_ENVELOPE_BYTES;
            Resume(done, ReadAll(field, limit, count, input)) ==
            match ReadBytes(field, limit, input)
            case Err(e) => Err(e)
            case Ok((first, rest)) => Resume(done + [first], ReadAll(field, limit, count - 1, rest))
  {
    hide ReadBytes;
    var field, limit := "transaction envelope", MAX_TRANSACTION_ENVELOPE_BYTES;
    var first := ReadBytes(field, limit, input);
    if first.Ok? {
      var later := ReadAll(field, limit, count - 1, first.value.1);
      if later.Ok? {
        assert done + ([first.value.0] + later.value.0) == (done + [first.value.0]) + later.value.0;
      }
    }
  }
}
