/** The RLP subset of trie nodes: byte strings, lists, and the strict decoder (Yellow Paper, Appendix B). */
module Rlp {
  import opened Wrappers
  import opened Bytes

  datatype StateError =
    | MissingNode(hash: B256)
    | NodeHashMismatch(expected: B256, actual: B256)
    | MalformedRlp(what: string)
    | InvalidPath(what: string)
    | LimitExceeded(what: string)

  datatype Kind = Str | List
  datatype Item = Item(kind: Kind, raw: Bytes, payload: Bytes)

  /** No Rust byte vector is longer than `isize::MAX`. */
  const MAX_VECTOR: nat := 0x7FFF_FFFF_FFFF_FFFF

  /** Big-endian bytes without leading zeros. */
  function Minimal(n: nat): Bytes {
    if n == 0 then [] else Minimal(n / 256) + [n % 256]
  }

  function Header(short: int, length: nat): (r: Bytes)
    requires short == 0x80 || short == 0xC0
    requires length <= U64_MAX
    ensures 1 <= |r| <= 9
  {
    if length < 56 then
      [short + length]
    else
      MinimalShape(length);
      [short + 55 + |Minimal(length)|] + Minimal(length)
  }

  function EncodeBytes(b: Bytes): (r: Bytes)
    requires |b| <= U64_MAX
    ensures |b| <= |r| <= |b| + 9 && |r| >= 1
  {
    if |b| == 1 && b[0] < 0x80 then b else Header(0x80, |b|) + b
  }

  function EncodePayload(payload: Bytes): (r: Bytes)
    requires |payload| <= U64_MAX
    ensures |payload| < |r| && r[0] >= 0xC0
  {
    Header(0xC0, |payload|) + payload
  }

  lemma {:induction false} MinimalShape(n: nat)
    requires n <= U64_MAX
    ensures FromBigEndian(Minimal(n)) == n
    ensures |Minimal(n)| <= 8
    ensures n > 0 ==> |Minimal(n)| > 0 && Minimal(n)[0] != 0
  {
    Pow256Values();
    MinimalShapeWithin(n, 8);
  }

  lemma {:induction false} MinimalShapeWithin(n: nat, width: nat)
    requires n < Pow256(width)
    ensures FromBigEndian(Minimal(n)) == n
    ensures |Minimal(n)| <= width
    ensures n > 0 ==> |Minimal(n)| > 0 && Minimal(n)[0] != 0
    decreases width
  {
    if n > 0 {
      MinimalShapeWithin(n / 256, width - 1);
      var s := Minimal(n);
      assert s[..|s| - 1] == Minimal(n / 256);
    }
  }

  /** The payload length that follows a long-form prefix byte. */
  function DecodeLength(input: Bytes, lengthBytes: nat): Result<nat, StateError>
    requires 1 <= lengthBytes <= 8
  {
    if |input| < 1 + lengthBytes then
      Err(MalformedRlp("truncated length"))
    else if input[1] == 0 then
      Err(MalformedRlp("non-canonical length"))
    else
      Ok(FromBigEndian(input[1..1 + lengthBytes]))
  }

  /** The bounded accumulation of `decode_rlp_length`: no partial value overflows 64 bits. */
  method AccumulateLength(bytes: Bytes) returns (length: nat)
    requires |bytes| <= 8
    ensures length == FromBigEndian(bytes) && length <= U64_MAX
  {
    length := 0;
    for i := 0 to |bytes|
      invariant length == FromBigEndian(bytes[..i]) && length < Pow256(i)
    {
      assert bytes[..i + 1][..i] == bytes[..i];
      length := length * 256 + bytes[i];
    }
    assert bytes[..|bytes|] == bytes;
    EncodeBigEndian(bytes);
    Pow256Values();
    Pow256Monotone(|bytes|, 8);
  }

  lemma {:induction false} Pow256Monotone(a: nat, b: nat)
    requires a <= b
    ensures Pow256(a) <= Pow256(b)
  {
    if a < b {
      Pow256Monotone(a, b - 1);
    }
  }

  /** Where the payload of the first item starts and how long it claims to be. */
  function Frame(input: Bytes): (r: Result<(Kind, nat, nat), StateError>)
    requires |input| > 0
    ensures r.Ok? ==> r.value.1 + r.value.2 > 0
    ensures r.Ok? && r.value.0 == List ==> r.value.1 > 0
  {
    var first := input[0];
    if first <= 0x7F then
      Ok((Str, 0, 1))
    else if first <= 0xB7 then
      Ok((Str, 1, first - 0x80))
    else if first <= 0xBF then
      var length :- DecodeLength(input, first - 0xB7);
      if length < 56 then Err(MalformedRlp("non-minimal long string"))
      else Ok((Str, 1 + (first - 0xB7), length))
    else if first <= 0xF7 then
      Ok((List, 1, first - 0xC0))
    else
      var length :- DecodeLength(input, first - 0xF7);
      if length < 56 then Err(MalformedRlp("non-minimal long list"))
      else Ok((List, 1 + (first - 0xF7), length))
  }

  /** Decodes the first item of `input`; what follows it is not looked at. */
  function DecodeItem(input: Bytes): (r: Result<Item, StateError>)
    ensures r.Ok? ==> 0 < |r.value.raw| <= |input|
    ensures r.Ok? && r.value.kind == List ==> |r.value.payload| < |r.value.raw|
  {
    if input == [] then
      Err(MalformedRlp("truncated item"))
    else
      var (kind, offset, length) :- Frame(input);
      var end := offset + length;
      if end > U64_MAX then
        Err(MalformedRlp("length overflow"))
      else if end > |input| then
        Err(MalformedRlp("truncated payload"))
      else
        var payload := input[..end][offset..];
        if input[0] == 0x81 && payload != [] && payload[0] < 0x80 then
          Err(MalformedRlp("non-minimal single byte"))
        else
          Ok(Item(kind, input[..end], payload))
  }

  /** All items of a list payload. */
  function DecodeItems(payload: Bytes): (r: Result<seq<Item>, StateError>)
    ensures r.Ok? ==> forall i | 0 <= i < |r.value| :: |r.value[i].raw| <= |payload|
    decreases |payload|
  {
    if payload == [] then
      Ok([])
    else
      var item :- DecodeItem(payload);
      var rest :- DecodeItems(payload[|item.raw|..]);
      Ok([item] + rest)
  }

  function DecodeList(input: Bytes): (r: Result<seq<Item>, StateError>)
    ensures r.Ok? ==> forall i | 0 <= i < |r.value| :: |r.value[i].raw| < |input|
  {
    var top :- DecodeItem(input);
    if top.kind != List || |top.raw| != |input| then
      Err(MalformedRlp("expected one exact list"))
    else
      DecodeItems(top.payload)
  }

  /** `decode_rlp_list`: a loop that consumes `remaining` from the front. */
  method DecodeListLoop(input: Bytes) returns (r: Result<seq<Item>, StateError>)
    ensures r == DecodeList(input)
  {
    var top :- DecodeItem(input);
    if top.kind != List || |top.raw| != |input| {
      return Err(MalformedRlp("expected one exact list"));
    }
    var fields := [];
    var remaining := top.payload;
    assert Prepend([], DecodeItems(remaining)) == DecodeItems(remaining) by {
      if DecodeItems(remaining).Ok? {
        assert [] + DecodeItems(remaining).value == DecodeItems(remaining).value;
      }
    }
    while remaining != []
      invariant DecodeItems(top.payload) == Prepend(fields, DecodeItems(remaining))
      decreases |remaining|
    {
      var item :- DecodeItem(remaining);
      PrependStep(fields, item, DecodeItems(remaining[|item.raw|..]));
      fields := fields + [item];
      remaining := remaining[|item.raw|..];
    }
    assert fields + [] == fields;
    return Ok(fields);
  }

  ghost function Prepend(done: seq<Item>, rest: Result<seq<Item>, StateError>): Result<seq<Item>, StateError> {
    if rest.Ok? then Ok(done + rest.value) else rest
  }

  lemma PrependStep(done: seq<Item>, item: Item, rest: Result<seq<Item>, StateError>)
    ensures Prepend(done, Prepend([item], rest)) == Prepend(done + [item], rest)
  {
    if rest.Ok? {
      assert done + ([item] + rest.value) == (done + [item]) + rest.value;
    }
  }

  /** Decoding an encoded byte string gives it back, whatever follows. */
  lemma DecodeEncodedBytes(b: Bytes, rest: Bytes)
    requires |b| <= MAX_VECTOR
    ensures DecodeItem(EncodeBytes(b) + rest) == Ok(Item(Str, EncodeBytes(b), b))
  {
    var e := EncodeBytes(b);
    if !(|b| == 1 && b[0] < 0x80) {
      FrameOfHeader(0x80, b, rest);
    }
    assert (e + rest)[..|e|] == e;
  }

  /** Decoding an encoded list frame gives back its payload, whatever follows. */
  lemma DecodeEncodedPayload(p: Bytes, rest: Bytes)
    requires |p| <= MAX_VECTOR + 100
    ensures DecodeItem(EncodePayload(p) + rest) == Ok(Item(List, EncodePayload(p), p))
  {
    var e := EncodePayload(p);
    FrameOfHeader(0xC0, p, rest);
    assert (e + rest)[..|e|] == e;
  }

  lemma FrameOfHeader(short: int, body: Bytes, rest: Bytes)
    requires short == 0x80 || short == 0xC0
    requires |body| <= U64_MAX
    ensures var h := Header(short, |body|);
            Frame(h + body + rest) == Ok((if short == 0x80 then Str else List, |h|, |body|))
  {
    var h := Header(short, |body|);
    var input := h + body + rest;
    assert input[0] == h[0];
    if |body| >= 56 {
      MinimalShape(|body|);
      var m := Minimal(|body|);
      assert |m| >= 1 && h == [short + 55 + |m|] + m;
      assert input[1..1 + |m|] == h[1..] == m;
      assert input[1] == m[0];
      assert DecodeLength(input, |m|) == Ok(|body|);
    }
  }
}
