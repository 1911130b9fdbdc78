/** Nibble paths and their hex-prefix form (Yellow Paper, Appendix C). */
module HexPrefix {
  import opened Wrappers
  import opened Bytes
  import opened Rlp

  const SECURE_KEY_NIBBLES: nat := 64

  function Join(high: int, low: int): (r: byte)
    requires 0 <= high < 16 && 0 <= low < 16
    ensures r / 16 == high && r % 16 == low
  {
    high * 16 + low
  }

  function Unpack(bytes: Bytes): (r: Nibbles)
    ensures |r| == 2 * |bytes|
  {
    if bytes == [] then [] else [bytes[0] / 16, bytes[0] % 16] + Unpack(bytes[1..])
  }

  function Pack(path: Nibbles): (r: Bytes)
    requires |path| % 2 == 0
    ensures |r| == |path| / 2
  {
    if path == [] then [] else [Join(path[0], path[1])] + Pack(path[2..])
  }

  lemma {:induction false} UnpackPack(path: Nibbles)
    requires |path| % 2 == 0
    ensures Unpack(Pack(path)) == path
  {
    if path != [] {
      UnpackPack(path[2..]);
      assert Pack(path)[1..] == Pack(path[2..]);
      assert path == [path[0], path[1]] + path[2..];
    }
  }

  lemma {:induction false} PackUnpack(bytes: Bytes)
    ensures Pack(Unpack(bytes)) == bytes
  {
    if bytes != [] {
      PackUnpack(bytes[1..]);
      assert Unpack(bytes)[2..] == Unpack(bytes[1..]);
    }
  }

  lemma {:induction false} UnpackAt(bytes: Bytes, i: nat)
    requires i < |bytes|
    ensures Unpack(bytes)[2 * i] == bytes[i] / 16
    ensures Unpack(bytes)[2 * i + 1] == bytes[i] % 16
  {
    if i > 0 {
      UnpackAt(bytes[1..], i - 1);
    }
  }

  lemma {:induction false} UnpackPrefix(a: Bytes, b: Bytes, i: nat)
    requires i <= |a| && i <= |b| && a[..i] == b[..i]
    ensures Unpack(a)[..2 * i] == Unpack(b)[..2 * i]
  {
    if i > 0 {
      assert a[0] == a[..i][0] == b[..i][0] == b[0];
      assert a[1..][..i - 1] == a[..i][1..] == b[..i][1..] == b[1..][..i - 1];
      UnpackPrefix(a[1..], b[1..], i - 1);
      assert Unpack(a)[..2 * i] == [a[0] / 16, a[0] % 16] + Unpack(a[1..])[..2 * (i - 1)];
      assert Unpack(b)[..2 * i] == [b[0] / 16, b[0] % 16] + Unpack(b[1..])[..2 * (i - 1)];
    }
  }

  /** Byte order of keys is nibble order of their paths. */
  lemma UnpackKeepsOrder(a: Bytes, b: Bytes)
    requires LexLess(a, b)
    ensures LexLess(Unpack(a), Unpack(b))
  {
    var i :| 0 <= i < |a| && i < |b| && a[..i] == b[..i] && a[i] < b[i];
    UnpackPrefix(a, b, i);
    UnpackAt(a, i);
    UnpackAt(b, i);
    NibbleOrder(Unpack(a), Unpack(b), 2 * i);
  }

  lemma NibbleOrder(x: Nibbles, y: Nibbles, i: nat)
    requires i + 1 < |x| && i + 1 < |y| && x[..i] == y[..i]
    requires Join(x[i], x[i + 1]) < Join(y[i], y[i + 1])
    ensures LexLess(x, y)
  {
    if x[i] == y[i] {
      assert x[..i + 1] == x[..i] + [x[i]] == y[..i] + [y[i]] == y[..i + 1];
      assert x[i + 1] < y[i + 1];
    } else {
      assert x[i] < y[i];
    }
  }

  /** `pack_nibbles`: only a full 64-nibble path is a secure key. */
  function PackKey(path: Nibbles): Result<B256, StateError> {
    if |path| != SECURE_KEY_NIBBLES then
      Err(InvalidPath("leaf is not a full secure key"))
    else
      Ok(Pack(path))
  }

  /** Path bytes after the flag: the odd nibble rides in the first byte. */
  function CompactEncode(path: Nibbles, leaf: bool): (r: Bytes)
    ensures |r| == |path| / 2 + 1
  {
    var flag := if leaf then 2 else 0;
    if |path| % 2 == 1 then
      [Join(flag + 1, path[0])] + Pack(path[1..])
    else
      [Join(flag, 0)] + Pack(path)
  }

  function CompactDecode(bytes: Bytes): Result<(Nibbles, bool), StateError> {
    if bytes == [] then
      Err(InvalidPath("empty compact path"))
    else
      var flag := bytes[0] / 16;
      if flag > 3 then
        Err(InvalidPath("compact flag"))
      else if flag % 2 == 0 && bytes[0] % 16 != 0 then
        Err(InvalidPath("non-canonical compact padding"))
      else
        Ok(((if flag % 2 == 1 then [bytes[0] % 16] else []) + Unpack(bytes[1..]), flag >= 2))
  }

  /** Every path and flag survive encoding. */
  lemma DecodeCompact(path: Nibbles, leaf: bool)
    ensures CompactDecode(CompactEncode(path, leaf)) == Ok((path, leaf))
  {
    var flag := if leaf then 2 else 0;
    if |path| % 2 == 1 {
      UnpackPack(path[1..]);
      DecodeFlagged(Join(flag + 1, path[0]), Pack(path[1..]));
      assert path == [path[0]] + path[1..];
    } else {
      UnpackPack(path);
      DecodeFlagged(Join(flag, 0), Pack(path));
      assert [] + path == path;
    }
  }

  lemma DecodeFlagged(first: byte, rest: Bytes)
    requires first < 64
    requires first / 16 % 2 == 0 ==> first % 16 == 0
    ensures CompactDecode([first] + rest)
         == Ok(((if first / 16 % 2 == 1 then [first % 16] else []) + Unpack(rest), first / 16 >= 2))
  {
    assert ([first] + rest)[1..] == rest;
  }

  /** The decoder accepts exactly the encoder's output. */
  lemma EncodeCompact(bytes: Bytes)
    ensures CompactDecode(bytes).Ok? <==>
            exists path: Nibbles, leaf: bool :: bytes == CompactEncode(path, leaf)
    ensures CompactDecode(bytes).Ok? ==>
              bytes == CompactEncode(CompactDecode(bytes).value.0, CompactDecode(bytes).value.1)
  {
    if CompactDecode(bytes).Ok? {
      var (path, leaf) := CompactDecode(bytes).value;
      PackUnpack(bytes[1..]);
      if bytes[0] / 16 % 2 == 1 {
        assert path[1..] == Unpack(bytes[1..]);
      } else {
        assert path == Unpack(bytes[1..]);
      }
      assert bytes == [bytes[0]] + bytes[1..];
      assert bytes == CompactEncode(path, leaf);
    } else if path: Nibbles, leaf: bool :| bytes == CompactEncode(path, leaf) {
      DecodeCompact(path, leaf);
    }
  }

  /** `compact_encode`: a loop that packs two nibbles a round. */
  method CompactEncodeLoop(path: Nibbles, leaf: bool) returns (out: Bytes)
    ensures out == CompactEncode(path, leaf)
  {
    hide Pack, CompactEncode, Join;
    var odd := |path| % 2 == 1;
    var flag := if leaf then 2 else 0;
    var index := if odd then 1 else 0;
    out := if odd then [Join(flag + 1, path[0])] else [Join(flag, 0)];
    ghost var goal := CompactEncode(path, leaf);
    ghost var pairs := CompactStart(path, leaf, out, index);
    while index < |path|
      invariant pairs >= 0 && |path| == index + 2 * pairs
      invariant |path[index..]| % 2 == 0
      invariant goal == out + Pack(path[index..])
      decreases pairs
    {
      PackStep(path, index, pairs);
      var pair := Join(path[index], path[index + 1]);
      assert out + ([pair] + Pack(path[index + 2..])) == (out + [pair]) + Pack(path[index + 2..]);
      out := out + [pair];
      index := index + 2;
      pairs := pairs - 1;
    }
    PackNothing(path[index..]);
    assert out + [] == out;
  }

  lemma CompactStart(path: Nibbles, leaf: bool, out: Bytes, index: nat) returns (pairs: nat)
    requires index == |path| % 2
    requires out == var flag := if leaf then 2 else 0; if index == 1 then [Join(flag + 1, path[0])] else [Join(flag, 0)]
    ensures |path| == index + 2 * pairs && |path[index..]| % 2 == 0
    ensures CompactEncode(path, leaf) == out + Pack(path[index..])
  {
    pairs := |path| / 2;
    assert path[0..] == path;
  }

  lemma PackNothing(path: Nibbles)
    requires path == []
    ensures Pack(path) == []
  {
  }

  lemma PackStep(path: Nibbles, index: nat, pairs: nat)
    requires 0 < pairs && |path| == index + 2 * pairs
    ensures |path[index..]| % 2 == 0 && |path[index + 2..]| % 2 == 0
    ensures Pack(path[index..]) == [Join(path[index], path[index + 1])] + Pack(path[index + 2..])
  {
    assert path[index..][2..] == path[index + 2..];
  }

  /** `compact_decode`: a loop that pushes two nibbles per byte. */
  method CompactDecodeLoop(bytes: Bytes) returns (r: Result<(Nibbles, bool), StateError>)
    ensures r == CompactDecode(bytes)
  {
    if bytes == [] {
      return Err(InvalidPath("empty compact path"));
    }
    var flag := bytes[0] / 16;
    if flag > 3 {
      return Err(InvalidPath("compact flag"));
    }
    var odd := flag % 2 == 1;
    if !odd && bytes[0] % 16 != 0 {
      return Err(InvalidPath("non-canonical compact padding"));
    }
    var path: Nibbles := if odd then [bytes[0] % 16] else [];
    ghost var goal := path + Unpack(bytes[1..]);
    for i := 1 to |bytes|
      invariant goal == path + Unpack(bytes[i..])
    {
      var high, low := bytes[i] / 16, bytes[i] % 16;
      assert bytes[i..][1..] == bytes[i + 1..];
      assert path + ([high, low] + Unpack(bytes[i + 1..])) == path + [high] + [low] + Unpack(bytes[i + 1..]);
      path := path + [high];
      path := path + [low];
    }
    assert path + [] == path;
    return Ok((path, flag >= 2));
  }
}
