/** Trie nodes, their RLP form, and the strict one-level node decoder (Yellow Paper, Appendix D). */
module TrieNode {
  import opened Wrappers
  import opened Bytes
  import opened Hashing
  import opened Rlp
  import opened HexPrefix

  datatype Node =
    | Leaf(path: Nibbles, value: Bytes)
    | Extension(path: Nibbles, child: Node)
    | Branch(children: seq<Option<Node>>)

  predicate WellFormed(n: Node) {
    match n
    case Leaf(path, value) => |path| <= SECURE_KEY_NIBBLES && |value| <= MAX_VECTOR
    case Extension(path, child) => 0 < |path| <= SECURE_KEY_NIBBLES && WellFormed(child)
    case Branch(children) => |children| == 16 && forall i | 0 <= i < 16 :: WellFormedChild(children[i])
  }

  predicate WellFormedAll(children: seq<Option<Node>>) {
    forall i | 0 <= i < |children| :: WellFormedChild(children[i])
  }

  predicate WellFormedChild(child: Option<Node>) {
    child.Some? ==> WellFormed(child.value)
  }

  /** The value stored under a path, read off the tree. */
  function Get(n: Node, path: Nibbles): Option<Bytes>
    requires WellFormed(n)
  {
    match n
    case Leaf(p, value) => if p == path then Some(value) else None
    case Extension(p, child) => if p <= path then Get(child, path[|p|..]) else None
    case Branch(children) =>
      if path == [] then None else
      var child := children[path[0]];
      assert WellFormedChild(child);
      GetChild(child, path[1..])
  }

  function GetChild(child: Option<Node>, path: Nibbles): Option<Bytes>
    requires WellFormedChild(child)
  {
    if child.None? then None else Get(child.value, path)
  }

  /** How a parent refers to a child: short encodings inline, longer ones by hash. */
  function Reference(k: Keccak, encoded: Bytes): (r: Bytes)
    ensures |r| <= 33
  {
    if |encoded| < 32 then encoded else EncodeBytes(k(encoded))
  }

  function Encode(k: Keccak, n: Node): (r: Bytes)
    requires WellFormed(n)
    ensures r != []
    decreases n, 1
  {
    EncodePayload(Payload(k, n))
  }

  function Payload(k: Keccak, n: Node): (r: Bytes)
    requires WellFormed(n)
    ensures |r| <= MAX_VECTOR + 100
    decreases n, 0
  {
    match n
    case Leaf(path, value) => EncodeBytes(CompactEncode(path, true)) + EncodeBytes(value)
    case Extension(path, child) => EncodeBytes(CompactEncode(path, false)) + Reference(k, Encode(k, child))
    case Branch(children) => ChildrenBytes(k, children) + EncodeBytes([])
  }

  function ChildrenBytes(k: Keccak, children: seq<Option<Node>>): (r: Bytes)
    requires WellFormedAll(children)
    ensures |r| <= 33 * |children|
    decreases children, 0
  {
    if children == [] then [] else ChildBytes(k, children[0]) + ChildrenBytes(k, children[1..])
  }

  function ChildBytes(k: Keccak, child: Option<Node>): (r: Bytes)
    requires WellFormedChild(child)
    ensures |r| <= 33
    decreases child, 2
  {
    if child.None? then EncodeBytes([]) else Reference(k, Encode(k, child.value))
  }

  datatype ChildReference = Hash(hash: B256) | Embedded(encoded: Bytes)

  datatype DecodedNode =
    | DecodedLeaf(path: Nibbles, value: Bytes)
    | DecodedExtension(path: Nibbles, child: ChildReference)
    | DecodedBranch(children: seq<Option<ChildReference>>)

  function DecodeChild(item: Item): Result<Option<ChildReference>, StateError> {
    if item.kind == List then
      if |item.raw| >= 32 then Err(InvalidPath("oversized embedded node")) else Ok(Some(Embedded(item.raw)))
    else if item.payload == [] then
      Ok(None)
    else if |item.payload| == 32 then
      Ok(Some(Hash(item.payload)))
    else
      Err(InvalidPath("invalid child reference"))
  }

  function DecodeChildren(items: seq<Item>): (r: Result<seq<Option<ChildReference>>, StateError>)
    ensures r.Ok? ==> |r.value| == |items|
    ensures r.Ok? ==> forall i | 0 <= i < |items| :: r.value[i].Some? && r.value[i].value.Embedded? ==>
                                                     r.value[i].value.encoded == items[i].raw
  {
    if items == [] then
      Ok([])
    else
      var child :- DecodeChild(items[0]);
      var rest :- DecodeChildren(items[1..]);
      Ok([child] + rest)
  }

  /** `decode_node`; `emptyPaths` lifts its refusal of empty leaf and extension paths. */
  function DecodeNodeWith(encoded: Bytes, emptyPaths: bool): (r: Result<DecodedNode, StateError>)
    ensures r.Ok? ==> encoded != []
    ensures r.Ok? && !r.value.DecodedBranch? && !emptyPaths ==> r.value.path != []
    ensures r.Ok? && r.value.DecodedExtension? && r.value.child.Embedded? ==> |r.value.child.encoded| < |encoded|
    ensures r.Ok? && r.value.DecodedBranch? ==>
              && |r.value.children| == 16
              && forall i | 0 <= i < 16 :: r.value.children[i].Some? && r.value.children[i].value.Embedded? ==>
                                           |r.value.children[i].value.encoded| < |encoded|
  {
    var fields :- DecodeList(encoded);
    if |fields| == 2 then
      if fields[0].kind != Str then
        Err(MalformedRlp("compact path type"))
      else
        var (path, leaf) :- CompactDecode(fields[0].payload);
        if path == [] && !emptyPaths then
          Err(InvalidPath("empty leaf/extension path"))
        else if leaf then
          if fields[1].kind != Str then Err(MalformedRlp("leaf value type"))
          else Ok(DecodedLeaf(path, fields[1].payload))
        else
          var child :- DecodeChild(fields[1]);
          if child.None? then Err(InvalidPath("empty extension")) else Ok(DecodedExtension(path, child.value))
    else if |fields| == 17 then
      if fields[16].kind != Str || fields[16].payload != [] then
        Err(InvalidPath("secure branch value must be empty"))
      else
        var children :- DecodeChildren(fields[..16]);
        Ok(DecodedBranch(children))
    else
      Err(MalformedRlp("node arity"))
  }

  function DecodeNode(encoded: Bytes): (r: Result<DecodedNode, StateError>)
    ensures r.Ok? ==> encoded != []
    ensures r.Ok? && !r.value.DecodedBranch? ==> r.value.path != []
    ensures r.Ok? && r.value.DecodedBranch? ==> |r.value.children| == 16
  {
    DecodeNodeWith(encoded, false)
  }

  function ReferenceTo(k: Keccak, n: Node): ChildReference
    requires WellFormed(n)
  {
    var e := Encode(k, n);
    if |e| < 32 then Embedded(e) else Hash(k(e))
  }

  function ReferencesTo(k: Keccak, children: seq<Option<Node>>): (r: seq<Option<ChildReference>>)
    requires WellFormedAll(children)
    ensures |r| == |children|
  {
    seq(|children|, i requires 0 <= i < |children| => ReferenceToChild(k, children[i]))
  }

  function ReferenceToChild(k: Keccak, child: Option<Node>): Option<ChildReference>
    requires WellFormedChild(child)
  {
    if child.Some? then Some(ReferenceTo(k, child.value)) else None
  }

  /** One level of a node, children replaced by references. */
  function Shallow(k: Keccak, n: Node): DecodedNode
    requires WellFormed(n)
  {
    match n
    case Leaf(path, value) => DecodedLeaf(path, value)
    case Extension(path, child) => DecodedExtension(path, ReferenceTo(k, child))
    case Branch(children) => DecodedBranch(ReferencesTo(k, children))
  }

  // ----- decoding an encoded node -----

  lemma DecodeItemsStep(e: Bytes, rest: Bytes, item: Item)
    requires DecodeItem(e + rest) == Ok(item) && item.raw == e
    ensures DecodeItems(e + rest) == Prepend([item], DecodeItems(rest))
  {
    assert (e + rest)[|e|..] == rest;
  }

  lemma DecodeNoItems()
    ensures DecodeItems([]) == Ok([])
  {
  }

  lemma DecodeExactList(payload: Bytes)
    requires |payload| <= MAX_VECTOR + 100
    ensures DecodeList(EncodePayload(payload)) == DecodeItems(payload)
  {
    hide DecodeItem, DecodeItems, EncodePayload;
    DecodeEncodedPayload(payload, []);
    assert EncodePayload(payload) + [] == EncodePayload(payload);
  }

  ghost function ReferenceItem(k: Keccak, n: Node): Item
    requires WellFormed(n)
  {
    var e := Encode(k, n);
    if |e| < 32 then Item(List, e, Payload(k, n)) else Item(Str, EncodeBytes(k(e)), k(e))
  }

  lemma DecodeReference(k: Keccak, n: Node, rest: Bytes)
    requires WellFormed(n)
    ensures DecodeItem(Reference(k, Encode(k, n)) + rest) == Ok(ReferenceItem(k, n))
    ensures ReferenceItem(k, n).raw == Reference(k, Encode(k, n))
    ensures DecodeChild(ReferenceItem(k, n)) == Ok(Some(ReferenceTo(k, n)))
  {
    var e := Encode(k, n);
    if |e| < 32 {
      DecodeEncodedPayload(Payload(k, n), rest);
    } else {
      DecodeEncodedBytes(k(e), rest);
    }
  }

  lemma DecodePair(first: Bytes, e: Bytes, item: Item)
    requires |first| <= MAX_VECTOR
    requires DecodeItem(e + []) == Ok(item) && item.raw == e
    ensures DecodeItems(EncodeBytes(first) + e) == Ok([Item(Str, EncodeBytes(first), first), item])
  {
    hide DecodeItem, EncodeBytes;
    DecodeEncodedBytes(first, e);
    var head := Item(Str, EncodeBytes(first), first);
    DecodeItemsStep(EncodeBytes(first), e, head);
    DecodeItemsStep(e, [], item);
    assert e + [] == e;
    assert DecodeItems([]) == Ok([]);
    assert [item] + [] == [item];
    assert [head] + [item] == [head, item];
  }

  ghost function ChildItem(k: Keccak, child: Option<Node>): Item
    requires WellFormedChild(child)
  {
    if child.None? then Item(Str, EncodeBytes([]), []) else ReferenceItem(k, child.value)
  }

  ghost function ChildItems(k: Keccak, children: seq<Option<Node>>): (r: seq<Item>)
    requires WellFormedAll(children)
    ensures |r| == |children|
  {
    if children == [] then [] else [ChildItem(k, children[0])] + ChildItems(k, children[1..])
  }

  lemma DecodeChildItem(k: Keccak, child: Option<Node>, rest: Bytes)
    requires WellFormedChild(child)
    ensures DecodeItem(ChildBytes(k, child) + rest) == Ok(ChildItem(k, child))
    ensures ChildItem(k, child).raw == ChildBytes(k, child)
    ensures DecodeChild(ChildItem(k, child)) == Ok(ReferenceToChild(k, child))
  {
    if child.Some? {
      DecodeReference(k, child.value, rest);
    } else {
      DecodeEncodedBytes([], rest);
    }
  }

  lemma {:induction false} DecodeChildItems(k: Keccak, children: seq<Option<Node>>)
    requires WellFormedAll(children)
    ensures DecodeItems(ChildrenBytes(k, children) + EncodeBytes([]))
         == Ok(ChildItems(k, children) + [Item(Str, EncodeBytes([]), [])])
  {
    hide DecodeItem, DecodeItems, EncodeBytes, ChildBytes, ChildItem;
    var last := EncodeBytes([]);
    var end := Item(Str, last, []);
    if children == [] {
      DecodeEncodedBytes([], []);
      DecodeItemsStep(last, [], end);
      DecodeNoItems();
      assert ChildrenBytes(k, children) + last == last + [];
      assert [end] + [] == ChildItems(k, children) + [end];
    } else {
      var e := ChildBytes(k, children[0]);
      var item := ChildItem(k, children[0]);
      var rest := ChildrenBytes(k, children[1..]) + last;
      DecodeChildItem(k, children[0], rest);
      DecodeItemsStep(e, rest, item);
      DecodeChildItems(k, children[1..]);
      assert ChildrenBytes(k, children) + last == e + rest;
      assert [item] + (ChildItems(k, children[1..]) + [end]) == ChildItems(k, children) + [end];
    }
  }

  lemma {:induction false} DecodeChildReferences(k: Keccak, children: seq<Option<Node>>)
    requires WellFormedAll(children)
    ensures DecodeChildren(ChildItems(k, children)) == Ok(ReferencesTo(k, children))
  {
    hide DecodeChild, ChildItem, ReferenceToChild;
    if children != [] {
      DecodeChildItem(k, children[0], []);
      DecodeChildReferences(k, children[1..]);
      var items := ChildItems(k, children);
      assert items[1..] == ChildItems(k, children[1..]);
      assert ReferencesTo(k, children) == [ReferencesTo(k, children)[0]] + ReferencesTo(k, children[1..]);
    }
  }

  /** The RLP fields of an encoded node. */
  ghost function Fields(k: Keccak, n: Node): seq<Item>
    requires WellFormed(n)
  {
    match n
    case Leaf(path, value) =>
      var p := CompactEncode(path, true);
      [Item(Str, EncodeBytes(p), p), Item(Str, EncodeBytes(value), value)]
    case Extension(path, child) =>
      var p := CompactEncode(path, false);
      [Item(Str, EncodeBytes(p), p), ReferenceItem(k, child)]
    case Branch(children) => ChildItems(k, children) + [Item(Str, EncodeBytes([]), [])]
  }

  lemma DecodeFields(k: Keccak, n: Node)
    requires WellFormed(n)
    ensures DecodeList(Encode(k, n)) == Ok(Fields(k, n))
  {
    DecodeExactList(Payload(k, n));
    match n
    case Leaf(path, value) =>
      DecodeEncodedBytes(value, []);
      DecodePair(CompactEncode(path, true), EncodeBytes(value), Item(Str, EncodeBytes(value), value));
    case Extension(path, child) =>
      DecodeReference(k, child, []);
      DecodePair(CompactEncode(path, false), Reference(k, Encode(k, child)), ReferenceItem(k, child));
    case Branch(children) =>
      DecodeChildItems(k, children);
  }

  /** Decoding an encoded node gives back its one-level view, except that the strict decoder
      refuses exactly the leaves whose path is empty. */
  lemma DecodeEncodedNode(k: Keccak, n: Node)
    requires WellFormed(n)
    ensures DecodeNodeWith(Encode(k, n), true) == Ok(Shallow(k, n))
    ensures DecodeNode(Encode(k, n)) ==
            if n.Leaf? && n.path == [] then Err(InvalidPath("empty leaf/extension path")) else Ok(Shallow(k, n))
  {
    hide DecodeList, Encode, EncodeBytes, ChildItems, CompactEncode, CompactDecode, DecodeChildren;
    DecodeFields(k, n);
    match n
    case Leaf(path, value) =>
      DecodeCompact(path, true);
    case Extension(path, child) =>
      DecodeCompact(path, false);
      DecodeReference(k, child, []);
    case Branch(children) =>
      DecodeChildReferences(k, children);
      assert Fields(k, n)[..16] == ChildItems(k, children);
  }
}
