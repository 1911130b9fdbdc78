/** An encoded trie node determines the whole tree below it, as long as its preimages do not collide. */
module TrieBinding {
  import opened Wrappers
  import opened Bytes
  import opened Hashing
  import opened TrieNode

  /** Encodings of a node and of everything below it: the preimages hashed while building it. */
  ghost function Encodings(k: Keccak, n: Node): (r: set<Bytes>)
    requires WellFormed(n)
    ensures Encode(k, n) in r
  {
    match n
    case Leaf(_, _) => {Encode(k, n)}
    case Extension(_, child) => {Encode(k, n)} + Encodings(k, child)
    case Branch(children) => {Encode(k, n)} + EncodingsOfAll(k, children)
  }

  ghost function EncodingsOfAll(k: Keccak, children: seq<Option<Node>>): (r: set<Bytes>)
    requires WellFormedAll(children)
    ensures forall i | 0 <= i < |children| :: EncodingsOfChild(k, children[i]) <= r
  {
    if children == [] then {} else
    var rest := EncodingsOfAll(k, children[1..]);
    assert forall i | 1 <= i < |children| :: children[i] == children[1..][i - 1];
    EncodingsOfChild(k, children[0]) + rest
  }

  ghost function EncodingsOfChild(k: Keccak, child: Option<Node>): set<Bytes>
    requires WellFormedChild(child)
  {
    if child.None? then {} else Encodings(k, child.value)
  }

  lemma SameReference(k: Keccak, x: Node, y: Node)
    requires WellFormed(x) && WellFormed(y)
    requires CollisionFree(k, {Encode(k, x), Encode(k, y)})
    requires ReferenceTo(k, x) == ReferenceTo(k, y)
    ensures Encode(k, x) == Encode(k, y)
  {
  }

  /** Equal encodings mean equal trees: leaf, extension and branch, inline and hashed children,
      paths and values are all told apart. */
  lemma {:induction false} EncodeInjective(k: Keccak, a: Node, b: Node)
    requires WellFormed(a) && WellFormed(b)
    requires CollisionFree(k, Encodings(k, a) + Encodings(k, b))
    requires Encode(k, a) == Encode(k, b)
    ensures a == b
    decreases a
  {
    hide Encode, DecodeNode, DecodeNodeWith;
    DecodeEncodedNode(k, a);
    DecodeEncodedNode(k, b);
    assert Shallow(k, a) == Shallow(k, b);
    match a
    case Leaf(_, _) =>
    case Extension(_, child) =>
      SameReference(k, child, b.child);
      EncodeInjective(k, child, b.child);
    case Branch(children) =>
      forall i | 0 <= i < 16
        ensures children[i] == b.children[i]
      {
        assert ReferencesTo(k, children)[i] == ReferencesTo(k, b.children)[i];
        ChildInjective(k, children[i], b.children[i]);
      }
      assert children == b.children;
  }

  lemma {:induction false} ChildInjective(k: Keccak, a: Option<Node>, b: Option<Node>)
    requires WellFormedChild(a) && WellFormedChild(b)
    requires CollisionFree(k, EncodingsOfChild(k, a) + EncodingsOfChild(k, b))
    requires ReferenceToChild(k, a) == ReferenceToChild(k, b)
    ensures a == b
    decreases a
  {
    if a.Some? {
      SameReference(k, a.value, b.value);
      EncodeInjective(k, a.value, b.value);
    }
  }

  // ----- canonical shape -----

  /** The shape rules of a trie over paths of one length: no extension above anything but a branch,
      no branch with fewer than two children. */
  predicate Canonical(n: Node, length: nat)
  {
    match n
    case Leaf(path, value) => |path| == length
    case Extension(path, child) => 0 < |path| <= length && child.Branch? && Canonical(child, length - |path|)
    case Branch(children) =>
      && length > 0 && |children| == 16
      && (forall i | 0 <= i < 16 :: CanonicalChild(children[i], length - 1))
      && exists i, j | 0 <= i < j < 16 :: children[i].Some? && children[j].Some?
  }

  predicate CanonicalChild(child: Option<Node>, length: nat) {
    child.Some? ==> Canonical(child.value, length)
  }

  ghost predicate SameContents(a: Node, b: Node, length: nat)
    requires WellFormed(a) && WellFormed(b)
  {
    forall path: Nibbles | |path| == length :: Get(a, path) == Get(b, path)
  }

  /** Some path below every canonical node holds a value. */
  lemma {:induction false} SomePath(n: Node, length: nat) returns (path: Nibbles)
    requires WellFormed(n) && Canonical(n, length)
    ensures |path| == length && Get(n, path).Some?
    decreases n
  {
    match n
    case Leaf(p, _) =>
      path := p;
    case Extension(p, child) =>
      var rest := SomePath(child, length - |p|);
      path := p + rest;
      assert path[|p|..] == rest;
    case Branch(children) =>
      var i :| 0 <= i < 16 && children[i].Some?;
      path := SomePathUnder(n, length, i);
  }

  lemma {:induction false} SomePathUnder(n: Node, length: nat, i: nibble) returns (path: Nibbles)
    requires WellFormed(n) && Canonical(n, length) && n.Branch? && n.children[i].Some?
    ensures |path| == length && path[0] == i && Get(n, path).Some?
    decreases n, 0
  {
    var rest := SomePathOfChild(n.children[i], length - 1);
    path := [i] + rest;
    assert path[1..] == rest;
  }

  lemma {:induction false} SomePathOfChild(child: Option<Node>, length: nat) returns (path: Nibbles)
    requires WellFormedChild(child) && CanonicalChild(child, length) && child.Some?
    ensures |path| == length && GetChild(child, path).Some?
    decreases child
  {
    path := SomePath(child.value, length);
  }

  /** The nibbles every path below a node begins with. */
  function Stem(n: Node): Nibbles {
    if n.Branch? then [] else n.path
  }

  lemma StemIsPrefix(n: Node, path: Nibbles)
    requires WellFormed(n) && Get(n, path).Some?
    ensures Stem(n) <= path
  {
  }

  /** Below anything but a leaf, two valued paths part right after the stem. */
  lemma {:induction false} Fork(n: Node, length: nat) returns (x: Nibbles, y: Nibbles)
    requires WellFormed(n) && Canonical(n, length) && !n.Leaf?
    ensures |x| == |y| == length && |Stem(n)| < length
    ensures Get(n, x).Some? && Get(n, y).Some? && x[|Stem(n)|] != y[|Stem(n)|]
    decreases n
  {
    match n
    case Extension(p, child) =>
      var x', y' := Fork(child, length - |p|);
      x, y := p + x', p + y';
      assert x[|p|..] == x' && y[|p|..] == y';
    case Branch(children) =>
      var i, j :| 0 <= i < j < 16 && children[i].Some? && children[j].Some?;
      x := SomePathUnder(n, length, i);
      y := SomePathUnder(n, length, j);
  }

  lemma CommonPrefixEnds(p: Nibbles, x: Nibbles, y: Nibbles, s: nat)
    requires p <= x && p <= y && s < |x| && s < |y| && x[s] != y[s]
    ensures |p| <= s
  {
  }

  lemma StemNoLonger(a: Node, b: Node, length: nat)
    requires WellFormed(a) && WellFormed(b)
    requires Canonical(a, length) && Canonical(b, length) && SameContents(a, b, length)
    ensures !a.Leaf? ==> !b.Leaf? && Stem(b) <= Stem(a)
  {
    if !a.Leaf? {
      var x, y := Fork(a, length);
      StemIsPrefix(a, x);
      StemIsPrefix(b, x);
      StemIsPrefix(b, y);
      CommonPrefixEnds(Stem(b), x, y, |Stem(a)|);
    }
  }

  /** The canonical trie of a mapping is unique, so the root depends on the mapping alone. */
  lemma {:induction false} CanonicalUnique(a: Node, b: Node, length: nat)
    requires WellFormed(a) && WellFormed(b)
    requires Canonical(a, length) && Canonical(b, length) && SameContents(a, b, length)
    ensures a == b
    decreases a, 0
  {
    StemNoLonger(a, b, length);
    StemNoLonger(b, a, length);
    if a.Leaf? {
      assert Get(a, a.path) == Get(b, a.path);
    } else if a.Extension? {
      forall r: Nibbles | |r| == length - |a.path|
        ensures Get(a.child, r) == Get(b.child, r)
      {
        var q := a.path + r;
        assert q[|a.path|..] == r;
        assert Get(a, q) == Get(b, q);
      }
      CanonicalUnique(a.child, b.child, length - |a.path|);
    } else {
      forall i | 0 <= i < 16
        ensures a.children[i] == b.children[i]
      {
        forall r: Nibbles | |r| == length - 1
          ensures GetChild(a.children[i], r) == GetChild(b.children[i], r)
        {
          var q := [i] + r;
          assert q[1..] == r;
          assert Get(a, q) == Get(b, q);
        }
        ChildUnique(a.children[i], b.children[i], length - 1);
      }
      assert a.children == b.children;
    }
  }

  lemma {:induction false} ChildUnique(a: Option<Node>, b: Option<Node>, length: nat)
    requires WellFormedChild(a) && WellFormedChild(b)
    requires CanonicalChild(a, length) && CanonicalChild(b, length)
    requires forall r: Nibbles | |r| == length :: GetChild(a, r) == GetChild(b, r)
    ensures a == b
    decreases a, 1
  {
    if a.Some? {
      var r := SomePathOfChild(a, length);
      assert GetChild(b, r).Some?;
      forall q: Nibbles | |q| == length
        ensures Get(a.value, q) == Get(b.value, q)
      {
        assert GetChild(a, q) == GetChild(b, q);
      }
      CanonicalUnique(a.value, b.value, length);
    } else if b.Some? {
      var r := SomePathOfChild(b, length);
      assert false;
    }
  }
}
