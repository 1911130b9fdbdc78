/** What the engine writes with a block and how it reads its state back. */
module Recovery {
  import opened Wrappers
  import opened Bytes
  import opened Ordered
  import opened Hashing
  import opened Rlp
  import opened Layout
  import opened Canonical
  import opened BlockBody
  import opened TrieCommit
  import opened TrieWalk
  import opened Storage
  import opened Chain
  import opened Alike
  import opened CheckpointCodec

  // ----- configuration -----

  /** What an encoded account refers to. */
  datatype AccountRefs = AccountRefs(storageRoot: B256, codeHash: B256)

  /** A development chain: the machine, its genesis and the functions left opaque. */
  datatype Setup = Setup(
    m: Machine,
    genesis: ChainState,
    fingerprint: Bytes,
    validatorSet: ValidatorSet,
    validatorHash: B256,
    utf8: Bytes -> bool,
    refs: Bytes -> Option<AccountRefs>,
    committed: (ExecutionState, Descriptor) -> bool,
    retains: B256 -> bool)

  datatype EngineError =
    | GenesisMismatch
    | InconsistentStore(reason: string)
    | InvalidGenesis
    | ChainFailure(chain: ChainError)
    | BodyFailure(body: BlockError)
    | StorageFailure(storage: StorageError)
    | CodecFailure(codec: CodecError)
    | StateFailure(state: StateError)

  // ----- index keys -----

  const KEY_GENESIS: Bytes := Ascii("m5:dev:genesis")
  const KEY_WAL: Bytes := Ascii("m5:dev:wal")
  const KEY_CHECKPOINT: Bytes := Ascii("m7:dev:checkpoint")
  const PREFIX_BLOCK: Bytes := Ascii("m5:block:")
  const PREFIX_TX: Bytes := Ascii("m5:tx:")
  const PREFIX_RECEIPT: Bytes := Ascii("m5:receipt:")
  const WAL_TAG: Bytes := Ascii("ARBOR_DEV_COMMIT_WAL_V1")

  function BlockKey(height: u64): Bytes {
    PREFIX_BLOCK + PutU64(height)
  }

  function TxKey(hash: B256): Bytes {
    PREFIX_TX + hash
  }

  /** Block keys differ by height and from every other key. */
  lemma KeysApart(a: u64, b: u64, hash: B256)
    ensures BlockKey(a) == BlockKey(b) ==> a == b
    ensures BlockKey(a) != KEY_GENESIS && BlockKey(a) != KEY_WAL && BlockKey(a) != KEY_CHECKPOINT &&
      BlockKey(a) != TxKey(hash)
    ensures TxKey(hash) != KEY_GENESIS && TxKey(hash) != KEY_WAL && TxKey(hash) != KEY_CHECKPOINT
    ensures KEY_GENESIS != KEY_WAL && KEY_GENESIS != KEY_CHECKPOINT && KEY_WAL != KEY_CHECKPOINT
  {
    hide PutU64;
    assert BlockKey(a)[9..] == PutU64(a) && BlockKey(b)[9..] == PutU64(b);
    assert BlockKey(a)[3] == PREFIX_BLOCK[3] == 'b' as int;
    assert TxKey(hash)[3] == PREFIX_TX[3] == 't' as int;
    assert KEY_GENESIS[3] == 'd' as int && KEY_WAL[3] == 'd' as int;
    assert KEY_CHECKPOINT[1] == '7' as int && BlockKey(a)[1] == PREFIX_BLOCK[1] == '5' as int;
    assert TxKey(hash)[1] == PREFIX_TX[1] == '5' as int && KEY_GENESIS[1] == '5' as int && KEY_WAL[1] == '5' as int;
    assert |KEY_GENESIS| == 14 && |KEY_WAL| == 10;
  }

  function EncodeWal(marker: Marker): Bytes {
    WAL_TAG + PutU64(marker.height) + marker.consensusHash + marker.domainHeadsRoot
  }

  function MarkerOf(m: Machine, st: ChainState): Marker {
    Marker(st.height, st.consensusHash, HeadsRoot(m.k, st))
  }

  // ----- reading an execution state back from the columns -----

  predicate Short(leaves: map<B256, Bytes>) {
    forall key :: key in leaves ==> |leaves[key]| <= MAX_VECTOR
  }

  function BuiltNodes(k: Keccak, leaves: Leaves): NodeMap {
    if leaves == map[] then map[] else Store(k, Trie(leaves), map[])
  }

  /** Walks a root and builds it again; the rebuilt root must be the one asked for. */
  function Rebuild(k: Keccak, root: B256, nodes: NodeMap): Result<TrieSnapshot, StateError> {
    var leaves :- CollectLeaves(k, nodes, root);
    if !Short(leaves) || |leaves| > U32_MAX then
      Err(StateError.LimitExceeded("secure trie leaves"))
    else if RootHash(k, leaves) != root then
      Err(MalformedRlp("persisted root mismatch"))
    else
      Ok(TrieSnapshot(root, BuiltNodes(k, leaves), leaves))
  }

  /** Everything one account refers to: its storage nodes and its code. */
  function LoadAccount(x: Setup, encoded: Bytes, nodes: NodeMap, code: map<B256, Bytes>)
    : Result<(NodeMap, map<B256, Bytes>), StateError> {
    var k := x.m.k;
    match x.refs(encoded)
    case None => Err(MalformedRlp("account"))
    case Some(refs) =>
      var storage :- (if refs.storageRoot == k(EMPTY_TRIE) then Ok(map[]) else
                      var s :- Rebuild(k, refs.storageRoot, nodes); Ok(s.nodes));
      if refs.codeHash == k([]) then
        Ok((storage, map[]))
      else if refs.codeHash !in code || k(code[refs.codeHash]) != refs.codeHash then
        Err(MalformedRlp("contract code"))
      else
        Ok((storage, map[refs.codeHash := code[refs.codeHash]]))
  }

  function LoadAccounts(x: Setup, leaves: Leaves, keys: seq<B256>, nodes: NodeMap, code: map<B256, Bytes>)
    : Result<(NodeMap, map<B256, Bytes>), StateError>
    requires forall key | key in keys :: key in leaves
  {
    if keys == [] then
      Ok((map[], map[]))
    else
      var first :- LoadAccounts(x, leaves, keys[..|keys| - 1], nodes, code);
      var last :- LoadAccount(x, leaves[keys[|keys| - 1]], nodes, code);
      Ok((first.0 + last.0, first.1 + last.1))
  }

  /** `ExecutionState::from_persisted`. */
  function LoadState(x: Setup, root: B256, nodes: NodeMap, code: map<B256, Bytes>): Result<ExecutionState, StateError> {
    var accounts :- Rebuild(x.m.k, root, nodes);
    var loaded :- LoadAccounts(x, accounts.leaves, SortedKeys(accounts.leaves.Keys), nodes, code);
    Ok(ExecutionState(accounts.(nodes := accounts.nodes + loaded.0), loaded.1))
  }

  // ----- more in the columns changes nothing that was readable -----

  lemma RebuildStable(k: Keccak, root: B256, small: NodeMap, big: NodeMap)
    requires Stored(small, big) && Rebuild(k, root, small).Ok?
    ensures Rebuild(k, root, big) == Rebuild(k, root, small)
  {
    hide CollectLeaves, RootHash;
    CollectStable(k, small, big, root);
  }

  /** Every body under a hash of the smaller map is there, and right, in the bigger one. */
  ghost predicate CodeCovers(k: Keccak, small: map<B256, Bytes>, big: map<B256, Bytes>) {
    forall h | h in small && k(small[h]) == h :: h in big && k(big[h]) == h
  }

  lemma AccountStable(x: Setup, encoded: Bytes, small: NodeMap, big: NodeMap, code: map<B256, Bytes>,
                      more: map<B256, Bytes>)
    requires Stored(small, big) && CodeCovers(x.m.k, code, more) && LoadAccount(x, encoded, small, code).Ok?
    ensures LoadAccount(x, encoded, big, more).Ok?
    ensures LoadAccount(x, encoded, big, more).value.0 == LoadAccount(x, encoded, small, code).value.0
  {
    hide Rebuild;
    var refs := x.refs(encoded).value;
    if refs.storageRoot != x.m.k(EMPTY_TRIE) {
      RebuildStable(x.m.k, refs.storageRoot, small, big);
    }
  }

  lemma {:induction false} AccountsStable(x: Setup, leaves: Leaves, keys: seq<B256>, small: NodeMap, big: NodeMap,
                                          code: map<B256, Bytes>, more: map<B256, Bytes>)
    requires forall key | key in keys :: key in leaves
    requires Stored(small, big) && CodeCovers(x.m.k, code, more) && LoadAccounts(x, leaves, keys, small, code).Ok?
    ensures LoadAccounts(x, leaves, keys, big, more).Ok?
    ensures LoadAccounts(x, leaves, keys, big, more).value.0 == LoadAccounts(x, leaves, keys, small, code).value.0
  {
    hide LoadAccount;
    if keys != [] {
      AccountsStable(x, leaves, keys[..|keys| - 1], small, big, code, more);
      AccountStable(x, leaves[keys[|keys| - 1]], small, big, code, more);
    }
  }

  /** A state that loads from some nodes and code loads alike from any more of them. */
  lemma LoadStable(x: Setup, root: B256, small: NodeMap, big: NodeMap, code: map<B256, Bytes>, more: map<B256, Bytes>)
    requires Stored(small, big) && CodeCovers(x.m.k, code, more) && LoadState(x, root, small, code).Ok?
    ensures LoadState(x, root, big, more).Ok?
    ensures AlikeState(LoadState(x, root, small, code).value, LoadState(x, root, big, more).value)
  {
    hide Rebuild, LoadAccounts;
    RebuildStable(x.m.k, root, small, big);
    var accounts := Rebuild(x.m.k, root, small).value;
    AccountsStable(x, accounts.leaves, SortedKeys(accounts.leaves.Keys), small, big, code, more);
  }

  lemma LoadedRoot(x: Setup, root: B256, nodes: NodeMap, code: map<B256, Bytes>)
    requires LoadState(x, root, nodes, code).Ok?
    ensures LoadState(x, root, nodes, code).value.snapshot.root == root
    ensures CollectLeaves(x.m.k, nodes, root) == Ok(LoadState(x, root, nodes, code).value.snapshot.leaves)
  {
    hide CollectLeaves, RootHash, LoadAccounts;
  }
}
