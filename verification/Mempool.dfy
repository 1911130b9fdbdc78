/** Per-domain nonce queues: admission, replacement, reservation and restoration. */
module Mempool {
  import opened Wrappers
  import opened Bytes
  import opened Canonical
  import opened Sorting

  /** A decoded type-2 envelope; what the pool does not look at is kept as bytes. */
  datatype Transaction = Transaction(
    chainId: u64, nonce: u64, maxPriorityFee: u128, maxFee: u128, gasLimit: u64, rest: Bytes)

  /** Envelope decoding, sender recovery and transaction hashing. */
  datatype TxScheme = TxScheme(
    decode: Bytes -> Option<Transaction>,
    recover: Transaction -> Option<Address>,
    hash: Transaction -> Option<B256>)

  datatype Config = Config(maxTransactions: nat, maxPerSender: nat, maxBytes: nat, bumpPercent: byte)

  datatype Key = Key(domain: B256, sender: Address, nonce: u64)
  datatype Owner = Owner(domain: B256, sender: Address)

  datatype PoolEntry = PoolEntry(
    domainId: B256, sender: Address, transactionHash: B256, envelope: Bytes, transaction: Transaction)

  datatype Pool = Pool(
    chainIds: map<B256, u64>,
    usedChainIds: set<u64>,
    entries: map<Key, PoolEntry>,
    senderCounts: map<Owner, nat>)

  datatype QueueStatus = Pending | Queued | Replaced

  datatype MempoolError =
    | UnknownDomain
    | InvalidChainId
    | DomainAlreadyRegistered
    | DuplicateChainId
    | EnvelopeTooLarge(limit: nat, actual: nat)
    | InvalidTransaction
    | WrongChainId(expected: u64, found: u64)
    | NonceTooLow(state: u64, transaction: u64)
    | ReplacementUnderpriced
    | Capacity
    | SenderCapacity

  const EMPTY_POOL: Pool := Pool(map[], {}, map[], map[])

  function KeyOf(e: PoolEntry): Key {
    Key(e.domainId, e.sender, e.transaction.nonce)
  }

  function OwnerOf(key: Key): Owner {
    Owner(key.domain, key.sender)
  }

  // ----- counts -----

  function HeldBy(entries: map<Key, PoolEntry>, o: Owner): set<Key> {
    set key | key in entries && OwnerOf(key) == o
  }

  function Owners(entries: map<Key, PoolEntry>): set<Owner> {
    set key | key in entries :: OwnerOf(key)
  }

  /** The number of held entries of every owner that has any. */
  function CountAll(entries: map<Key, PoolEntry>): map<Owner, nat> {
    map o | o in Owners(entries) :: |HeldBy(entries, o)|
  }

  function CountOf(counts: map<Owner, nat>, o: Owner): nat {
    if o in counts then counts[o] else 0
  }

  lemma CountIsHeld(entries: map<Key, PoolEntry>, o: Owner)
    ensures CountOf(CountAll(entries), o) == |HeldBy(entries, o)|
    ensures o in CountAll(entries) <==> HeldBy(entries, o) != {}
  {
    assert forall key | key in entries :: OwnerOf(key) in Owners(entries);
    if o in Owners(entries) {
      var key :| key in entries && OwnerOf(key) == o;
      assert key in HeldBy(entries, o);
    } else {
      assert HeldBy(entries, o) == {};
    }
  }

  function Decrement(counts: map<Owner, nat>, o: Owner, removed: nat): map<Owner, nat> {
    if o !in counts then counts
    else if counts[o] <= removed then counts - {o}
    else counts[o := counts[o] - removed]
  }

  lemma {:induction false} SameCounts(a: map<Owner, nat>, entries: map<Key, PoolEntry>)
    requires forall o :: o in a <==> HeldBy(entries, o) != {}
    requires forall o | o in a :: a[o] == |HeldBy(entries, o)|
    ensures a == CountAll(entries)
  {
    forall o
      ensures o in a <==> o in CountAll(entries)
      ensures o in a ==> a[o] == CountAll(entries)[o]
    {
      CountIsHeld(entries, o);
    }
  }

  lemma HeldInsert(entries: map<Key, PoolEntry>, key: Key, e: PoolEntry, o: Owner)
    ensures var held := HeldBy(entries, o);
            HeldBy(entries[key := e], o) == if OwnerOf(key) == o then held + {key} else held
    ensures OwnerOf(key) == o ==> (key in HeldBy(entries, o) <==> key in entries)
    ensures OwnerOf(key) == o ==>
              |HeldBy(entries[key := e], o)| == |HeldBy(entries, o)| + if key in entries then 0 else 1
  {
    var held := HeldBy(entries, o);
    if OwnerOf(key) == o {
      assert HeldBy(entries[key := e], o) == held + {key};
      assert key in entries ==> held + {key} == held;
    } else {
      assert HeldBy(entries[key := e], o) == held;
    }
  }

  lemma CountInsert(entries: map<Key, PoolEntry>, key: Key, e: PoolEntry)
    ensures CountAll(entries[key := e])
         == if key in entries then CountAll(entries)
            else CountAll(entries)[OwnerOf(key) := CountOf(CountAll(entries), OwnerOf(key)) + 1]
  {
    hide CountAll;
    var after := entries[key := e];
    var counts := CountAll(entries);
    var expected := if key in entries then counts else counts[OwnerOf(key) := CountOf(counts, OwnerOf(key)) + 1];
    forall o
      ensures o in expected <==> HeldBy(after, o) != {}
      ensures o in expected ==> expected[o] == |HeldBy(after, o)|
    {
      hide HeldBy;
      CountIsHeld(entries, o);
      HeldInsert(entries, key, e, o);
    }
    SameCounts(expected, after);
  }

  lemma CountRemove(entries: map<Key, PoolEntry>, gone: set<Key>, o: Owner)
    requires gone <= HeldBy(entries, o)
    ensures CountAll(entries - gone) == Decrement(CountAll(entries), o, |gone|)
  {
    hide CountAll;
    var after := entries - gone;
    var expected := Decrement(CountAll(entries), o, |gone|);
    CountIsHeld(entries, o);
    assert HeldBy(after, o) == HeldBy(entries, o) - gone;
    assert |HeldBy(after, o)| == |HeldBy(entries, o)| - |gone|;
    forall x
      ensures x in expected <==> HeldBy(after, x) != {}
      ensures x in expected ==> expected[x] == |HeldBy(after, x)|
    {
      CountIsHeld(entries, x);
      if x != o {
        assert HeldBy(after, x) == HeldBy(entries, x);
      }
    }
    SameCounts(expected, after);
  }

  // ----- the invariant -----

  /** An entry sits under its own key, in a registered domain of its chain ID, with the recovered
      sender and the transaction's hash. */
  ghost predicate GoodEntry(s: TxScheme, chainIds: map<B256, u64>, key: Key, e: PoolEntry) {
    && key == KeyOf(e)
    && e.domainId in chainIds && e.transaction.chainId == chainIds[e.domainId]
    && s.recover(e.transaction) == Some(e.sender)
    && s.hash(e.transaction) == Some(e.transactionHash)
  }

  ghost predicate UniqueChainIds(chainIds: map<B256, u64>) {
    forall a, b | a in chainIds && b in chainIds && chainIds[a] == chainIds[b] :: a == b
  }

  ghost predicate ValidPool(s: TxScheme, p: Pool) {
    && UniqueChainIds(p.chainIds)
    && p.usedChainIds == p.chainIds.Values
    && 0 !in p.usedChainIds
    && (forall key | key in p.entries :: GoodEntry(s, p.chainIds, key, p.entries[key]))
    && p.senderCounts == CountAll(p.entries)
  }

  function WithEntries(p: Pool, entries: map<Key, PoolEntry>): Pool {
    p.(entries := entries, senderCounts := CountAll(entries))
  }

  // ----- registration -----

  function Register(p: Pool, d: B256, chainId: u64): (Pool, Result<(), MempoolError>) {
    if chainId == 0 then
      (p, Err(InvalidChainId))
    else if d in p.chainIds then
      (p, if p.chainIds[d] == chainId then Ok(()) else Err(DomainAlreadyRegistered))
    else if chainId in p.usedChainIds then
      (p, Err(DuplicateChainId))
    else
      (p.(chainIds := p.chainIds[d := chainId], usedChainIds := p.usedChainIds + {chainId}), Ok(()))
  }

  lemma ValuesGrow(m: map<B256, u64>, d: B256, v: u64)
    requires d !in m
    ensures m[d := v].Values == m.Values + {v}
  {
    var next := m[d := v];
    assert next[d] == v;
    forall x | x in m
      ensures m[x] in next.Values
    {
      assert next[x] == m[x];
    }
  }

  /** Registration keeps chain IDs unique, and succeeds exactly when the pair is new to both sides
      or already known. */
  lemma RegisterKeeps(s: TxScheme, p: Pool, d: B256, chainId: u64)
    requires ValidPool(s, p)
    ensures ValidPool(s, Register(p, d, chainId).0)
    ensures Register(p, d, chainId).0.entries == p.entries
    ensures Register(p, d, chainId).1.Ok? <==>
              chainId != 0 && forall x | x in p.chainIds :: x == d <==> p.chainIds[x] == chainId
  {
    hide CountAll;
    var next := Register(p, d, chainId).0;
    if d !in p.chainIds {
      ValuesGrow(p.chainIds, d, chainId);
    }
    if d in p.chainIds {
      assert forall x | x in p.chainIds :: p.chainIds[x] == p.chainIds[d] ==> x == d;
    }
    assert chainId in p.usedChainIds <==> exists x :: x in p.chainIds && p.chainIds[x] == chainId;
  }

  // ----- admission -----

  function ReplacementMin(value: u128, bump: byte): u128 {
    var quotient, remainder := value / 100, value % 100;
    SaturatingAdd(value, SaturatingAdd(Saturate(quotient * bump), (remainder * bump + 99) / 100))
  }

  function Saturate(n: nat): u128 {
    if n > U128_MAX then U128_MAX else n
  }

  function SaturatingAdd(a: u128, b: nat): u128 {
    Saturate(a + b)
  }

  /** The split computation is the exact rounded-up percentage, saturated at 128 bits. */
  lemma ReplacementMinExact(value: u128, bump: byte)
    ensures ReplacementMin(value, bump) == Saturate(value + (value * bump + 99) / 100)
  {
    var q, r := value / 100, value % 100;
    assert value == 100 * q + r;
    var part := r * bump + 99;
    assert value * bump == 100 * (q * bump) + r * bump by {
      assert (100 * q + r) * bump == 100 * q * bump + r * bump;
    }
    assert (100 * (q * bump) + part) / 100 == q * bump + part / 100;
  }

  function ReplacementPriced(old_: Transaction, new_: Transaction, bump: byte): bool {
    && new_.maxFee >= ReplacementMin(old_.maxFee, bump)
    && new_.maxPriorityFee >= ReplacementMin(old_.maxPriorityFee, bump)
  }

  predicate Contiguous(entries: map<Key, PoolEntry>, o: Owner, from: u64, to: u64) {
    forall n: u64 | from <= n <= to :: Key(o.domain, o.sender, n) in entries
  }

  /** Everything checked before the queues are looked at. */
  function Screen(s: TxScheme, cfg: Config, p: Pool, d: B256, envelope: Bytes, stateNonce: u64)
    : Result<PoolEntry, MempoolError>
  {
    if d !in p.chainIds then
      Err(UnknownDomain)
    else if |envelope| > cfg.maxBytes then
      Err(EnvelopeTooLarge(cfg.maxBytes, |envelope|))
    else
      match s.decode(envelope)
      case None => Err(InvalidTransaction)
      case Some(tx) =>
        if tx.chainId != p.chainIds[d] then
          Err(WrongChainId(p.chainIds[d], tx.chainId))
        else if tx.nonce < stateNonce then
          Err(NonceTooLow(stateNonce, tx.nonce))
        else
          var sender, hash := s.recover(tx), s.hash(tx);
          if sender.None? || hash.None? then
            Err(InvalidTransaction)
          else
            Ok(PoolEntry(d, sender.value, hash.value, envelope, tx))
  }

  ghost function Admit(s: TxScheme, cfg: Config, p: Pool, d: B256, envelope: Bytes, stateNonce: u64)
    : (Pool, Result<QueueStatus, MempoolError>)
  {
    match Screen(s, cfg, p, d, envelope, stateNonce)
    case Err(e) => (p, Err(e))
    case Ok(entry) =>
      var key := KeyOf(entry);
      var next := WithEntries(p, p.entries[key := entry]);
      if key in p.entries then
        if ReplacementPriced(p.entries[key].transaction, entry.transaction, cfg.bumpPercent)
        then (next, Ok(Replaced)) else (p, Err(ReplacementUnderpriced))
      else if |p.entries| >= cfg.maxTransactions then
        (p, Err(Capacity))
      else if CountOf(p.senderCounts, OwnerOf(key)) >= cfg.maxPerSender then
        (p, Err(SenderCapacity))
      else
        (next, Ok(if Contiguous(next.entries, OwnerOf(key), stateNonce, key.nonce) then Pending else Queued))
  }

  /** Admission keeps the pool valid, changes at most the entry under the transaction's own key, adds
      one only below both capacities, and displaces one only for a dearer same-nonce successor. */
  lemma AdmitKeeps(s: TxScheme, cfg: Config, p: Pool, d: B256, envelope: Bytes, stateNonce: u64)
    requires ValidPool(s, p)
    ensures var (next, r) := Admit(s, cfg, p, d, envelope, stateNonce);
            && ValidPool(s, next)
            && next.chainIds == p.chainIds
            && (r.Err? ==> next == p)
            && p.entries.Keys <= next.entries.Keys
            && (r.Ok? && r.value != Replaced ==> |p.entries| < cfg.maxTransactions && |next.entries| == |p.entries| + 1)
            && (r.Ok? && r.value == Replaced ==> |next.entries| == |p.entries|)
            && (forall key | key in p.entries && next.entries[key] != p.entries[key] ::
                  ReplacementPriced(p.entries[key].transaction, next.entries[key].transaction, cfg.bumpPercent))
            && (r.Ok? ==> exists e :: Screen(s, cfg, p, d, envelope, stateNonce) == Ok(e)
                                   && next.entries == p.entries[KeyOf(e) := e])
  {
    hide CountAll, ReplacementPriced, Contiguous, Screen, ValidPool, GoodEntry;
    var screened := Screen(s, cfg, p, d, envelope, stateNonce);
    if screened.Ok? {
      ScreenGood(s, cfg, p, d, envelope, stateNonce);
      PutValid(s, p, screened.value);
    }
  }

  lemma ScreenGood(s: TxScheme, cfg: Config, p: Pool, d: B256, envelope: Bytes, stateNonce: u64)
    requires Screen(s, cfg, p, d, envelope, stateNonce).Ok?
    ensures var e := Screen(s, cfg, p, d, envelope, stateNonce).value;
            GoodEntry(s, p.chainIds, KeyOf(e), e) && e.transaction.nonce >= stateNonce
  {
  }

  lemma PutValid(s: TxScheme, p: Pool, e: PoolEntry)
    requires ValidPool(s, p) && GoodEntry(s, p.chainIds, KeyOf(e), e)
    ensures var next := WithEntries(p, p.entries[KeyOf(e) := e]);
            && ValidPool(s, next)
            && |next.entries| == |p.entries| + if KeyOf(e) in p.entries then 0 else 1
  {
    hide CountAll, GoodEntry, UniqueChainIds;
    var after := p.entries[KeyOf(e) := e];
    assert KeyOf(e) !in p.entries ==> after.Keys == p.entries.Keys + {KeyOf(e)};
    assert KeyOf(e) in p.entries ==> after.Keys == p.entries.Keys;
    assert |after| == |after.Keys| && |p.entries| == |p.entries.Keys|;
  }

  // ----- the executable prefix -----

  function Ready(entries: map<Key, PoolEntry>, o: Owner, nonce: u64): seq<PoolEntry>
    decreases U64_MAX - nonce
  {
    var key := Key(o.domain, o.sender, nonce);
    if key !in entries then []
    else [entries[key]] + if nonce == U64_MAX then [] else Ready(entries, o, nonce + 1)
  }

  /** `e` is the entry held at the i-th nonce of a run. */
  ghost predicate HeldAt(entries: map<Key, PoolEntry>, o: Owner, nonce: u64, e: PoolEntry, i: nat) {
    nonce + i <= U64_MAX && Key(o.domain, o.sender, nonce + i) in entries
    && e == entries[Key(o.domain, o.sender, nonce + i)]
  }

  /** The run starts at the state nonce, has no gap, and stops only where the queue does. */
  lemma {:induction false} ReadyIsRun(entries: map<Key, PoolEntry>, o: Owner, nonce: u64)
    ensures var run := Ready(entries, o, nonce);
            && nonce + |run| <= U64_MAX + 1
            && (forall i | 0 <= i < |run| :: HeldAt(entries, o, nonce, run[i], i))
            && (nonce + |run| <= U64_MAX ==> Key(o.domain, o.sender, nonce + |run|) !in entries)
    decreases U64_MAX - nonce
  {
    var run := Ready(entries, o, nonce);
    if Key(o.domain, o.sender, nonce) in entries && nonce < U64_MAX {
      var rest := Ready(entries, o, nonce + 1);
      ReadyIsRun(entries, o, nonce + 1);
      assert nonce + |run| == nonce + 1 + |rest|;
      forall i | 0 <= i < |run|
        ensures HeldAt(entries, o, nonce, run[i], i)
      {
        if i > 0 {
          assert HeldAt(entries, o, nonce + 1, rest[i - 1], i - 1);
          assert nonce + i == nonce + 1 + (i - 1);
        }
      }
    }
  }

  /** `Pending` is reported exactly for entries the proposer would be offered. */
  lemma ContiguousIsReady(entries: map<Key, PoolEntry>, o: Owner, from: u64, to: u64)
    requires from <= to
    ensures Contiguous(entries, o, from, to) <==> to < from + |Ready(entries, o, from)|
  {
    ReadyIsRun(entries, o, from);
    var run := Ready(entries, o, from);
    if to < from + |run| {
      forall n: u64 | from <= n <= to
        ensures Key(o.domain, o.sender, n) in entries
      {
        assert HeldAt(entries, o, from, run[n - from], n - from);
        assert from + (n - from) == n;
      }
    }
  }

  // ----- reservation -----

  function KeyRank(e: PoolEntry): seq<int> {
    e.domainId + e.sender + [e.transaction.nonce]
  }

  lemma KeyRankInjective(a: PoolEntry, b: PoolEntry)
    ensures |KeyRank(a)| == |KeyRank(b)|
    ensures KeyRank(a) == KeyRank(b) <==> KeyOf(a) == KeyOf(b)
  {
    if KeyRank(a) == KeyRank(b) {
      assert a.domainId == KeyRank(a)[..32] == KeyRank(b)[..32] == b.domainId;
      assert a.sender == KeyRank(a)[32..52] == KeyRank(b)[32..52] == b.sender;
      assert a.transaction.nonce == KeyRank(a)[52] == KeyRank(b)[52] == b.transaction.nonce;
    }
  }

  function Matching(entries: map<Key, PoolEntry>, hashes: set<B256>): set<Key> {
    set key | key in entries && entries[key].transactionHash in hashes
  }

  ghost predicate Keyed(entries: map<Key, PoolEntry>) {
    forall key | key in entries :: KeyOf(entries[key]) == key
  }

  /** Entries under some keys, sorted by domain, sender and nonce. */
  ghost function InKeyOrder(entries: map<Key, PoolEntry>, keys: set<Key>): (r: seq<PoolEntry>)
    requires Keyed(entries) && keys <= entries.Keys
    ensures InOrder(KeyRank, r)
    ensures forall e :: e in r <==> KeyOf(e) in keys && entries[KeyOf(e)] == e
  {
    var chosen := set key | key in keys :: entries[key];
    EntriesRanked(entries, keys);
    assert forall e :: e in chosen <==> KeyOf(e) in keys && entries[KeyOf(e)] == e by {
      forall key | key in keys
        ensures entries[key] in chosen && KeyOf(entries[key]) == key
      {
      }
    }
    Sorted(KeyRank, chosen)
  }

  lemma EntriesRanked(entries: map<Key, PoolEntry>, keys: set<Key>)
    requires Keyed(entries) && keys <= entries.Keys
    ensures Ranked(KeyRank, set key | key in keys :: entries[key])
  {
    hide KeyRank;
    forall a, b | a in keys && b in keys
      ensures |KeyRank(entries[a])| == |KeyRank(entries[b])|
      ensures KeyRank(entries[a]) == KeyRank(entries[b]) ==> entries[a] == entries[b]
    {
      KeyRankInjective(entries[a], entries[b]);
    }
  }

  /** The pool without the matching entries, and those entries in key order. */
  ghost function Reserve(p: Pool, hashes: set<B256>): (Pool, seq<PoolEntry>)
    requires Keyed(p.entries)
  {
    var keys := Matching(p.entries, hashes);
    (WithEntries(p, p.entries - keys), InKeyOrder(p.entries, keys))
  }

  ghost predicate DistinctHashes(entries: map<Key, PoolEntry>) {
    forall a, b | a in entries && b in entries && entries[a].transactionHash == entries[b].transactionHash :: a == b
  }

  /** Transaction hashes tell held entries apart as soon as they tell transactions apart: one
      transaction has one sender, one nonce and, chain IDs being unique, one domain. */
  lemma HashesDistinct(s: TxScheme, p: Pool)
    requires ValidPool(s, p)
    requires forall a, b | a in p.entries && b in p.entries ::
               p.entries[a].transactionHash == p.entries[b].transactionHash ==>
               p.entries[a].transaction == p.entries[b].transaction
    ensures DistinctHashes(p.entries)
  {
    forall a, b | a in p.entries && b in p.entries && p.entries[a].transactionHash == p.entries[b].transactionHash
      ensures a == b
    {
      assert GoodEntry(s, p.chainIds, a, p.entries[a]);
      assert GoodEntry(s, p.chainIds, b, p.entries[b]);
    }
  }

  ghost function HashesOf(selection: seq<PoolEntry>): set<B256> {
    set e | e in selection :: e.transactionHash
  }

  /** Reserving the hashes of an ordered selection of held entries returns exactly the selection. */
  lemma ReserveIsSelection(p: Pool, selection: seq<PoolEntry>)
    requires Keyed(p.entries) && DistinctHashes(p.entries) && InOrder(KeyRank, selection)
    requires forall e | e in selection :: KeyOf(e) in p.entries && p.entries[KeyOf(e)] == e
    ensures Reserve(p, HashesOf(selection)).1 == selection
  {
    hide KeyRank;
    var keys := Matching(p.entries, HashesOf(selection));
    forall e
      ensures e in InKeyOrder(p.entries, keys) <==> e in selection
    {
      if e in selection {
        assert e.transactionHash in HashesOf(selection);
        assert KeyOf(e) in keys;
      }
      if KeyOf(e) in keys && p.entries[KeyOf(e)] == e {
        var f :| f in selection && f.transactionHash == e.transactionHash;
        assert p.entries[KeyOf(f)].transactionHash == p.entries[KeyOf(e)].transactionHash;
      }
    }
    OrderUnique(KeyRank, InKeyOrder(p.entries, keys), selection);
  }

  lemma ReserveKeeps(s: TxScheme, p: Pool, hashes: set<B256>)
    requires ValidPool(s, p)
    ensures Keyed(p.entries) && ValidPool(s, Reserve(p, hashes).0)
    ensures |Reserve(p, hashes).0.entries| + |Reserve(p, hashes).1| == |p.entries|
  {
    hide CountAll, InKeyOrder, Matching;
    assert Keyed(p.entries) by {
      forall key | key in p.entries
        ensures KeyOf(p.entries[key]) == key
      {
        assert GoodEntry(s, p.chainIds, key, p.entries[key]);
      }
    }
    var keys := Matching(p.entries, hashes);
    assert (p.entries - keys).Keys == p.entries.Keys - keys;
    assert |p.entries - keys| == |p.entries.Keys - keys|;
    assert keys <= p.entries.Keys by { MatchingHeld(p.entries, hashes); }
    OrderSize(p.entries, keys);
  }

  lemma MatchingHeld(entries: map<Key, PoolEntry>, hashes: set<B256>)
    ensures Matching(entries, hashes) <= entries.Keys
  {
  }

  lemma OrderSize(entries: map<Key, PoolEntry>, keys: set<Key>)
    requires Keyed(entries) && keys <= entries.Keys
    ensures |InKeyOrder(entries, keys)| == |keys|
  {
    var chosen := set key | key in keys :: entries[key];
    EntriesRanked(entries, keys);
    ImageSize(entries, keys);
  }

  lemma {:induction false} ImageSize(entries: map<Key, PoolEntry>, keys: set<Key>)
    requires Keyed(entries) && keys <= entries.Keys
    ensures |set key | key in keys :: entries[key]| == |keys|
  {
    if keys != {} {
      var key :| key in keys;
      var rest := keys - {key};
      ImageSize(entries, rest);
      var image := set x | x in rest :: entries[x];
      assert (set x | x in keys :: entries[x]) == image + {entries[key]};
      assert entries[key] !in image;
      assert keys == rest + {key};
    }
  }

  // ----- restoration -----

  function RestoreOne(p: Pool, e: PoolEntry): Pool {
    if KeyOf(e) in p.entries || e.domainId !in p.chainIds then p
    else WithEntries(p, p.entries[KeyOf(e) := e])
  }

  function Restore(p: Pool, entries: seq<PoolEntry>): Pool {
    if entries == [] then p else
    RestoreOne(Restore(p, entries[..|entries| - 1]), entries[|entries| - 1])
  }

  /** Keys a restoration adds: those of known domains that nobody took meanwhile. */
  ghost function Returning(p: Pool, list: seq<PoolEntry>): set<Key> {
    set e | e in list && e.domainId in p.chainIds && KeyOf(e) !in p.entries :: KeyOf(e)
  }

  /** A restoration adds exactly the returning keys, whatever the capacity. */
  lemma {:induction false} RestoreAdds(p: Pool, list: seq<PoolEntry>)
    ensures Restore(p, list).entries.Keys == p.entries.Keys + Returning(p, list)
    ensures Restore(p, list).chainIds == p.chainIds
    ensures |Restore(p, list).entries| == |p.entries| + |Returning(p, list)|
  {
    hide RestoreOne, Returning;
    ReturningApart(p, list);
    if list != [] {
      var first, last := list[..|list| - 1], list[|list| - 1];
      assert list == first + [last];
      RestoreAdds(p, first);
      ReturningMore(p, first, last);
      OneRestored(Restore(p, first), last);
      KeysStep(p.entries.Keys, Returning(p, first), KeyOf(last));
    }
    Enlarged(p.entries, Restore(p, list).entries, Returning(p, list));
  }

  lemma KeysStep(held: set<Key>, back: set<Key>, key: Key)
    ensures (held + back) + {key} == held + (back + if key !in held then {key} else {})
    ensures (held + back) + {} == held + (back + {})
  {
  }

  lemma OneRestored(p: Pool, e: PoolEntry)
    ensures RestoreOne(p, e).chainIds == p.chainIds
    ensures RestoreOne(p, e).entries.Keys == p.entries.Keys + if e.domainId in p.chainIds then {KeyOf(e)} else {}
  {
    hide CountAll;
  }

  lemma ReturningApart(p: Pool, list: seq<PoolEntry>)
    ensures p.entries.Keys !! Returning(p, list) && (list == [] ==> Returning(p, list) == {})
  {
  }

  lemma ReturningMore(p: Pool, first: seq<PoolEntry>, last: PoolEntry)
    ensures Returning(p, first + [last])
         == Returning(p, first) + if last.domainId in p.chainIds && KeyOf(last) !in p.entries then {KeyOf(last)} else {}
  {
    var list := first + [last];
    forall e | e in first
      ensures e in list
    {
    }
    assert last in list;
    assert forall e | e in list :: e in first || e == last;
  }

  lemma Enlarged(before: map<Key, PoolEntry>, after: map<Key, PoolEntry>, more: set<Key>)
    requires after.Keys == before.Keys + more && before.Keys !! more
    ensures |after| == |before| + |more|
  {
    assert |after| == |after.Keys| && |before| == |before.Keys|;
  }

  /** Restoring brings every entry back unless its key is taken or its domain unknown, overwrites
      nothing, and adds nothing else. */
  lemma {:induction false} RestoreKeeps(s: TxScheme, p: Pool, list: seq<PoolEntry>)
    requires ValidPool(s, p)
    requires forall e | e in list :: e.domainId in p.chainIds ==> GoodEntry(s, p.chainIds, KeyOf(e), e)
    ensures var next := Restore(p, list);
            && ValidPool(s, next)
            && next.chainIds == p.chainIds
            && |next.entries| <= |p.entries| + |list|
            && |next.entries| == |p.entries| + |Returning(p, list)|
            && (forall key | key in p.entries :: key in next.entries && next.entries[key] == p.entries[key])
            && (forall e | e in list && e.domainId in p.chainIds :: KeyOf(e) in next.entries)
            && (forall key | key in next.entries && key !in p.entries :: next.entries[key] in list)
  {
    hide ValidPool, GoodEntry, CountAll;
    if list != [] {
      var first, last := list[..|list| - 1], list[|list| - 1];
      assert list == first + [last];
      RestoreKeeps(s, p, first);
      var middle := Restore(p, first);
      if KeyOf(last) !in middle.entries && last.domainId in middle.chainIds {
        PutValid(s, middle, last);
      }
    }
    RestoreAdds(p, list);
  }

  // ----- finalized nonces -----

  function StaleKeys(entries: map<Key, PoolEntry>, o: Owner, nonce: u64): set<Key> {
    set key | key in entries && OwnerOf(key) == o && key.nonce < nonce
  }

  function Advance(p: Pool, o: Owner, nonce: u64): Pool {
    WithEntries(p, p.entries - StaleKeys(p.entries, o, nonce))
  }
}
