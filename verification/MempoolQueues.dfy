/** The pool as a mutable object, and how long its entries live. */
module MempoolQueues {
  import opened Wrappers
  import opened Bytes
  import opened Canonical
  import opened Sorting
  import opened Mempool

  function SendersOf(p: Pool, d: B256): set<Address> {
    set o | o in p.senderCounts && o.domain == d :: o.sender
  }

  function AddressRank(a: Address): seq<int> {
    a
  }

  class Queues {
    const s: TxScheme
    const config: Config
    var chainIds: map<B256, u64>
    var usedChainIds: set<u64>
    var entries: map<Key, PoolEntry>
    var senderCounts: map<Owner, nat>

    function State(): Pool
      reads this
    {
      Pool(chainIds, usedChainIds, entries, senderCounts)
    }

    ghost predicate Valid()
      reads this
    {
      ValidPool(s, State())
    }

    constructor (s: TxScheme, config: Config)
      ensures this.s == s && State() == EMPTY_POOL && Valid()
      ensures this.config ==
        config.(maxBytes := if config.maxBytes < MAX_TRANSACTION_ENVELOPE_BYTES then config.maxBytes
        else MAX_TRANSACTION_ENVELOPE_BYTES)
    {
      this.s := s;
      this.config := config.(maxBytes := if config.maxBytes < MAX_TRANSACTION_ENVELOPE_BYTES then config.maxBytes
          else MAX_TRANSACTION_ENVELOPE_BYTES);
      chainIds, usedChainIds, entries, senderCounts := map[], {}, map[], map[];
    }

    /** A clone to work on while the original stays in place. */
    constructor Copy(other: Queues)
      requires other.Valid()
      ensures s == other.s && config == other.config && State() == other.State() && Valid()
    {
      s, config := other.s, other.config;
      chainIds, usedChainIds, entries, senderCounts :=
        other.chainIds, other.usedChainIds, other.entries, other.senderCounts;
    }

    method RegisterDomain(d: B256, chainId: u64) returns (r: Result<(), MempoolError>)
      requires Valid()
      modifies this
      ensures Valid() && (State(), r) == Register(old(State()), d, chainId)
    {
      RegisterKeeps(s, State(), d, chainId);
      if chainId == 0 {
        return Err(InvalidChainId);
      }
      if d in chainIds {
        return if chainIds[d] == chainId then Ok(()) else Err(DomainAlreadyRegistered);
      }
      if chainId in usedChainIds {
        return Err(DuplicateChainId);
      }
      chainIds := chainIds[d := chainId];
      usedChainIds := usedChainIds + {chainId};
      return Ok(());
    }

    method Insert(d: B256, envelope: Bytes, stateNonce: u64) returns (r: Result<QueueStatus, MempoolError>)
      requires Valid()
      modifies this
      ensures Valid() && (State(), r) == Admit(s, config, old(State()), d, envelope, stateNonce)
    {
      hide CountAll, Contiguous, ReplacementPriced, Screen, ValidPool;
      ghost var p := State();
      AdmitKeeps(s, config, p, d, envelope, stateNonce);
      var screened := Screen(s, config, State(), d, envelope, stateNonce);
      if screened.Err? {
        return Err(screened.error);
      }
      var entry := screened.value;
      var key := KeyOf(entry);
      assert p.senderCounts == CountAll(p.entries) by { CountsKept(s, p); }
      CountInsert(entries, key, entry);
      if key in entries {
        if !ReplacementPriced(entries[key].transaction, entry.transaction, config.bumpPercent) {
          return Err(ReplacementUnderpriced);
        }
        entries := entries[key := entry];
        return Ok(Replaced);
      }
      if |entries| >= config.maxTransactions {
        return Err(Capacity);
      }
      var count := CountOf(senderCounts, OwnerOf(key));
      if count >= config.maxPerSender {
        return Err(SenderCapacity);
      }
      entries := entries[key := entry];
      senderCounts := senderCounts[OwnerOf(key) := count + 1];
      var contiguous := NonceIsContiguous(OwnerOf(key), stateNonce, key.nonce);
      return Ok(if contiguous then Pending else Queued);
    }

    method NonceIsContiguous(o: Owner, stateNonce: u64, target: u64) returns (r: bool)
      ensures r == Contiguous(entries, o, stateNonce, target)
    {
      var nonce := stateNonce;
      while nonce <= target
        invariant forall n: u64 | stateNonce <= n < nonce && n <= target :: Key(o.domain, o.sender, n) in entries
        invariant stateNonce <= nonce
      {
        if Key(o.domain, o.sender, nonce) !in entries {
          return false;
        }
        nonce := nonce + 1;
      }
      return true;
    }

    method ReadyRun(o: Owner, stateNonce: u64) returns (run: seq<PoolEntry>)
      ensures run == Ready(entries, o, stateNonce)
    {
      run := [];
      var nonce: u64 := stateNonce;
      while Key(o.domain, o.sender, nonce) in entries
        invariant Ready(entries, o, stateNonce) == run + Ready(entries, o, nonce)
        decreases U64_MAX - nonce
      {
        run := run + [entries[Key(o.domain, o.sender, nonce)]];
        if nonce == U64_MAX {
          return;
        }
        nonce := nonce + 1;
      }
    }

    method DecrementSender(o: Owner, removed: nat)
      modifies this`senderCounts
      ensures senderCounts == Decrement(old(senderCounts), o, removed)
    {
      if o in senderCounts {
        var count := if senderCounts[o] <= removed then 0 else senderCounts[o] - removed;
        if count == 0 {
          senderCounts := senderCounts - {o};
        } else {
          senderCounts := senderCounts[o := count];
        }
      }
    }

    method RemoveEntry(key: Key) returns (e: PoolEntry)
      requires key in entries && senderCounts == CountAll(entries)
      modifies this
      ensures e == old(entries)[key]
      ensures State() == Without(old(State()), {key})
    {
      hide CountAll;
      e := entries[key];
      assert {key} <= HeldBy(entries, OwnerOf(key));
      CountRemove(entries, {key}, OwnerOf(key));
      entries := entries - {key};
      DecrementSender(OwnerOf(key), 1);
    }

    /** Removes the matching entries one by one and sorts what was removed. */
    method ReserveHashes(hashes: set<B256>) returns (reserved: seq<PoolEntry>)
      requires Valid()
      modifies this
      ensures Valid() && Keyed(old(State()).entries)
      ensures (State(), reserved) == Reserve(old(State()), hashes)
    {
      hide CountAll, ValidPool, KeyRank, Lists, InKeyOrder, Without, Matching, Keyed;
      ghost var p := State();
      ReserveKeeps(s, p, hashes);
      MatchingHeld(entries, hashes);
      var keys := Matching(entries, hashes);
      var rest := keys;
      reserved := [];
      StartReserving(s, p, keys);
      while rest != {}
        invariant rest <= keys
        invariant State() == Without(p, keys - rest)
        invariant Lists(p, keys - rest, reserved)
        decreases rest
      {
        var key :| key in rest;
        TakeOne(p, keys, rest, key);
        ListOne(p, keys - rest, key, reserved);
        assert (keys - rest) + {key} == keys - (rest - {key});
        var e := RemoveEntry(key);
        reserved := reserved + [e];
        rest := rest - {key};
      }
      assert keys - rest == keys;
      SortedReserved(p, keys, reserved);
      reserved := Sort(KeyRank, reserved);
      assert State() == Reserve(p, hashes).0 by { ReservedPool(p, hashes); }
    }

    method RestoreReserved(list: seq<PoolEntry>)
      requires Valid()
      requires forall e | e in list :: e.domainId in chainIds ==> GoodEntry(s, chainIds, KeyOf(e), e)
      modifies this
      ensures Valid() && State() == Restore(old(State()), list)
    {
      hide CountAll, ValidPool, GoodEntry, Restore, RestoreOne;
      ghost var p := State();
      RestoreKeeps(s, p, list);
      RestoreNone(p);
      assert senderCounts == CountAll(entries) by { CountsKept(s, p); }
      for i := 0 to |list|
        invariant State() == Restore(p, list[..i])
        invariant senderCounts == CountAll(entries)
      {
        RestoreNext(p, list, i);
        RestoreEntry(list[i]);
      }
      assert list[..|list|] == list;
    }

    method RestoreEntry(e: PoolEntry)
      requires senderCounts == CountAll(entries)
      modifies this
      ensures State() == RestoreOne(old(State()), e)
      ensures senderCounts == CountAll(entries)
    {
      hide CountAll;
      var key := KeyOf(e);
      if key !in entries && e.domainId in chainIds {
        CountInsert(entries, key, e);
        senderCounts := senderCounts[OwnerOf(key) := CountOf(senderCounts, OwnerOf(key)) + 1];
        entries := entries[key := e];
      }
    }

    /** Drops what is finalized for one sender. */
    method AdvanceNonce(o: Owner, stateNonce: u64) returns (removed: nat)
      requires Valid()
      modifies this
      ensures Valid() && State() == Advance(old(State()), o, stateNonce)
      ensures removed == |old(entries)| - |entries|
      ensures forall key | key in entries && OwnerOf(key) == o :: key.nonce >= stateNonce
    {
      hide CountAll, ValidPool;
      ghost var p := State();
      AdvanceKeeps(s, p, o, stateNonce);
      assert senderCounts == CountAll(entries) by { CountsKept(s, p); }
      var keys := StaleKeys(entries, o, stateNonce);
      assert keys <= HeldBy(entries, o);
      CountRemove(entries, keys, o);
      entries := entries - keys;
      DecrementSender(o, |keys|);
      assert entries.Keys == old(entries).Keys - keys;
      assert |entries| == |entries.Keys| && |old(entries)| == |old(entries).Keys|;
      return |keys|;
    }

    method Senders(d: B256) returns (r: seq<Address>)
      ensures InOrder(AddressRank, r)
      ensures forall a :: a in r <==> Owner(d, a) in senderCounts
    {
      var rest := SendersOf(State(), d);
      ghost var all := rest;
      var list: seq<Address> := [];
      while rest != {}
        invariant rest <= all
        invariant forall a :: a in list <==> a in all && a !in rest
        invariant forall i, j | 0 <= i < j < |list| :: list[i] != list[j]
        decreases rest
      {
        var a :| a in rest;
        forall i | 0 <= i < |list|
          ensures list[i] != a
        {
          assert list[i] in list;
        }
        list := list + [a];
        rest := rest - {a};
      }
      SortOrders(AddressRank, list);
      SameElements(Sort(AddressRank, list), list);
      r := Sort(AddressRank, list);
      assert forall a :: a in all <==> Owner(d, a) in senderCounts by {
        forall a
          ensures a in all <==> Owner(d, a) in senderCounts
        {
          if Owner(d, a) in senderCounts {
            assert Owner(d, a).domain == d && Owner(d, a).sender == a;
          }
        }
      }
    }
  }

  lemma CountsKept(s: TxScheme, p: Pool)
    requires ValidPool(s, p)
    ensures p.senderCounts == CountAll(p.entries)
  {
  }

  /** The entries under `keys`, each once, in some order. */
  ghost predicate Lists(p: Pool, keys: set<Key>, list: seq<PoolEntry>) {
    && (forall i | 0 <= i < |list| ::
          KeyOf(list[i]) in keys && KeyOf(list[i]) in p.entries && p.entries[KeyOf(list[i])] == list[i])
    && (forall key | key in keys :: key in p.entries && p.entries[key] in list)
    && (forall i, j | 0 <= i < j < |list| :: KeyOf(list[i]) != KeyOf(list[j]))
  }

  function Without(p: Pool, gone: set<Key>): Pool {
    WithEntries(p, p.entries - gone)
  }

  /** One round of the reservation loop. */
  lemma TakeOne(p: Pool, keys: set<Key>, rest: set<Key>, key: Key)
    requires rest <= keys <= p.entries.Keys && key in rest
    ensures var now := Without(p, keys - rest);
            && key in now.entries && now.entries[key] == p.entries[key]
            && now.senderCounts == CountAll(now.entries)
            && Without(now, {key}) == Without(p, keys - (rest - {key}))
  {
    hide CountAll;
    assert keys - (rest - {key}) == (keys - rest) + {key};
    assert p.entries - (keys - rest) - {key} == p.entries - ((keys - rest) + {key});
  }

  lemma StartReserving(s: TxScheme, p: Pool, keys: set<Key>)
    requires ValidPool(s, p)
    ensures Without(p, keys - keys) == p && Lists(p, keys - keys, [])
  {
    hide CountAll;
    assert keys - keys == {};
    assert p.entries - {} == p.entries;
  }

  lemma ReservedPool(p: Pool, hashes: set<B256>)
    requires Keyed(p.entries)
    ensures Reserve(p, hashes).0 == Without(p, Matching(p.entries, hashes))
    ensures Reserve(p, hashes).1 == InKeyOrder(p.entries, Matching(p.entries, hashes))
  {
  }

  lemma ListOne(p: Pool, keys: set<Key>, key: Key, list: seq<PoolEntry>)
    requires Keyed(p.entries) && key in p.entries && key !in keys && Lists(p, keys, list)
    ensures Lists(p, keys + {key}, list + [p.entries[key]])
  {
    var longer := list + [p.entries[key]];
    forall x | x in keys + {key}
      ensures x in p.entries && p.entries[x] in longer
    {
      if x == key {
        assert longer[|list|] == p.entries[key];
      }
    }
  }

  lemma SortedReserved(p: Pool, keys: set<Key>, list: seq<PoolEntry>)
    requires Keyed(p.entries) && keys <= p.entries.Keys && Lists(p, keys, list)
    ensures Sort(KeyRank, list) == InKeyOrder(p.entries, keys)
  {
    hide KeyRank, InKeyOrder, Sort;
    forall i, j | 0 <= i < |list| && 0 <= j < |list|
      ensures |KeyRank(list[i])| == |KeyRank(list[j])|
      ensures KeyRank(list[i]) == KeyRank(list[j]) <==> KeyOf(list[i]) == KeyOf(list[j])
    {
      KeyRankInjective(list[i], list[j]);
    }
    SortOrders(KeyRank, list);
    SameElements(Sort(KeyRank, list), list);
    forall e
      ensures e in list <==> e in InKeyOrder(p.entries, keys)
    {
      if KeyOf(e) in keys && p.entries[KeyOf(e)] == e {
        assert p.entries[KeyOf(e)] in list;
      }
    }
    OrderUnique(KeyRank, Sort(KeyRank, list), InKeyOrder(p.entries, keys));
  }

  lemma RestoreNext(p: Pool, list: seq<PoolEntry>, i: nat)
    requires i < |list|
    ensures Restore(p, list[..i + 1]) == RestoreOne(Restore(p, list[..i]), list[i])
  {
    hide RestoreOne;
    assert list[..i + 1][..i] == list[..i];
  }

  lemma RestoreNone(p: Pool)
    ensures Restore(p, []) == p
  {
  }

  lemma AdvanceKeeps(s: TxScheme, p: Pool, o: Owner, nonce: u64)
    requires ValidPool(s, p)
    ensures ValidPool(s, Advance(p, o, nonce))
  {
    hide CountAll;
  }
}
