/** A run that ends above the pool limit: the capacity is not checked when entries are restored. */
module PoolLimit {
  import opened Wrappers
  import opened Bytes
  import opened Canonical
  import opened Sorting
  import opened Mempool
  import opened Scheduler
  import opened Booking

  const GAS_LIMIT: u64 := 30_000_000

  /** A first transaction a pool with room admits to a domain of this chain ID. */
  ghost predicate Admissible(s: TxScheme, cfg: Config, chainId: u64, envelope: Bytes) {
    && |envelope| <= cfg.maxBytes && s.decode(envelope).Some?
    && (var tx := s.decode(envelope).value;
        tx.chainId == chainId && tx.nonce == 0 && tx.gasLimit <= GAS_LIMIT && s.recover(tx).Some? && s.hash(tx).Some?)
  }

  ghost function EntryFor(s: TxScheme, cfg: Config, chainId: u64, d: B256, envelope: Bytes): PoolEntry
    requires Admissible(s, cfg, chainId, envelope)
  {
    var tx := s.decode(envelope).value;
    PoolEntry(d, s.recover(tx).value, s.hash(tx).value, envelope, tx)
  }

  ghost function Registered(d: B256, chainId: u64): Pool {
    Pool(map[d := chainId], {chainId}, map[], map[])
  }

  /** The registered domain with one held entry. */
  ghost function Holding(d: B256, chainId: u64, e: PoolEntry): Pool {
    WithEntries(Registered(d, chainId), map[KeyOf(e) := e])
  }

  lemma RegistersFirst(s: TxScheme, cfg: Config, d: B256, chainId: u64)
    requires chainId != 0
    ensures Keyed(EMPTY_POOL.entries)
    ensures Next(s, cfg, Books(EMPTY_POOL, None), Registering([Route(d, chainId)])) ==
      Books(Registered(d, chainId), None)
  {
    var routes := [Route(d, chainId)];
    assert routes[..0] == [];
    assert RegisterAll(EMPTY_POOL, routes[..0]) == Ok(EMPTY_POOL);
  }

  lemma AdmitsFirst(s: TxScheme, cfg: Config, d: B256, chainId: u64, envelope: Bytes, reserved: Option<seq<PoolEntry>>)
    requires Admissible(s, cfg, chainId, envelope) && cfg.maxTransactions == 1 && cfg.maxPerSender > 0
    ensures Keyed(Registered(d, chainId).entries)
    ensures Next(s, cfg, Books(Registered(d, chainId), reserved), Submit(d, envelope, 0))
         == Books(Holding(d, chainId, EntryFor(s, cfg, chainId, d, envelope)), reserved)
  {
    hide CountAll;
    var p, e := Registered(d, chainId), EntryFor(s, cfg, chainId, d, envelope);
    assert p.entries[KeyOf(e) := e] == map[KeyOf(e) := e];
  }

  /** With one fitting entry at its finalized nonce, the proposer selects exactly that entry. */
  lemma SelectsOnly(d: B256, chainId: u64, e: PoolEntry, nonces: Nonces)
    requires e.domainId == d && e.transaction.nonce == 0 && e.transaction.gasLimit <= GAS_LIMIT
    requires forall o :: nonces(o) == 0
    ensures Keyed(Holding(d, chainId, e).entries)
    ensures Selection(Holding(d, chainId, e).entries, nonces, [DomainInfo(d, GAS_LIMIT)], 0) == [e]
  {
    hide Selection, CountAll, KeyRank, LexLess, ReadyDomains;
    var entries := map[KeyOf(e) := e];
    var domains := [DomainInfo(d, GAS_LIMIT)];
    ReadyOnly(d, e, nonces);
    FirstSelected(View(entries, nonces), domains, 0);
    SelectionSound(entries, nonces, domains, 0);
    var selected := Selection(entries, nonces, domains, 0);
    forall x | x in selected
      ensures x == e
    {
      assert KeyOf(x) in entries && entries[KeyOf(x)] == x;
    }
    OnlyOnce(e, selected);
  }

  lemma ReadyOnly(d: B256, e: PoolEntry, nonces: Nonces)
    requires e.domainId == d && e.transaction.nonce == 0 && forall o :: nonces(o) == 0
    ensures Keyed(map[KeyOf(e) := e])
    ensures ReadyDomains(map[KeyOf(e) := e], nonces, [DomainInfo(d, GAS_LIMIT)]) == [ReadyDomain(d, GAS_LIMIT, [e])]
  {
    hide KeyRank, LexLess;
    var entries := map[KeyOf(e) := e];
    var domains := [DomainInfo(d, GAS_LIMIT)];
    assert IsReady(entries, nonces, KeyOf(e));
    var list := ReadyList(entries, nonces, d);
    assert forall x :: x in list <==> x == e;
    OnlyOnce(e, list);
    assert domains[..0] == [];
    assert ReadyDomains(entries, nonces, domains[..0]) == [];
  }

  lemma OnlyOnce(e: PoolEntry, list: seq<PoolEntry>)
    requires InOrder(KeyRank, list) && e in list && forall x | x in list :: x == e
    ensures list == [e]
  {
    hide KeyRank, LexLess;
    OrderUnique(KeyRank, list, [e]);
  }

  lemma ReservesOnly(d: B256, chainId: u64, e: PoolEntry)
    ensures Keyed(Holding(d, chainId, e).entries)
    ensures Reserve(Holding(d, chainId, e), HashesOf([e])) == (Registered(d, chainId), [e])
  {
    hide KeyRank, LexLess;
    var p := Holding(d, chainId, e);
    assert e in [e];
    assert e.transactionHash in HashesOf([e]);
    var keys := Matching(p.entries, HashesOf([e]));
    assert keys == {KeyOf(e)};
    assert p.entries - keys == map[];
    assert CountAll(map[]) == map[];
    var list := InKeyOrder(p.entries, keys);
    assert forall x :: x in list <==> x == e;
    OnlyOnce(e, list);
  }

  lemma BuildsOnly(s: TxScheme, cfg: Config, d: B256, chainId: u64, e: PoolEntry, nonces: Nonces)
    requires e.domainId == d && e.transaction.nonce == 0 && e.transaction.gasLimit <= GAS_LIMIT
    requires forall o :: nonces(o) == 0
    ensures var b, a := Books(Holding(d, chainId, e), None), Build(nonces, [DomainInfo(d, GAS_LIMIT)], 0, true);
            && Keyed(b.pool.entries) && Fits(b, a)
            && Next(s, cfg, b, a) == Books(Registered(d, chainId), Some([e]))
  {
    hide Selection, Reserve, CountAll;
    SelectsOnly(d, chainId, e, nonces);
    ReservesOnly(d, chainId, e);
  }

  lemma RestoresSecond(d: B256, chainId: u64, a: PoolEntry, b: PoolEntry)
    requires a.domainId == d && KeyOf(a) != KeyOf(b)
    ensures |Restore(Holding(d, chainId, b), [a]).entries| == 2
  {
    hide CountAll, Restore, Returning;
    var p := Holding(d, chainId, b);
    RestoreAdds(p, [a]);
    assert |p.entries| == 1;
    OneReturns(p, a);
  }

  lemma OneReturns(p: Pool, a: PoolEntry)
    requires a.domainId in p.chainIds && KeyOf(a) !in p.entries
    ensures Returning(p, [a]) == {KeyOf(a)}
  {
    assert a in [a];
  }

  /** With any two admissible transactions of different senders and a limit of one: register, submit the
      first, build, submit the second, abandon. The pool then holds two entries. */
  lemma LimitExceeded(s: TxScheme, cfg: Config, d: B256, chainId: u64, first: Bytes, second: Bytes, nonces: Nonces)
    returns (states: seq<Books>, actions: seq<Action>)
    requires cfg.maxTransactions == 1 && cfg.maxPerSender > 0 && chainId != 0 && forall o :: nonces(o) == 0
    requires Admissible(s, cfg, chainId, first) && Admissible(s, cfg, chainId, second)
    requires s.recover(s.decode(first).value) != s.recover(s.decode(second).value)
    ensures IsRun(s, cfg, states, actions)
    ensures |states[|states| - 1].pool.entries| == 2 && cfg.maxTransactions == 1
  {
    hide Next, CountAll, Restore, Holding, Fits, Keyed;
    var a, b := EntryFor(s, cfg, chainId, d, first), EntryFor(s, cfg, chainId, d, second);
    var build := Build(nonces, [DomainInfo(d, GAS_LIMIT)], 0, true);
    var p := Registered(d, chainId);
    RegistersFirst(s, cfg, d, chainId);
    AdmitsFirst(s, cfg, d, chainId, first, None);
    BuildsOnly(s, cfg, d, chainId, a, nonces);
    AdmitsFirst(s, cfg, d, chainId, second, Some([a]));
    RestoresSecond(d, chainId, a, b);
    HoldsKeyed(d, chainId, b);
    NextAbandon(s, cfg, Holding(d, chainId, b), [a]);
    states := [Books(EMPTY_POOL, None), Books(p, None), Books(Holding(d, chainId, a), None), Books(p, Some([a])),
               Books(Holding(d, chainId, b), Some([a])), Books(Restore(Holding(d, chainId, b), [a]), None)];
    actions := [Registering([Route(d, chainId)]), Submit(d, first, 0), build, Submit(d, second, 0), Abandon];
    forall i | 0 <= i < |actions|
      ensures Fits(states[i], actions[i])
    {
      if i != 2 {
        FitsOthers(states[i], actions[i]);
      }
    }
  }

  lemma HoldsKeyed(d: B256, chainId: u64, e: PoolEntry)
    ensures Keyed(Holding(d, chainId, e).entries)
  {
  }

  lemma NextAbandon(s: TxScheme, cfg: Config, p: Pool, list: seq<PoolEntry>)
    requires Keyed(p.entries)
    ensures Next(s, cfg, Books(p, Some(list)), Abandon) == Books(Restore(p, list), None)
  {
    hide Restore;
  }

  lemma FitsOthers(b: Books, a: Action)
    requires !a.Build?
    ensures Fits(b, a)
  {
  }
}
