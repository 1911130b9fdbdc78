/** `select_transactions` as it runs over the pool: gather, sort, rotate, fill, sort. */
module Proposer {
  import opened Bytes
  import opened Canonical
  import opened Sorting
  import opened Mempool
  import opened MempoolQueues
  import opened Scheduler

  /** `list` holds, once each, the ready entries of domain `d` whose sender is among `senders`. */
  ghost predicate Gathered(entries: map<Key, PoolEntry>, nonces: Nonces, d: B256, senders: seq<Address>,
                           list: seq<PoolEntry>) {
    && (forall e | e in list ::
          KeyOf(e) in entries && entries[KeyOf(e)] == e && e.domainId == d && e.sender in senders &&
              IsReady(entries, nonces, KeyOf(e)))
    && (forall key | key in entries && key.domain == d && key.sender in senders && IsReady(entries, nonces, key) ::
          entries[key] in list)
    && (forall i, j | 0 <= i < j < |list| :: KeyOf(list[i]) != KeyOf(list[j]))
  }

  lemma RunGathered(entries: map<Key, PoolEntry>, nonces: Nonces, d: B256, a: Address)
    requires Keyed(entries)
    ensures Gathered(entries, nonces, d, [a], Ready(entries, Owner(d, a), nonces(Owner(d, a))))
  {
    hide Contiguous;
    var o := Owner(d, a);
    var from := nonces(o);
    var run := Ready(entries, o, from);
    ReadyIsRun(entries, o, from);
    forall i | 0 <= i < |run|
      ensures KeyOf(run[i]) == Key(d, a, from + i) && KeyOf(run[i]) in entries && entries[KeyOf(run[i])] == run[i]
      ensures IsReady(entries, nonces, KeyOf(run[i]))
    {
      assert HeldAt(entries, o, from, run[i], i);
      ContiguousIsReady(entries, o, from, from + i);
    }
    forall key | key in entries && key.domain == d && key.sender in [a] && IsReady(entries, nonces, key)
      ensures entries[key] in run
    {
      ContiguousIsReady(entries, o, from, key.nonce);
      assert HeldAt(entries, o, from, run[key.nonce - from], key.nonce - from);
    }
  }

  lemma GatherMore(entries: map<Key, PoolEntry>, nonces: Nonces, d: B256, senders: seq<Address>, a: Address,
                   list: seq<PoolEntry>, run: seq<PoolEntry>)
    requires Gathered(entries, nonces, d, senders, list) && Gathered(entries, nonces, d, [a], run) && a !in senders
    ensures Gathered(entries, nonces, d, senders + [a], list + run)
  {
    hide IsReady;
    var all := list + run;
    forall i, j | 0 <= i < j < |all|
      ensures KeyOf(all[i]) != KeyOf(all[j])
    {
      if i < |list| <= j {
        assert all[i] in list && all[j] in run;
        assert all[i].sender != all[j].sender;
      }
    }
  }

  lemma GatheredSorted(s: TxScheme, p: Pool, nonces: Nonces, d: B256, senders: seq<Address>, list: seq<PoolEntry>)
    requires ValidPool(s, p) && Keyed(p.entries)
    requires forall a :: a in senders <==> Owner(d, a) in p.senderCounts
    requires Gathered(p.entries, nonces, d, senders, list)
    ensures Sort(KeyRank, list) == ReadyList(p.entries, nonces, d)
  {
    hide KeyRank, IsReady, InKeyOrder, ValidPool, CountAll, Sort;
    var keys := ReadyKeys(p.entries, nonces, d);
    forall i, j | 0 <= i < |list| && 0 <= j < |list|
      ensures |KeyRank(list[i])| == |KeyRank(list[j])|
      ensures KeyRank(list[i]) == KeyRank(list[j]) <==> KeyOf(list[i]) == KeyOf(list[j])
    {
      KeyRankInjective(list[i], list[j]);
    }
    SortOrders(KeyRank, list);
    SameElements(Sort(KeyRank, list), list);
    CountsKept(s, p);
    forall e
      ensures e in list <==> e in InKeyOrder(p.entries, keys)
    {
      if KeyOf(e) in keys && p.entries[KeyOf(e)] == e {
        var key := KeyOf(e);
        assert key in HeldBy(p.entries, OwnerOf(key));
        CountIsHeld(p.entries, OwnerOf(key));
        assert p.entries[key] in list;
      }
    }
    OrderUnique(KeyRank, Sort(KeyRank, list), InKeyOrder(p.entries, keys));
  }

  method GatherDomain(q: Queues, nonces: Nonces, d: B256) returns (ready: seq<PoolEntry>)
    requires q.Valid() && Keyed(q.entries)
    ensures ready == ReadyList(q.entries, nonces, d)
  {
    hide KeyRank, ValidPool, Gathered, ReadyList, Ready, Sort;
    var senders := q.Senders(d);
    ready := [];
    NoneGathered(q.entries, nonces, d);
    for i := 0 to |senders|
      invariant Gathered(q.entries, nonces, d, senders[..i], ready)
    {
      var o := Owner(d, senders[i]);
      var run := q.ReadyRun(o, nonces(o));
      RunGathered(q.entries, nonces, d, senders[i]);
      OnceInOrder(senders, i);
      GatherMore(q.entries, nonces, d, senders[..i], senders[i], ready, run);
      assert senders[..i] + [senders[i]] == senders[..i + 1];
      ready := ready + run;
    }
    assert senders[..|senders|] == senders;
    GatheredSorted(q.s, q.State(), nonces, d, senders, ready);
    ready := Sort(KeyRank, ready);
  }

  lemma NoneGathered(entries: map<Key, PoolEntry>, nonces: Nonces, d: B256)
    ensures Gathered(entries, nonces, d, [], [])
  {
  }

  lemma OnceInOrder(senders: seq<Address>, i: nat)
    requires InOrder(AddressRank, senders) && i < |senders|
    ensures senders[i] !in senders[..i]
  {
    if j :| 0 <= j < i && senders[j] == senders[i] {
      LexIrreflexive(AddressRank(senders[i]));
    }
  }

  lemma FillNext(entries: seq<PoolEntry>, i: nat, limit: nat, quota: nat, domainGas: nat, total: nat, count: nat)
    requires i < |entries|
    ensures Fill(entries[i..], limit, quota, domainGas, total, count)
         == if Stops(entries[i], limit, quota, domainGas, total, count) then 0
            else 1 + Fill(entries[i + 1..], limit, quota, domainGas + entries[i].transaction.gasLimit,
                          total + entries[i].transaction.gasLimit, count + 1)
  {
    hide Stops;
    assert entries[i..][0] == entries[i] && entries[i..][1..] == entries[i + 1..];
  }

  /** One domain's turn: a bounded loop over its ready entries. */
  method TakeTurn(d: ReadyDomain, share: nat, aggregate: nat, count: nat) returns (turn: seq<PoolEntry>)
    ensures turn == Turn(d, share, aggregate, count)
  {
    hide Stops, Fill;
    var entries := d.entries[..Min(|d.entries|, MAX_FAIR_TRANSACTIONS)];
    var quota := Min(share, d.gasLimit);
    var domainGas: nat, total: nat := 0, aggregate;
    turn := [];
    ghost var n := Fill(entries, d.gasLimit, quota, 0, aggregate, count);
    assert entries[0..] == entries;
    for i := 0 to |entries|
      invariant turn == entries[..i]
      invariant n == i + Fill(entries[i..], d.gasLimit, quota, domainGas, total, count + i)
    {
      var e := entries[i];
      FillNext(entries, i, d.gasLimit, quota, domainGas, total, count + i);
      if Stops(e, d.gasLimit, quota, domainGas, total, count + |turn|) {
        return;
      }
      domainGas := domainGas + e.transaction.gasLimit;
      total := total + e.transaction.gasLimit;
      turn := turn + [e];
    }
    assert entries[|entries|..] == [];
  }

  method GatherReady(q: Queues, nonces: Nonces, domains: seq<DomainInfo>) returns (ready: seq<ReadyDomain>)
    requires q.Valid() && Keyed(q.entries)
    ensures ready == ReadyDomains(q.entries, nonces, domains)
  {
    hide ValidPool, ReadyList, Keyed;
    ready := [];
    for i := 0 to |domains|
      invariant ready == ReadyDomains(q.entries, nonces, domains[..i])
    {
      var list := GatherDomain(q, nonces, domains[i].id);
      assert domains[..i + 1][..i] == domains[..i];
      if list != [] {
        ready := ready + [ReadyDomain(domains[i].id, domains[i].gasLimit, list)];
      }
    }
    assert domains[..|domains|] == domains;
  }

  lemma ChooseNext(turns: seq<ReadyDomain>, i: nat, share: nat, aggregate: nat, count: nat)
    requires i < |turns|
    ensures var turn := Turn(turns[i], share, aggregate, count);
            var later := Join(Choose(turns[i + 1..], share, aggregate + Gas(turn), count + |turn|));
            Join(Choose(turns[i..], share, aggregate, count)) == turn + later
  {
    hide Turn;
    assert turns[i..][0] == turns[i] && turns[i..][1..] == turns[i + 1..];
    var turn := Turn(turns[i], share, aggregate, count);
    var later := Choose(turns[i + 1..], share, aggregate + Gas(turn), count + |turn|);
    assert Choose(turns[i..], share, aggregate, count)[1..] == later;
  }

  method TakeTurns(turns: seq<ReadyDomain>, share: nat) returns (selected: seq<PoolEntry>)
    ensures selected == Join(Choose(turns, share, 0, 0))
  {
    hide Turn, Choose, Join;
    var aggregate: nat := 0;
    selected := [];
    ghost var whole := Join(Choose(turns, share, 0, 0));
    assert turns[0..] == turns;
    for i := 0 to |turns|
      invariant whole == selected + Join(Choose(turns[i..], share, aggregate, |selected|))
    {
      var turn := TakeTurn(turns[i], share, aggregate, |selected|);
      ChooseNext(turns, i, share, aggregate, |selected|);
      selected := selected + turn;
      aggregate := aggregate + Gas(turn);
    }
    assert turns[|turns|..] == [];
    NoTurns(share, aggregate, |selected|);
  }

  lemma NoTurns(share: nat, aggregate: nat, count: nat)
    ensures Join(Choose([], share, aggregate, count)) == []
  {
  }

  method SelectTransactions(q: Queues, nonces: Nonces, domains: seq<DomainInfo>, cursor: nat)
    returns (selected: seq<PoolEntry>)
    requires q.Valid() && Keyed(q.entries)
    ensures selected == Selection(q.entries, nonces, domains, cursor)
  {
    hide KeyRank, ValidPool, ReadyDomains, Sort, Choose, Join, Keyed;
    var ready := GatherReady(q, nonces, domains);
    if ready == [] {
      return [];
    }
    selected := TakeTurns(Rotate(ready, cursor % |ready|), MAX_BLOCK_GAS / |ready|);
    selected := Sort(KeyRank, selected);
  }
}
