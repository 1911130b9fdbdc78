/** The rotating proposer: which ready transactions one block takes. */
module Scheduler {
  import opened Bytes
  import opened Sorting
  import opened Mempool

  const MAX_BLOCK_GAS: nat := 120_000_000
  const MAX_PROPOSAL_TRANSACTIONS: nat := 10_000
  const MAX_FAIR_TRANSACTIONS: nat := 1_024

  datatype DomainInfo = DomainInfo(id: B256, gasLimit: u64)
  datatype ReadyDomain = ReadyDomain(id: B256, gasLimit: u64, entries: seq<PoolEntry>)

  // ----- what is ready -----

  /** Finalized nonce of every sender. */
  type Nonces = Owner -> u64

  ghost predicate IsReady(entries: map<Key, PoolEntry>, nonces: Nonces, key: Key) {
    && nonces(OwnerOf(key)) <= key.nonce
    && Contiguous(entries, OwnerOf(key), nonces(OwnerOf(key)), key.nonce)
  }

  ghost function ReadyKeys(entries: map<Key, PoolEntry>, nonces: Nonces, d: B256): set<Key> {
    set key | key in entries && key.domain == d && IsReady(entries, nonces, key)
  }

  ghost function ReadyList(entries: map<Key, PoolEntry>, nonces: Nonces, d: B256): seq<PoolEntry>
    requires Keyed(entries)
  {
    InKeyOrder(entries, ReadyKeys(entries, nonces, d))
  }

  /** Domains with something ready, in the order they are given. */
  ghost function ReadyDomains(entries: map<Key, PoolEntry>, nonces: Nonces, domains: seq<DomainInfo>): seq<ReadyDomain>
    requires Keyed(entries)
  {
    if domains == [] then [] else
    var last := domains[|domains| - 1];
    var list := ReadyList(entries, nonces, last.id);
    ReadyDomains(entries, nonces, domains[..|domains| - 1])
      + if list == [] then [] else [ReadyDomain(last.id, last.gasLimit, list)]
  }

  // ----- what one block takes -----

  function Gas(entries: seq<PoolEntry>): nat {
    if entries == [] then 0 else Gas(entries[..|entries| - 1]) + entries[|entries| - 1].transaction.gasLimit
  }

  lemma {:induction false} GasFirst(entries: seq<PoolEntry>)
    requires entries != []
    ensures Gas(entries) == entries[0].transaction.gasLimit + Gas(entries[1..])
  {
    if |entries| > 1 {
      GasFirst(entries[..|entries| - 1]);
      assert entries[..|entries| - 1][1..] == entries[1..][..|entries| - 2];
    }
  }

  /** The entry that ends a domain's turn: over the domain limit, the block limit, the fair share
      (unless it is the domain's first gas), or the transaction cap. */
  predicate Stops(e: PoolEntry, limit: nat, quota: nat, domainGas: nat, aggregate: nat, count: nat) {
    var nextDomain, nextAggregate := domainGas + e.transaction.gasLimit, aggregate + e.transaction.gasLimit;
    || nextDomain > U64_MAX
    || nextAggregate > U64_MAX
    || nextDomain > limit
    || nextAggregate > MAX_BLOCK_GAS
    || (nextDomain > quota && domainGas != 0)
    || count >= MAX_PROPOSAL_TRANSACTIONS
  }

  /** How many entries of a domain are taken. */
  function Fill(entries: seq<PoolEntry>, limit: nat, quota: nat, domainGas: nat, aggregate: nat, count: nat): (n: nat)
    ensures n <= |entries|
  {
    if entries == [] || Stops(entries[0], limit, quota, domainGas, aggregate, count) then 0 else
    var gas := entries[0].transaction.gasLimit;
    1 + Fill(entries[1..], limit, quota, domainGas + gas, aggregate + gas, count + 1)
  }

  function Turn(d: ReadyDomain, share: nat, aggregate: nat, count: nat): seq<PoolEntry> {
    var entries := d.entries[..Min(|d.entries|, MAX_FAIR_TRANSACTIONS)];
    entries[..Fill(entries, d.gasLimit, Min(share, d.gasLimit), 0, aggregate, count)]
  }

  /** One selection per domain, in turn. */
  function Choose(domains: seq<ReadyDomain>, share: nat, aggregate: nat, count: nat): (r: seq<seq<PoolEntry>>)
    ensures |r| == |domains|
  {
    if domains == [] then [] else
    var turn := Turn(domains[0], share, aggregate, count);
    [turn] + Choose(domains[1..], share, aggregate + Gas(turn), count + |turn|)
  }

  function Join(parts: seq<seq<PoolEntry>>): seq<PoolEntry> {
    if parts == [] then [] else parts[0] + Join(parts[1..])
  }

  function Rotate<T>(s: seq<T>, n: nat): (r: seq<T>)
    requires n <= |s|
    ensures |r| == |s|
  {
    s[n..] + s[..n]
  }

  ghost function Turns(ready: seq<ReadyDomain>, cursor: nat): (r: seq<ReadyDomain>)
    requires ready != []
    ensures |r| == |ready|
  {
    Rotate(ready, cursor % |ready|)
  }

  ghost function Chosen(ready: seq<ReadyDomain>, cursor: nat): (r: seq<seq<PoolEntry>>)
    requires ready != []
    ensures |r| == |ready|
  {
    Choose(Turns(ready, cursor), MAX_BLOCK_GAS / |ready|, 0, 0)
  }

  /** `select_transactions`: the chosen entries sorted by domain, sender and nonce. */
  ghost function Selection(entries: map<Key, PoolEntry>, nonces: Nonces, domains: seq<DomainInfo>, cursor: nat)
    : seq<PoolEntry>
    requires Keyed(entries)
  {
    var ready := ReadyDomains(entries, nonces, domains);
    if ready == [] then [] else Sort(KeyRank, Join(Chosen(ready, cursor)))
  }

  // ----- limits -----

  /** A turn respects every limit, and goes past the fair share only with its first gas. */
  ghost predicate Within(taken: seq<PoolEntry>, limit: nat, quota: nat, domainGas: nat, aggregate: nat, count: nat) {
    && (taken == [] || domainGas + Gas(taken) <= limit)
    && (taken == [] || aggregate + Gas(taken) <= MAX_BLOCK_GAS)
    && (taken == [] || count + |taken| <= MAX_PROPOSAL_TRANSACTIONS)
    && (taken == [] || domainGas + Gas(taken) <= quota || domainGas + Gas(taken[..|taken| - 1]) == 0)
  }

  lemma {:induction false} FillWithin(entries: seq<PoolEntry>, limit: nat, quota: nat, domainGas: nat, aggregate: nat,
                                      count: nat)
    ensures Within(entries[..Fill(entries, limit, quota, domainGas, aggregate, count)], limit, quota, domainGas,
      aggregate, count)
    decreases |entries|
  {
    var n := Fill(entries, limit, quota, domainGas, aggregate, count);
    if n > 0 {
      var gas := entries[0].transaction.gasLimit;
      var taken, rest := entries[..n], entries[1..][..n - 1];
      FillWithin(entries[1..], limit, quota, domainGas + gas, aggregate + gas, count + 1);
      assert taken[1..] == rest;
      GasFirst(taken);
      if n == 1 {
        assert taken[..n - 1] == [] && rest == [];
      } else {
        GasFirst(taken[..n - 1]);
        assert taken[..n - 1][1..] == rest[..n - 2];
      }
    }
  }

  ghost predicate Respects(turn: seq<PoolEntry>, d: ReadyDomain, share: nat) {
    && turn <= d.entries
    && |turn| <= MAX_FAIR_TRANSACTIONS
    && Gas(turn) <= d.gasLimit
    && (turn == [] || Gas(turn) <= share || Gas(turn[..|turn| - 1]) == 0)
  }

  lemma TurnRespects(d: ReadyDomain, share: nat, aggregate: nat, count: nat)
    ensures var turn := Turn(d, share, aggregate, count);
            && Respects(turn, d, share)
            && (aggregate <= MAX_BLOCK_GAS ==> aggregate + Gas(turn) <= MAX_BLOCK_GAS)
            && (count <= MAX_PROPOSAL_TRANSACTIONS ==> count + |turn| <= MAX_PROPOSAL_TRANSACTIONS)
  {
    var entries := d.entries[..Min(|d.entries|, MAX_FAIR_TRANSACTIONS)];
    FillWithin(entries, d.gasLimit, Min(share, d.gasLimit), 0, aggregate, count);
    var turn := Turn(d, share, aggregate, count);
    assert turn == d.entries[..|turn|];
  }

  lemma {:induction false} GasOfConcat(a: seq<PoolEntry>, b: seq<PoolEntry>)
    ensures Gas(a + b) == Gas(a) + Gas(b)
  {
    if b == [] {
      assert a + b == a;
    } else {
      GasOfConcat(a, b[..|b| - 1]);
      assert (a + b)[..|a + b| - 1] == a + b[..|b| - 1];
    }
  }

  lemma {:induction false} ChooseRespects(domains: seq<ReadyDomain>, share: nat, aggregate: nat, count: nat)
    requires aggregate <= MAX_BLOCK_GAS && count <= MAX_PROPOSAL_TRANSACTIONS
    ensures var parts := Choose(domains, share, aggregate, count);
            && (forall i | 0 <= i < |domains| :: Respects(parts[i], domains[i], share))
            && aggregate + Gas(Join(parts)) <= MAX_BLOCK_GAS
            && count + |Join(parts)| <= MAX_PROPOSAL_TRANSACTIONS
    decreases |domains|
  {
    hide Turn, Respects;
    if domains != [] {
      var turn := Turn(domains[0], share, aggregate, count);
      TurnRespects(domains[0], share, aggregate, count);
      ChooseRespects(domains[1..], share, aggregate + Gas(turn), count + |turn|);
      var rest := Choose(domains[1..], share, aggregate + Gas(turn), count + |turn|);
      var parts := Choose(domains, share, aggregate, count);
      assert parts[1..] == rest;
      GasOfConcat(turn, Join(rest));
      forall i | 0 <= i < |domains|
        ensures Respects(parts[i], domains[i], share)
      {
        if i > 0 {
          assert parts[i] == rest[i - 1] && domains[i] == domains[1..][i - 1];
        }
      }
    }
  }

  /** Every block respects each domain's gas limit, the block gas limit and both transaction caps. */
  lemma SelectionLimits(ready: seq<ReadyDomain>, cursor: nat)
    requires ready != []
    ensures forall i | 0 <= i < |ready| ::
              Respects(Chosen(ready, cursor)[i], Turns(ready, cursor)[i], MAX_BLOCK_GAS / |ready|)
    ensures Gas(Join(Chosen(ready, cursor))) <= MAX_BLOCK_GAS
    ensures |Join(Chosen(ready, cursor))| <= MAX_PROPOSAL_TRANSACTIONS
  {
    ChooseRespects(Turns(ready, cursor), MAX_BLOCK_GAS / |ready|, 0, 0);
  }

  // ----- fairness -----

  /** The domain whose turn is first is served whenever its first entry fits its own limit. */
  lemma FirstServed(ready: seq<ReadyDomain>, cursor: nat)
    requires ready != []
    requires var d := Turns(ready, cursor)[0];
             d.entries != [] && d.entries[0].transaction.gasLimit <= d.gasLimit <= MAX_BLOCK_GAS
    ensures Chosen(ready, cursor)[0] != []
  {
    var d := Turns(ready, cursor)[0];
    var entries := d.entries[..Min(|d.entries|, MAX_FAIR_TRANSACTIONS)];
    assert entries[0] == d.entries[0];
    assert !Stops(entries[0], d.gasLimit, Min(MAX_BLOCK_GAS / |ready|, d.gasLimit), 0, 0, 0);
  }

  /** The cursor after `commits` more blocks while the number of domains stays the same. */
  function CursorAfter(cursor: nat, domainCount: nat, commits: nat): nat
    requires domainCount > 0
  {
    if commits == 0 then cursor else (CursorAfter(cursor, domainCount, commits - 1) + 1) % domainCount
  }

  lemma {:induction false} CursorWraps(cursor: nat, domainCount: nat, commits: nat)
    requires cursor < domainCount && commits <= domainCount
    ensures var sum := cursor + commits;
            CursorAfter(cursor, domainCount, commits) == if sum < domainCount then sum else sum - domainCount
    decreases commits
  {
    if commits > 0 {
      CursorWraps(cursor, domainCount, commits - 1);
      NextCursor(CursorAfter(cursor, domainCount, commits - 1), domainCount);
    }
  }

  lemma NextCursor(cursor: nat, domainCount: nat)
    requires cursor < domainCount
    ensures (cursor + 1) % domainCount == if cursor + 1 == domainCount then 0 else cursor + 1
  {
  }

  lemma Unmoved(j: nat, n: nat)
    requires j < n
    ensures j % n == j
  {
  }

  // ----- what a selection consists of -----

  ghost predicate DistinctIds(ids: seq<B256>) {
    forall i, j | 0 <= i < j < |ids| :: ids[i] != ids[j]
  }

  ghost function DomainIds(domains: seq<DomainInfo>): seq<B256> {
    seq<B256>(|domains|, i requires 0 <= i < |domains| => domains[i].id)
  }

  ghost predicate DistinctDomains(ready: seq<ReadyDomain>) {
    forall i, j | 0 <= i < j < |ready| :: ready[i].id != ready[j].id
  }

  /** Each ready domain carries its whole ready list. */
  ghost predicate Carries(entries: map<Key, PoolEntry>, nonces: Nonces, r: ReadyDomain)
    requires Keyed(entries)
  {
    r.entries == ReadyList(entries, nonces, r.id)
  }

  lemma {:induction false} ReadyDomainsCarry(entries: map<Key, PoolEntry>, nonces: Nonces, domains: seq<DomainInfo>)
    requires Keyed(entries) && DistinctIds(DomainIds(domains))
    ensures var ready := ReadyDomains(entries, nonces, domains);
            && DistinctDomains(ready)
            && |ready| <= |domains|
            && (forall r | r in ready :: Carries(entries, nonces, r) && r.entries != [] &&
                 DomainInfo(r.id, r.gasLimit) in domains)
  {
    hide ReadyList;
    if domains != [] {
      var first, last := domains[..|domains| - 1], domains[|domains| - 1];
      assert DistinctIds(DomainIds(first)) by {
        forall i, j | 0 <= i < j < |first|
          ensures DomainIds(first)[i] != DomainIds(first)[j]
        {
          assert DomainIds(domains)[i] != DomainIds(domains)[j];
        }
      }
      ReadyDomainsCarry(entries, nonces, first);
      var ready := ReadyDomains(entries, nonces, first);
      forall i | 0 <= i < |ready|
        ensures ready[i].id != last.id
      {
        assert ready[i] in ready;
        var n :| 0 <= n < |first| && first[n] == DomainInfo(ready[i].id, ready[i].gasLimit);
        assert DomainIds(domains)[n] != DomainIds(domains)[|domains| - 1];
      }
    }
  }

  lemma RotateDistinct(ready: seq<ReadyDomain>, n: nat)
    requires n <= |ready| && DistinctDomains(ready)
    ensures DistinctDomains(Rotate(ready, n))
    ensures forall r | r in Rotate(ready, n) :: r in ready
  {
    var turned := Rotate(ready, n);
    forall i, j | 0 <= i < j < |turned|
      ensures turned[i].id != turned[j].id
    {
      var a := if i < |ready| - n then n + i else i - (|ready| - n);
      var b := if j < |ready| - n then n + j else j - (|ready| - n);
      assert turned[i] == ready[a] && turned[j] == ready[b];
    }
  }

  ghost predicate Prefixes(parts: seq<seq<PoolEntry>>, turns: seq<ReadyDomain>) {
    |parts| == |turns| && forall i | 0 <= i < |parts| :: parts[i] <= turns[i].entries
  }

  lemma {:induction false} JoinElements(parts: seq<seq<PoolEntry>>, e: PoolEntry)
    ensures e in Join(parts) <==> exists i :: 0 <= i < |parts| && e in parts[i]
  {
    if parts != [] {
      JoinElements(parts[1..], e);
      if i :| 0 <= i < |parts| && e in parts[i] {
        if i > 0 {
          assert parts[1..][i - 1] == parts[i];
        }
      }
      if e in Join(parts[1..]) {
        var i :| 0 <= i < |parts[1..]| && e in parts[1..][i];
        assert e in parts[i + 1];
      }
    }
  }

  /** Entries of a turn belong to its domain and are held. */
  lemma CarriedEntries(entries: map<Key, PoolEntry>, nonces: Nonces, r: ReadyDomain, e: PoolEntry)
    requires Keyed(entries) && Carries(entries, nonces, r) && e in r.entries
    ensures KeyOf(e) in entries && entries[KeyOf(e)] == e && e.domainId == r.id && IsReady(entries, nonces, KeyOf(e))
  {
    hide KeyRank, IsReady;
  }

  lemma PrefixApart(entries: map<Key, PoolEntry>, nonces: Nonces, r: ReadyDomain, part: seq<PoolEntry>)
    requires Keyed(entries) && Carries(entries, nonces, r) && part <= r.entries
    ensures Apart(KeyRank, part)
  {
    hide KeyRank, IsReady, LexLess;
    forall i, j | 0 <= i < |part| && 0 <= j < |part|
      ensures |KeyRank(part[i])| == |KeyRank(part[j])|
    {
      KeyRankInjective(part[i], part[j]);
    }
    forall i, j | 0 <= i < j < |part|
      ensures KeyRank(part[i]) != KeyRank(part[j])
    {
      assert part[i] == r.entries[i] && part[j] == r.entries[j];
      assert LexLess(KeyRank(part[i]), KeyRank(part[j]));
      LexIrreflexive(KeyRank(part[i]));
    }
  }

  lemma ApartConcat(a: seq<PoolEntry>, b: seq<PoolEntry>)
    requires Apart(KeyRank, a) && Apart(KeyRank, b)
    requires forall x, y | x in a && y in b :: x.domainId != y.domainId
    ensures Apart(KeyRank, a + b)
  {
    hide KeyRank;
    var c := a + b;
    forall i, j | 0 <= i < |c| && 0 <= j < |c|
      ensures |KeyRank(c[i])| == |KeyRank(c[j])|
    {
      KeyRankInjective(c[i], c[j]);
    }
    forall i, j | 0 <= i < j < |c|
      ensures KeyRank(c[i]) != KeyRank(c[j])
    {
      if i < |a| <= j {
        assert c[i] in a && c[j] in b;
        KeyRankInjective(c[i], c[j]);
      }
    }
  }

  lemma {:induction false} JoinApart(entries: map<Key, PoolEntry>, nonces: Nonces, turns: seq<ReadyDomain>,
                                     parts: seq<seq<PoolEntry>>)
    requires Keyed(entries) && DistinctDomains(turns) && Prefixes(parts, turns)
    requires forall r | r in turns :: Carries(entries, nonces, r)
    ensures Apart(KeyRank, Join(parts))
    decreases |parts|
  {
    hide KeyRank, Apart, Carries;
    if parts == [] {
      NothingApart();
    } else {
      var rest, later := parts[1..], turns[1..];
      assert Prefixes(rest, later) by {
        forall i | 0 <= i < |rest|
          ensures rest[i] <= later[i].entries
        {
          assert parts[i + 1] <= turns[i + 1].entries;
        }
      }
      JoinApart(entries, nonces, later, rest);
      PrefixApart(entries, nonces, turns[0], parts[0]);
      forall x, y | x in parts[0] && y in Join(rest)
        ensures x.domainId != y.domainId
      {
        CarriedEntries(entries, nonces, turns[0], x);
        JoinElements(rest, y);
        var i :| 0 <= i < |rest| && y in rest[i];
        assert turns[i + 1] in turns;
        CarriedEntries(entries, nonces, turns[i + 1], y);
      }
      ApartConcat(parts[0], Join(rest));
    }
  }

  lemma NothingApart()
    ensures Apart(KeyRank, Join([]))
  {
  }

  /** Every lower nonce of a selected entry's sender, down to the finalized one, is selected too. */
  ghost predicate GapFree(entries: map<Key, PoolEntry>, nonces: Nonces, selected: seq<PoolEntry>) {
    forall e, n: u64 | e in selected && nonces(Owner(e.domainId, e.sender)) <= n <= e.transaction.nonce ::
      Key(e.domainId, e.sender, n) in entries && entries[Key(e.domainId, e.sender, n)] in selected
  }

  lemma LowerNonceFirst(a: PoolEntry, b: PoolEntry)
    requires a.domainId == b.domainId && a.sender == b.sender && a.transaction.nonce < b.transaction.nonce
    ensures LexLess(KeyRank(a), KeyRank(b))
  {
    var x, y := KeyRank(a), KeyRank(b);
    assert x[..52] == a.domainId + a.sender == y[..52];
    assert x[52] < y[52];
  }

  lemma PrefixClosed(entries: map<Key, PoolEntry>, nonces: Nonces, r: ReadyDomain, part: seq<PoolEntry>, e: PoolEntry,
                     n: u64)
    requires Keyed(entries) && Carries(entries, nonces, r) && part <= r.entries && e in part
    requires nonces(Owner(e.domainId, e.sender)) <= n <= e.transaction.nonce
    ensures Key(e.domainId, e.sender, n) in entries && entries[Key(e.domainId, e.sender, n)] in part
  {
    hide KeyRank, LexLess;
    CarriedEntries(entries, nonces, r, e);
    var key := Key(e.domainId, e.sender, n);
    assert key in entries;
    var f := entries[key];
    assert IsReady(entries, nonces, key);
    assert KeyOf(f) == key && f in r.entries;
    if n < e.transaction.nonce {
      LowerNonceFirst(f, e);
      var i :| 0 <= i < |part| && part[i] == e;
      var j :| 0 <= j < |r.entries| && r.entries[j] == f;
      assert r.entries[i] == e;
      LexAsymmetric(KeyRank(f), KeyRank(e));
      LexIrreflexive(KeyRank(e));
      assert j < i;
      assert part[j] == f;
    } else {
      assert f == e;
    }
  }

  lemma SelectionParts(entries: map<Key, PoolEntry>, nonces: Nonces, domains: seq<DomainInfo>, cursor: nat)
    requires Keyed(entries) && DistinctIds(DomainIds(domains))
    requires ReadyDomains(entries, nonces, domains) != []
    ensures var ready := ReadyDomains(entries, nonces, domains);
            var turns, parts := Turns(ready, cursor), Chosen(ready, cursor);
            && DistinctDomains(turns) && Prefixes(parts, turns)
            && (forall r | r in turns :: Carries(entries, nonces, r))
  {
    hide ReadyDomains, Carries, Choose;
    var ready := ReadyDomains(entries, nonces, domains);
    ReadyDomainsCarry(entries, nonces, domains);
    RotateDistinct(ready, cursor % |ready|);
    SelectionLimits(ready, cursor);
  }

  /** What the engine relies on: the selection is an ordered list of at most 10,000 held entries, each
      ready, with a gap-free nonce run from the finalized nonce per sender. */
  lemma SelectionSound(entries: map<Key, PoolEntry>, nonces: Nonces, domains: seq<DomainInfo>, cursor: nat)
    requires Keyed(entries) && DistinctIds(DomainIds(domains))
    ensures var selected := Selection(entries, nonces, domains, cursor);
            && InOrder(KeyRank, selected)
            && |selected| <= MAX_PROPOSAL_TRANSACTIONS
            && (forall e | e in selected ::
                  && KeyOf(e) in entries && entries[KeyOf(e)] == e
                  && IsReady(entries, nonces, KeyOf(e)) && e.domainId in DomainIds(domains))
            && GapFree(entries, nonces, selected)
  {
    hide ReadyDomains, Turns, Chosen, Carries, KeyRank, IsReady, Sort, Join, LexLess;
    var ready := ReadyDomains(entries, nonces, domains);
    if ready != [] {
      var turns, parts := Turns(ready, cursor), Chosen(ready, cursor);
      SelectionParts(entries, nonces, domains, cursor);
      SelectionLimits(ready, cursor);
      JoinApart(entries, nonces, turns, parts);
      SortOrders(KeyRank, Join(parts));
      SameElements(Sort(KeyRank, Join(parts)), Join(parts));
      forall e | e in Join(parts)
        ensures KeyOf(e) in entries && entries[KeyOf(e)] == e && IsReady(entries, nonces, KeyOf(e)) &&
          e.domainId in DomainIds(domains)
      {
        JoinElements(parts, e);
        var i :| 0 <= i < |parts| && e in parts[i];
        CarriedEntries(entries, nonces, turns[i], e);
        TurnKnown(entries, nonces, domains, cursor, turns[i]);
      }
      forall e, n: u64 | e in Join(parts) && nonces(Owner(e.domainId, e.sender)) <= n <= e.transaction.nonce
        ensures Key(e.domainId, e.sender, n) in entries && entries[Key(e.domainId, e.sender, n)] in Join(parts)
      {
        JoinElements(parts, e);
        var i :| 0 <= i < |parts| && e in parts[i];
        PrefixClosed(entries, nonces, turns[i], parts[i], e, n);
        JoinElements(parts, entries[Key(e.domainId, e.sender, n)]);
      }
    }
  }

  lemma TurnKnown(entries: map<Key, PoolEntry>, nonces: Nonces, domains: seq<DomainInfo>, cursor: nat, r: ReadyDomain)
    requires Keyed(entries) && DistinctIds(DomainIds(domains))
    requires var ready := ReadyDomains(entries, nonces, domains); ready != [] && r in Turns(ready, cursor)
    ensures r.id in DomainIds(domains)
  {
    hide ReadyDomains, Carries;
    var ready := ReadyDomains(entries, nonces, domains);
    ReadyDomainsCarry(entries, nonces, domains);
    RotateDistinct(ready, cursor % |ready|);
    var i :| 0 <= i < |domains| && domains[i] == DomainInfo(r.id, r.gasLimit);
    assert DomainIds(domains)[i] == r.id;
  }

  // ----- limits of a selection -----

  function Dropped(s: seq<PoolEntry>, i: nat): seq<PoolEntry>
    requires i < |s|
  {
    s[..i] + s[i + 1..]
  }

  lemma GasDropped(s: seq<PoolEntry>, i: nat)
    requires i < |s|
    ensures Gas(s) == Gas(Dropped(s, i)) + s[i].transaction.gasLimit
  {
    assert s[..i + 1][..i] == s[..i];
    GasOfConcat(s[..i + 1], s[i + 1..]);
    GasOfConcat(s[..i], s[i + 1..]);
    assert s == s[..i + 1] + s[i + 1..];
  }

  lemma MultisetDropped(s: seq<PoolEntry>, i: nat)
    requires i < |s|
    ensures multiset(Dropped(s, i)) == multiset(s) - multiset{s[i]}
  {
    assert s == s[..i] + ([s[i]] + s[i + 1..]);
  }

  /** Total gas does not depend on the order. */
  lemma {:induction false} GasSame(a: seq<PoolEntry>, b: seq<PoolEntry>)
    requires multiset(a) == multiset(b)
    ensures Gas(a) == Gas(b)
    decreases |a|
  {
    hide Dropped;
    SameElements(a, b);
    if a != [] {
      assert a[0] in a;
      var i :| 0 <= i < |b| && b[i] == a[0];
      GasDropped(a, 0);
      GasDropped(b, i);
      MultisetDropped(a, 0);
      MultisetDropped(b, i);
      assert |multiset(Dropped(a, 0))| == |Dropped(a, 0)| && |multiset(a)| == |a|;
      GasSame(Dropped(a, 0), Dropped(b, i));
    }
  }

  function OfDomain(s: seq<PoolEntry>, d: B256): seq<PoolEntry> {
    if s == [] then [] else
    OfDomain(s[..|s| - 1], d) + if s[|s| - 1].domainId == d then [s[|s| - 1]] else []
  }

  lemma {:induction false} OfDomainElements(s: seq<PoolEntry>, d: B256)
    ensures forall e :: e in OfDomain(s, d) <==> e in s && e.domainId == d
  {
    if s != [] {
      OfDomainElements(s[..|s| - 1], d);
      assert s == s[..|s| - 1] + [s[|s| - 1]];
    }
  }

  lemma {:induction false} OfDomainOrdered(s: seq<PoolEntry>, d: B256)
    requires InOrder(KeyRank, s)
    ensures InOrder(KeyRank, OfDomain(s, d))
  {
    hide KeyRank, LexLess;
    if s != [] {
      var n := |s| - 1;
      OfDomainOrdered(s[..n], d);
      var before := OfDomain(s[..n], d);
      forall i | 0 <= i < |before|
        ensures LexLess(KeyRank(before[i]), KeyRank(s[n]))
      {
        OfDomainElements(s[..n], d);
        assert before[i] in s[..n];
      }
    }
  }

  /** The entries a selection takes of one domain are exactly that domain's turn. */
  lemma SelectedOfDomain(entries: map<Key, PoolEntry>, nonces: Nonces, domains: seq<DomainInfo>, cursor: nat, i: nat)
    requires Keyed(entries) && DistinctIds(DomainIds(domains))
    requires var ready := ReadyDomains(entries, nonces, domains); i < |ready|
    ensures var ready := ReadyDomains(entries, nonces, domains);
            OfDomain(Selection(entries, nonces, domains, cursor), Turns(ready, cursor)[i].id) ==
                Chosen(ready, cursor)[i]
  {
    hide ReadyDomains, Turns, Chosen, Carries, KeyRank, Sort, Join, LexLess, InOrder, OfDomain;
    var ready := ReadyDomains(entries, nonces, domains);
    var turns, parts := Turns(ready, cursor), Chosen(ready, cursor);
    var selected := Selection(entries, nonces, domains, cursor);
    SelectionParts(entries, nonces, domains, cursor);
    SelectionSound(entries, nonces, domains, cursor);
    SameElements(selected, Join(parts));
    var d := turns[i].id;
    OfDomainElements(selected, d);
    OfDomainOrdered(selected, d);
    PartOrdered(entries, nonces, turns[i], parts[i]);
    forall e
      ensures e in OfDomain(selected, d) <==> e in parts[i]
    {
      PartElements(entries, nonces, turns, parts, i, e);
    }
    OrderUnique(KeyRank, OfDomain(selected, d), parts[i]);
  }

  lemma PartOrdered(entries: map<Key, PoolEntry>, nonces: Nonces, r: ReadyDomain, part: seq<PoolEntry>)
    requires Keyed(entries) && Carries(entries, nonces, r) && part <= r.entries
    ensures InOrder(KeyRank, part)
  {
    hide KeyRank, LexLess, IsReady;
    assert forall j | 0 <= j < |part| :: part[j] == r.entries[j];
  }

  lemma PartElements(entries: map<Key, PoolEntry>, nonces: Nonces, turns: seq<ReadyDomain>, parts: seq<seq<PoolEntry>>,
                     i: nat, e: PoolEntry)
    requires Keyed(entries) && DistinctDomains(turns) && Prefixes(parts, turns) && i < |parts|
    requires forall r | r in turns :: Carries(entries, nonces, r)
    ensures e in Join(parts) && e.domainId == turns[i].id <==> e in parts[i]
  {
    hide Carries, Join;
    JoinElements(parts, e);
    if e in parts[i] {
      CarriedEntries(entries, nonces, turns[i], e);
    }
    if e in Join(parts) && e.domainId == turns[i].id {
      var j :| 0 <= j < |parts| && e in parts[j];
      CarriedEntries(entries, nonces, turns[j], e);
      assert j == i;
    }
  }

  /** Every selection stays within the block gas; what it takes of any domain stays within that
      domain's gas limit and 1,024 entries, and past the fair share only with its first gas. */
  lemma SelectionWithin(entries: map<Key, PoolEntry>, nonces: Nonces, domains: seq<DomainInfo>, cursor: nat,
                        info: DomainInfo)
    requires Keyed(entries) && DistinctIds(DomainIds(domains)) && info in domains
    ensures var selected := Selection(entries, nonces, domains, cursor);
            var part := OfDomain(selected, info.id);
            var ready := ReadyDomains(entries, nonces, domains);
            && Gas(selected) <= MAX_BLOCK_GAS
            && Gas(part) <= info.gasLimit && |part| <= MAX_FAIR_TRANSACTIONS
            && (part != [] ==> ready != [] && (Gas(part) <= MAX_BLOCK_GAS / |ready| || Gas(part[..|part| - 1]) == 0))
  {
    hide Selection, ReadyDomains, OfDomain, Gas;
    SelectionGas(entries, nonces, domains, cursor);
    NoGas();
    if OfDomain(Selection(entries, nonces, domains, cursor), info.id) != [] {
      PartWithin(entries, nonces, domains, cursor, info);
    }
  }

  lemma SelectionGas(entries: map<Key, PoolEntry>, nonces: Nonces, domains: seq<DomainInfo>, cursor: nat)
    requires Keyed(entries)
    ensures Gas(Selection(entries, nonces, domains, cursor)) <= MAX_BLOCK_GAS
  {
    hide ReadyDomains, Turns, Chosen, KeyRank, Sort, Join, Gas, Respects;
    var ready := ReadyDomains(entries, nonces, domains);
    NoGas();
    if ready != [] {
      SelectionLimits(ready, cursor);
      GasSame(Selection(entries, nonces, domains, cursor), Join(Chosen(ready, cursor)));
    }
  }

  lemma PartWithin(entries: map<Key, PoolEntry>, nonces: Nonces, domains: seq<DomainInfo>, cursor: nat,
                   info: DomainInfo)
    requires Keyed(entries) && DistinctIds(DomainIds(domains)) && info in domains
    requires OfDomain(Selection(entries, nonces, domains, cursor), info.id) != []
    ensures var part := OfDomain(Selection(entries, nonces, domains, cursor), info.id);
            var ready := ReadyDomains(entries, nonces, domains);
            && Gas(part) <= info.gasLimit && |part| <= MAX_FAIR_TRANSACTIONS
            && ready != [] && (Gas(part) <= MAX_BLOCK_GAS / |ready| || Gas(part[..|part| - 1]) == 0)
  {
    hide Selection, ReadyDomains, Turns, Chosen, OfDomain, Gas, Join;
    var ready := ReadyDomains(entries, nonces, domains);
    var selected := Selection(entries, nonces, domains, cursor);
    var part := OfDomain(selected, info.id);
    OfDomainElements(selected, info.id);
    assert part[0] in part;
    var i := TurnOf(entries, nonces, domains, cursor, part[0], info);
    SelectedOfDomain(entries, nonces, domains, cursor, i);
    SelectionLimits(ready, cursor);
    assert Respects(Chosen(ready, cursor)[i], Turns(ready, cursor)[i], MAX_BLOCK_GAS / |ready|);
  }

  lemma NoGas()
    ensures Gas([]) == 0
  {
  }

  lemma TurnOf(entries: map<Key, PoolEntry>, nonces: Nonces, domains: seq<DomainInfo>, cursor: nat, e: PoolEntry,
               info: DomainInfo)
    returns (i: nat)
    requires Keyed(entries) && DistinctIds(DomainIds(domains)) && info in domains && e.domainId == info.id
    requires e in Selection(entries, nonces, domains, cursor)
    ensures var ready := ReadyDomains(entries, nonces, domains);
            && i < |ready| && Turns(ready, cursor)[i].id == info.id && Turns(ready, cursor)[i].gasLimit == info.gasLimit
  {
    hide ReadyDomains, Carries, KeyRank, Sort, Join, Choose;
    var ready := ReadyDomains(entries, nonces, domains);
    SelectionParts(entries, nonces, domains, cursor);
    var turns, parts := Turns(ready, cursor), Chosen(ready, cursor);
    SameElements(Selection(entries, nonces, domains, cursor), Join(parts));
    JoinElements(parts, e);
    i :| 0 <= i < |parts| && e in parts[i];
    CarriedEntries(entries, nonces, turns[i], e);
    ReadyDomainsCarry(entries, nonces, domains);
    RotateDistinct(ready, cursor % |ready|);
    assert turns[i] in turns;
    var a :| 0 <= a < |domains| && domains[a] == DomainInfo(turns[i].id, turns[i].gasLimit);
    var b :| 0 <= b < |domains| && domains[b] == info;
    assert DomainIds(domains)[a] == DomainIds(domains)[b];
  }

  // ----- fairness over commits -----

  /** What the proposer sees before one commit. */
  datatype View = View(entries: map<Key, PoolEntry>, nonces: Nonces)

  ghost function ReadyIds(ready: seq<ReadyDomain>): seq<B256> {
    seq<B256>(|ready|, i requires 0 <= i < |ready| => ready[i].id)
  }

  ghost function ReadyIn(v: View, domains: seq<DomainInfo>): seq<ReadyDomain>
    requires Keyed(v.entries)
  {
    ReadyDomains(v.entries, v.nonces, domains)
  }

  /** The first ready entry of a domain fits its own gas limit. */
  ghost predicate FirstFits(r: ReadyDomain) {
    r.entries != [] && r.entries[0].transaction.gasLimit <= r.gasLimit <= MAX_BLOCK_GAS
  }

  /** These domains are ready, and the one at position `j` has a first entry that fits. */
  ghost predicate Steady(v: View, domains: seq<DomainInfo>, ids: seq<B256>, j: nat) {
    && Keyed(v.entries) && ReadyIds(ReadyIn(v, domains)) == ids
    && j < |ids| && FirstFits(ReadyIn(v, domains)[j])
  }

  /** The selection takes the first ready entry of the domain at position `j`. */
  ghost predicate Serves(v: View, domains: seq<DomainInfo>, ids: seq<B256>, j: nat, cursor: nat) {
    && Steady(v, domains, ids, j)
    && (var first := ReadyIn(v, domains)[j].entries[0];
        first.domainId == ids[j] && first in Selection(v.entries, v.nonces, domains, cursor))
  }

  /** How many commits until the cursor stands at position `j`. */
  function Wait(cursor: nat, domainCount: nat, j: nat): nat
    requires cursor < domainCount && j < domainCount
  {
    if cursor <= j then j - cursor else j + domainCount - cursor
  }

  lemma FirstSelected(v: View, domains: seq<DomainInfo>, j: nat)
    requires Keyed(v.entries) && DistinctIds(DomainIds(domains)) && j < |ReadyIn(v, domains)| &&
      FirstFits(ReadyIn(v, domains)[j])
    ensures ReadyIn(v, domains)[j].entries[0] in Selection(v.entries, v.nonces, domains, j)
  {
    hide ReadyDomains, Sort, Join, KeyRank, Choose, Carries;
    var ready := ReadyIn(v, domains);
    Unmoved(j, |ready|);
    SelectionParts(v.entries, v.nonces, domains, j);
    FirstServed(ready, j);
    var parts := Chosen(ready, j);
    assert Turns(ready, j)[0] == ready[j];
    assert parts[0][0] == ready[j].entries[0];
    JoinElements(parts, parts[0][0]);
    SameElements(Selection(v.entries, v.nonces, domains, j), Join(parts));
  }

  /** Whatever each commit takes and whatever arrives in between: while the same domains stay ready, the
      domain at position `j` is first after the stated number of commits, fewer than there are domains,
      and its first ready entry is then selected. */
  lemma EveryDomainServed(views: seq<View>, domains: seq<DomainInfo>, ids: seq<B256>, cursor: nat, j: nat)
    requires DistinctIds(DomainIds(domains)) && cursor < |domains| <= |views|
    requires forall t | 0 <= t < |views| :: Steady(views[t], domains, ids, j)
    ensures j < |ids| <= |domains| && Wait(cursor, |domains|, j) < |domains|
    ensures var t := Wait(cursor, |domains|, j);
            Serves(views[t], domains, ids, j, CursorAfter(cursor, |domains|, t))
  {
    hide ReadyDomains, Selection, CursorAfter, Carries;
    assert Steady(views[0], domains, ids, j);
    ReadyDomainsCarry(views[0].entries, views[0].nonces, domains);
    var t := Wait(cursor, |domains|, j);
    var v := views[t];
    assert Steady(v, domains, ids, j);
    CursorWraps(cursor, |domains|, t);
    ReadyDomainsCarry(v.entries, v.nonces, domains);
    FirstSelected(v, domains, j);
    var r := ReadyIn(v, domains)[j];
    assert r in ReadyIn(v, domains) && ReadyIds(ReadyIn(v, domains))[j] == r.id;
    CarriedEntries(v.entries, v.nonces, r, r.entries[0]);
  }
}
