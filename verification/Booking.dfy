/** The pool together with the one pending proposal, over whole runs. */
module Booking {
  import opened Wrappers
  import opened Bytes
  import opened Canonical
  import opened Sorting
  import opened Mempool
  import opened Scheduler

  /** Unreserved entries, and the entries the pending proposal holds. */
  datatype Books = Books(pool: Pool, reserved: Option<seq<PoolEntry>>)

  /** A created domain and its chain ID. */
  datatype Route = Route(domain: B256, chainId: u64)

  datatype Action =
    | Submit(domain: B256, envelope: Bytes, stateNonce: u64)
    | Registering(routes: seq<Route>)
    | Build(nonces: Nonces, domains: seq<DomainInfo>, cursor: nat, succeeds: bool)
    | Abandon
    | Commit(routes: seq<Route>, included: set<B256>)

  function Reserved(b: Books): seq<PoolEntry> {
    if b.reserved.Some? then b.reserved.value else []
  }

  ghost function RegisterAll(p: Pool, routes: seq<Route>): Result<Pool, MempoolError> {
    if routes == [] then
      Ok(p)
    else
      var next :- RegisterAll(p, routes[..|routes| - 1]);
      var (after, r) := Register(next, routes[|routes| - 1].domain, routes[|routes| - 1].chainId);
      if r.Err? then Err(r.error) else Ok(after)
  }

  /** One engine action. A build that fails restores what it reserved; a commit or an import drops
      the included entries, and nothing happens when a registration is refused. */
  ghost function Next(s: TxScheme, cfg: Config, b: Books, a: Action): Books
    requires Keyed(b.pool.entries)
  {
    match a
    case Submit(d, envelope, stateNonce) => b.(pool := Admit(s, cfg, b.pool, d, envelope, stateNonce).0)
    case Registering(routes) =>
      var next := RegisterAll(b.pool, routes);
      if next.Err? then b else b.(pool := next.value)
    case Build(nonces, domains, cursor, succeeds) =>
      if b.reserved.Some? then
        b
      else
        var (rest, taken) := Reserve(b.pool, HashesOf(Selection(b.pool.entries, nonces, domains, cursor)));
        if succeeds then Books(rest, Some(taken)) else Books(Restore(rest, taken), None)
    case Abandon => if b.reserved.None? then b else Books(Restore(b.pool, b.reserved.value), None)
    case Commit(routes, included) =>
      var next := RegisterAll(b.pool, routes);
      if next.Err? || !Keyed(next.value.entries) then b
      else Books(Reserve(next.value, included).0, None)
  }

  ghost predicate Restorable(s: TxScheme, p: Pool, list: seq<PoolEntry>) {
    forall e | e in list :: GoodEntry(s, p.chainIds, KeyOf(e), e)
  }

  /** Chain IDs unique, counts equal to held entries, reserved entries restorable, and the held plus
      reserved entries within the pool limit plus one proposal. */
  ghost predicate Balanced(s: TxScheme, cfg: Config, b: Books) {
    && ValidPool(s, b.pool)
    && Restorable(s, b.pool, Reserved(b))
    && |Reserved(b)| <= MAX_PROPOSAL_TRANSACTIONS
    && |b.pool.entries| + |Reserved(b)| <= cfg.maxTransactions + MAX_PROPOSAL_TRANSACTIONS
  }

  /** The hypothesis on hashing: it tells the transactions held at this point apart. */
  ghost predicate HashesTellApart(p: Pool) {
    forall a, b | a in p.entries && b in p.entries ::
      p.entries[a].transactionHash == p.entries[b].transactionHash ==>
          p.entries[a].transaction == p.entries[b].transaction
  }

  ghost predicate Fits(b: Books, a: Action) {
    a.Build? ==> DistinctIds(DomainIds(a.domains)) && HashesTellApart(b.pool)
  }

  lemma KeyedPool(s: TxScheme, p: Pool)
    requires ValidPool(s, p)
    ensures Keyed(p.entries)
  {
    forall key | key in p.entries
      ensures KeyOf(p.entries[key]) == key
    {
      assert GoodEntry(s, p.chainIds, key, p.entries[key]);
    }
  }

  ghost predicate Extends(p: Pool, next: Pool) {
    forall d | d in p.chainIds :: d in next.chainIds && next.chainIds[d] == p.chainIds[d]
  }

  lemma StaysRestorable(s: TxScheme, p: Pool, next: Pool, list: seq<PoolEntry>)
    requires Restorable(s, p, list) && Extends(p, next)
    ensures Restorable(s, next, list)
  {
    forall e | e in list
      ensures GoodEntry(s, next.chainIds, KeyOf(e), e)
    {
      assert GoodEntry(s, p.chainIds, KeyOf(e), e);
    }
  }

  lemma {:induction false} RegisterAllKeeps(s: TxScheme, p: Pool, routes: seq<Route>)
    requires ValidPool(s, p) && RegisterAll(p, routes).Ok?
    ensures ValidPool(s, RegisterAll(p, routes).value)
    ensures RegisterAll(p, routes).value.entries == p.entries
    ensures Extends(p, RegisterAll(p, routes).value)
  {
    hide ValidPool;
    if routes != [] {
      RegisterAllKeeps(s, p, routes[..|routes| - 1]);
      var last := routes[|routes| - 1];
      RegisterKeeps(s, RegisterAll(p, routes[..|routes| - 1]).value, last.domain, last.chainId);
    }
  }

  /** The reservation of a build is exactly its selection, so it is bounded and restorable. */
  lemma BuildReserves(s: TxScheme, p: Pool, nonces: Nonces, domains: seq<DomainInfo>, cursor: nat)
    requires ValidPool(s, p) && HashesTellApart(p) && DistinctIds(DomainIds(domains))
    ensures Keyed(p.entries)
    ensures var selected := Selection(p.entries, nonces, domains, cursor);
            var (rest, taken) := Reserve(p, HashesOf(selected));
            && taken == selected
            && |taken| <= MAX_PROPOSAL_TRANSACTIONS
            && ValidPool(s, rest) && rest.chainIds == p.chainIds
            && |rest.entries| + |taken| == |p.entries|
            && Restorable(s, rest, taken)
            && (forall key | key in p.entries :: key in rest.entries <==> p.entries[key] !in taken)
            && (forall key | key in rest.entries :: key in p.entries && rest.entries[key] == p.entries[key])
  {
    hide KeyRank, Selection, GapFree, IsReady, InOrder;
    KeyedPool(s, p);
    var selected := Selection(p.entries, nonces, domains, cursor);
    HashesDistinct(s, p);
    SelectionSound(p.entries, nonces, domains, cursor);
    ReserveIsSelection(p, selected);
    ReserveKeeps(s, p, HashesOf(selected));
    ReserveSplits(s, p, selected);
  }

  lemma ReserveSplits(s: TxScheme, p: Pool, selected: seq<PoolEntry>)
    requires ValidPool(s, p) && Keyed(p.entries) && DistinctHashes(p.entries)
    requires forall e | e in selected :: KeyOf(e) in p.entries && p.entries[KeyOf(e)] == e
    ensures var rest := Reserve(p, HashesOf(selected)).0;
            && rest.chainIds == p.chainIds
            && Restorable(s, rest, selected)
            && (forall key | key in p.entries :: key in rest.entries <==> p.entries[key] !in selected)
            && (forall key | key in rest.entries :: key in p.entries && rest.entries[key] == p.entries[key])
  {
    hide CountAll, InKeyOrder;
    var rest := Reserve(p, HashesOf(selected)).0;
    forall key | key in p.entries
      ensures key in rest.entries <==> p.entries[key] !in selected
    {
      var e := p.entries[key];
      if e in selected {
        assert e.transactionHash in HashesOf(selected);
      }
    }
    forall e | e in selected
      ensures GoodEntry(s, rest.chainIds, KeyOf(e), e)
    {
      assert GoodEntry(s, p.chainIds, KeyOf(e), p.entries[KeyOf(e)]);
    }
  }

  /** A build that fails leaves the pool exactly as it found it. */
  lemma FailedBuildRestores(s: TxScheme, p: Pool, nonces: Nonces, domains: seq<DomainInfo>, cursor: nat)
    requires ValidPool(s, p) && HashesTellApart(p) && DistinctIds(DomainIds(domains))
    ensures Keyed(p.entries)
    ensures var (rest, taken) := Reserve(p, HashesOf(Selection(p.entries, nonces, domains, cursor)));
            Restore(rest, taken) == p
  {
    hide Selection, Reserve, GoodEntry, Restore, CountAll, InOrder, Restorable, UniqueChainIds;
    BuildReserves(s, p, nonces, domains, cursor);
    var (rest, taken) := Reserve(p, HashesOf(Selection(p.entries, nonces, domains, cursor)));
    RestorableGood(s, rest, taken);
    RestoreKeeps(s, rest, taken);
    var back := Restore(rest, taken);
    KeyedPool(s, back);
    forall key | key in p.entries
      ensures key in back.entries
    {
      HeldDomain(s, p, key);
      if key !in rest.entries {
        assert p.entries[key] in taken;
        assert KeyOf(p.entries[key]) == key;
      }
    }
    forall key | key in back.entries
      ensures key in p.entries && back.entries[key] == p.entries[key]
    {
      if key !in rest.entries {
        TakenHeld(s, p, nonces, domains, cursor, back.entries[key]);
      }
    }
    assert back.entries == p.entries;
    RestoreFrame(rest, taken);
    ReserveFrame(p, HashesOf(Selection(p.entries, nonces, domains, cursor)));
  }

  lemma RestorableGood(s: TxScheme, p: Pool, list: seq<PoolEntry>)
    requires Restorable(s, p, list)
    ensures forall e | e in list :: e.domainId in p.chainIds && GoodEntry(s, p.chainIds, KeyOf(e), e)
  {
  }

  lemma HeldDomain(s: TxScheme, p: Pool, key: Key)
    requires ValidPool(s, p) && key in p.entries
    ensures p.entries[key].domainId in p.chainIds && KeyOf(p.entries[key]) == key
  {
    assert GoodEntry(s, p.chainIds, key, p.entries[key]);
  }

  lemma TakenHeld(s: TxScheme, p: Pool, nonces: Nonces, domains: seq<DomainInfo>, cursor: nat, e: PoolEntry)
    requires ValidPool(s, p) && Keyed(p.entries) && DistinctIds(DomainIds(domains))
    requires e in Reserve(p, HashesOf(Selection(p.entries, nonces, domains, cursor))).1
    ensures KeyOf(e) in p.entries && p.entries[KeyOf(e)] == e
  {
    hide Selection, KeyRank;
  }

  lemma {:induction false} RestoreFrame(p: Pool, list: seq<PoolEntry>)
    ensures var next := Restore(p, list); next.chainIds == p.chainIds && next.usedChainIds == p.usedChainIds
  {
    hide CountAll;
    if list != [] {
      RestoreFrame(p, list[..|list| - 1]);
    }
  }

  lemma ReserveFrame(p: Pool, hashes: set<B256>)
    requires Keyed(p.entries)
    ensures Reserve(p, hashes).0.chainIds == p.chainIds && Reserve(p, hashes).0.usedChainIds == p.usedChainIds
  {
  }

  // ----- every run -----

  lemma AbandonKeeps(s: TxScheme, cfg: Config, b: Books)
    requires Balanced(s, cfg, b) && b.reserved.Some?
    ensures Balanced(s, cfg, Books(Restore(b.pool, b.reserved.value), None))
  {
    hide ValidPool, Restore;
    RestorableGood(s, b.pool, b.reserved.value);
    RestoreKeeps(s, b.pool, b.reserved.value);
  }

  lemma CommitKeepsBooks(s: TxScheme, cfg: Config, b: Books, routes: seq<Route>, included: set<B256>)
    requires Balanced(s, cfg, b) && RegisterAll(b.pool, routes).Ok?
    ensures Keyed(RegisterAll(b.pool, routes).value.entries)
    ensures Balanced(s, cfg, Books(Reserve(RegisterAll(b.pool, routes).value, included).0, None))
  {
    hide ValidPool, RegisterAll, Reserve;
    RegisterAllKeeps(s, b.pool, routes);
    var next := RegisterAll(b.pool, routes).value;
    KeyedPool(s, next);
    ReserveKeeps(s, next, included);
  }

  lemma BuildKeeps(s: TxScheme, cfg: Config, b: Books, a: Action)
    requires Balanced(s, cfg, b) && a.Build? && Fits(b, a) && b.reserved.None?
    ensures Keyed(b.pool.entries) && Balanced(s, cfg, Next(s, cfg, b, a))
  {
    hide ValidPool, Selection, Reserve, Restore, Restorable, HashesTellApart, DistinctIds;
    BuildReserves(s, b.pool, a.nonces, a.domains, a.cursor);
    FailedBuildRestores(s, b.pool, a.nonces, a.domains, a.cursor);
  }

  lemma StepBalanced(s: TxScheme, cfg: Config, b: Books, a: Action)
    requires Balanced(s, cfg, b) && Fits(b, a)
    ensures Keyed(b.pool.entries) && Balanced(s, cfg, Next(s, cfg, b, a))
  {
    hide ValidPool, Selection, Reserve, Restore, RegisterAll, Admit, Restorable, Keyed, HashesTellApart, DistinctIds;
    KeyedPool(s, b.pool);
    match a
    case Submit(d, envelope, stateNonce) =>
      AdmitKeeps(s, cfg, b.pool, d, envelope, stateNonce);
      StaysRestorable(s, b.pool, Admit(s, cfg, b.pool, d, envelope, stateNonce).0, Reserved(b));
    case Registering(routes) =>
      if RegisterAll(b.pool, routes).Ok? {
        RegisterAllKeeps(s, b.pool, routes);
        StaysRestorable(s, b.pool, RegisterAll(b.pool, routes).value, Reserved(b));
      }
    case Build(_, _, _, _) =>
      if b.reserved.None? {
        BuildKeeps(s, cfg, b, a);
      }
    case Abandon =>
      if b.reserved.Some? {
        AbandonKeeps(s, cfg, b);
      }
    case Commit(routes, included) =>
      if RegisterAll(b.pool, routes).Ok? {
        CommitKeepsBooks(s, cfg, b, routes, included);
      }
  }

  ghost predicate IsRun(s: TxScheme, cfg: Config, states: seq<Books>, actions: seq<Action>) {
    && |states| == |actions| + 1
    && states[0] == Books(EMPTY_POOL, None)
    && forall i | 0 <= i < |actions| ::
         Fits(states[i], actions[i]) && Keyed(states[i].pool.entries) &&
             states[i + 1] == Next(s, cfg, states[i], actions[i])
  }

  /** In every run sender counts equal held entries, registered chain IDs are unique, and the held
      plus reserved entries never exceed the pool limit plus 10,000. */
  lemma {:induction false} RunBalanced(s: TxScheme, cfg: Config, states: seq<Books>, actions: seq<Action>, n: nat)
    requires IsRun(s, cfg, states, actions) && n < |states|
    ensures Balanced(s, cfg, states[n])
  {
    hide Next, Fits, Keyed;
    if n == 0 {
      NothingBooked(s, cfg);
    } else {
      RunBalanced(s, cfg, states, actions, n - 1);
      StepBalanced(s, cfg, states[n - 1], actions[n - 1]);
    }
  }

  lemma NothingBooked(s: TxScheme, cfg: Config)
    ensures Balanced(s, cfg, Books(EMPTY_POOL, None))
  {
    assert CountAll(map[]) == map[];
  }

  // ----- an abandoned proposal loses nothing -----

  /** Submissions and registrations while a proposal is pending. */
  ghost predicate Waiting(a: Action) {
    a.Submit? || a.Registering?
  }

  ghost function AfterWaiting(s: TxScheme, cfg: Config, b: Books, waiting: seq<Action>): Books
    requires Balanced(s, cfg, b)
  {
    if waiting == [] || !Waiting(waiting[|waiting| - 1]) then b else
    var prior := AfterWaiting(s, cfg, b, waiting[..|waiting| - 1]);
    if !Balanced(s, cfg, prior) || !Keyed(prior.pool.entries) then prior
    else Next(s, cfg, prior, waiting[|waiting| - 1])
  }

  /** The entry was admitted by one of the submissions, into the pool as it was at that point. */
  ghost predicate Newcomer(s: TxScheme, cfg: Config, b: Books, waiting: seq<Action>, e: PoolEntry)
    requires Balanced(s, cfg, b)
  {
    exists i | 0 <= i < |waiting| :: Arrives(s, cfg, AfterWaiting(s, cfg, b, waiting[..i]).pool, waiting[i], e)
  }

  ghost predicate Arrives(s: TxScheme, cfg: Config, p: Pool, a: Action, e: PoolEntry) {
    && a.Submit? && Screen(s, cfg, p, a.domain, a.envelope, a.stateNonce) == Ok(e)
    && Admit(s, cfg, p, a.domain, a.envelope, a.stateNonce).1.Ok?
  }

  /** Nothing held disappears, chain IDs stay, and whatever is different was admitted meanwhile. */
  ghost predicate OnlyNewcomers(s: TxScheme, cfg: Config, b: Books, from: Books, after: Books, waiting: seq<Action>)
    requires Balanced(s, cfg, b)
  {
    hide Balanced;
    && after.reserved == from.reserved
    && Extends(from.pool, after.pool)
    && (forall key | key in from.pool.entries :: key in after.pool.entries)
    && (forall key | key in after.pool.entries && !SameAt(from.pool, after.pool, key) ::
          Newcomer(s, cfg, b, waiting, after.pool.entries[key]))
  }

  ghost predicate SameAt(p: Pool, next: Pool, key: Key)
    requires key in next.entries
  {
    key in p.entries && p.entries[key] == next.entries[key]
  }

  lemma WaitingStep(s: TxScheme, cfg: Config, b: Books, waiting: seq<Action>)
    requires Balanced(s, cfg, b) && waiting != [] && Waiting(waiting[|waiting| - 1])
    requires Balanced(s, cfg, AfterWaiting(s, cfg, b, waiting[..|waiting| - 1]))
    ensures var prior := AfterWaiting(s, cfg, b, waiting[..|waiting| - 1]);
            && Keyed(prior.pool.entries)
            && OnlyNewcomers(s, cfg, b, prior, Next(s, cfg, prior, waiting[|waiting| - 1]), waiting)
  {
    hide ValidPool, Admit, RegisterAll, Newcomer, Screen, Restorable, Keyed, AfterWaiting;
    var n := |waiting| - 1;
    var prior := AfterWaiting(s, cfg, b, waiting[..n]);
    KeyedPool(s, prior.pool);
    var last := waiting[n];
    if last.Submit? {
      AdmitKeeps(s, cfg, prior.pool, last.domain, last.envelope, last.stateNonce);
      var (next, r) := Admit(s, cfg, prior.pool, last.domain, last.envelope, last.stateNonce);
      if r.Ok? {
        var e :| Screen(s, cfg, prior.pool, last.domain, last.envelope, last.stateNonce) == Ok(e)
              && next.entries == prior.pool.entries[KeyOf(e) := e];
        LastNewcomer(s, cfg, b, waiting, e);
      }
    } else if RegisterAll(prior.pool, last.routes).Ok? {
      RegisterAllKeeps(s, prior.pool, last.routes);
    }
  }

  lemma NewcomersJoin(s: TxScheme, cfg: Config, b: Books, prior: Books, next: Books, waiting: seq<Action>)
    requires Balanced(s, cfg, b) && waiting != []
    requires OnlyNewcomers(s, cfg, b, b, prior, waiting[..|waiting| - 1])
    requires OnlyNewcomers(s, cfg, b, prior, next, waiting)
    ensures OnlyNewcomers(s, cfg, b, b, next, waiting)
  {
    hide Newcomer, Balanced;
    forall key | key in next.pool.entries && !SameAt(b.pool, next.pool, key)
      ensures Newcomer(s, cfg, b, waiting, next.pool.entries[key])
    {
      if SameAt(prior.pool, next.pool, key) {
        assert !SameAt(b.pool, prior.pool, key);
        MoreNewcomers(s, cfg, b, waiting, prior.pool.entries[key]);
      }
    }
  }

  /** While a proposal waits the pool stays balanced and changes only by what is admitted meanwhile. */
  lemma {:induction false} WaitingKeeps(s: TxScheme, cfg: Config, b: Books, waiting: seq<Action>)
    requires Balanced(s, cfg, b) && forall a | a in waiting :: Waiting(a)
    ensures var after := AfterWaiting(s, cfg, b, waiting);
            Balanced(s, cfg, after) && OnlyNewcomers(s, cfg, b, b, after, waiting)
  {
    hide Balanced, OnlyNewcomers, Next;
    if waiting == [] {
      NoNewcomers(s, cfg, b);
    } else {
      var first, last := waiting[..|waiting| - 1], waiting[|waiting| - 1];
      assert last in waiting;
      WaitingKeeps(s, cfg, b, first);
      var prior := AfterWaiting(s, cfg, b, first);
      StepBalanced(s, cfg, prior, last);
      WaitingStep(s, cfg, b, waiting);
      NewcomersJoin(s, cfg, b, prior, Next(s, cfg, prior, last), waiting);
    }
  }

  lemma NoNewcomers(s: TxScheme, cfg: Config, b: Books)
    requires Balanced(s, cfg, b)
    ensures OnlyNewcomers(s, cfg, b, b, b, [])
  {
    hide Balanced;
  }

  lemma MoreNewcomers(s: TxScheme, cfg: Config, b: Books, waiting: seq<Action>, e: PoolEntry)
    requires Balanced(s, cfg, b) && waiting != [] && Newcomer(s, cfg, b, waiting[..|waiting| - 1], e)
    ensures Newcomer(s, cfg, b, waiting, e)
  {
    hide Balanced, AfterWaiting, Arrives;
    var first := waiting[..|waiting| - 1];
    var i :| 0 <= i < |first| && Arrives(s, cfg, AfterWaiting(s, cfg, b, first[..i]).pool, first[i], e);
    assert first[..i] == waiting[..i] && first[i] == waiting[i];
    assert Arrives(s, cfg, AfterWaiting(s, cfg, b, waiting[..i]).pool, waiting[i], e);
  }

  lemma LastNewcomer(s: TxScheme, cfg: Config, b: Books, waiting: seq<Action>, e: PoolEntry)
    requires Balanced(s, cfg, b) && waiting != []
    requires Arrives(s, cfg, AfterWaiting(s, cfg, b, waiting[..|waiting| - 1]).pool, waiting[|waiting| - 1], e)
    ensures Newcomer(s, cfg, b, waiting, e)
  {
    hide Balanced, AfterWaiting, Arrives;
  }

  /** A proposal that is built, waits through any submissions, and is abandoned gives every entry
      back: each key held before is held again, by the same entry unless a newcomer took its nonce. */
  lemma AbandonLosesNothing(s: TxScheme, cfg: Config, b: Books, a: Action, waiting: seq<Action>)
    requires Balanced(s, cfg, b) && b.reserved.None? && a.Build? && a.succeeds && Fits(b, a)
    requires forall w | w in waiting :: Waiting(w)
    ensures Keyed(b.pool.entries) && Balanced(s, cfg, Next(s, cfg, b, a))
    ensures var built := Next(s, cfg, b, a);
            var later := AfterWaiting(s, cfg, built, waiting);
            && later.reserved.Some?
            && var back := Restore(later.pool, later.reserved.value);
               forall key | key in b.pool.entries ::
                 && key in back.entries
                 && (SameAt(b.pool, back, key) || Newcomer(s, cfg, built, waiting, back.entries[key]))
  {
    hide ValidPool, Selection, Reserve, Restore, Restorable, Newcomer, Fits;
    StepBalanced(s, cfg, b, a);
    var built := Next(s, cfg, b, a);
    assert Fits(b, a);
    FitsBuild(b, a);
    BuildReserves(s, b.pool, a.nonces, a.domains, a.cursor);
    WaitingKeeps(s, cfg, built, waiting);
    var later := AfterWaiting(s, cfg, built, waiting);
    var taken := later.reserved.value;
    RestorableGood(s, later.pool, taken);
    RestoreKeeps(s, later.pool, taken);
    var back := Restore(later.pool, taken);
    forall key | key in b.pool.entries
      ensures key in back.entries
      ensures SameAt(b.pool, back, key) || Newcomer(s, cfg, built, waiting, back.entries[key])
    {
      KeyedPool(s, back);
      if key !in built.pool.entries {
        assert b.pool.entries[key] in taken;
        assert KeyOf(b.pool.entries[key]) == key;
        if key !in later.pool.entries {
          assert back.entries[key] in taken;
          TakenHeld(s, b.pool, a.nonces, a.domains, a.cursor, back.entries[key]);
        }
      }
      if key in later.pool.entries && !SameAt(built.pool, later.pool, key) {
        assert Newcomer(s, cfg, built, waiting, later.pool.entries[key]);
      }
    }
  }

  lemma FitsBuild(b: Books, a: Action)
    requires Fits(b, a) && a.Build?
    ensures DistinctIds(DomainIds(a.domains)) && HashesTellApart(b.pool)
  {
  }

  // ----- the pool limit -----

  /** Restoring checks no capacity: an abandoned proposal leaves the pool within its limit if and only
      if the held entries and the reserved keys nobody took meanwhile are within it together. */
  lemma AbandonWithinLimit(s: TxScheme, cfg: Config, b: Books)
    requires Balanced(s, cfg, b) && b.reserved.Some?
    ensures Keyed(b.pool.entries)
    ensures |Next(s, cfg, b, Abandon).pool.entries| <= cfg.maxTransactions <==>
            |b.pool.entries| + |Returning(b.pool, b.reserved.value)| <= cfg.maxTransactions
  {
    hide ValidPool, Restore, Returning;
    KeyedPool(s, b.pool);
    RestoreAdds(b.pool, b.reserved.value);
  }
}
