/** Creation deposits over every run: never short, paid once, refunded only to the owner in time. */
module Deposits {
  import opened Wrappers
  import opened Bytes
  import opened Canonical
  import opened Registry
  import opened Sums

  // ----- the invariant -----

  /** Outstanding deposits by domain. */
  ghost function Locked(s: Storage): map<B256, nat> {
    map slot | slot in s && slot.DepositSlot? && s[slot] != 0 :: slot.domain := s[slot]
  }

  lemma LockedIs(s: Storage, d: B256)
    ensures d in Locked(s) <==> Load(s, DepositSlot(d)) != 0
    ensures d in Locked(s) ==> Locked(s)[d] == Load(s, DepositSlot(d))
  {
    if Load(s, DepositSlot(d)) != 0 {
      assert DepositSlot(d) in s && DepositSlot(d).domain == d;
    }
  }

  ghost predicate Settled(status: nat) {
    status == REFUNDED || status == BURNED
  }

  /** What holds of one domain's slots: a deposit is outstanding exactly while its status is locked,
      and only of a registered domain. */
  ghost predicate SlotsAgree(s: Storage, d: B256) {
    && (Load(s, StatusSlot(d)) == LOCKED <==> Load(s, DepositSlot(d)) != 0)
    && (Load(s, StatusSlot(d)) != 0 ==> Load(s, DescriptorSlot(d)) != 0)
  }

  /** The slots still describe the creation that made them. */
  ghost predicate Registered(s: Storage, p: Prepared) {
    var d := p.descriptor.domainId;
    && Load(s, OwnerSlot(d)) == Word(p.descriptor.owner)
    && Load(s, UnlockSlot(d)) == p.unlockHeight
    && (Load(s, StatusSlot(d)) == LOCKED || Settled(Load(s, StatusSlot(d))))
    && (Load(s, StatusSlot(d)) == LOCKED ==> Load(s, DepositSlot(d)) == p.descriptor.creationDeposit)
  }

  /** What `prepare_chain_creation` guarantees, and a descriptor hash other than zero. */
  ghost predicate WellPrepared(p: Prepared) {
    && p.unlockHeight == p.creationHeight + LOCK_BLOCKS
    && p.descriptor.creationDeposit >= MIN_CREATION_DEPOSIT
    && Word(p.descriptorHash) != 0
  }

  /** A payment of exactly one creation: the whole deposit, to the owner who asked for it once unlocked, or
      burned by governance. */
  ghost predicate Justified(p: Payout, created: seq<Prepared>, governance: Address) {
    exists i :: 0 <= i < |created| && Pays(p, created[i], governance)
  }

  ghost predicate Pays(p: Payout, c: Prepared, governance: Address) {
    && c.descriptor.domainId == p.domain && p.amount == c.descriptor.creationDeposit >= MIN_CREATION_DEPOSIT
    && (if p.burned then p.recipient == ZeroAddress() && p.caller == governance
        else p.recipient == p.caller == c.descriptor.owner && p.height >= c.creationHeight + LOCK_BLOCKS)
  }

  ghost predicate Solvent(l: Ledger, governance: Address) {
    && (forall d: B256 :: SlotsAgree(l.vault.storage, d))
    && Sum(Locked(l.vault.storage)) <= l.vault.balance
    && (forall i | 0 <= i < |l.created| :: WellPrepared(l.created[i]) && Registered(l.vault.storage, l.created[i]))
    && (forall d: B256 | Load(l.vault.storage, StatusSlot(d)) == LOCKED ::
          exists i :: 0 <= i < |l.created| && l.created[i].descriptor.domainId == d)
    && (forall i | 0 <= i < |l.payouts| ::
          && Settled(Load(l.vault.storage, StatusSlot(l.payouts[i].domain)))
          && Justified(l.payouts[i], l.created, governance))
    && (forall i, j | 0 <= i < j < |l.payouts| :: l.payouts[i].domain != l.payouts[j].domain)
    && (forall i, j | 0 <= i < j < |l.created| :: l.created[i].descriptor.domainId != l.created[j].descriptor.domainId)
  }

  /** No outstanding deposit exceeds the balance, so the payout transfer cannot fall short. */
  lemma PayoutCovered(l: Ledger, d: B256, governance: Address)
    requires Solvent(l, governance)
    ensures Load(l.vault.storage, DepositSlot(d)) <= l.vault.balance
  {
    LockedIs(l.vault.storage, d);
    if d in Locked(l.vault.storage) {
      SumTake(Locked(l.vault.storage), d);
    }
  }

  // ----- creation -----

  lemma WriteLoads(s: Storage, p: Prepared, slot: Slot)
    ensures var d := p.descriptor.domainId;
            Load(Write(s, CreationWrites(p)), slot) ==
            match slot
            case DescriptorSlot(x) => if x == d then Word(p.descriptorHash) else Load(s, slot)
            case ChainIdSlot(c) => if c == p.descriptor.evmChainId then Word(d) else Load(s, slot)
            case CreationHeightSlot(x) => if x == d then p.creationHeight else Load(s, slot)
            case DepositSlot(x) => if x == d then p.descriptor.creationDeposit else Load(s, slot)
            case UnlockSlot(x) => if x == d then p.unlockHeight else Load(s, slot)
            case OwnerSlot(x) => if x == d then Word(p.descriptor.owner) else Load(s, slot)
            case StatusSlot(x) => if x == d then LOCKED else Load(s, slot)
  {
    hide Word, Write, CreationWrites;
    WrittenOut(s, p);
  }

  ghost function Written(s: Storage, p: Prepared): Storage {
    var d := p.descriptor.domainId;
    s[DescriptorSlot(d) := Word(p.descriptorHash)][ChainIdSlot(p.descriptor.evmChainId) := Word(d)]
     [CreationHeightSlot(d) := p.creationHeight][DepositSlot(d) := p.descriptor.creationDeposit]
     [UnlockSlot(d) := p.unlockHeight][OwnerSlot(d) := Word(p.descriptor.owner)][StatusSlot(d) := LOCKED]
  }

  lemma WrittenOut(s: Storage, p: Prepared)
    ensures Write(s, CreationWrites(p)) == Written(s, p)
  {
    hide Word, Write;
    var w := CreationWrites(p);
    WriteNone(s, w);
    WriteNext(s, w, 0);
    WriteNext(s, w, 1);
    WriteNext(s, w, 2);
    WriteNext(s, w, 3);
    WriteNext(s, w, 4);
    WriteNext(s, w, 5);
    WriteNext(s, w, 6);
    assert w[..7] == w;
  }

  lemma WriteNone(s: Storage, w: seq<(Slot, nat)>)
    ensures Write(s, w[..0]) == s
  {
  }

  lemma WriteNext(s: Storage, w: seq<(Slot, nat)>, i: nat)
    requires i < |w|
    ensures Write(s, w[..i + 1]) == Write(s, w[..i])[w[i].0 := w[i].1]
  {
    assert w[..i + 1][..i] == w[..i];
  }

  lemma LockedAfterCreate(s: Storage, p: Prepared)
    requires Load(s, DepositSlot(p.descriptor.domainId)) == 0 && p.descriptor.creationDeposit != 0
    ensures Locked(Write(s, CreationWrites(p))) == Locked(s)[p.descriptor.domainId := p.descriptor.creationDeposit]
    ensures p.descriptor.domainId !in Locked(s)
  {
    hide Write, CreationWrites, Locked;
    var after := Write(s, CreationWrites(p));
    forall d
      ensures d in Locked(after) <==> d == p.descriptor.domainId || d in Locked(s)
      ensures d in Locked(after) ==>
                Locked(after)[d] == if d == p.descriptor.domainId then p.descriptor.creationDeposit else Locked(s)[d]
    {
      LockedIs(after, d);
      LockedIs(s, d);
      WriteLoads(s, p, DepositSlot(d));
    }
    LockedIs(s, p.descriptor.domainId);
  }

  lemma CreateSolvent(l: Ledger, call: Call, p: Prepared, governance: Address)
    requires Solvent(l, governance) && WellPrepared(p)
    requires RunCreate(Credited(l, call.value).vault, call, Some(p)).Some?
    ensures Solvent(Ledger(RunCreate(Credited(l, call.value).vault, call, Some(p)).value, l.created + [p], l.payouts),
                    governance)
  {
    hide Write, CreationWrites, Locked, Word;
    var s := l.vault.storage;
    var v := RunCreate(Credited(l, call.value).vault, call, Some(p)).value;
    var d := p.descriptor.domainId;
    assert v.storage == Write(s, CreationWrites(p)) && v.balance == l.vault.balance + p.descriptor.creationDeposit;
    assert SlotsAgree(s, d);
    LockedAfterCreate(s, p);
    SumPut(Locked(s), d, p.descriptor.creationDeposit);
    CreateSlots(l, p, governance);
    CreateRecords(l, p, governance);
  }

  lemma CreateSlots(l: Ledger, p: Prepared, governance: Address)
    requires Solvent(l, governance) && WellPrepared(p)
    requires Load(l.vault.storage, DescriptorSlot(p.descriptor.domainId)) == 0
    ensures var after := Write(l.vault.storage, CreationWrites(p));
            && (forall d: B256 :: SlotsAgree(after, d))
            && (forall d: B256 | Load(after, StatusSlot(d)) == LOCKED ::
                  exists i :: 0 <= i < |l.created + [p]| && (l.created + [p])[i].descriptor.domainId == d)
  {
    hide Write, CreationWrites, Locked, Word, Registered;
    var s, after := l.vault.storage, Write(l.vault.storage, CreationWrites(p));
    var created := l.created + [p];
    forall d: B256
      ensures SlotsAgree(after, d)
    {
      assert SlotsAgree(s, d);
      WriteLoads(s, p, StatusSlot(d));
      WriteLoads(s, p, DepositSlot(d));
      WriteLoads(s, p, DescriptorSlot(d));
    }
    forall d: B256 | Load(after, StatusSlot(d)) == LOCKED
      ensures exists i :: 0 <= i < |created| && created[i].descriptor.domainId == d
    {
      WriteLoads(s, p, StatusSlot(d));
      if d == p.descriptor.domainId {
        assert created[|l.created|].descriptor.domainId == d;
      } else {
        var i :| 0 <= i < |l.created| && l.created[i].descriptor.domainId == d;
        assert created[i].descriptor.domainId == d;
      }
    }
  }

  lemma CreateRecords(l: Ledger, p: Prepared, governance: Address)
    requires Solvent(l, governance) && WellPrepared(p)
    requires Load(l.vault.storage, DescriptorSlot(p.descriptor.domainId)) == 0
    ensures var after := Write(l.vault.storage, CreationWrites(p));
            var created := l.created + [p];
            && (forall i | 0 <= i < |created| :: WellPrepared(created[i]) && Registered(after, created[i]))
            && (forall i | 0 <= i < |l.payouts| ::
                  Settled(Load(after, StatusSlot(l.payouts[i].domain))) && Justified(l.payouts[i], created, governance))
            && (forall i, j | 0 <= i < j < |created| ::
                 created[i].descriptor.domainId != created[j].descriptor.domainId)
  {
    hide Write, CreationWrites, Locked, Word;
    var s, after := l.vault.storage, Write(l.vault.storage, CreationWrites(p));
    var created := l.created + [p];
    var fresh_ := p.descriptor.domainId;
    assert SlotsAgree(s, fresh_);
    forall i | 0 <= i < |l.created|
      ensures l.created[i].descriptor.domainId != fresh_ && Registered(after, l.created[i])
    {
      assert Registered(s, l.created[i]);
      RegisteredLoads(s, p, l.created[i].descriptor.domainId);
    }
    RegisteredLoads(s, p, fresh_);
    forall i | 0 <= i < |l.payouts|
      ensures Settled(Load(after, StatusSlot(l.payouts[i].domain))) && Justified(l.payouts[i], created, governance)
    {
      assert Settled(Load(s, StatusSlot(l.payouts[i].domain))) && Justified(l.payouts[i], l.created, governance);
      WriteLoads(s, p, StatusSlot(l.payouts[i].domain));
      var j :| 0 <= j < |l.created| && Pays(l.payouts[i], l.created[j], governance);
      assert Pays(l.payouts[i], created[j], governance);
    }
  }

  lemma RegisteredLoads(s: Storage, p: Prepared, d: B256)
    ensures var after := Write(s, CreationWrites(p));
            if d == p.descriptor.domainId then
              && Load(after, OwnerSlot(d)) == Word(p.descriptor.owner) && Load(after, UnlockSlot(d)) == p.unlockHeight
              && Load(after, StatusSlot(d)) == LOCKED && Load(after, DepositSlot(d)) == p.descriptor.creationDeposit
            else
              && Load(after, OwnerSlot(d)) == Load(s, OwnerSlot(d)) &&
                   Load(after, UnlockSlot(d)) == Load(s, UnlockSlot(d))
              && Load(after, StatusSlot(d)) == Load(s, StatusSlot(d)) &&
                   Load(after, DepositSlot(d)) == Load(s, DepositSlot(d))
  {
    hide Write, CreationWrites, Word;
    WriteLoads(s, p, OwnerSlot(d));
    WriteLoads(s, p, UnlockSlot(d));
    WriteLoads(s, p, StatusSlot(d));
    WriteLoads(s, p, DepositSlot(d));
  }

  // ----- settlement -----

  lemma StoredOwner(owner: Address)
    ensures LowAddress(Word(owner)) == owner
  {
    hide Pow256, BigEndian, FromBigEndian;
    EncodeBigEndian(owner);
    Remainder(Word(owner), Pow256(20));
  }

  lemma Remainder(x: nat, n: nat)
    requires x < n
    ensures x % n == x
  {
  }

  lemma LockedAfterSettle(s: Storage, d: B256, status: nat)
    ensures Locked(Cleared(s, d, status)) == Locked(s) - {d}
  {
    hide Locked;
    var after := Cleared(s, d, status);
    forall x
      ensures x in Locked(after) <==> x in Locked(s) && x != d
      ensures x in Locked(after) ==> Locked(after)[x] == Locked(s)[x]
    {
      LockedIs(after, x);
      LockedIs(s, x);
    }
  }

  lemma SettleSolvent(l: Ledger, call: Call, d: B256, burn: bool, governance: Address, height: u64)
    requires Solvent(l, governance) && RunDeposit(l.vault, call, d, burn, governance, height).Some?
    ensures var (v, p) := RunDeposit(l.vault, call, d, burn, governance, height).value;
            Solvent(Ledger(v, l.created, l.payouts + [p]), governance)
  {
    hide Locked, Word, LowAddress;
    var s := l.vault.storage;
    var (v, p) := RunDeposit(l.vault, call, d, burn, governance, height).value;
    var status := if burn then BURNED else REFUNDED;
    assert v.storage == Cleared(s, d, status);
    LockedAfterSettle(s, d, status);
    LockedIs(s, d);
    SumTake(Locked(s), d);
    SettleSlots(l, d, status, governance);
    SettlePays(l, call, d, burn, governance, height);
  }

  lemma SettleSlots(l: Ledger, d: B256, status: nat, governance: Address)
    requires Solvent(l, governance) && Load(l.vault.storage, StatusSlot(d)) == LOCKED && Settled(status)
    ensures var after := Cleared(l.vault.storage, d, status);
            && (forall x: B256 :: SlotsAgree(after, x))
            && (forall i | 0 <= i < |l.created| :: Registered(after, l.created[i]))
            && (forall x: B256 | Load(after, StatusSlot(x)) == LOCKED ::
                  exists i :: 0 <= i < |l.created| && l.created[i].descriptor.domainId == x)
            && (forall i | 0 <= i < |l.payouts| :: Settled(Load(after, StatusSlot(l.payouts[i].domain))) &&
                 l.payouts[i].domain != d)
  {
    hide Locked, Word, Justified;
    var s := l.vault.storage;
    var after := Cleared(s, d, status);
    forall x: B256
      ensures SlotsAgree(after, x)
    {
      assert SlotsAgree(s, x);
    }
    forall i | 0 <= i < |l.created|
      ensures Registered(after, l.created[i])
    {
      assert Registered(s, l.created[i]);
    }
  }

  lemma SettlePays(l: Ledger, call: Call, d: B256, burn: bool, governance: Address, height: u64)
    requires Solvent(l, governance) && RunDeposit(l.vault, call, d, burn, governance, height).Some?
    ensures Justified(RunDeposit(l.vault, call, d, burn, governance, height).value.1, l.created, governance)
  {
    hide Locked, Word, LowAddress, Sum;
    var s := l.vault.storage;
    var p := RunDeposit(l.vault, call, d, burn, governance, height).value.1;
    var i :| 0 <= i < |l.created| && l.created[i].descriptor.domainId == d;
    assert Registered(s, l.created[i]) && WellPrepared(l.created[i]);
    StoredOwner(l.created[i].descriptor.owner);
    assert Pays(p, l.created[i], governance);
  }

  // ----- every run -----

  ghost predicate WellFormed(op: Op)
    decreases op
  {
    match op
    case Create(_, prepared) => prepared.Some? ==> WellPrepared(prepared.value)
    case Settle(_, _, _, _) => true
    case Credit(_) => true
    case Frame(ops, _) => forall i | 0 <= i < |ops| :: WellFormed(ops[i])
  }

  lemma {:induction false} StepSolvent(l: Ledger, op: Op, governance: Address)
    requires Solvent(l, governance) && WellFormed(op)
    ensures Solvent(Step(l, op, governance), governance)
    decreases op, 0
  {
    hide Solvent, RunCreate, RunDeposit;
    match op
    case Create(call, prepared) =>
      if RunCreate(Credited(l, call.value).vault, call, prepared).Some? {
        CreatePrepared(Credited(l, call.value).vault, call, prepared);
        CreateSolvent(l, call, prepared.value, governance);
      }
    case Settle(call, d, burn, height) =>
      if RunDeposit(l.vault, call, d, burn, governance, height).Some? {
        SettleSolvent(l, call, d, burn, governance, height);
      }
    case Credit(amount) => CreditSolvent(l, amount, governance);
    case Frame(ops, reverted) =>
      if !reverted {
        StepsSolvent(l, ops, |ops|, governance);
      }
  }

  lemma CreatePrepared(v: Vault, call: Call, prepared: Option<Prepared>)
    requires RunCreate(v, call, prepared).Some?
    ensures prepared.Some?
  {
  }

  lemma CreditSolvent(l: Ledger, amount: nat, governance: Address)
    requires Solvent(l, governance)
    ensures Solvent(Credited(l, amount), governance)
  {
    hide Locked, SlotsAgree, Registered, Justified;
  }

  lemma {:induction false} StepsSolvent(l: Ledger, ops: seq<Op>, n: nat, governance: Address)
    requires n <= |ops| && Solvent(l, governance) && forall i | 0 <= i < |ops| :: WellFormed(ops[i])
    ensures Solvent(Steps(l, ops, n, governance), governance)
    decreases ops, n
  {
    hide Solvent, Step;
    if n > 0 {
      StepsSolvent(l, ops, n - 1, governance);
      StepSolvent(Steps(l, ops, n - 1, governance), ops[n - 1], governance);
    }
  }

  /** A registry with no deposit yet, such as the genesis one. */
  ghost predicate NoDeposits(v: Vault) {
    forall d: B256 :: Load(v.storage, DepositSlot(d)) == 0 && Load(v.storage, StatusSlot(d)) == 0
  }

  /** Over every run of creations, refunds, burns and credits, with any nesting of reverted frames:
      outstanding deposits never exceed the balance, a deposit is outstanding exactly while locked,
      each is paid at most once and in full, a refund goes to the owner who asked for it no earlier
      than 100 blocks after creation, and a burn was ordered by governance. */
  lemma DepositsConserved(v: Vault, ops: seq<Op>, governance: Address)
    requires NoDeposits(v) && forall i | 0 <= i < |ops| :: WellFormed(ops[i])
    ensures Solvent(Steps(Ledger(v, [], []), ops, |ops|, governance), governance)
  {
    hide Solvent, Steps;
    StartsSolvent(v, governance);
    StepsSolvent(Ledger(v, [], []), ops, |ops|, governance);
  }

  lemma StartsSolvent(v: Vault, governance: Address)
    requires NoDeposits(v)
    ensures Solvent(Ledger(v, [], []), governance)
  {
    hide Locked;
    forall d
      ensures d !in Locked(v.storage)
    {
      LockedIs(v.storage, d);
    }
    assert Locked(v.storage) == map[];
  }
}
