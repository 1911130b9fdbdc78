/** The root registry's native calls as steps over its storage and balance. */
module Registry {
  import opened Wrappers
  import opened Bytes
  import opened Canonical
  import opened Chain

  const MIN_CREATION_DEPOSIT: nat := 1_000_000_000_000_000_000
  const LOCK_BLOCKS: nat := 100

  const LOCKED: nat := 1
  const REFUNDED: nat := 2
  const BURNED: nat := 3

  /** Storage slots by tag and key; in storage each is the hash of both. */
  datatype Slot =
    | DescriptorSlot(domain: B256)
    | ChainIdSlot(chainId: u64)
    | CreationHeightSlot(domain: B256)
    | DepositSlot(domain: B256)
    | UnlockSlot(domain: B256)
    | OwnerSlot(domain: B256)
    | StatusSlot(domain: B256)

  type Storage = map<Slot, nat>

  function Load(s: Storage, slot: Slot): nat {
    if slot in s then s[slot] else 0
  }

  function Word(bytes: Bytes): nat {
    FromBigEndian(bytes)
  }

  /** The registry account. */
  datatype Vault = Vault(storage: Storage, balance: nat)

  // ----- creation -----

  datatype Request = Request(
    parentDomainId: B256, name: Bytes, symbol: Bytes, evmChainId: u64, owner: Address, gasLimit: u64,
    initialBaseFee: u128, initialSupply: u256, protocolRevision: u32)

  datatype Prepared = Prepared(descriptor: Descriptor, descriptorHash: B256, creationHeight: u64, unlockHeight: u64)

  function ZeroAddress(): Address {
    seq(20, _ => 0)
  }

  predicate ValidRequest(r: Request) {
    && r.parentDomainId != ZeroHash()
    && r.evmChainId != 0
    && r.owner != ZeroAddress()
    && 0 < r.gasLimit <= 30_000_000
    && r.initialBaseFee <= U64_MAX
    && r.protocolRevision == 1
  }

  function DescriptorFor(m: Machine, r: Request, network: B256, txHash: B256, joint: B256, stateRoot: B256,
                         deposit: u256): Descriptor {
    var draft := Descriptor(
      DeriveDomainId(m.k, network, r.parentDomainId, txHash), r.parentDomainId, joint, txHash, ZeroHash(),
      r.name, r.symbol, r.evmChainId, r.owner, r.protocolRevision, r.gasLimit, r.initialBaseFee, r.initialSupply,
      deposit, Active);
    draft.(originHash := m.originHash(GenesisOf(draft, stateRoot)))
  }

  /** `prepare_chain_creation`; metadata normalization is already done. */
  function Prepare(m: Machine, r: Request, network: B256, txHash: B256, joint: B256, stateRoot: B256, deposit: u256,
                   height: u64)
    : Option<Prepared>
  {
    if !ValidRequest(r) || deposit < MIN_CREATION_DEPOSIT || height + LOCK_BLOCKS > U64_MAX then
      None
    else
      var d := DescriptorFor(m, r, network, txHash, joint, stateRoot, deposit);
      Some(Prepared(d, m.descriptorHash(d), height, height + LOCK_BLOCKS))
  }

  /** `creation_storage_writes`, in order. */
  function CreationWrites(p: Prepared): seq<(Slot, nat)> {
    var d := p.descriptor.domainId;
    [(DescriptorSlot(d), Word(p.descriptorHash)),
     (ChainIdSlot(p.descriptor.evmChainId), Word(d)),
     (CreationHeightSlot(d), p.creationHeight),
     (DepositSlot(d), p.descriptor.creationDeposit),
     (UnlockSlot(d), p.unlockHeight),
     (OwnerSlot(d), Word(p.descriptor.owner)),
     (StatusSlot(d), LOCKED)]
  }

  function Write(s: Storage, writes: seq<(Slot, nat)>): Storage {
    if writes == [] then s else
    var last := writes[|writes| - 1];
    Write(s, writes[..|writes| - 1])[last.0 := last.1]
  }

  /** A native call: how it arrived, and the value the frame moved to the registry beforehand. */
  datatype Call = Call(caller: Address, isStatic: bool, value: nat, canonical: bool)

  /** `run_create_chain` on a vault already holding the call's value; None is a revert. */
  function RunCreate(v: Vault, call: Call, prepared: Option<Prepared>): Option<Vault> {
    if prepared.None? then
      None
    else
      var p := prepared.value;
      if call.isStatic || !call.canonical || call.value != p.descriptor.creationDeposit then
        None
      else if Load(v.storage, DescriptorSlot(p.descriptor.parentDomainId)) == 0 then
        None
      else if Load(v.storage, DescriptorSlot(p.descriptor.domainId)) != 0 then
        None
      else if Load(v.storage, ChainIdSlot(p.descriptor.evmChainId)) != 0 then
        None
      else
        Some(v.(storage := Write(v.storage, CreationWrites(p))))
  }

  // ----- refund and burn -----

  /** One payment, and who called for it. */
  datatype Payout = Payout(domain: B256, amount: nat, recipient: Bytes, burned: bool, height: u64, caller: Address)

  /** The low 20 bytes of a stored word. */
  function LowAddress(word: nat): Bytes {
    BigEndian(word % Pow256(20), 20)
  }

  function Transfer(balance: nat, amount: nat, toSelf: bool): Option<nat> {
    if amount > balance then None else Some(if toSelf then balance else balance - amount)
  }

  function Cleared(s: Storage, d: B256, status: nat): Storage {
    s[DepositSlot(d) := 0][StatusSlot(d) := status]
  }

  const REGISTRY: Address := [0, 0, 0, 0, 0, 0, 0, 0, 0, 0, 0, 0, 0, 0, 0, 0, 0, 0, 8, 1]

  /** `run_deposit_lifecycle`; None is a revert. */
  function RunDeposit(v: Vault, call: Call, d: B256, burn: bool, governance: Address, height: u64)
    : Option<(Vault, Payout)> {
    var amount := Load(v.storage, DepositSlot(d));
    var owner := LowAddress(Load(v.storage, OwnerSlot(d)));
    if call.isStatic || call.value != 0 then
      None
    else if Load(v.storage, StatusSlot(d)) != LOCKED then
      None
    else if amount == 0 then
      None
    else if burn && call.caller != governance then
      None
    else if !burn && (height < Load(v.storage, UnlockSlot(d)) || call.caller != owner) then
      None
    else
      var recipient := if burn then ZeroAddress() else owner;
      match Transfer(v.balance, amount, recipient == REGISTRY)
      case None => None
      case Some(left) =>
        var storage := Cleared(v.storage, d, if burn then BURNED else REFUNDED);
        Some((Vault(storage, left), Payout(d, amount, recipient, burn, height, call.caller)))
  }

  // ----- runs with reverts -----

  /** Frames nest; a reverted frame undoes everything inside it, the moved value included. */
  datatype Op =
    | Create(call: Call, prepared: Option<Prepared>)
    | Settle(call: Call, domain: B256, burn: bool, height: u64)
    | Credit(amount: nat)
    | Frame(ops: seq<Op>, reverted: bool)

  /** The vault, the creations that stand and the payments made, in order. */
  datatype Ledger = Ledger(vault: Vault, created: seq<Prepared>, payouts: seq<Payout>)

  function Credited(l: Ledger, amount: nat): Ledger {
    l.(vault := l.vault.(balance := l.vault.balance + amount))
  }

  function Step(l: Ledger, op: Op, governance: Address): Ledger
    decreases op, 0
  {
    match op
    case Create(call, prepared) =>
      var paid := Credited(l, call.value);
      (match RunCreate(paid.vault, call, prepared)
       case None => l
       case Some(v) => Ledger(v, l.created + [prepared.value], l.payouts))
    case Settle(call, d, burn, height) =>
      (match RunDeposit(l.vault, call, d, burn, governance, height)
       case None => l
       case Some(result) => Ledger(result.0, l.created, l.payouts + [result.1]))
    case Credit(amount) => Credited(l, amount)
    case Frame(ops, reverted) => if reverted then l else Steps(l, ops, |ops|, governance)
  }

  function Steps(l: Ledger, ops: seq<Op>, n: nat, governance: Address): Ledger
    requires n <= |ops|
    decreases ops, n
  {
    if n == 0 then l else Step(Steps(l, ops, n - 1, governance), ops[n - 1], governance)
  }
}
