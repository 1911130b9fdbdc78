/** The persist-before-vote store under crashes, and agreement of certificates over whole runs. */
module SafetyStore {
  import opened Wrappers
  import opened Bytes
  import opened Layout
  import opened Canonical
  import opened Quorum

  const RECORD_LEN: nat := 49

  datatype SafetyVote = SafetyVote(height: u64, round: u64, phase: byte, blockHash: B256)

  datatype SafetyError =
    | Equivocation
    | Regression
    | MalformedSafetyRecord(length: nat)
    | Io

  // ----- the record -----

  function EncodeRecordOf(v: SafetyVote): (r: Bytes)
    ensures |r| == RECORD_LEN
  {
    PutU64(v.height) + PutU64(v.round) + [v.phase] + v.blockHash
  }

  function DecodeRecordOf(bytes: Bytes): Result<SafetyVote, SafetyError> {
    if |bytes| != RECORD_LEN then
      Err(MalformedSafetyRecord(|bytes|))
    else
      Ok(SafetyVote(GetU64(bytes[..8]), GetU64(bytes[8..16]), bytes[16], bytes[17..]))
  }

  /** Every vote survives the file, and no two files of 49 bytes read back as one vote. */
  lemma RecordExact(v: SafetyVote, bytes: Bytes)
    ensures DecodeRecordOf(EncodeRecordOf(v)) == Ok(v)
    ensures DecodeRecordOf(bytes).Ok? <==> |bytes| == RECORD_LEN
    ensures DecodeRecordOf(bytes).Ok? ==> EncodeRecordOf(DecodeRecordOf(bytes).value) == bytes
  {
    hide PutU64, GetU64;
    var e := EncodeRecordOf(v);
    assert e[..8] == PutU64(v.height);
    assert e[8..16] == PutU64(v.round);
    assert e[17..] == v.blockHash;
    if |bytes| == RECORD_LEN {
      var d := DecodeRecordOf(bytes).value;
      assert PutU64(d.height) == bytes[..8] && PutU64(d.round) == bytes[8..16];
    }
  }

  // ----- the store as a state machine -----

  /** `visible` is what the path shows while the machine is up and `durable` what survives a power
      loss; `memory` is the process's last vote and `released` every vote handed out for signing. */
  datatype Store = Store(
    visible: Option<Bytes>,
    durable: Option<Bytes>,
    memory: Option<SafetyVote>,
    released: set<SafetyVote>)

  const EMPTY_STORE: Store := Store(None, None, None, {})

  /** Where an input or output error strikes; after the rename the new name may or may not last. */
  datatype Fault = NoFault | BeforeRename | AfterRename(lasting: bool)

  datatype Event =
    | Persist(vote: SafetyVote, fault: Fault)
    | Flush
    | Restart
    | PowerLoss

  predicate SlotLess(a: SafetyVote, b: SafetyVote) {
    || a.height < b.height
    || (a.height == b.height && a.round < b.round)
    || (a.height == b.height && a.round == b.round && a.phase < b.phase)
  }

  predicate SameSlot(a: SafetyVote, b: SafetyVote) {
    a.height == b.height && a.round == b.round && a.phase == b.phase
  }

  function Refusal(memory: Option<SafetyVote>, vote: SafetyVote): Option<SafetyError> {
    if memory.None? then None
    else if SameSlot(memory.value, vote) && memory.value.blockHash != vote.blockHash then Some(Equivocation)
    else if SlotLess(vote, memory.value) then Some(Regression)
    else None
  }

  function PersistVote(s: Store, vote: SafetyVote, fault: Fault): (Store, Result<(), SafetyError>) {
    var refused := Refusal(s.memory, vote);
    if refused.Some? then
      (s, Err(refused.value))
    else
      var record := Some(EncodeRecordOf(vote));
      match fault
      case NoFault => (Store(record, record, Some(vote), s.released + {vote}), Ok(()))
      case BeforeRename => (s, Err(Io))
      case AfterRename(lasting) =>
        (s.(visible := record, durable := if lasting then record else s.durable), Err(Io))
  }

  function Reload(file: Option<Bytes>): Result<Option<SafetyVote>, SafetyError> {
    if file.None? then Ok(None)
    else var vote :- DecodeRecordOf(file.value); Ok(Some(vote))
  }

  /** A store that cannot be read back stays down, shown by an error. */
  function Reopen(s: Store): Result<Store, SafetyError> {
    var memory :- Reload(s.visible);
    Ok(s.(memory := memory))
  }

  function Apply(s: Store, e: Event): Result<Store, SafetyError> {
    match e
    case Persist(vote, fault) => Ok(PersistVote(s, vote, fault).0)
    case Flush => Ok(s.(durable := s.visible))
    case Restart => Reopen(s)
    case PowerLoss => Reopen(s.(visible := s.durable))
  }

  function After(events: seq<Event>): Result<Store, SafetyError> {
    if events == [] then
      Ok(EMPTY_STORE)
    else
      var s :- After(events[..|events| - 1]);
      Apply(s, events[|events| - 1])
  }

  // ----- the store as an object -----

  class DurableSafetyStore {
    var visible: Option<Bytes>
    var durable: Option<Bytes>
    var lastVote: Option<SafetyVote>
    ghost var released: set<SafetyVote>

    ghost function State(): Store
      reads this
    {
      Store(visible, durable, lastVote, released)
    }

    constructor ()
      ensures State() == EMPTY_STORE
    {
      visible, durable, lastVote, released := None, None, None, {};
    }

    method Open() returns (r: Result<(), SafetyError>)
      modifies this
      ensures match Reopen(old(State()))
              case Ok(s) => r == Ok(()) && State() == s
              case Err(e) => r == Err(e) && State() == old(State())
    {
      if visible.None? {
        lastVote := None;
        return Ok(());
      }
      var vote := DecodeRecordOf(visible.value);
      if vote.Err? {
        return Err(vote.error);
      }
      lastVote := Some(vote.value);
      return Ok(());
    }

    method PersistBeforeVote(vote: SafetyVote, fault: Fault) returns (r: Result<(), SafetyError>)
      modifies this
      ensures (State(), r) == PersistVote(old(State()), vote, fault)
    {
      if lastVote.Some? {
        var previous := lastVote.value;
        var sameSlot := SameSlot(previous, vote);
        if sameSlot && previous.blockHash != vote.blockHash {
          return Err(Equivocation);
        }
        if SlotLess(vote, previous) {
          return Err(Regression);
        }
      }
      if fault.BeforeRename? {
        return Err(Io);
      }
      visible := Some(EncodeRecordOf(vote));
      if fault.AfterRename? {
        if fault.lasting {
          durable := visible;
        }
        return Err(Io);
      }
      durable := visible;
      lastVote := Some(vote);
      released := released + {vote};
      return Ok(());
    }
  }

  // ----- safety of every run -----

  /** `later` is at least as far as `v`, and says the same where it says anything about `v`'s slot. */
  ghost predicate Covers(later: Option<SafetyVote>, v: SafetyVote) {
    later.Some? && (SlotLess(v, later.value) || v == later.value)
  }

  ghost predicate CoversAll(later: Option<SafetyVote>, votes: set<SafetyVote>) {
    forall v | v in votes :: Covers(later, v)
  }

  ghost predicate FileCovers(file: Option<Bytes>, votes: set<SafetyVote>) {
    Reload(file).Ok? && CoversAll(Reload(file).value, votes)
  }

  ghost predicate NoDoubleVote(votes: set<SafetyVote>) {
    forall a, b | a in votes && b in votes && SameSlot(a, b) :: a == b
  }

  ghost predicate Safe(s: Store) {
    && CoversAll(s.memory, s.released)
    && FileCovers(s.visible, s.released)
    && FileCovers(s.durable, s.released)
    && NoDoubleVote(s.released)
  }

  lemma AcceptedCovers(memory: Option<SafetyVote>, vote: SafetyVote, votes: set<SafetyVote>)
    requires CoversAll(memory, votes) && Refusal(memory, vote).None?
    ensures CoversAll(Some(vote), votes)
  {
    forall v | v in votes
      ensures Covers(Some(vote), v)
    {
      assert Covers(memory, v);
    }
  }

  lemma StepSafe(s: Store, e: Event)
    requires Safe(s)
    ensures Apply(s, e).Ok? && Safe(Apply(s, e).value)
    ensures s.released <= Apply(s, e).value.released
  {
    if e.Persist? && Refusal(s.memory, e.vote).None? {
      AcceptedCovers(s.memory, e.vote, s.released);
      RecordExact(e.vote, EncodeRecordOf(e.vote));
      assert Reload(Some(EncodeRecordOf(e.vote))) == Ok(Some(e.vote));
      assert CoversAll(Some(e.vote), s.released + {e.vote});
      forall a, b | a in s.released + {e.vote} && b in s.released + {e.vote} && SameSlot(a, b)
        ensures a == b
      {
        assert Covers(Some(e.vote), a) && Covers(Some(e.vote), b);
      }
    }
  }

  /** Whatever faults, restarts and power losses occur, the store reopens and no validator ever
      releases votes for two blocks in one slot. */
  lemma {:induction false} RunSafe(events: seq<Event>)
    ensures After(events).Ok? && Safe(After(events).value)
  {
    hide Safe, Apply;
    if events != [] {
      RunSafe(events[..|events| - 1]);
      StepSafe(After(events[..|events| - 1]).value, events[|events| - 1]);
    } else {
      NothingReleased();
    }
  }

  lemma NothingReleased()
    ensures Safe(EMPTY_STORE)
  {
  }

  // ----- agreement -----

  function SlotVote(v: Vote): SafetyVote {
    SafetyVote(v.height, v.round, v.phase, v.blockHash)
  }

  /** A signature that verifies under a conforming validator's key was made for a released vote. */
  ghost predicate Conforms(s: Scheme, validator: Validator, store: Store) {
    forall vote: Vote, signature: Signature |
      vote.validatorId == validator.id && s.verify(validator.publicKey, vote, signature) ::
      SlotVote(vote) in store.released
  }

  /** Every validator outside `faulty` follows the store through its own history of events. */
  ghost predicate Honest(s: Scheme, set_: ValidatorSet, histories: seq<seq<Event>>, faulty: set<nat>)
    requires |histories| == |set_.validators|
  {
    forall i | 0 <= i < |histories| && i !in faulty ::
      After(histories[i]).Ok? && Conforms(s, set_.validators[i], After(histories[i]).value)
  }

  lemma HonestInBoth(validators: seq<Validator>, both: set<nat>, faulty: set<nat>) returns (i: nat)
    requires 3 * Power(validators, both) > TotalPower(validators)
    requires 3 * Power(validators, faulty) <= TotalPower(validators)
    ensures i < |validators| && i in both && i !in faulty
  {
    if forall j | j in both && j < |validators| :: j in faulty {
      WeightMonotone(validators, both, faulty, |validators|);
      assert false;
    }
    i :| i in both && i < |validators| && i !in faulty;
  }

  lemma SignerReleased(s: Scheme, c: Certificate, set_: ValidatorSet, i: nat, store: Store)
    requires Accepted(s, c, set_) && i in Signers(c, set_.validators, |c.signatures|)
    requires i < |set_.validators| && Conforms(s, set_.validators[i], store)
    ensures SafetyVote(c.height, c.round, c.phase, c.blockHash) in store.released
  {
    hide EncodeCertificate, Validated, Signers;
    SignerVoted(s, c, set_.validators, |c.signatures|, i);
    var v := VoteFor(c, set_.validators[i].id);
    var signature: Signature :| s.verify(set_.validators[i].publicKey, v, signature);
    assert SlotVote(v) in store.released;
  }

  /** Accepted certificates for one height, round and phase name one block, in every crash history,
      as long as the validators that do not follow the store hold at most a third of the power. */
  lemma CertificatesAgree(
      s: Scheme, set_: ValidatorSet, a: Certificate, b: Certificate,
      histories: seq<seq<Event>>, faulty: set<nat>)
    requires Accepted(s, a, set_) && Accepted(s, b, set_)
    requires |histories| == |set_.validators| && Honest(s, set_, histories, faulty)
    requires 3 * Power(set_.validators, faulty) <= TotalPower(set_.validators)
    requires a.height == b.height && a.round == b.round && a.phase == b.phase
    ensures a.blockHash == b.blockHash
  {
    hide Accepted, Signers, Conforms, After, Power, TotalPower;
    var vs := set_.validators;
    QuorumsOverlap(s, a, b, set_);
    var i := HonestInBoth(vs, Signers(a, vs, |a.signatures|) * Signers(b, vs, |b.signatures|), faulty);
    RunSafe(histories[i]);
    var store := After(histories[i]).value;
    SignerReleased(s, a, set_, i, store);
    SignerReleased(s, b, set_, i, store);
    assert NoDoubleVote(store.released);
    assert SameSlot(SafetyVote(a.height, a.round, a.phase, a.blockHash),
                    SafetyVote(b.height, b.round, b.phase, b.blockHash));
  }
}
