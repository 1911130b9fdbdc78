/** Weighted quorum certificates: what acceptance means and how two of them overlap. */
module Quorum {
  import opened Wrappers
  import opened Bytes
  import opened Layout
  import opened Canonical

  /** The signature scheme: key validity, validator identifiers and vote verification. */
  datatype Scheme = Scheme(
    validKey: PublicKey -> bool,
    idOf: PublicKey -> B256,
    verify: (PublicKey, Vote, Signature) -> bool)

  datatype CryptoError =
    | Codec(error: CodecError)
    | InvalidPublicKey
    | InvalidSignature
    | ValidatorMismatch
    | UnknownValidator
    | InsufficientQuorum
    | VotingPowerOverflow

  /** No vector of validators is this long, so tripled powers stay within 128 bits. */
  const MAX_LIST: nat := 0x400_0000_0000_0000

  // ----- power of index sets -----

  ghost function Weight(validators: seq<Validator>, members: set<nat>, n: nat): nat
    requires n <= |validators|
  {
    if n == 0 then 0 else
    Weight(validators, members, n - 1) + (if n - 1 in members then validators[n - 1].power else 0)
  }

  ghost function Power(validators: seq<Validator>, members: set<nat>): nat {
    Weight(validators, members, |validators|)
  }

  ghost function TotalPower(validators: seq<Validator>): nat {
    if validators == [] then 0 else
    TotalPower(validators[..|validators| - 1]) + validators[|validators| - 1].power
  }

  lemma {:induction false} WeightOfUnion(validators: seq<Validator>, a: set<nat>, b: set<nat>, n: nat)
    requires n <= |validators|
    ensures Weight(validators, a, n) + Weight(validators, b, n)
         == Weight(validators, a + b, n) + Weight(validators, a * b, n)
  {
    if n > 0 {
      WeightOfUnion(validators, a, b, n - 1);
    }
  }

  lemma {:induction false} WeightBelowTotal(validators: seq<Validator>, a: set<nat>, n: nat)
    requires n <= |validators|
    ensures Weight(validators, a, n) <= TotalPower(validators[..n])
  {
    if n > 0 {
      assert validators[..n][..n - 1] == validators[..n - 1];
      WeightBelowTotal(validators, a, n - 1);
    }
  }

  lemma {:induction false} WeightMonotone(validators: seq<Validator>, a: set<nat>, b: set<nat>, n: nat)
    requires n <= |validators|
    requires forall i | i in a && i < n :: i in b
    ensures Weight(validators, a, n) <= Weight(validators, b, n)
  {
    if n > 0 {
      WeightMonotone(validators, a, b, n - 1);
    }
  }

  lemma {:induction false} WeightAdds(validators: seq<Validator>, a: set<nat>, i: nat, n: nat)
    requires n <= |validators| && i < |validators| && i !in a
    ensures Weight(validators, a + {i}, n) == Weight(validators, a, n) + (if i < n then validators[i].power else 0)
  {
    if n > 0 {
      WeightAdds(validators, a, i, n - 1);
    }
  }

  // ----- the validator list -----

  /** Checks keys and identifiers and adds up the power; nothing is said about order. */
  function Validated(s: Scheme, validators: seq<Validator>): Result<nat, CryptoError> {
    if validators == [] then
      Ok(0)
    else
      var n := |validators| - 1;
      var total :- Validated(s, validators[..n]);
      var v := validators[n];
      if !s.validKey(v.publicKey) then
        Err(InvalidPublicKey)
      else if v.id != s.idOf(v.publicKey) then
        Err(ValidatorMismatch)
      else if total + v.power > U128_MAX then
        Err(VotingPowerOverflow)
      else
        Ok(total + v.power)
  }

  /** `validate_validator_set`. */
  method ValidateSet(s: Scheme, set_: ValidatorSet) returns (r: Result<(), CryptoError>)
    ensures r == match Validated(s, set_.validators)
                 case Err(e) => Err(e)
                 case Ok(total) => if total == 0 then Err(InsufficientQuorum) else Ok(())
  {
    var vs := set_.validators;
    var total := 0;
    for i := 0 to |vs|
      invariant Validated(s, vs[..i]) == Ok(total)
    {
      var v := vs[i];
      assert vs[..i + 1][..i] == vs[..i];
      if !s.validKey(v.publicKey) {
        FirstError(s, vs, i + 1);
        return Err(InvalidPublicKey);
      }
      if v.id != s.idOf(v.publicKey) {
        FirstError(s, vs, i + 1);
        return Err(ValidatorMismatch);
      }
      if total + v.power > U128_MAX {
        FirstError(s, vs, i + 1);
        return Err(VotingPowerOverflow);
      }
      total := total + v.power;
    }
    assert vs[..|vs|] == vs;
    return if total == 0 then Err(InsufficientQuorum) else Ok(());
  }

  lemma {:induction false} FirstError(s: Scheme, vs: seq<Validator>, i: nat)
    requires i <= |vs| && Validated(s, vs[..i]).Err?
    ensures Validated(s, vs) == Validated(s, vs[..i])
    decreases |vs| - i
  {
    if i < |vs| {
      assert vs[..i + 1][..i] == vs[..i];
      FirstError(s, vs, i + 1);
    } else {
      assert vs[..i] == vs;
    }
  }

  /** `binary_search_by_key` over the list as given, sorted or not. */
  function Search(validators: seq<Validator>, id: B256, lo: nat, hi: nat): (r: Option<nat>)
    requires lo <= hi <= |validators|
    ensures r.Some? ==> lo <= r.value < hi && validators[r.value].id == id
    decreases hi - lo
  {
    if lo == hi then None else
    var mid := lo + (hi - lo) / 2;
    if validators[mid].id == id then Some(mid)
    else if LexLess(validators[mid].id, id) then Search(validators, id, mid + 1, hi)
    else Search(validators, id, lo, mid)
  }

  function Locate(validators: seq<Validator>, id: B256): (r: Option<nat>)
    ensures r.Some? ==> r.value < |validators| && validators[r.value].id == id
  {
    Search(validators, id, 0, |validators|)
  }

  /** On a sorted list the search misses nobody. */
  lemma {:induction false} SearchFinds(validators: seq<Validator>, i: nat, lo: nat, hi: nat)
    requires lo <= i < hi <= |validators|
    requires forall a, b | 0 <= a < b < |validators| :: LexLess(validators[a].id, validators[b].id)
    ensures Search(validators, validators[i].id, lo, hi) == Some(i)
    decreases hi - lo
  {
    hide LexLess;
    var id := validators[i].id;
    var mid := lo + (hi - lo) / 2;
    LexIrreflexive(id);
    if mid < i {
      SearchFinds(validators, i, mid + 1, hi);
    } else if i < mid {
      LexAsymmetric(id, validators[mid].id);
      SearchFinds(validators, i, lo, mid);
    }
  }

  // ----- certificates -----

  function VoteFor(c: Certificate, id: B256): Vote {
    Vote(c.networkId, c.height, c.round, c.phase, c.blockHash, id)
  }

  function VerifyVote(s: Scheme, key: PublicKey, vote: Vote, signature: Signature): Result<(), CryptoError> {
    if vote.validatorId != s.idOf(key) then Err(ValidatorMismatch)
    else if !s.validKey(key) then Err(InvalidPublicKey)
    else if !s.verify(key, vote, signature) then Err(InvalidSignature)
    else Ok(())
  }

  /** Signed power of the first `n` signatures. */
  function Signed(s: Scheme, c: Certificate, validators: seq<Validator>, n: nat): Result<nat, CryptoError>
    requires n <= |c.signatures|
  {
    if n == 0 then
      Ok(0)
    else
      var power :- Signed(s, c, validators, n - 1);
      var commit := c.signatures[n - 1];
      match Locate(validators, commit.validatorId)
      case None => Err(UnknownValidator)
      case Some(index) =>
        var _ :- VerifyVote(s, validators[index].publicKey, VoteFor(c, commit.validatorId), commit.signature);
        if power + validators[index].power > U128_MAX then Err(VotingPowerOverflow)
        else Ok(power + validators[index].power)
  }

  function VerifyCertificate(s: Scheme, c: Certificate, set_: ValidatorSet): Result<(), CryptoError> {
    var total :- Validated(s, set_.validators);
    if total == 0 then
      Err(InsufficientQuorum)
    else if EncodeCertificate(c).Err? then
      Err(Codec(EncodeCertificate(c).error))
    else
      var signed :- Signed(s, c, set_.validators, |c.signatures|);
      if signed * 3 <= total * 2 then Err(InsufficientQuorum) else Ok(())
  }

  /** `verify_quorum_certificate` with its accumulation loop. */
  method Verify(s: Scheme, c: Certificate, set_: ValidatorSet) returns (r: Result<(), CryptoError>)
    ensures r == VerifyCertificate(s, c, set_)
  {
    hide EncodeCertificate, Locate, VerifyVote;
    var valid := ValidateSet(s, set_);
    if valid.Err? {
      return valid;
    }
    if EncodeCertificate(c).Err? {
      return Err(Codec(EncodeCertificate(c).error));
    }
    var total := Validated(s, set_.validators).value;
    var power := 0;
    for i := 0 to |c.signatures|
      invariant Signed(s, c, set_.validators, i) == Ok(power)
    {
      var commit := c.signatures[i];
      var index := Locate(set_.validators, commit.validatorId);
      if index.None? {
        SignedError(s, c, set_.validators, i + 1);
        return Err(UnknownValidator);
      }
      var validator := set_.validators[index.value];
      var checked := VerifyVote(s, validator.publicKey, VoteFor(c, commit.validatorId), commit.signature);
      if checked.Err? {
        SignedError(s, c, set_.validators, i + 1);
        return checked;
      }
      if power + validator.power > U128_MAX {
        SignedError(s, c, set_.validators, i + 1);
        return Err(VotingPowerOverflow);
      }
      power := power + validator.power;
    }
    return if power * 3 <= total * 2 then Err(InsufficientQuorum) else Ok(());
  }

  lemma {:induction false} SignedError(s: Scheme, c: Certificate, validators: seq<Validator>, n: nat)
    requires n <= |c.signatures| && Signed(s, c, validators, n).Err?
    ensures Signed(s, c, validators, |c.signatures|) == Signed(s, c, validators, n)
    decreases |c.signatures| - n
  {
    if n < |c.signatures| {
      SignedError(s, c, validators, n + 1);
    }
  }

  // ----- what acceptance gives -----

  /** List positions of the certificate's first `n` signers. */
  ghost function Signers(c: Certificate, validators: seq<Validator>, n: nat): set<nat>
    requires n <= |c.signatures|
  {
    set i | 0 <= i < n && Locate(validators, c.signatures[i].validatorId).Some? ::
      Locate(validators, c.signatures[i].validatorId).value
  }

  ghost predicate Accepted(s: Scheme, c: Certificate, set_: ValidatorSet) {
    VerifyCertificate(s, c, set_).Ok?
  }

  lemma {:induction false} TotalIsValidated(s: Scheme, vs: seq<Validator>)
    requires Validated(s, vs).Ok?
    ensures Validated(s, vs).value == TotalPower(vs)
  {
    if vs != [] {
      TotalIsValidated(s, vs[..|vs| - 1]);
    }
  }

  lemma DistinctSigners(c: Certificate, i: nat, j: nat)
    requires NeighboursSorted(SignersOf(c.signatures)) && i < j < |c.signatures|
    ensures c.signatures[i].validatorId != c.signatures[j].validatorId
  {
    SortedFar(SignersOf(c.signatures), i, j);
    LexIrreflexive(c.signatures[i].validatorId);
  }

  lemma {:induction false} SortedFar(ids: seq<B256>, i: nat, j: nat)
    requires NeighboursSorted(ids) && i < j < |ids|
    ensures LexLess(ids[i], ids[j])
    decreases j
  {
    hide LexLess;
    assert LexLess(ids[j - 1], ids[j]);
    if i < j - 1 {
      SortedFar(ids, i, j - 1);
      LexTransitive(ids[i], ids[j - 1], ids[j]);
    }
  }

  lemma {:induction false} SignedIsPower(s: Scheme, c: Certificate, validators: seq<Validator>, n: nat)
    requires n <= |c.signatures| && NeighboursSorted(SignersOf(c.signatures))
    requires Signed(s, c, validators, n).Ok?
    ensures Signed(s, c, validators, n).value == Power(validators, Signers(c, validators, n))
  {
    hide Locate, VerifyVote, NeighboursSorted;
    if n == 0 {
      assert Signers(c, validators, 0) == {};
      EmptyWeight(validators, |validators|);
    } else {
      SignedIsPower(s, c, validators, n - 1);
      var before := Signers(c, validators, n - 1);
      var index := Locate(validators, c.signatures[n - 1].validatorId).value;
      forall i | 0 <= i < n - 1
        ensures Locate(validators, c.signatures[i].validatorId) != Some(index)
      {
        DistinctSigners(c, i, n - 1);
      }
      assert index !in before;
      assert Signers(c, validators, n) == before + {index};
      WeightAdds(validators, before, index, |validators|);
    }
  }

  lemma {:induction false} EmptyWeight(validators: seq<Validator>, n: nat)
    requires n <= |validators|
    ensures Weight(validators, {}, n) == 0
  {
    if n > 0 {
      EmptyWeight(validators, n - 1);
    }
  }

  lemma CertificateSorted(c: Certificate)
    requires EncodeCertificate(c).Ok?
    ensures NeighboursSorted(SignersOf(c.signatures))
  {
    hide Flatten, FlattenAll, Tagged, NeighboursSorted;
  }

  /** An accepted certificate names signers with more than two thirds of the total power. */
  lemma AcceptedPower(s: Scheme, c: Certificate, set_: ValidatorSet)
    requires Accepted(s, c, set_)
    ensures 3 * Power(set_.validators, Signers(c, set_.validators, |c.signatures|)) > 2 * TotalPower(set_.validators)
  {
    hide EncodeCertificate, Signed, Weight;
    var vs := set_.validators;
    CertificateSorted(c);
    SignedIsPower(s, c, vs, |c.signatures|);
    TotalIsValidated(s, vs);
  }

  /** Two accepted certificates over one list, for whatever blocks, share signers holding more
      than a third of the total power. */
  lemma QuorumsOverlap(s: Scheme, a: Certificate, b: Certificate, set_: ValidatorSet)
    requires Accepted(s, a, set_) && Accepted(s, b, set_)
    ensures var vs := set_.validators;
            3 * Power(vs, Signers(a, vs, |a.signatures|) * Signers(b, vs, |b.signatures|)) > TotalPower(vs)
  {
    hide VerifyCertificate, Signers, Weight;
    var vs := set_.validators;
    var x, y := Signers(a, vs, |a.signatures|), Signers(b, vs, |b.signatures|);
    AcceptedPower(s, a, set_);
    AcceptedPower(s, b, set_);
    WeightOfUnion(vs, x, y, |vs|);
    WeightBelowTotal(vs, x + y, |vs|);
    assert vs[..|vs|] == vs;
  }

  /** A signer of an accepted certificate really carries a verified vote. */
  lemma {:induction false} SignerVoted(s: Scheme, c: Certificate, validators: seq<Validator>, n: nat, i: nat)
    requires n <= |c.signatures| && Signed(s, c, validators, n).Ok? && i in Signers(c, validators, n)
    ensures i < |validators|
    ensures exists signature: Signature ::
              s.verify(validators[i].publicKey, VoteFor(c, validators[i].id), signature)
  {
    hide Locate;
    var commit := c.signatures[n - 1];
    var index := Locate(validators, commit.validatorId).value;
    if index == i {
      assert s.verify(validators[i].publicKey, VoteFor(c, validators[i].id), commit.signature);
    } else {
      SignerVoted(s, c, validators, n - 1, i);
    }
  }

  /** Everybody in a sorted list is found at the position they hold. */
  lemma MemberFound(validators: seq<Validator>, i: nat)
    requires i < |validators|
    requires forall a, b | 0 <= a < b < |validators| :: LexLess(validators[a].id, validators[b].id)
    ensures Locate(validators, validators[i].id) == Some(i)
  {
    SearchFinds(validators, i, 0, |validators|);
  }

  /** The signature at position `j` is a verified vote of the validator at position `at(j)`. */
  ghost predicate GoodSignature(s: Scheme, c: Certificate, validators: seq<Validator>, j: nat, i: nat)
    requires j < |c.signatures|
  {
    && i < |validators| && c.signatures[j].validatorId == validators[i].id
    && s.idOf(validators[i].publicKey) == validators[i].id && s.validKey(validators[i].publicKey)
    && s.verify(validators[i].publicKey, VoteFor(c, validators[i].id), c.signatures[j].signature)
  }

  lemma {:induction false} GoodSigned(s: Scheme, c: Certificate, validators: seq<Validator>, at: seq<nat>, n: nat)
    requires n <= |c.signatures| == |at| && |validators| <= MAX_LIST && NeighboursSorted(SignersOf(c.signatures))
    requires forall a, b | 0 <= a < b < |validators| :: LexLess(validators[a].id, validators[b].id)
    requires forall j: nat | j < |at| :: GoodSignature(s, c, validators, j, at[j])
    ensures Signed(s, c, validators, n).Ok?
  {
    hide Locate, NeighboursSorted, LexLess;
    if n > 0 {
      GoodSigned(s, c, validators, at, n - 1);
      assert GoodSignature(s, c, validators, n - 1, at[n - 1]);
      MemberFound(validators, at[n - 1]);
      SignedIsPower(s, c, validators, n - 1);
      NoOverflow(validators, Signers(c, validators, n - 1), |validators|);
    }
  }

  /** The converse of acceptance: over a valid sorted list, an encodable certificate of verified votes by
      members with more than two thirds of the power is accepted. */
  lemma QuorumAccepted(s: Scheme, c: Certificate, set_: ValidatorSet, at: seq<nat>)
    requires |c.signatures| == |at| && |set_.validators| <= MAX_LIST && EncodeCertificate(c).Ok?
    requires Validated(s, set_.validators).Ok?
    requires forall a, b | 0 <= a < b < |set_.validators| :: LexLess(set_.validators[a].id, set_.validators[b].id)
    requires forall j: nat | j < |at| :: GoodSignature(s, c, set_.validators, j, at[j])
    requires 3 * Power(set_.validators, set j | 0 <= j < |at| :: at[j]) > 2 * TotalPower(set_.validators)
    ensures Accepted(s, c, set_)
  {
    hide EncodeCertificate, Signed, Weight, LexLess, Locate, Validated;
    var vs := set_.validators;
    CertificateSorted(c);
    GoodSigned(s, c, vs, at, |at|);
    SignedIsPower(s, c, vs, |at|);
    TotalIsValidated(s, vs);
    forall j: nat | j < |at|
      ensures Locate(vs, c.signatures[j].validatorId) == Some(at[j])
    {
      assert GoodSignature(s, c, vs, j, at[j]);
      MemberFound(vs, at[j]);
    }
    assert Signers(c, vs, |at|) == set j | 0 <= j < |at| :: at[j];
    WeightBelowTotal(vs, Signers(c, vs, |at|), |vs|);
    assert vs[..|vs|] == vs;
  }

  /** No list or certificate makes verification overflow: neither sum reaches its check, and the
      products compared at the end stay within 128 bits. */
  lemma NeverOverflows(s: Scheme, c: Certificate, set_: ValidatorSet)
    requires |set_.validators| <= MAX_LIST
    ensures VerifyCertificate(s, c, set_) != Err(VotingPowerOverflow)
    ensures Validated(s, set_.validators).Ok? ==> Validated(s, set_.validators).value * 2 <= U128_MAX
    ensures EncodeCertificate(c).Ok? && Signed(s, c, set_.validators, |c.signatures|).Ok? ==>
              Signed(s, c, set_.validators, |c.signatures|).value * 3 <= U128_MAX
  {
    hide EncodeCertificate, Signed, Weight, LexLess, Validated;
    var vs := set_.validators;
    assert vs[..|vs|] == vs;
    ListFits(s, vs, |vs|);
    if EncodeCertificate(c).Ok? {
      CertificateSorted(c);
      SignaturesFit(s, c, vs, |c.signatures|);
    }
  }

  lemma {:induction false} ListFits(s: Scheme, vs: seq<Validator>, n: nat)
    requires n <= |vs| <= MAX_LIST
    ensures Validated(s, vs[..n]) != Err(VotingPowerOverflow)
    ensures Validated(s, vs[..n]).Ok? ==> Validated(s, vs[..n]).value <= n * U64_MAX && n * U64_MAX * 2 <= U128_MAX
  {
    if n > 0 {
      ListFits(s, vs, n - 1);
      assert vs[..n][..n - 1] == vs[..n - 1];
    }
  }

  lemma {:induction false} SignaturesFit(s: Scheme, c: Certificate, validators: seq<Validator>, n: nat)
    requires n <= |c.signatures| && |validators| <= MAX_LIST && NeighboursSorted(SignersOf(c.signatures))
    ensures Signed(s, c, validators, n) != Err(VotingPowerOverflow)
    ensures Signed(s, c, validators, n).Ok? ==> Signed(s, c, validators, n).value * 3 <= U128_MAX
  {
    hide Locate, NeighboursSorted, Weight;
    if n > 0 {
      SignaturesFit(s, c, validators, n - 1);
      if Signed(s, c, validators, n - 1).Ok? {
        SignedIsPower(s, c, validators, n - 1);
        NoOverflow(validators, Signers(c, validators, n - 1), |validators|);
      }
    }
    if Signed(s, c, validators, n).Ok? {
      SignedIsPower(s, c, validators, n);
      NoOverflow(validators, Signers(c, validators, n), |validators|);
    }
  }

  /** Powers of a list of realistic length stay within the 128-bit accumulator, tripled. */
  lemma {:induction false} NoOverflow(validators: seq<Validator>, members: set<nat>, n: nat)
    requires n <= |validators| <= MAX_LIST
    ensures 3 * Weight(validators, members, n) <= 3 * n * U64_MAX
    ensures 3 * n * U64_MAX <= U128_MAX
  {
    if n > 0 {
      NoOverflow(validators, members, n - 1);
    }
  }
}
