/** Ownership proof: the rule both the API and the runner ask, and the row it is read from. */
module Verification {
  import opened Clock

  const VERIFICATION_TTL_DAYS: int := 30

  /** One row of `target_verifications`. The token and the method only feed the network check. */
  datatype Proof = Proof(target: nat, verifiedAt: Option<Time>, expiresAt: Option<Time>)

  predicate IsCurrentlyVerified(verifiedAt: Option<Time>, expiresAt: Option<Time>, now: Time) {
    verifiedAt.Some? && expiresAt.Some? && expiresAt.value > now
  }

  function ExpiryFrom(now: Time): Time {
    now + VERIFICATION_TTL_DAYS * DAY
  }

  /** Every completed row lives exactly one time-to-live; pending rows have no expiry. */
  ghost predicate WellTimed(proofs: seq<Proof>, now: Time) {
    forall k | 0 <= k < |proofs| ::
      match proofs[k].verifiedAt
      case None => proofs[k].expiresAt == None
      case Some(at) => at <= now && proofs[k].expiresAt == Some(ExpiryFrom(at))
  }

  predicate IsProofOf(proof: Proof, target: nat) {
    proof.target == target && proof.verifiedAt.Some?
  }

  /**
   The completed row of `target` with the latest `verified_at`, as the shared lateral query reads it.
   The query leaves ties open; the later row is taken here.
   */
  function Latest(proofs: seq<Proof>, target: nat): (r: Option<nat>)
    ensures r.Some? ==>
      && r.value < |proofs|
      && IsProofOf(proofs[r.value], target)
      && forall k | 0 <= k < |proofs| && IsProofOf(proofs[k], target) ::
           proofs[k].verifiedAt.value <= proofs[r.value].verifiedAt.value
    ensures r == None <==> forall k | 0 <= k < |proofs| :: !IsProofOf(proofs[k], target)
  {
    if |proofs| == 0 then None else
    var last := |proofs| - 1;
    var before := Latest(proofs[..last], target);
    assert forall k | 0 <= k < last :: proofs[..last][k] == proofs[k];
    if IsProofOf(proofs[last], target)
       && (before == None || proofs[before.value].verifiedAt.value <= proofs[last].verifiedAt.value)
    then Some(last)
    else before
  }

  /** When the proof a target stands on lapses. */
  function LatestExpiry(proofs: seq<Proof>, target: nat): Option<Time> {
    match Latest(proofs, target)
    case None => None
    case Some(v) => proofs[v].expiresAt
  }

  predicate ProofCurrent(proofs: seq<Proof>, target: nat, now: Time) {
    match Latest(proofs, target)
    case None => false
    case Some(v) => IsCurrentlyVerified(proofs[v].verifiedAt, proofs[v].expiresAt, now)
  }

  predicate Unexpired(proofs: seq<Proof>, k: nat, target: nat, now: Time)
    requires k < |proofs|
  {
    IsProofOf(proofs[k], target) && IsCurrentlyVerified(proofs[k].verifiedAt, proofs[k].expiresAt, now)
  }

  /**
   What the rule promises when it is read through the latest row only: a target may be scanned
   exactly when some completed row of its own is unexpired, so looking at one row loses nothing.
   */
  lemma CurrentIffSomeRowIsUnexpired(proofs: seq<Proof>, target: nat, now: Time, clock: Time)
    requires WellTimed(proofs, clock)
    ensures ProofCurrent(proofs, target, now) <==>
      exists k :: 0 <= k < |proofs| && Unexpired(proofs, k, target, now)
  {
    if ProofCurrent(proofs, target, now) {
      assert Unexpired(proofs, Latest(proofs, target).value, target, now);
    }
    if k :| 0 <= k < |proofs| && Unexpired(proofs, k, target, now) {
      assert Latest(proofs, target).Some?;
      assert proofs[k].verifiedAt.value <= proofs[Latest(proofs, target).value].verifiedAt.value;
    }
  }

  /** A completed proof carries its target for thirty days to the microsecond. */
  lemma CompletedProofLasts(proofs: seq<Proof>, v: nat, t: nat, now: Time, later: Time)
    requires WellTimed(proofs, now) && v < |proofs| && now <= later
    ensures ProofCurrent(proofs[v := Proof(t, Some(now), Some(ExpiryFrom(now)))], t, later) <==> later < now + 30 * DAY
  {
    var after := proofs[v := Proof(t, Some(now), Some(ExpiryFrom(now)))];
    assert IsProofOf(after[v], t);
    var latest := Latest(after, t);
    assert latest.Some?;
    assert after[v].verifiedAt.value <= after[latest.value].verifiedAt.value;
  }
}
