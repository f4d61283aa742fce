/** What a standing schedule delivers over a whole run: evenly spaced firings under a proof that stays alive. */
module ScanSchedule {
  import opened Clock
  import opened Verification
  import opened Schedule
  import opened Policy
  import opened ScanTables
  import opened Renewal
  import opened ScanRuns

  predicate IsFiring(a: Authorization, target: nat) {
    a.source == BySchedule && a.target == target
  }

  /** Nobody sets the target's cadence, which would restart its schedule. */
  ghost predicate CadenceKept(w: World, step: Step, target: nat) {
    step.SetCadence? ==> step.target != target
  }

  /** Firings recorded from row `from` on are an interval apart, and the last is no later than the stamp. */
  ghost predicate Apart(w: World, from: nat, target: nat, cadence: Cadence) {
    && target < |w.db.targets| && w.db.targets[target].cadence == cadence && Interval(cadence).Some?
    && (forall i | from <= i < |w.db.authorizations| && IsFiring(w.db.authorizations[i], target) ::
          && w.db.targets[target].lastScheduledAt.Some?
          && w.db.authorizations[i].acceptedAt <= w.db.targets[target].lastScheduledAt.value)
    && (forall i, j | from <= i < j < |w.db.authorizations|
          && IsFiring(w.db.authorizations[i], target) && IsFiring(w.db.authorizations[j], target) ::
          w.db.authorizations[i].acceptedAt + Interval(cadence).value <= w.db.authorizations[j].acceptedAt)
  }

  lemma {:induction false} StepApart(w: World, step: Step, from: nat, target: nat, cadence: Cadence)
    requires Audited(w.db, w.now) && Apart(w, from, target, cadence) && CadenceKept(w, step, target)
    ensures Apart(Apply(w, step), from, target, cadence)
  {
    match step {
      case RequestScan(request, access, siteUsed) => RequestApart(w, request, access, siteUsed, from, target, cadence);
      case FireSchedule(t, accounts) => FireApart(w, t, accounts, from, target, cadence);
      case _ =>
    }
  }

  lemma {:induction false} RequestApart(
    w: World, request: ScanRequest, access: Access, siteUsed: bool, from: nat, target: nat, cadence: Cadence)
    requires Apart(w, from, target, cadence)
    ensures Apart(w.(db := CreateScan(w.db, request, access, siteUsed, w.now)), from, target, cadence)
  {
  }

  lemma {:induction false} FireApart(w: World, t: nat, accounts: Accounts, from: nat, target: nat, cadence: Cadence)
    requires Apart(w, from, target, cadence)
    ensures Apart(w.(db := Fire(w.db, t, accounts, w.now)), from, target, cadence)
  {
    if t < |w.db.targets| && FiringProof(w.db, t, accounts, w.now).Some? {
      var v := FiringProof(w.db, t, accounts, w.now).value;
      var after := Enqueue(w.db, t, v, w.now);
      assert after.authorizations == w.db.authorizations + [Authorization(w.db.targets[t].owner, t, v, BySchedule, w.now)];
      assert t == target ==> after.targets[t].lastScheduledAt == Some(w.now);
    }
  }

  /** Two scheduled firings of one target are at least its interval apart as long as its cadence is not set again. */
  lemma {:induction false} FiringsAreSpaced(w: World, steps: seq<Step>, target: nat)
    requires Audited(w.db, w.now) && target < |w.db.targets| && w.db.targets[target].cadence != Manual
    requires Throughout(w, steps, (v, step) => CadenceKept(v, step, target))
    ensures Apart(Run(w, steps), |w.db.authorizations|, target, w.db.targets[target].cadence)
  {
    if |steps| > 0 {
      var most := steps[..|steps| - 1];
      FiringsAreSpaced(w, most, target);
      EveryJobIsTraceable(w, most);
      StepApart(Run(w, most), steps[|steps| - 1], |w.db.authorizations|, target, w.db.targets[target].cadence);
    }
  }

  // ------------------------------------------------------------------ the proof of a scheduled target

  ghost predicate Scheduled(w: World, target: nat) {
    && target < |w.db.targets| && w.db.targets[target].cadence != Manual && LatestExpiry(w.db.proofs, target).Some?
  }

  /** The proof stays published, so each pass finds it, and the target stays on a schedule. */
  ghost predicate StaysPublished(w: World, step: Step, target: nat) {
    match step
    case StartLoop(published) => Found(w.db.proofs, target, published)
    case SetCadence(_, t, cadence, _) => t == target ==> cadence != Manual
    case _ => true
  }

  function Expiry(w: World, target: nat): Time
    requires LatestExpiry(w.db.proofs, target).Some?
  {
    LatestExpiry(w.db.proofs, target).value
  }

  /** What any step does to the target's expiry: a pass moves it as its own item would, nothing takes time away. */
  lemma {:induction false} StepExpiry(w: World, step: Step, target: nat)
    requires Audited(w.db, w.now) && Scheduled(w, target) && StaysPublished(w, step, target)
    ensures Scheduled(Apply(w, step), target)
    ensures step.StartLoop? ==> Expiry(Apply(w, step), target) == ExpiryAfterPass(Expiry(w, target), w.now)
    ensures Expiry(Apply(w, step), target) >= Expiry(w, target)
  {
    match step {
      case StartLoop(published) => PassRenews(w.db.targets, w.db.proofs, published, w.now, target);
      case CompleteProof(v) => CompletingGains(w, v, target);
      case AddProof(t) =>
        if t < |w.db.targets| {
          SameLatest(w.db.proofs, Apply(w, step).db.proofs, target, w.now);
        }
      case RequestScan(request, access, siteUsed) =>
        assert CreateScan(w.db, request, access, siteUsed, w.now).proofs == w.db.proofs;
        assert CreateScan(w.db, request, access, siteUsed, w.now).targets == w.db.targets;
      case FireSchedule(t, accounts) => assert Fire(w.db, t, accounts, w.now).proofs == w.db.proofs;
      case _ =>
    }
  }

  lemma {:induction false} CompletingGains(w: World, v: nat, target: nat)
    requires Audited(w.db, w.now) && Scheduled(w, target)
    ensures Scheduled(Apply(w, CompleteProof(v)), target)
    ensures Expiry(Apply(w, CompleteProof(v)), target) >= Expiry(w, target)
  {
    if v < |w.db.proofs| && w.db.proofs[v].verifiedAt == None {
      var after := w.db.proofs[v := Renewed(w.db.proofs[v], w.now)];
      if w.db.proofs[v].target == target {
        assert IsProofOf(after[v], target);
        assert Latest(after, target).Some?;
        assert after[v].verifiedAt.value <= after[Latest(after, target).value].verifiedAt.value;
      } else {
        SameLatest(w.db.proofs, after, target, w.now);
      }
    }
  }

  // ------------------------------------------------------------------ how far apart the loop may start

  /** The least and the most time from one loop start to the next. */
  datatype Pace = Pace(least: int, most: int)

  /** The assumptions on the scheduler: a published proof, and a loop that keeps to its pace. */
  ghost predicate Renewing(w: World, step: Step, target: nat, pace: Pace) {
    && StaysPublished(w, step, target)
    && (step.Wait? ==> step.until <= w.loopStart + pace.most)
    && (step.StartLoop? ==> w.loopStart + pace.least <= w.now)
  }

  ghost predicate Alive(w: World, target: nat, pace: Pace) {
    && Scheduled(w, target) && Safe(Expiry(w, target), w.loopStart)
    && w.loopStart <= w.now <= w.loopStart + pace.most
  }

  lemma {:induction false} StepAlive(w: World, step: Step, target: nat, pace: Pace)
    requires pace.most <= TICK
    requires Audited(w.db, w.now) && Alive(w, target, pace) && Renewing(w, step, target, pace)
    ensures Alive(Apply(w, step), target, pace)
  {
    StepExpiry(w, step, target);
    if step.StartLoop? { LoopKeepsProofAlive(Expiry(w, target), w.loopStart, w.now); }
  }

  lemma {:induction false} StaysAlive(w: World, steps: seq<Step>, target: nat, pace: Pace)
    requires pace.most <= TICK
    requires Audited(w.db, w.now) && Alive(w, target, pace)
    requires Throughout(w, steps, (v, step) => Renewing(v, step, target, pace))
    ensures Alive(Run(w, steps), target, pace)
  {
    if |steps| > 0 {
      var most := steps[..|steps| - 1];
      StaysAlive(w, most, target, pace);
      EveryJobIsTraceable(w, most);
      StepAlive(Run(w, most), steps[|steps| - 1], target, pace);
    }
  }

  /**
   The proof of a scheduled target never lapses while it stays published and the loop keeps to its
   tick: at every moment of the run the target may be scanned, so the schedule is never skipped
   for a lapsed verification.
   */
  lemma {:induction false} PublishedProofNeverLapses(w: World, steps: seq<Step>, target: nat, pace: Pace)
    requires pace.most <= TICK
    requires Audited(w.db, w.now) && Alive(w, target, pace)
    requires Throughout(w, steps, (v, step) => Renewing(v, step, target, pace))
    ensures var end := Run(w, steps);
      && Alive(end, target, pace) && ProofCurrent(end.db.proofs, target, end.now)
      && forall stamp: Option<Time> ::
           Due(end.db.targets[target].cadence, stamp, LatestExpiry(end.db.proofs, target), end.now) != Err(VerificationLapsed)
  {
    StaysAlive(w, steps, target, pace);
    EveryJobIsTraceable(w, steps);
  }

  // ------------------------------------------------------------------ a loop that misses every attempt

  /** Loop starts at the given times, in order, each finding the one proof there is. */
  function LoopsAt(starts: nat -> Time, n: nat): seq<Step> {
    if n == 0 then [] else LoopsAt(starts, n - 1) + [Wait(starts(n - 1)), StartLoop({0})]
  }

  /** One target on a weekly schedule, its proof completed just now, since the last loop start. */
  function OneSite(at: Time, loopStart: Time): World {
    World(at, loopStart, Tables([Target(0, Weekly, None)], [Proof(0, Some(at), Some(ExpiryFrom(at)))], [], []), map[])
  }

  lemma {:induction false} TwoMore(w: World, steps: seq<Step>, a: Step, b: Step, allowed: (World, Step) -> bool)
    requires Throughout(w, steps, allowed) && allowed(Run(w, steps), a) && allowed(Apply(Run(w, steps), a), b)
    ensures Throughout(w, steps + [a, b], allowed) && Run(w, steps + [a, b]) == Apply(Apply(Run(w, steps), a), b)
  {
    OneAllowed(w, steps, a, allowed);
    OneAllowed(w, steps + [a], b, allowed);
    assert steps + [a, b] == (steps + [a]) + [b];
  }

  /** A pass that does not read the one proof changes nothing. */
  lemma {:induction false} NothingRead(at: Time, loopStart: Time, now: Time)
    requires !ProofIsRead(ExpiryFrom(at), now)
    ensures var db := OneSite(at, loopStart).db; RenewEach(db.targets, db.proofs, |db.targets|, {0}, now) == db.proofs
  {
    var db := OneSite(at, loopStart).db;
    assert RenewEach(db.targets, db.proofs, 0, {0}, now) == db.proofs;
    assert RowRead(db.targets, db.proofs, 0, now) == None;
  }

  predicate KeepsPace(previous: Time, next: Time, pace: Pace) {
    previous <= next && previous + pace.least <= next <= previous + pace.most
  }

  ghost predicate NoneReads(at: Time, loopStart: Time, starts: nat -> Time, pace: Pace) {
    && KeepsPace(loopStart, starts(0), pace) && loopStart <= at <= starts(0)
    && forall k: nat :: KeepsPace(starts(k), starts(k + 1), pace) && !ProofIsRead(ExpiryFrom(at), starts(k))
  }

  lemma {:induction false} LoopsLeaveIt(at: Time, loopStart: Time, starts: nat -> Time, pace: Pace, n: nat)
    requires NoneReads(at, loopStart, starts, pace)
    ensures Throughout(OneSite(at, loopStart), LoopsAt(starts, n), (v, step) => Renewing(v, step, 0, pace))
    ensures Run(OneSite(at, loopStart), LoopsAt(starts, n)) ==
      if n == 0 then OneSite(at, loopStart) else OneSite(at, loopStart).(now := starts(n - 1), loopStart := starts(n - 1))
  {
    if n > 0 {
      LoopsLeaveIt(at, loopStart, starts, pace, n - 1);
      var before := Run(OneSite(at, loopStart), LoopsAt(starts, n - 1));
      var allowed := (v, step) => Renewing(v, step, 0, pace);
      assert n >= 2 ==> KeepsPace(starts(n - 2), starts(n - 2 + 1), pace);
      NothingRead(at, loopStart, starts(n - 1));
      assert Apply(before, Wait(starts(n - 1))) == before.(now := starts(n - 1));
      assert allowed(before, Wait(starts(n - 1))) && allowed(before.(now := starts(n - 1)), StartLoop({0}));
      TwoMore(OneSite(at, loopStart), LoopsAt(starts, n - 1), Wait(starts(n - 1)), StartLoop({0}), allowed);
    }
  }

  lemma OneSiteIsScheduled(at: Time, loopStart: Time)
    ensures Audited(OneSite(at, loopStart).db, at)
    ensures Scheduled(OneSite(at, loopStart), 0) && Expiry(OneSite(at, loopStart), 0) == ExpiryFrom(at)
  {
    assert Latest(OneSite(at, loopStart).db.proofs, 0) == Some(0);
  }

  lemma OneSiteLapses(at: Time, loopStart: Time, now: Time)
    ensures ProofCurrent(OneSite(at, loopStart).db.proofs, 0, now) <==> now < ExpiryFrom(at)
  {
    assert Latest(OneSite(at, loopStart).db.proofs, 0) == Some(0);
  }

  /** A loop that never reads the proof lets it lapse, whatever else is assumed of it. */
  lemma {:induction false} NoneReadsLapses(at: Time, loopStart: Time, starts: nat -> Time, pace: Pace, n: nat)
    requires NoneReads(at, loopStart, starts, pace) && starts(n) >= ExpiryFrom(at)
    ensures Throughout(OneSite(at, loopStart), LoopsAt(starts, n + 1), (v, step) => Renewing(v, step, 0, pace))
    ensures var end := Run(OneSite(at, loopStart), LoopsAt(starts, n + 1)); !ProofCurrent(end.db.proofs, 0, end.now)
  {
    LoopsLeaveIt(at, loopStart, starts, pace, n + 1);
    OneSiteLapses(at, loopStart, starts(n));
  }

  lemma {:induction false} LateStartsReadNothing(spacing: int)
    requires spacing > TICK
    ensures NoneReads(TICK - 1, TICK - 1, LateStart, Pace(0, spacing))
    ensures LateStart(12 * 24 * VERIFICATION_TTL_DAYS) >= ExpiryFrom(TICK - 1)
  {
    forall k: nat
      ensures KeepsPace(LateStart(k), LateStart(k + 1), Pace(0, spacing)) && !ProofIsRead(ExpiryFrom(TICK - 1), LateStart(k))
    {
      LateStartsAreClose(k);
      LateStartsNeverRead(k, 24 * VERIFICATION_TTL_DAYS);
    }
  }

  /** The run keeps what the theorem above asks of it, except that its spacing may be a microsecond too wide. */
  lemma {:induction false} MicrosecondMoreLapses(spacing: int) returns (w: World, steps: seq<Step>)
    requires spacing > TICK
    ensures Audited(w.db, w.now) && Alive(w, 0, Pace(0, spacing))
    ensures Throughout(w, steps, (v, step) => Renewing(v, step, 0, Pace(0, spacing)))
    ensures !ProofCurrent(Run(w, steps).db.proofs, 0, Run(w, steps).now)
  {
    var n := 12 * 24 * VERIFICATION_TTL_DAYS;
    LateStartsReadNothing(spacing);
    OneSiteIsScheduled(TICK - 1, TICK - 1);
    NoneReadsLapses(TICK - 1, TICK - 1, LateStart, Pace(0, spacing), n);
    w, steps := OneSite(TICK - 1, TICK - 1), LoopsAt(LateStart, n + 1);
  }

  /** Whatever happens on the way, a published proof is current at the end of the run. */
  ghost predicate NeverLapses(pace: Pace) {
    forall w: World, steps: seq<Step>, target: nat |
      && Audited(w.db, w.now) && Alive(w, target, pace)
      && Throughout(w, steps, (v, step) => Renewing(v, step, target, pace)) ::
      ProofCurrent(Run(w, steps).db.proofs, target, Run(w, steps).now)
  }

  /** The tick is the most that may lie between two loop starts, to the microsecond. */
  lemma {:induction false} NeverLapsesIffWithinTick(spacing: int)
    ensures NeverLapses(Pace(0, spacing)) <==> spacing <= TICK
  {
    if spacing <= TICK {
      forall w: World, steps: seq<Step>, target: nat |
        && Audited(w.db, w.now) && Alive(w, target, Pace(0, spacing))
        && Throughout(w, steps, (v, step) => Renewing(v, step, target, Pace(0, spacing)))
        ensures ProofCurrent(Run(w, steps).db.proofs, target, Run(w, steps).now)
      {
        PublishedProofNeverLapses(w, steps, target, Pace(0, spacing));
      }
    } else {
      var w, steps := MicrosecondMoreLapses(spacing);
    }
  }
}
