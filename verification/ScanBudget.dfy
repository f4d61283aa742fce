/** The rolling 24-hour budget of one target, over whole runs of manual and scheduled queueing. */
module ScanBudget {
  import opened Clock
  import opened Verification
  import opened Schedule
  import opened Policy
  import opened ScanTables
  import opened ScanRuns

  /** Jobs of `target` created in the closed interval from `lo` to `hi`. */
  function CountIn(jobs: seq<Job>, target: nat, lo: Time, hi: Time): nat {
    if |jobs| == 0 then 0 else
    var last := jobs[|jobs| - 1];
    CountIn(jobs[..|jobs| - 1], target, lo, hi) + (if last.target == target && lo <= last.createdAt <= hi then 1 else 0)
  }

  /** Jobs of `target` in the closed 24 hours from `lo`. */
  function InDay(jobs: seq<Job>, target: nat, lo: Time): nat {
    CountIn(jobs, target, lo, lo + DAY)
  }

  /** No closed window of 24 hours, wherever it starts, holds more than `cap` jobs of the target. */
  ghost predicate WithinCap(jobs: seq<Job>, target: nat, cap: nat) {
    forall lo :: InDay(jobs, target, lo) <= cap
  }

  lemma {:induction false} CountAtMostRecent(jobs: seq<Job>, target: nat, lo: Time, hi: Time, since: Time)
    requires since <= lo
    ensures CountIn(jobs, target, lo, hi) <= Recent(jobs, target, since)
  {
    if |jobs| > 0 { CountAtMostRecent(jobs[..|jobs| - 1], target, lo, hi, since); }
  }

  lemma {:induction false} CountAppended(jobs: seq<Job>, more: seq<Job>, target: nat, lo: Time, hi: Time)
    ensures CountIn(jobs + more, target, lo, hi) == CountIn(jobs, target, lo, hi) + CountIn(more, target, lo, hi)
  {
    if |more| == 0 {
      assert jobs + more == jobs;
    } else {
      CountAppended(jobs, more[..|more| - 1], target, lo, hi);
      assert (jobs + more)[..|jobs + more| - 1] == jobs + more[..|more| - 1];
    }
  }

  /** Claiming, sweeping and ending rewrite rows but never what is counted. */
  lemma {:induction false} CountIgnoresStatus(before: seq<Job>, after: seq<Job>, target: nat, lo: Time, hi: Time)
    requires |before| == |after| && forall j | 0 <= j < |before| :: SameJob(before[j], after[j])
    ensures CountIn(after, target, lo, hi) == CountIn(before, target, lo, hi)
  {
    if |before| > 0 {
      var n := |before| - 1;
      assert forall j | 0 <= j < n :: SameJob(before[..n][j], after[..n][j]);
      CountIgnoresStatus(before[..n], after[..n], target, lo, hi);
      assert SameJob(before[n], after[n]);
    }
  }

  lemma {:induction false} CountOfBatch(batch: seq<Job>, target: nat, owner: nat, now: Time, lo: Time, hi: Time)
    requires forall k | 0 <= k < |batch| :: batch[k].target == owner && batch[k].createdAt == now
    ensures CountIn(batch, target, lo, hi) == if owner == target && lo <= now <= hi then |batch| else 0
  {
    if |batch| > 0 { CountOfBatch(batch[..|batch| - 1], target, owner, now, lo, hi); }
  }

  /**
   The window argument. A batch admitted because fewer than `limit` jobs were recent keeps every
   window, wherever it starts, at `limit - 1 + |batch|`: a window that reaches the new jobs starts
   no earlier than the ones that were counted.
   */
  lemma {:induction false} AdmittedBatchKeepsCap(
    jobs: seq<Job>, batch: seq<Job>, target: nat, now: Time, limit: nat, cap: nat)
    requires WithinCap(jobs, target, cap) && Recent(jobs, target, now - DAY) < limit
    requires forall k | 0 <= k < |batch| :: batch[k].target == target && batch[k].createdAt == now
    requires limit - 1 + |batch| <= cap
    ensures WithinCap(jobs + batch, target, cap)
  {
    forall lo ensures InDay(jobs + batch, target, lo) <= cap {
      assert InDay(jobs, target, lo) <= cap;
      CountAppended(jobs, batch, target, lo, lo + DAY);
      CountOfBatch(batch, target, target, now, lo, lo + DAY);
      if lo <= now <= lo + DAY {
        CountAtMostRecent(jobs, target, lo, lo + DAY, now - DAY);
      }
    }
  }

  lemma {:induction false} OtherBatchKeepsCap(jobs: seq<Job>, batch: seq<Job>, target: nat, other: nat, now: Time, cap: nat)
    requires WithinCap(jobs, target, cap) && other != target
    requires forall k | 0 <= k < |batch| :: batch[k].target == other && batch[k].createdAt == now
    ensures WithinCap(jobs + batch, target, cap)
  {
    forall lo ensures InDay(jobs + batch, target, lo) <= cap {
      assert InDay(jobs, target, lo) <= cap;
      CountAppended(jobs, batch, target, lo, lo + DAY);
      CountOfBatch(batch, target, other, now, lo, lo + DAY);
    }
  }

  /** The most a window can hold after this step, going by the check the step runs. */
  function StepCap(w: World, step: Step, target: nat): nat {
    match step
    case RequestScan(request, access, _) =>
      if request.target == target then access.ScansPerTargetPerDay() else 0
    case FireSchedule(t, accounts) =>
      if t != target || t >= |w.db.targets| then 0
      else if w.db.targets[t].owner in accounts.trial then TRIAL_MAX_SCANS_PER_TARGET_PER_DAY + 1
      else MAX_SCANS_PER_TARGET_PER_DAY + 1
    case _ => 0
  }

  lemma {:induction false} StepKeepsCap(w: World, step: Step, target: nat, cap: nat)
    requires Audited(w.db, w.now) && WithinCap(w.db.jobs, target, cap) && StepCap(w, step, target) <= cap
    ensures WithinCap(Apply(w, step).db.jobs, target, cap)
  {
    match step {
      case RequestScan(request, access, siteUsed) =>
        RequestKeepsCap(w.db, request, access, siteUsed, w.now, target, cap);
      case FireSchedule(t, accounts) => FiringKeepsCap(w.db, t, accounts, w.now, target, cap);
      case _ =>
        StepAudited(w, step);
        assert |Apply(w, step).db.jobs| == |w.db.jobs|;
        forall lo ensures InDay(Apply(w, step).db.jobs, target, lo) <= cap {
          assert InDay(w.db.jobs, target, lo) <= cap;
          CountIgnoresStatus(w.db.jobs, Apply(w, step).db.jobs, target, lo, lo + DAY);
        }
    }
  }

  lemma {:induction false} RequestKeepsCap(
    db: Tables, request: ScanRequest, access: Access, siteUsed: bool, now: Time, target: nat, cap: nat)
    requires WithinCap(db.jobs, target, cap)
    requires request.target == target ==> access.ScansPerTargetPerDay() <= cap
    ensures WithinCap(CreateScan(db, request, access, siteUsed, now).jobs, target, cap)
  {
    if CreateScanVerdict(db, request, access, siteUsed, now).Ok? {
      NewJobsSound(request.target, |db.authorizations|, [request.tool], now);
      var batch := NewJobs(request.target, |db.authorizations|, [request.tool], now);
      if request.target == target {
        AdmittedBatchKeepsCap(db.jobs, batch, target, now, access.ScansPerTargetPerDay(), cap);
      } else {
        OtherBatchKeepsCap(db.jobs, batch, target, request.target, now, cap);
      }
    }
  }

  lemma {:induction false} FiringKeepsCap(db: Tables, t: nat, accounts: Accounts, now: Time, target: nat, cap: nat)
    requires WithinCap(db.jobs, target, cap)
    requires t == target && t < |db.targets| ==>
      cap > if db.targets[t].owner in accounts.trial then TRIAL_MAX_SCANS_PER_TARGET_PER_DAY else MAX_SCANS_PER_TARGET_PER_DAY
    ensures WithinCap(Fire(db, t, accounts, now).jobs, target, cap)
  {
    if t < |db.targets| && FiringProof(db, t, accounts, now).Some? {
      NewJobsSound(t, |db.authorizations|, SCHEDULED_TOOLS, now);
      var batch := NewJobs(t, |db.authorizations|, SCHEDULED_TOOLS, now);
      if t == target {
        var limit := if db.targets[t].owner in accounts.trial then TRIAL_MAX_SCANS_PER_TARGET_PER_DAY else MAX_SCANS_PER_TARGET_PER_DAY;
        AdmittedBatchKeepsCap(db.jobs, batch, target, now, limit, cap);
      } else {
        OtherBatchKeepsCap(db.jobs, batch, target, t, now, cap);
      }
    }
  }

  lemma {:induction false} RunKeepsCap(w: World, steps: seq<Step>, target: nat, cap: nat)
    requires Audited(w.db, w.now) && WithinCap(w.db.jobs, target, cap)
    requires Throughout(w, steps, (v, step) => StepCap(v, step, target) <= cap)
    ensures WithinCap(Run(w, steps).db.jobs, target, cap)
  {
    if |steps| > 0 {
      var most := steps[..|steps| - 1];
      RunKeepsCap(w, most, target, cap);
      EveryJobIsTraceable(w, most);
      StepKeepsCap(Run(w, most), steps[|steps| - 1], target, cap);
    }
  }

  ghost predicate NoFiring(w: World, step: Step, target: nat) {
    step.FireSchedule? ==> step.target != target
  }

  /** The target's owner is on a three-day trial whenever the target is asked about. */
  ghost predicate OnTrial(w: World, step: Step, target: nat) {
    && (step.RequestScan? && step.request.target == target ==> step.access.trial)
    && (step.FireSchedule? && step.target == target && target < |w.db.targets| ==>
          w.db.targets[target].owner in step.accounts.trial)
  }

  /** Weakening what a run allows step by step. */
  lemma {:induction false} ThroughoutImplies(
    w: World, steps: seq<Step>, strong: (World, Step) -> bool, weak: (World, Step) -> bool)
    requires Throughout(w, steps, strong) && forall v, step :: strong(v, step) ==> weak(v, step)
    ensures Throughout(w, steps, weak)
  {
    if |steps| > 0 { ThroughoutImplies(w, steps[..|steps| - 1], strong, weak); }
  }

  /** The documented ceiling holds for manual scans, and a schedule's pair of jobs overshoots it by at most one. */
  lemma {:induction false} DailyBudget(w: World, steps: seq<Step>, target: nat)
    requires Audited(w.db, w.now)
    ensures WithinCap(w.db.jobs, target, 7) ==> WithinCap(Run(w, steps).db.jobs, target, 7)
    ensures WithinCap(w.db.jobs, target, 6) && Throughout(w, steps, (v, step) => NoFiring(v, step, target)) ==>
      WithinCap(Run(w, steps).db.jobs, target, 6)
  {
    if WithinCap(w.db.jobs, target, 7) {
      AllCapped(w, steps, target);
      RunKeepsCap(w, steps, target, 7);
    }
    if WithinCap(w.db.jobs, target, 6) && Throughout(w, steps, (v, step) => NoFiring(v, step, target)) {
      ThroughoutImplies(w, steps, (v, step) => NoFiring(v, step, target), (v, step) => StepCap(v, step, target) <= 6);
      RunKeepsCap(w, steps, target, 6);
    }
  }

  lemma {:induction false} AllCapped(w: World, steps: seq<Step>, target: nat)
    ensures Throughout(w, steps, (v, step) => StepCap(v, step, target) <= 7)
  {
    if |steps| > 0 { AllCapped(w, steps[..|steps| - 1], target); }
  }

  /** The same two bounds for an account that is on trial throughout. */
  lemma {:induction false} TrialBudget(w: World, steps: seq<Step>, target: nat)
    requires Audited(w.db, w.now) && Throughout(w, steps, (v, step) => OnTrial(v, step, target))
    ensures WithinCap(w.db.jobs, target, 3) ==> WithinCap(Run(w, steps).db.jobs, target, 3)
    ensures WithinCap(w.db.jobs, target, 2) && Throughout(w, steps, (v, step) => OnTrial(v, step, target) && NoFiring(v, step, target)) ==>
      WithinCap(Run(w, steps).db.jobs, target, 2)
  {
    if WithinCap(w.db.jobs, target, 3) {
      ThroughoutImplies(w, steps, (v, step) => OnTrial(v, step, target), (v, step) => StepCap(v, step, target) <= 3);
      RunKeepsCap(w, steps, target, 3);
    }
    if WithinCap(w.db.jobs, target, 2)
      && Throughout(w, steps, (v, step) => OnTrial(v, step, target) && NoFiring(v, step, target))
    {
      ThroughoutImplies(w, steps, (v, step) => OnTrial(v, step, target) && NoFiring(v, step, target),
        (v, step) => StepCap(v, step, target) <= 2);
      RunKeepsCap(w, steps, target, 2);
    }
  }

  /**
   Where the schedule goes past the daily maximum: a firing leaves more than six jobs in the
   trailing 24 hours exactly when it found five there.
   */
  lemma FiringOvershootsFromFive(db: Tables, t: nat, accounts: Accounts, now: Time)
    requires t < |db.targets| && FiringProof(db, t, accounts, now).Some?
    ensures Recent(Fire(db, t, accounts, now).jobs, t, now - DAY) == Recent(db.jobs, t, now - DAY) + 2
    ensures Recent(Fire(db, t, accounts, now).jobs, t, now - DAY) > MAX_SCANS_PER_TARGET_PER_DAY
        <==> Recent(db.jobs, t, now - DAY) == 5
  {
    var batch := NewJobs(t, |db.authorizations|, SCHEDULED_TOOLS, now);
    NewJobsSound(t, |db.authorizations|, SCHEDULED_TOOLS, now);
    RecentAppended(db.jobs, batch, t, now - DAY, now);
  }

  /** And past the trial's maximum of two exactly when it found one. */
  lemma FiringOvershootsTrialFromOne(db: Tables, t: nat, accounts: Accounts, now: Time)
    requires t < |db.targets| && FiringProof(db, t, accounts, now).Some? && db.targets[t].owner in accounts.trial
    ensures Recent(Fire(db, t, accounts, now).jobs, t, now - DAY) > TRIAL_MAX_SCANS_PER_TARGET_PER_DAY
        <==> Recent(db.jobs, t, now - DAY) == 1
  {
    FiringOvershootsFromFive(db, t, accounts, now);
  }

  lemma {:induction false} RecentAppended(jobs: seq<Job>, batch: seq<Job>, target: nat, since: Time, now: Time)
    requires forall k | 0 <= k < |batch| :: batch[k].target == target && batch[k].createdAt == now
    requires since <= now
    ensures Recent(jobs + batch, target, since) == Recent(jobs, target, since) + |batch|
  {
    if |batch| == 0 {
      assert jobs + batch == jobs;
    } else {
      RecentAppended(jobs, batch[..|batch| - 1], target, since, now);
      assert (jobs + batch)[..|jobs + batch| - 1] == jobs + batch[..|batch| - 1];
    }
  }

  /** A world with one scheduled target whose proof was completed this instant, and nothing queued yet. */
  function OneTarget(): World {
    World(0, 0, Tables([Target(1, Weekly, None)], [Proof(0, Some(0), Some(ExpiryFrom(0)))], [], []), map[])
  }

  function ByOwner(trial: bool): Step {
    RequestScan(ScanRequest(1, 0, "tls", true), Access(true, trial), false)
  }

  /** `n` jobs of that target, all queued at the first instant. */
  ghost predicate Filled(v: World, n: nat) {
    && v.now == 0 && v.db.targets == OneTarget().db.targets && v.db.proofs == OneTarget().db.proofs
    && Recent(v.db.jobs, 0, -DAY) == n && |v.db.jobs| == n
    && forall k | 0 <= k < n :: v.db.jobs[k].target == 0 && v.db.jobs[k].createdAt == 0
  }

  lemma {:induction false} BatchFills(v: World, n: nat, tools: seq<string>, after: World)
    requires Filled(v, n) && after.now == 0 && after.db.proofs == v.db.proofs
    requires after.db.targets == OneTarget().db.targets
    requires after.db.jobs == v.db.jobs + NewJobs(0, |v.db.authorizations|, tools, 0)
    ensures Filled(after, n + |tools|)
  {
    NewJobsSound(0, |v.db.authorizations|, tools, 0);
    RecentAppended(v.db.jobs, NewJobs(0, |v.db.authorizations|, tools, 0), 0, -DAY, 0);
  }

  lemma {:induction false} Admitted(v: World, n: nat, trial: bool)
    requires Filled(v, n) && n < Access(true, trial).ScansPerTargetPerDay()
    ensures Filled(Apply(v, ByOwner(trial)), n + 1)
  {
    SoleProofIsLatest(v.db.proofs);
    assert CreateScanVerdict(v.db, ByOwner(trial).request, Access(true, trial), false, 0) == Ok(0);
    BatchFills(v, n, ["tls"], Apply(v, ByOwner(trial)));
  }

  /** The first requests of one instant are all admitted, up to the cap. */
  lemma {:induction false} RequestsAdmitted(n: nat, trial: bool) returns (steps: seq<Step>)
    requires n <= Access(true, trial).ScansPerTargetPerDay()
    ensures |steps| == n && forall k | 0 <= k < n :: steps[k] == ByOwner(trial)
    ensures Filled(Run(OneTarget(), steps), n)
  {
    if n == 0 {
      steps := [];
    } else {
      var most := RequestsAdmitted(n - 1, trial);
      steps := most + [ByOwner(trial)];
      assert steps[..n - 1] == most;
      Admitted(Run(OneTarget(), most), n - 1, trial);
    }
  }

  function AccountsOf(trial: bool): Accounts {
    Accounts({1}, if trial then {1} else {}, {}, {})
  }

  lemma {:induction false} FiringFills(v: World, n: nat, trial: bool)
    requires Filled(v, n) && n < Access(true, trial).ScansPerTargetPerDay()
    ensures InDay(Fire(v.db, 0, AccountsOf(trial), 0).jobs, 0, 0) == n + 2
  {
    SoleProofIsLatest(v.db.proofs);
    assert FiringProof(v.db, 0, AccountsOf(trial), 0) == Some(0);
    NewJobsSound(0, |v.db.authorizations|, SCHEDULED_TOOLS, 0);
    CountOfBatch(Fire(v.db, 0, AccountsOf(trial), 0).jobs, 0, 0, 0, 0, DAY);
  }

  /** And a firing at the same instant still goes through below the cap. */
  lemma {:induction false} FiringAdmitted(n: nat, trial: bool) returns (steps: seq<Step>)
    requires n < Access(true, trial).ScansPerTargetPerDay()
    ensures |steps| == n + 1 && forall k | 0 <= k < n :: steps[k] == ByOwner(trial)
    ensures steps[n] == FireSchedule(0, AccountsOf(trial))
    ensures InDay(Run(OneTarget(), steps).db.jobs, 0, 0) == n + 2
  {
    var most := RequestsAdmitted(n, trial);
    steps := most + [FireSchedule(0, AccountsOf(trial))];
    assert steps[..n] == most;
    FiringFills(Run(OneTarget(), most), n, trial);
  }

  /** The bound of seven is reached: five manual scans and one firing at the same instant. */
  lemma SevenIsReached() returns (w: World, steps: seq<Step>)
    ensures Audited(w.db, w.now) && w.db.jobs == []
    ensures InDay(Run(w, steps).db.jobs, 0, w.now) == 7
  {
    w := OneTarget();
    steps := FiringAdmitted(5, false);
  }

  /** The trial's bound of three is reached, on trial throughout: one manual scan and one firing. */
  lemma ThreeIsReached() returns (w: World, steps: seq<Step>)
    ensures Audited(w.db, w.now) && w.db.jobs == []
    ensures Throughout(w, steps, (v, step) => OnTrial(v, step, 0))
    ensures InDay(Run(w, steps).db.jobs, 0, w.now) == 3
  {
    w := OneTarget();
    steps := FiringAdmitted(1, true);
    OnTrialThroughout(steps);
  }

  lemma {:induction false} OnTrialThroughout(steps: seq<Step>)
    requires |steps| == 2 && steps[0] == ByOwner(true) && steps[1] == FireSchedule(0, AccountsOf(true))
    ensures Throughout(OneTarget(), steps, (v, step) => OnTrial(v, step, 0))
  {
    var w, allowed := OneTarget(), (v, step) => OnTrial(v, step, 0);
    assert Run(w, []) == w;
    OneAllowed(w, [], ByOwner(true), allowed);
    Admitted(w, 0, true);
    assert Apply(w, ByOwner(true)).db.targets == w.db.targets;
    assert allowed(Run(w, [ByOwner(true)]), steps[1]) by { assert [] + [ByOwner(true)] == [ByOwner(true)]; }
    OneAllowed(w, [] + [ByOwner(true)], steps[1], allowed);
    assert steps == [] + [ByOwner(true)] + [steps[1]];
  }

  lemma SoleProofIsLatest(proofs: seq<Proof>)
    requires |proofs| == 1 && IsProofOf(proofs[0], 0)
    ensures Latest(proofs, 0) == Some(0)
  {
  }

  // ------------------------------------------------------------------ the budget comes back

  /**
   In every state, a well-formed request of a paying owner under a current proof is granted exactly when fewer
   than six of the target's jobs, or two on trial, lie in the trailing 24 hours, however many there ever were.
   */
  lemma GrantedIffBudgetLeft(w: World, request: ScanRequest, access: Access, siteUsed: bool)
    requires WellFormed(request) && OwnTarget(w.db, request) && ProofCurrent(w.db.proofs, request.target, w.now)
    requires access.allowsFullScan && !(access.trial && siteUsed)
    ensures var after := Apply(w, RequestScan(request, access, siteUsed)).db.jobs;
      var recent := set k: nat | k < |w.db.jobs| && w.db.jobs[k].target == request.target
                               && w.now - 24 * HOUR <= w.db.jobs[k].createdAt;
      |after| == |w.db.jobs| + if |recent| < (if access.trial then 2 else 6) then 1 else 0
  {
    RequestWrites(w.db, request, access, siteUsed, w.now);
    RecentCountsEachOnce(w.db.jobs, request.target, w.now - 24 * HOUR);
    assert RecentJobs(w.db.jobs, request.target, w.now - 24 * HOUR) ==
      set k: nat | k < |w.db.jobs| && w.db.jobs[k].target == request.target && w.now - 24 * HOUR <= w.db.jobs[k].createdAt;
  }

  /** Jobs are created in the past or now. */
  ghost predicate NoneAhead(w: World) {
    forall k | 0 <= k < |w.db.jobs| :: w.db.jobs[k].createdAt <= w.now
  }

  lemma {:induction false} StepNoneAhead(w: World, step: Step)
    requires Audited(w.db, w.now) && NoneAhead(w)
    ensures NoneAhead(Apply(w, step))
  {
    StepAudited(w, step);
    var after := Apply(w, step);
    forall k | 0 <= k < |after.db.jobs| ensures after.db.jobs[k].createdAt <= after.now {
      if k < |w.db.jobs| {
        assert SameJob(w.db.jobs[k], after.db.jobs[k]);
      } else {
        QueuedUnderCurrentProof(w, step, k);
      }
    }
  }

  lemma {:induction false} RunNoneAhead(w: World, steps: seq<Step>)
    requires Audited(w.db, w.now) && NoneAhead(w)
    ensures NoneAhead(Run(w, steps))
  {
    if |steps| > 0 {
      RunNoneAhead(w, steps[..|steps| - 1]);
      EveryJobIsTraceable(w, steps[..|steps| - 1]);
      StepNoneAhead(Run(w, steps[..|steps| - 1]), steps[|steps| - 1]);
    }
  }

  /** A day after any run whatever was used of the budget is back: such a request is granted. */
  lemma {:induction false} BudgetComesBack(
    w: World, steps: seq<Step>, until: Time, request: ScanRequest, access: Access, siteUsed: bool)
    requires Audited(w.db, w.now) && NoneAhead(w) && until > Run(w, steps).now + 24 * HOUR
    requires var end := Run(w, steps);
      WellFormed(request) && OwnTarget(end.db, request) && ProofCurrent(end.db.proofs, request.target, until)
    requires access.allowsFullScan && !(access.trial && siteUsed)
    ensures var later := Apply(Run(w, steps), Wait(until));
      |Apply(later, RequestScan(request, access, siteUsed)).db.jobs| == |later.db.jobs| + 1
  {
    RunNoneAhead(w, steps);
    var later := Apply(Run(w, steps), Wait(until));
    GrantedIffBudgetLeft(later, request, access, siteUsed);
    assert (set k: nat | k < |later.db.jobs| && later.db.jobs[k].target == request.target
                       && later.now - 24 * HOUR <= later.db.jobs[k].createdAt) == {};
  }
}
