/**
 The tables as the programs hold them: one object whose rows the API handler, the scheduler, the
 renewal pass and the job runners update in place.
 */
module ScanStore {
  import opened Clock
  import opened Verification
  import opened Schedule
  import opened Policy
  import opened ScanTables
  import opened Renewal
  import opened ScanRuns

  lemma {:induction false} FireLeaves(db: Tables, n: nat, accounts: Accounts, now: Time, t: nat, since: Time)
    requires n < |db.targets| && t < |db.targets| && t != n
    ensures Fire(db, n, accounts, now).targets[t] == db.targets[t]
    ensures Recent(Fire(db, n, accounts, now).jobs, t, since) == Recent(db.jobs, t, since)
  {
    if FiringProof(db, n, accounts, now).Some? {
      NewJobsSound(n, |db.authorizations|, SCHEDULED_TOOLS, now);
      RecentOfOthers(db.jobs, NewJobs(n, |db.authorizations|, SCHEDULED_TOOLS, now), t, since);
    }
  }

  /** Firing targets below `n` leaves what a later target's decision reads. */
  lemma {:induction false} FireEachLeaves(db: Tables, n: nat, accounts: Accounts, now: Time, t: nat, since: Time)
    requires n <= t < |db.targets|
    ensures FireEach(db, n, accounts, now).targets[t] == db.targets[t]
    ensures Recent(FireEach(db, n, accounts, now).jobs, t, since) == Recent(db.jobs, t, since)
  {
    if n > 0 {
      FireEachLeaves(db, n - 1, accounts, now, t, since);
      FireLeaves(FireEach(db, n - 1, accounts, now), n - 1, accounts, now, t, since);
    }
  }

  lemma {:induction false} RecentOfOthers(jobs: seq<Job>, batch: seq<Job>, target: nat, since: Time)
    requires forall k | 0 <= k < |batch| :: batch[k].target != target
    ensures Recent(jobs + batch, target, since) == Recent(jobs, target, since)
  {
    if |batch| == 0 {
      assert jobs + batch == jobs;
    } else {
      RecentOfOthers(jobs, batch[..|batch| - 1], target, since);
      assert (jobs + batch)[..|jobs + batch| - 1] == jobs + batch[..|batch| - 1];
    }
  }

  /** The candidate rows read once at the start of a tick decide as rows read one by one would. */
  lemma {:induction false} SnapshotDecides(db: Tables, n: nat, accounts: Accounts, now: Time)
    requires n < |db.targets|
    ensures FiringProof(FireEach(db, n, accounts, now), n, accounts, now) == FiringProof(db, n, accounts, now)
  {
    FireEachLeaves(db, n, accounts, now, n, now - DAY);
  }

  // ------------------------------------------------------------------ what a tick queues

  /** The tools of the target's jobs in a list, in order. */
  function ToolsFor(jobs: seq<Job>, t: nat): seq<string> {
    if |jobs| == 0 then [] else
    var last := jobs[|jobs| - 1];
    ToolsFor(jobs[..|jobs| - 1], t) + (if last.target == t then [last.tool] else [])
  }

  lemma {:induction false} ToolsAppended(jobs: seq<Job>, job: Job, t: nat)
    ensures ToolsFor(jobs + [job], t) == ToolsFor(jobs, t) + (if job.target == t then [job.tool] else [])
  {
    assert (jobs + [job])[..|jobs|] == jobs;
  }

  lemma {:induction false} ToolsOfFiring(jobs: seq<Job>, a: Job, b: Job, t: nat)
    requires a.target == b.target && a.tool == "nuclei" && b.tool == "tls"
    ensures ToolsFor(jobs + [a, b], t) == ToolsFor(jobs, t) + (if a.target == t then ["nuclei", "tls"] else [])
  {
    ToolsAppended(jobs, a, t);
    ToolsAppended(jobs + [a], b, t);
    assert jobs + [a, b] == (jobs + [a]) + [b];
    assert ["nuclei"] + ["tls"] == ["nuclei", "tls"];
  }

  /** What a tick so far leaves for target `t`. */
  ghost predicate Ticked(db: Tables, after: Tables, fired: bool, now: Time, t: nat) {
    && |after.targets| == |db.targets| && db.jobs <= after.jobs && t < |db.targets|
    && ToolsFor(after.jobs[|db.jobs|..], t) == (if fired then ["nuclei", "tls"] else [])
    && after.targets[t] == (if fired then db.targets[t].(lastScheduledAt := Some(now)) else db.targets[t])
  }

  lemma {:induction false} FiringTicks(
    db: Tables, before: Tables, after: Tables, n: nat, a: Job, b: Job, fired: bool, now: Time, t: nat)
    requires Ticked(db, before, fired, now, t) && n < |db.targets| && (t == n ==> !fired)
    requires a.target == n == b.target && a.tool == "nuclei" && b.tool == "tls" && after.jobs == before.jobs + [a, b]
    requires after.targets == before.targets[n := before.targets[n].(lastScheduledAt := Some(now))]
    ensures Ticked(db, after, fired || t == n, now, t)
  {
    assert after.jobs[|db.jobs|..] == before.jobs[|db.jobs|..] + [a, b];
    ToolsOfFiring(before.jobs[|db.jobs|..], a, b, t);
    assert [] + ["nuclei", "tls"] == ["nuclei", "tls"];
  }

  lemma {:induction false} OneMoreDecision(
    db: Tables, before: Tables, n: nat, accounts: Accounts, now: Time, fired: bool, t: nat)
    requires Ticked(db, before, fired, now, t) && n < |db.targets| && (t == n ==> !fired)
    ensures Ticked(db, Fire(before, n, accounts, now), fired || (t == n && FiringProof(before, n, accounts, now).Some?), now, t)
  {
    if FiringProof(before, n, accounts, now).Some? {
      FiringWrites(before, n, accounts, now);
      var after, k := Fire(before, n, accounts, now), |before.jobs|;
      FiringTicks(db, before, after, n, after.jobs[k], after.jobs[k + 1], fired, now, t);
    }
  }

  lemma {:induction false} TickedSoFar(db: Tables, n: nat, accounts: Accounts, now: Time, t: nat)
    requires n <= |db.targets| && t < |db.targets|
    ensures Ticked(db, FireEach(db, n, accounts, now), t < n && FiringProof(db, t, accounts, now).Some?, now, t)
  {
    if n == 0 {
      assert db.jobs[|db.jobs|..] == [];
    } else {
      TickedSoFar(db, n - 1, accounts, now, t);
      DecisionTicks(db, FireEach(db, n - 1, accounts, now), n - 1, accounts, now, t);
    }
  }

  lemma {:induction false} DecisionTicks(db: Tables, before: Tables, n: nat, accounts: Accounts, now: Time, t: nat)
    requires n < |db.targets| && t < |db.targets| && before == FireEach(db, n, accounts, now)
    requires Ticked(db, before, t < n && FiringProof(db, t, accounts, now).Some?, now, t)
    ensures Ticked(db, Fire(before, n, accounts, now), t < n + 1 && FiringProof(db, t, accounts, now).Some?, now, t)
  {
    SnapshotDecides(db, n, accounts, now);
    OneMoreDecision(db, before, n, accounts, now, t < n && FiringProof(db, t, accounts, now).Some?, t);
  }

  /** A tick scans exactly the targets that are due, each with both tools, and skips no account that pays. */
  lemma {:induction false} TickFiresExactlyTheDue(db: Tables, accounts: Accounts, now: Time, t: nat)
    requires t < |db.targets|
    ensures var after := FireEach(db, |db.targets|, accounts, now);
      && db.jobs <= after.jobs
      && ToolsFor(after.jobs[|db.jobs|..], t) == (if Fires(db, t, accounts, now) then ["nuclei", "tls"] else [])
      && after.targets[t] ==
        (if Fires(db, t, accounts, now) then db.targets[t].(lastScheduledAt := Some(now)) else db.targets[t])
  {
    TickedSoFar(db, |db.targets|, accounts, now, t);
    FiresExactlyWhenDue(db, t, accounts, now);
  }

  /** The jobs a tick added are two for every target that is due and none for the others. */
  ghost predicate QueuesExactlyTheDue(db: Tables, jobs: seq<Job>, accounts: Accounts, now: Time) {
    && db.jobs <= jobs
    && forall t | 0 <= t < |db.targets| ::
      ToolsFor(jobs[|db.jobs|..], t) == if Fires(db, t, accounts, now) then ["nuclei", "tls"] else []
  }

  lemma {:induction false} TickAppends(db: Tables, n: nat, accounts: Accounts, now: Time)
    requires n <= |db.targets|
    ensures db.jobs <= FireEach(db, n, accounts, now).jobs
  {
    if n > 0 {
      TickAppends(db, n - 1, accounts, now);
      FireAppends(db, FireEach(db, n - 1, accounts, now), n - 1, accounts, now);
    }
  }

  lemma {:induction false} FireAppends(db: Tables, before: Tables, n: nat, accounts: Accounts, now: Time)
    requires db.jobs <= before.jobs
    ensures db.jobs <= Fire(before, n, accounts, now).jobs
  {
    assert before.jobs <= Fire(before, n, accounts, now).jobs;
  }

  lemma {:induction false} TickQueuesExactlyTheDue(db: Tables, accounts: Accounts, now: Time)
    ensures QueuesExactlyTheDue(db, FireEach(db, |db.targets|, accounts, now).jobs, accounts, now)
  {
    var after := FireEach(db, |db.targets|, accounts, now);
    TickAppends(db, |db.targets|, accounts, now);
    forall t | 0 <= t < |db.targets|
      ensures ToolsFor(after.jobs[|db.jobs|..], t) == if Fires(db, t, accounts, now) then ["nuclei", "tls"] else []
    {
      TickFiresExactlyTheDue(db, accounts, now, t);
    }
  }

  lemma {:induction false} LatestReadsOwnRows(a: seq<Proof>, b: seq<Proof>, t: nat)
    requires |a| == |b| && forall k | 0 <= k < |a| :: IsProofOf(a[k], t) || IsProofOf(b[k], t) ==> a[k] == b[k]
    ensures Latest(a, t) == Latest(b, t)
  {
    if |a| > 0 {
      LatestReadsOwnRows(a[..|a| - 1], b[..|a| - 1], t);
      var k := |a| - 1;
      assert IsProofOf(a[k], t) || IsProofOf(b[k], t) ==> a[k] == b[k];
      if Latest(a[..k], t).Some? { assert a[..k][Latest(a[..k], t).value] == b[..k][Latest(a[..k], t).value]; }
    }
  }

  /** The same latest row, with the same contents. */
  predicate SameLatestRow(before: seq<Proof>, after: seq<Proof>, t: nat) {
    && |before| == |after| && Latest(after, t) == Latest(before, t)
    && (Latest(before, t).Some? ==> after[Latest(before, t).value] == before[Latest(before, t).value])
  }

  lemma {:induction false} OtherRowsLeaveIt(before: seq<Proof>, after: seq<Proof>, n: nat, t: nat)
    requires OnlyRows(before, after, 0, n) && n <= t
    ensures SameLatestRow(before, after, t)
  {
    forall k | 0 <= k < |before| && (IsProofOf(before[k], t) || IsProofOf(after[k], t)) ensures before[k] == after[k] {
      assert OnlyRow(before[k], after[k], 0, n);
    }
    LatestReadsOwnRows(before, after, t);
  }

  lemma {:induction false} RenewEachLeaves(
    targets: seq<Target>, proofs: seq<Proof>, n: nat, published: set<nat>, now: Time, t: nat)
    requires n <= t < |targets|
    ensures SameLatestRow(proofs, RenewEach(targets, proofs, n, published, now), t)
  {
    ItemsTouchTheirOwn(targets, proofs, 0, n, published, now);
    assert RenewEach(targets, proofs, 0, published, now) == proofs;
    OtherRowsLeaveIt(proofs, RenewEach(targets, proofs, n, published, now), n, t);
  }

  /** A scheduled target whose token is not found, at a moment that meets one of its proof's warning points. */
  predicate IsWarned(target: Target, proofs: seq<Proof>, t: nat, published: set<nat>, now: Time) {
    target.cadence != Manual && LatestExpiry(proofs, t).Some? && Latest(proofs, t).value !in published
    && MeetsPoint(LatestExpiry(proofs, t).value, now)
  }

  predicate MeetsPoint(expiresAt: Time, now: Time) {
    now == expiresAt - FIRST_REMINDER || Crosses(expiresAt - LAST_REMINDER, now, TICK)
  }

  /** The last row of `t` that is still to be completed. */
  function NewestPending(proofs: seq<Proof>, t: nat): (r: Option<nat>)
    ensures r.Some? ==> r.value < |proofs| && proofs[r.value].target == t && proofs[r.value].verifiedAt == None
    ensures r.Some? ==> forall k | r.value < k < |proofs| && proofs[k].target == t :: proofs[k].verifiedAt.Some?
    ensures r == None <==> forall k | 0 <= k < |proofs| && proofs[k].target == t :: proofs[k].verifiedAt.Some?
  {
    if |proofs| == 0 then None else
    var last := proofs[|proofs| - 1];
    if last.target == t && last.verifiedAt == None then Some(|proofs| - 1) else NewestPending(proofs[..|proofs| - 1], t)
  }

  lemma CompletedIsCurrent(proofs: seq<Proof>, v: nat, t: nat, now: Time)
    requires WellTimed(proofs, now) && v < |proofs|
    ensures ProofCurrent(proofs[v := Proof(t, Some(now), Some(ExpiryFrom(now)))], t, now)
  {
    var after := proofs[v := Proof(t, Some(now), Some(ExpiryFrom(now)))];
    assert IsProofOf(after[v], t);
    var latest := Latest(after, t);
    assert latest.Some?;
    assert after[v].verifiedAt.value <= after[latest.value].verifiedAt.value;
  }

  /** What one item of `renew_due` does with the row read for its target. */
  lemma {:induction false} RenewItem(
    targets: seq<Target>, proofs: seq<Proof>, t: nat, published: set<nat>, now: Time)
    requires t < |targets|
    ensures var before := RenewEach(targets, proofs, t, published, now);
      var row := Latest(proofs, t);
      var read := targets[t].cadence != Manual && row.Some? && proofs[row.value].expiresAt.Some?
        && ProofIsRead(proofs[row.value].expiresAt.value, now);
      RenewEach(targets, proofs, t + 1, published, now) ==
        if read && row.value in published then before[row.value := Renewed(before[row.value], now)] else before
  {
    RenewEachLeaves(targets, proofs, t, published, now, t);
  }

  lemma WarnedItem(target: Target, proofs: seq<Proof>, t: nat, published: set<nat>, now: Time)
    ensures var row := Latest(proofs, t);
      IsWarned(target, proofs, t, published, now) <==>
        && target.cadence != Manual && row.Some? && proofs[row.value].expiresAt.Some?
        && Selected(proofs[row.value].expiresAt.value, now) && ReminderDue(proofs[row.value].expiresAt.value, now, TICK)
        && row.value !in published
  {
    var row := Latest(proofs, t);
    if row.Some? && proofs[row.value].expiresAt.Some? { WarningsSent(proofs[row.value].expiresAt.value, now); }
  }

  /** Who was warned of the targets below `n`. */
  ghost predicate WarnsUpTo(
    warned: seq<nat>, targets: seq<Target>, proofs: seq<Proof>, n: nat, published: set<nat>, configured: bool, now: Time)
  {
    && n <= |targets| && (forall t :: t in warned ==> t < n)
    && forall t: nat | t < n :: t in warned <==> configured && IsWarned(targets[t], proofs, t, published, now)
  }

  lemma WarnOneMore(
    warned: seq<nat>, targets: seq<Target>, proofs: seq<Proof>, n: nat, published: set<nat>, configured: bool, now: Time)
    requires n < |targets| && WarnsUpTo(warned, targets, proofs, n, published, configured, now)
    ensures var next := if configured && IsWarned(targets[n], proofs, n, published, now) then warned + [n] else warned;
      WarnsUpTo(next, targets, proofs, n + 1, published, configured, now)
  {
  }

  class Store {
    var targets: seq<Target>
    var proofs: seq<Proof>
    var authorizations: seq<Authorization>
    var jobs: seq<Job>

    ghost function Rows(): Tables
      reads this
    {
      Tables(targets, proofs, authorizations, jobs)
    }

    constructor (db: Tables)
      ensures Rows() == db
    {
      targets, proofs, authorizations, jobs := db.targets, db.proofs, db.authorizations, db.jobs;
    }

    /** The tables as a run of the pipeline sees them at this moment. */
    ghost function At(now: Time): World
      reads this
    {
      World(now, now, Rows(), map[])
    }

    predicate Owns(user: nat, t: nat)
      reads this
    {
      t < |targets| && targets[t].owner == user
    }

    /** `start_verification`: a new pending row. */
    method StartVerification(user: nat, t: nat) returns (r: Result<nat, ApiError>)
      modifies this`proofs
      ensures r == if Owns(user, t) then Ok(|old(proofs)|) else Err(NotFound)
      ensures r.Ok? ==> forall now :: At(now) == Apply(old(At(now)), AddProof(t))
      ensures r.Err? ==> Rows() == old(Rows())
    {
      if t >= |targets| || targets[t].owner != user { return Err(NotFound); }
      proofs := proofs + [Proof(t, None, None)];
      r := Ok(|proofs| - 1);
    }

    /** `check_verification`: the newest pending row is completed if its token is found. */
    method CheckVerification(user: nat, t: nat, published: set<nat>, now: Time) returns (r: Result<bool, ApiError>)
      modifies this`proofs
      ensures !Owns(user, t) ==> r == Err(NotFound)
      ensures Owns(user, t) && NewestPending(old(proofs), t) == None ==> r == Err(BadRequest)
      ensures Owns(user, t) && NewestPending(old(proofs), t).Some? ==> r == Ok(NewestPending(old(proofs), t).value in published)
      ensures r == Ok(true) ==>
        At(now) == Apply(old(At(now)), CompleteProof(NewestPending(old(proofs), t).value))
      ensures r == Ok(true) && WellTimed(old(proofs), now) ==> ProofCurrent(proofs, t, now)
      ensures r != Ok(true) ==> Rows() == old(Rows())
    {
      if t >= |targets| || targets[t].owner != user { return Err(NotFound); }
      var pending := NewestPending(proofs, t);
      if pending == None { return Err(BadRequest); }
      if pending.value !in published { return Ok(false); }
      if WellTimed(proofs, now) { CompletedIsCurrent(proofs, pending.value, t, now); }
      proofs := proofs[pending.value := Proof(t, Some(now), Some(ExpiryFrom(now)))];
      r := Ok(true);
    }

    /** `set_cadence`: a schedule needs current proof and a paid plan, and starts afresh. */
    method SetCadence(user: nat, t: nat, cadence: Cadence, allowsScheduling: bool, now: Time) returns (r: Result<(), ApiError>)
      modifies this`targets
      ensures At(now) == Apply(old(At(now)), Step.SetCadence(user, t, cadence, allowsScheduling))
      ensures r == Err(NotFound) <==> !old(Owns(user, t))
      ensures r == Err(TargetNotVerified) <==> old(Owns(user, t)) && cadence != Manual && !ProofCurrent(proofs, t, now)
      ensures r == Err(PlanLimit) <==>
        old(Owns(user, t)) && cadence != Manual && ProofCurrent(proofs, t, now) && !allowsScheduling
      ensures r.Ok? ==> t < |old(targets)| && targets == old(targets)[t :=
        Target(user, cadence, if cadence == Manual then old(targets)[t].lastScheduledAt else None)]
      ensures r.Err? ==> Rows() == old(Rows())
    {
      if t >= |targets| || targets[t].owner != user { return Err(NotFound); }
      if cadence != Manual {
        if !ProofCurrent(proofs, t, now) { return Err(TargetNotVerified); }
        if !allowsScheduling { return Err(PlanLimit); }
      }
      if cadence != Manual {
        targets := targets[t := targets[t].(cadence := cadence, lastScheduledAt := None)];
      } else {
        targets := targets[t := targets[t].(cadence := cadence)];
      }
      r := Ok(());
    }

    /** `create_scan`: every guard first, then the authorization and its job. */
    method CreateScan(request: ScanRequest, access: Access, siteUsed: bool, now: Time)
      returns (r: Result<nat, ApiError>)
      modifies this
      ensures Rows() == ScanTables.CreateScan(old(Rows()), request, access, siteUsed, now)
      ensures r.Err? ==> Rows() == old(Rows()) && r.error == CreateScanVerdict(old(Rows()), request, access, siteUsed, now).error
      ensures r.Ok? ==> r.value == |old(jobs)| == |jobs| - 1
    {
      if !request.acceptTerms { return Err(BadRequest); }
      if !IsAllowedTool(request.tool) { return Err(BadRequest); }
      if request.target >= |targets| || targets[request.target].owner != request.user { return Err(NotFound); }
      var proof := Latest(proofs, request.target);
      if proof == None { return Err(TargetNotVerified); }
      if !IsCurrentlyVerified(proofs[proof.value].verifiedAt, proofs[proof.value].expiresAt, now) {
        return Err(TargetNotVerified);
      }
      if !access.allowsFullScan { return Err(PlanLimit); }
      var recent := Recent(jobs, request.target, now - DAY);
      if !WithinScanBudget(recent) || recent >= access.ScansPerTargetPerDay() { return Err(PlanLimit); }
      if access.trial && siteUsed { return Err(PlanLimit); }
      var authorization := |authorizations|;
      authorizations := authorizations + [Authorization(request.user, request.target, proof.value, ByHand, now)];
      jobs := jobs + [Job(request.target, authorization, request.tool, now, Queued, None, None)];
      assert NewJobs(request.target, authorization, [request.tool], now)
          == [Job(request.target, authorization, request.tool, now, Queued, None, None)];
      r := Ok(|jobs| - 1);
    }

    /** The scheduler's transaction for one due target. */
    method Enqueue(t: nat, proof: nat, now: Time)
      requires t < |targets|
      modifies this
      ensures Rows() == ScanTables.Enqueue(old(Rows()), t, proof, now)
    {
      var authorization := |authorizations|;
      authorizations := authorizations + [Authorization(targets[t].owner, t, proof, BySchedule, now)];
      var tools := SCHEDULED_TOOLS;
      assert tools[0..] == tools;
      for i := 0 to |tools|
        invariant targets == old(targets) && proofs == old(proofs)
        invariant authorizations == old(authorizations) + [Authorization(targets[t].owner, t, proof, BySchedule, now)]
        invariant jobs + NewJobs(t, authorization, tools[i..], now) == old(jobs) + NewJobs(t, authorization, tools, now)
      {
        jobs := jobs + [Job(t, authorization, tools[i], now, Queued, None, None)];
        assert tools[i..][1..] == tools[i + 1..];
      }
      targets := targets[t := targets[t].(lastScheduledAt := Some(now))];
    }

    /** `tick`: the candidates are read once, then each due one is queued in its own transaction. */
    method Tick(accounts: Accounts, now: Time)
      modifies this
      ensures Rows() == FireEach(old(Rows()), |old(targets)|, accounts, now)
      ensures QueuesExactlyTheDue(old(Rows()), jobs, accounts, now)
    {
      var candidates := Tables(targets, proofs, authorizations, jobs);
      for t := 0 to |candidates.targets|
        invariant candidates == old(Rows()) && Rows() == FireEach(candidates, t, accounts, now)
      {
        SnapshotDecides(candidates, t, accounts, now);
        var decision := FiringProof(candidates, t, accounts, now);
        if decision.Some? {
          Enqueue(t, decision.value, now);
        }
      }
      TickQueuesExactlyTheDue(candidates, accounts, now);
    }

    /**
     `renew_due`: the selected rows are read once; each is extended if its token is still found, and
     otherwise its owner is warned when this pass crosses a reminder point.
     */
    method RenewDue(published: set<nat>, mailerConfigured: bool, now: Time) returns (warned: seq<nat>)
      modifies this`proofs
      ensures proofs == RenewEach(targets, old(proofs), |targets|, published, now)
      ensures forall t :: t in warned <==>
        mailerConfigured && 0 <= t < |targets| && IsWarned(targets[t], old(proofs), t, published, now)
    {
      var snapshot := proofs;
      warned := [];
      for t := 0 to |targets|
        invariant proofs == RenewEach(targets, snapshot, t, published, now)
        invariant WarnsUpTo(warned, targets, snapshot, t, published, mailerConfigured, now)
      {
        WarnOneMore(warned, targets, snapshot, t, published, mailerConfigured, now);
        RenewItem(targets, snapshot, t, published, now);
        WarnedItem(targets[t], snapshot, t, published, now);
        var row := Latest(snapshot, t);
        if targets[t].cadence != Manual && row.Some? && snapshot[row.value].expiresAt.Some? {
          var expiresAt := snapshot[row.value].expiresAt.value;
          var warn := ReminderDue(expiresAt, now, TICK);
          if Selected(expiresAt, now) && (warn || AttemptDue(now, TICK)) {
            if row.value in published {
              proofs := proofs[row.value := Renewed(proofs[row.value], now)];
            } else if warn && mailerConfigured {
              warned := warned + [t];
            }
          }
        }
      }
    }

    method RequeueInterrupted(now: Time)
      modifies this`jobs
      ensures jobs == ScanTables.RequeueInterrupted(old(jobs), now)
    {
      var swept := [];
      for i := 0 to |jobs|
        invariant swept == ScanTables.RequeueInterrupted(jobs, now)[..i]
      {
        swept := swept + [if Stale(jobs[i], now) then jobs[i].(status := Queued, startedAt := None) else jobs[i]];
      }
      jobs := swept;
    }

    method ClaimNextJob(locked: set<nat>, now: Time) returns (r: Option<nat>)
      modifies this`jobs
      ensures r == NextQueued(old(jobs), locked)
      ensures r == None ==> jobs == old(jobs)
      ensures r.Some? ==> jobs == old(jobs)[r.value := Claim(old(jobs)[r.value], now)]
    {
      r := NextQueued(jobs, locked);
      if r.Some? {
        jobs := jobs[r.value := jobs[r.value].(status := Running, startedAt := Some(now))];
      }
    }

    /** The first half of `execute`: permission is derived again, and without it the job fails unrun. */
    method BeginJob(job: nat, now: Time) returns (mayScan: bool)
      requires job < |jobs|
      modifies this`jobs
      ensures mayScan <==> ProofCurrent(proofs, old(jobs)[job].target, now) && IsAllowedTool(old(jobs)[job].tool)
      ensures jobs == if mayScan then old(jobs) else old(jobs)[job := Finish(old(jobs)[job], false, now)]
    {
      var target := jobs[job].target;
      if !ProofCurrent(proofs, target, now) {
        EndJob(job, false, now);
        return false;
      }
      if jobs[job].tool == "nuclei" {
        return true;
      } else if jobs[job].tool == "tls" {
        return true;
      }
      EndJob(job, false, now);
      return false;
    }

    method EndJob(job: nat, succeeded: bool, now: Time)
      requires job < |jobs|
      modifies this`jobs
      ensures jobs == old(jobs)[job := Finish(old(jobs)[job], succeeded, now)]
    {
      if succeeded {
        jobs := jobs[job := jobs[job].(status := Completed, completedAt := Some(now))];
      } else {
        jobs := jobs[job := jobs[job].(status := Failed, completedAt := Some(now))];
      }
    }
  }

  /** A tick is a run of single firings, so every fact about runs holds of it. */
  lemma {:induction false} TickIsARun(w: World, n: nat, accounts: Accounts) returns (steps: seq<Step>)
    requires n <= |w.db.targets|
    ensures |steps| == n && forall i | 0 <= i < n :: steps[i] == FireSchedule(i, accounts)
    ensures Run(w, steps) == w.(db := FireEach(w.db, n, accounts, w.now))
  {
    if n == 0 {
      steps := [];
    } else {
      var most := TickIsARun(w, n - 1, accounts);
      steps := most + [FireSchedule(n - 1, accounts)];
      assert steps[..n - 1] == most;
    }
  }
}
