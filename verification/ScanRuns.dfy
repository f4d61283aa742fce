/**
 Runs of the scan pipeline: API requests, the scheduler loop, several job runners, sweeps, crashes
 and the passing of time, interleaved in any order. Every step is one statement or transaction.
 */
module ScanRuns {
  import opened Clock
  import opened Verification
  import opened Schedule
  import opened Policy
  import opened ScanTables
  import opened Renewal

  datatype Phase = Claimed | Scanning(since: Time)

  /** A job runner between claiming a job and recording its end. */
  datatype Execution = Execution(job: nat, claimedAt: Time, phase: Phase)

  datatype World = World(now: Time, loopStart: Time, db: Tables, workers: map<nat, Execution>)

  datatype Step =
    | Wait(until: Time)
    | RequestScan(request: ScanRequest, access: Access, siteUsed: bool)
    | FireSchedule(target: nat, accounts: Accounts)
    | StartLoop(published: set<nat>)
    | ClaimJob(worker: nat, locked: set<nat>)
    | BeginJob(worker: nat)
    | EndJob(worker: nat, succeeded: bool)
    | Crash(worker: nat)
    | Sweep
    | SetCadence(user: nat, target: nat, cadence: Cadence, allowsScheduling: bool)
    | AddProof(target: nat)
    | CompleteProof(proof: nat)

  function Apply(w: World, step: Step): World {
    match step
    case Wait(until) => if until < w.now then w else w.(now := until)
    case RequestScan(request, access, siteUsed) => w.(db := CreateScan(w.db, request, access, siteUsed, w.now))
    case FireSchedule(t, accounts) => w.(db := Fire(w.db, t, accounts, w.now))
    case StartLoop(published) =>
      w.(loopStart := w.now,
         db := w.db.(proofs := RenewEach(w.db.targets, w.db.proofs, |w.db.targets|, published, w.now)))
    case ClaimJob(worker, locked) =>
      (match NextQueued(w.db.jobs, locked)
       case Some(j) =>
         if worker in w.workers then w else
         w.(db := w.db.(jobs := w.db.jobs[j := Claim(w.db.jobs[j], w.now)]),
            workers := w.workers[worker := Execution(j, w.now, Claimed)])
       case None => w)
    case BeginJob(worker) =>
      if worker !in w.workers || w.workers[worker].phase != Claimed then w
      else if w.workers[worker].job >= |w.db.jobs| then w
      else
        var execution := w.workers[worker];
        var job := w.db.jobs[execution.job];
        if ProofCurrent(w.db.proofs, job.target, w.now) && IsAllowedTool(job.tool)
        then w.(workers := w.workers[worker := execution.(phase := Scanning(w.now))])
        else Close(w, worker, false)
    case EndJob(worker, succeeded) =>
      if worker !in w.workers || w.workers[worker].phase == Claimed then w else Close(w, worker, succeeded)
    case Crash(worker) => w.(workers := w.workers - {worker})
    case Sweep => w.(db := w.db.(jobs := RequeueInterrupted(w.db.jobs, w.now)))
    case SetCadence(user, t, cadence, allowsScheduling) =>
      if t >= |w.db.targets| || w.db.targets[t].owner != user then w
      else if cadence != Manual && (!ProofCurrent(w.db.proofs, t, w.now) || !allowsScheduling) then w
      else
        var target := w.db.targets[t];
        var stamp := if cadence == Manual then target.lastScheduledAt else None;
        w.(db := w.db.(targets := w.db.targets[t := target.(cadence := cadence, lastScheduledAt := stamp)]))
    case AddProof(t) =>
      if t >= |w.db.targets| then w else w.(db := w.db.(proofs := w.db.proofs + [Proof(t, None, None)]))
    case CompleteProof(v) =>
      if v >= |w.db.proofs| || w.db.proofs[v].verifiedAt.Some? then w
      else w.(db := w.db.(proofs := w.db.proofs[v := Renewed(w.db.proofs[v], w.now)]))
  }

  function Close(w: World, worker: nat, succeeded: bool): World
    requires worker in w.workers
  {
    var j := w.workers[worker].job;
    if j >= |w.db.jobs| then w else
    w.(db := w.db.(jobs := w.db.jobs[j := Finish(w.db.jobs[j], succeeded, w.now)]), workers := w.workers - {worker})
  }

  function Run(w: World, steps: seq<Step>): World {
    if |steps| == 0 then w else Apply(Run(w, steps[..|steps| - 1]), steps[|steps| - 1])
  }

  /** A condition on each step, read in the state the step is taken in. */
  ghost predicate Throughout(w: World, steps: seq<Step>, allowed: (World, Step) -> bool) {
    |steps| == 0 ||
    (Throughout(w, steps[..|steps| - 1], allowed) && allowed(Run(w, steps[..|steps| - 1]), steps[|steps| - 1]))
  }

  lemma {:induction false} OneAllowed(w: World, steps: seq<Step>, step: Step, allowed: (World, Step) -> bool)
    requires Throughout(w, steps, allowed) && allowed(Run(w, steps), step)
    ensures Throughout(w, steps + [step], allowed) && Run(w, steps + [step]) == Apply(Run(w, steps), step)
  {
    assert (steps + [step])[..|steps|] == steps;
  }

  // ------------------------------------------------------------------ the audit trail

  predicate AuthorizationSound(db: Tables, a: Authorization) {
    && a.target < |db.targets| && a.user == db.targets[a.target].owner
    && a.verification < |db.proofs| && IsProofOf(db.proofs[a.verification], a.target)
    && db.proofs[a.verification].expiresAt.Some? && a.acceptedAt < db.proofs[a.verification].expiresAt.value
  }

  predicate JobSound(db: Tables, job: Job) {
    && job.authorization < |db.authorizations|
    && db.authorizations[job.authorization].target == job.target
    && db.authorizations[job.authorization].acceptedAt == job.createdAt
    && IsAllowedTool(job.tool)
    && (job.status == Running ==> job.startedAt.Some?)
  }

  /**
   Every job can be traced to the target's owner and to a completed proof of that same target that
   outlived the moment of queueing.
   */
  ghost predicate Audited(db: Tables, now: Time) {
    && WellTimed(db.proofs, now)
    && (forall i | 0 <= i < |db.authorizations| :: AuthorizationSound(db, db.authorizations[i]))
    && (forall j | 0 <= j < |db.jobs| :: JobSound(db, db.jobs[j]))
  }

  /** Owners, audit rows and what a job is for are never rewritten; proof rows only gain time. */
  ghost predicate Grows(before: Tables, after: Tables) {
    && |after.targets| == |before.targets|
    && (forall t | 0 <= t < |before.targets| :: after.targets[t].owner == before.targets[t].owner)
    && RowsExtend(before.proofs, after.proofs)
    && before.authorizations <= after.authorizations
    && |before.jobs| <= |after.jobs|
    && (forall j | 0 <= j < |before.jobs| :: SameJob(before.jobs[j], after.jobs[j]))
  }

  predicate SameJob(before: Job, after: Job) {
    after == before.(status := after.status, startedAt := after.startedAt, completedAt := after.completedAt)
  }

  lemma {:induction false} NewJobsSound(target: nat, authorization: nat, tools: seq<string>, now: Time)
    ensures |NewJobs(target, authorization, tools, now)| == |tools|
    ensures forall k | 0 <= k < |tools| ::
      NewJobs(target, authorization, tools, now)[k] == Job(target, authorization, tools[k], now, Queued, None, None)
  {
    if tools != [] { NewJobsSound(target, authorization, tools[1..], now); }
  }

  lemma AuthorizeAudited(db: Tables, target: nat, proof: nat, source: Source, tools: seq<string>, now: Time)
    requires Audited(db, now) && target < |db.targets| && Latest(db.proofs, target) == Some(proof)
    requires IsCurrentlyVerified(db.proofs[proof].verifiedAt, db.proofs[proof].expiresAt, now)
    requires forall tool | tool in tools :: IsAllowedTool(tool)
    ensures var after := Authorize(db, db.targets[target].owner, target, proof, source, tools, now);
      Audited(after, now) && Grows(db, after)
  {
    NewJobsSound(target, |db.authorizations|, tools, now);
    var after := Authorize(db, db.targets[target].owner, target, proof, source, tools, now);
    forall j | 0 <= j < |after.jobs| ensures JobSound(after, after.jobs[j]) {
      if j < |db.jobs| { assert JobSound(db, db.jobs[j]); }
    }
  }

  lemma FiringHasCurrentProof(db: Tables, t: nat, accounts: Accounts, now: Time)
    requires WellTimed(db.proofs, now) && t < |db.targets| && FiringProof(db, t, accounts, now).Some?
    ensures var v := FiringProof(db, t, accounts, now).value;
      Latest(db.proofs, t) == Some(v) && IsCurrentlyVerified(db.proofs[v].verifiedAt, db.proofs[v].expiresAt, now)
  {
  }

  /** What a granted request writes, and that a refused one writes nothing. */
  lemma RequestWrites(db: Tables, request: ScanRequest, access: Access, siteUsed: bool, now: Time)
    ensures CreateScan(db, request, access, siteUsed, now) ==
      match CreateScanVerdict(db, request, access, siteUsed, now)
      case Err(_) => db
      case Ok(v) =>
        var authorization := Authorization(db.targets[request.target].owner, request.target, v, ByHand, now);
        var job := Job(request.target, |db.authorizations|, request.tool, now, Queued, None, None);
        db.(authorizations := db.authorizations + [authorization], jobs := db.jobs + [job])
  {
    NewJobsSound(request.target, |db.authorizations|, [request.tool], now);
  }

  /** What a firing writes: one authorization by schedule, a job for each tool in order, and the stamp. */
  lemma FiringWrites(db: Tables, t: nat, accounts: Accounts, now: Time)
    requires t < |db.targets| && FiringProof(db, t, accounts, now).Some?
    ensures var v := FiringProof(db, t, accounts, now).value;
      var target, named := db.targets[t], |db.authorizations|;
      Fire(db, t, accounts, now) == Tables(
        db.targets[t := Target(target.owner, target.cadence, Some(now))],
        db.proofs,
        db.authorizations + [Authorization(target.owner, t, v, BySchedule, now)],
        db.jobs + [Job(t, named, "nuclei", now, Queued, None, None), Job(t, named, "tls", now, Queued, None, None)])
  {
    NewJobsSound(t, |db.authorizations|, SCHEDULED_TOOLS, now);
  }

  lemma CreateScanAudited(db: Tables, request: ScanRequest, access: Access, siteUsed: bool, now: Time)
    requires Audited(db, now)
    ensures Audited(CreateScan(db, request, access, siteUsed, now), now)
    ensures Grows(db, CreateScan(db, request, access, siteUsed, now))
  {
    match CreateScanVerdict(db, request, access, siteUsed, now) {
      case Ok(v) => AuthorizeAudited(db, request.target, v, ByHand, [request.tool], now);
      case Err(_) =>
    }
  }

  lemma FireAudited(db: Tables, t: nat, accounts: Accounts, now: Time)
    requires Audited(db, now)
    ensures Audited(Fire(db, t, accounts, now), now) && Grows(db, Fire(db, t, accounts, now))
  {
    if t < |db.targets| && FiringProof(db, t, accounts, now).Some? {
      var v := FiringProof(db, t, accounts, now).value;
      FiringHasCurrentProof(db, t, accounts, now);
      AuthorizeAudited(db, t, v, BySchedule, SCHEDULED_TOOLS, now);
      var queued := Authorize(db, db.targets[t].owner, t, v, BySchedule, SCHEDULED_TOOLS, now);
      StampKeepsAudit(db, queued, Enqueue(db, t, v, now), now);
    }
  }

  lemma JobStepAudited(w: World, step: Step)
    requires Audited(w.db, w.now) && (step.ClaimJob? || step.BeginJob? || step.EndJob? || step.Sweep?)
    ensures Audited(Apply(w, step).db, Apply(w, step).now) && Grows(w.db, Apply(w, step).db)
  {
    var after := Apply(w, step).db;
    forall j | 0 <= j < |w.db.jobs|
      ensures SameJob(w.db.jobs[j], after.jobs[j]) && (after.jobs[j].status == Running ==> after.jobs[j].startedAt.Some?)
    {
      assert JobSound(w.db, w.db.jobs[j]);
    }
    JobsKeepAudit(w.db, after, w.now);
  }

  lemma StepAudited(w: World, step: Step)
    requires Audited(w.db, w.now)
    ensures Audited(Apply(w, step).db, Apply(w, step).now) && Grows(w.db, Apply(w, step).db)
  {
    match step {
      case RequestScan(request, access, siteUsed) => CreateScanAudited(w.db, request, access, siteUsed, w.now);
      case FireSchedule(t, accounts) => FireAudited(w.db, t, accounts, w.now);
      case StartLoop(published) =>
        RenewEachKeeps(w.db.targets, w.db.proofs, |w.db.targets|, published, w.now, 0);
        ProofsKeepAudit(w.db, Apply(w, step).db, w.now);
      case CompleteProof(v) => ProofsKeepAudit(w.db, Apply(w, step).db, w.now);
      case AddProof(t) => ProofsKeepAudit(w.db, Apply(w, step).db, w.now);
      case SetCadence(user, t, cadence, allowsScheduling) => StampKeepsAudit(w.db, w.db, Apply(w, step).db, w.now);
      case Wait(until) =>
      case Crash(worker) =>
      case _ => JobStepAudited(w, step);
    }
  }

  lemma StampKeepsAudit(before: Tables, db: Tables, after: Tables, now: Time)
    requires Audited(db, now) && Grows(before, db) && after == db.(targets := after.targets)
    requires |after.targets| == |db.targets|
    requires forall t | 0 <= t < |db.targets| :: after.targets[t].owner == db.targets[t].owner
    ensures Audited(after, now) && Grows(before, after)
  {
    forall j | 0 <= j < |after.jobs| ensures JobSound(after, after.jobs[j]) { assert JobSound(db, db.jobs[j]); }
    forall i | 0 <= i < |after.authorizations| ensures AuthorizationSound(after, after.authorizations[i]) {
      assert AuthorizationSound(db, db.authorizations[i]);
    }
  }

  lemma ProofsKeepAudit(db: Tables, after: Tables, now: Time)
    requires Audited(db, now) && after == db.(proofs := after.proofs)
    requires WellTimed(after.proofs, now) && RowsExtend(db.proofs, after.proofs)
    ensures Audited(after, now) && Grows(db, after)
  {
    forall j | 0 <= j < |after.jobs| ensures JobSound(after, after.jobs[j]) { assert JobSound(db, db.jobs[j]); }
    forall i | 0 <= i < |after.authorizations| ensures AuthorizationSound(after, after.authorizations[i]) {
      var a := db.authorizations[i];
      assert AuthorizationSound(db, a);
      assert RowExtends(db.proofs[a.verification], after.proofs[a.verification]);
    }
  }

  lemma JobsKeepAudit(db: Tables, after: Tables, now: Time)
    requires Audited(db, now) && after == db.(jobs := after.jobs) && |after.jobs| == |db.jobs|
    requires forall j | 0 <= j < |db.jobs| :: SameJob(db.jobs[j], after.jobs[j])
    requires forall j | 0 <= j < |db.jobs| :: after.jobs[j].status == Running ==> after.jobs[j].startedAt.Some?
    ensures Audited(after, now) && Grows(db, after)
  {
    forall j | 0 <= j < |after.jobs| ensures JobSound(after, after.jobs[j]) {
      assert JobSound(db, db.jobs[j]) && SameJob(db.jobs[j], after.jobs[j]);
    }
    forall i | 0 <= i < |after.authorizations| ensures AuthorizationSound(after, after.authorizations[i]) {
      assert AuthorizationSound(db, db.authorizations[i]);
    }
  }

  lemma GrowsTransitive(a: Tables, b: Tables, c: Tables)
    requires Grows(a, b) && Grows(b, c)
    ensures Grows(a, c)
  {
    RowsExtendTransitive(a.proofs, b.proofs, c.proofs);
    forall j | 0 <= j < |a.jobs| ensures SameJob(a.jobs[j], c.jobs[j]) {
      assert SameJob(a.jobs[j], b.jobs[j]) && SameJob(b.jobs[j], c.jobs[j]);
    }
  }

  /** In every reachable state the audit trail is complete, and what it recorded earlier still stands. */
  lemma {:induction false} EveryJobIsTraceable(w: World, steps: seq<Step>)
    requires Audited(w.db, w.now)
    ensures Audited(Run(w, steps).db, Run(w, steps).now) && Grows(w.db, Run(w, steps).db)
    ensures w.now <= Run(w, steps).now
  {
    if |steps| > 0 {
      var before := Run(w, steps[..|steps| - 1]);
      EveryJobIsTraceable(w, steps[..|steps| - 1]);
      StepAudited(before, steps[|steps| - 1]);
      GrowsTransitive(w.db, before.db, Apply(before, steps[|steps| - 1]).db);
    }
  }

  /** Whoever queues a job, at that instant its authorization names the proof the target currently stands on. */
  lemma QueuedUnderCurrentProof(w: World, step: Step, j: nat)
    requires Audited(w.db, w.now) && |w.db.jobs| <= j < |Apply(w, step).db.jobs|
    ensures var db := Apply(w, step).db;
      && JobSound(db, db.jobs[j]) && db.jobs[j].status == Queued && db.jobs[j].createdAt == w.now
      && var a := db.authorizations[db.jobs[j].authorization];
         && AuthorizationSound(db, a)
         && Latest(w.db.proofs, a.target) == Some(a.verification) && ProofCurrent(w.db.proofs, a.target, w.now)
         && (step.RequestScan? ==> step.request.acceptTerms && a.user == step.request.user && a.source == ByHand)
         && (step.FireSchedule? ==> w.db.targets[a.target].cadence != Manual && a.source == BySchedule)
  {
    StepAudited(w, step);
    var db := Apply(w, step).db;
    assert JobSound(db, db.jobs[j]);
    assert AuthorizationSound(db, db.authorizations[db.jobs[j].authorization]);
    match step {
      case RequestScan(request, access, siteUsed) =>
        NewJobsSound(request.target, |w.db.authorizations|, [request.tool], w.now);
      case FireSchedule(t, accounts) =>
        FiringHasCurrentProof(w.db, t, accounts, w.now);
        NewJobsSound(t, |w.db.authorizations|, SCHEDULED_TOOLS, w.now);
      case _ =>
    }
  }
}
