/**
 The rows the scan pipeline shares and what each SQL statement or transaction does to them.
 Rows are numbered by insertion order; a row is never deleted.
 */
module ScanTables {
  import opened Clock
  import opened Verification
  import opened Schedule
  import opened Policy

  datatype Target = Target(owner: nat, cadence: Cadence, lastScheduledAt: Option<Time>)

  datatype Source = ByHand | BySchedule

  datatype Authorization = Authorization(user: nat, target: nat, verification: nat, source: Source, acceptedAt: Time)

  datatype Status = Queued | Running | Completed | Failed

  datatype Job = Job(
    target: nat, authorization: nat, tool: string, createdAt: Time,
    status: Status, startedAt: Option<Time>, completedAt: Option<Time>)

  datatype Tables = Tables(
    targets: seq<Target>, proofs: seq<Proof>, authorizations: seq<Authorization>, jobs: seq<Job>)

  predicate Terminal(status: Status) {
    status == Completed || status == Failed
  }

  // ------------------------------------------------------------------ queueing

  /** How many jobs of `target` were created at or after `since`. */
  function Recent(jobs: seq<Job>, target: nat, since: Time): nat {
    if |jobs| == 0 then 0 else
    var last := jobs[|jobs| - 1];
    Recent(jobs[..|jobs| - 1], target, since) + (if last.target == target && since <= last.createdAt then 1 else 0)
  }

  /** Those jobs, by number. */
  ghost function RecentJobs(jobs: seq<Job>, target: nat, since: Time): set<nat> {
    set k: nat | k < |jobs| && jobs[k].target == target && since <= jobs[k].createdAt
  }

  /** No older job is counted, no other target's, and none twice. */
  lemma {:induction false} RecentCountsEachOnce(jobs: seq<Job>, target: nat, since: Time)
    ensures Recent(jobs, target, since) == |RecentJobs(jobs, target, since)|
  {
    if |jobs| == 0 {
      assert RecentJobs(jobs, target, since) == {};
    } else {
      var n := |jobs| - 1;
      RecentCountsEachOnce(jobs[..n], target, since);
      assert RecentJobs(jobs, target, since) == RecentJobs(jobs[..n], target, since) +
        if jobs[n].target == target && since <= jobs[n].createdAt then {n} else {};
    }
  }

  datatype ScanRequest = ScanRequest(user: nat, target: nat, tool: string, acceptTerms: bool)

  datatype ApiError = BadRequest | NotFound | TargetNotVerified | PlanLimit

  /** An authorization row and the jobs it covers, written in one transaction. */
  function Authorize(db: Tables, user: nat, target: nat, proof: nat, source: Source, tools: seq<string>, now: Time)
    : Tables
  {
    db.(authorizations := db.authorizations + [Authorization(user, target, proof, source, now)],
        jobs := db.jobs + NewJobs(target, |db.authorizations|, tools, now))
  }

  function NewJobs(target: nat, authorization: nat, tools: seq<string>, now: Time): seq<Job> {
    if tools == [] then [] else
    [Job(target, authorization, tools[0], now, Queued, None, None)] + NewJobs(target, authorization, tools[1..], now)
  }

  predicate WellFormed(request: ScanRequest) {
    request.acceptTerms && IsAllowedTool(request.tool)
  }

  predicate OwnTarget(db: Tables, request: ScanRequest) {
    request.target < |db.targets| && db.targets[request.target].owner == request.user
  }

  /** Fewer than six jobs of the target lie in the trailing 24 hours, and on trial fewer than two. */
  predicate BudgetLeft(jobs: seq<Job>, target: nat, trial: bool, now: Time) {
    Recent(jobs, target, now - 24 * HOUR) < if trial then 2 else 6
  }

  /** The plan includes the scan, the day's budget is not used up, and a trial does not scan another trial's site. */
  predicate PlanAllows(db: Tables, request: ScanRequest, access: Access, siteUsed: bool, now: Time) {
    && access.allowsFullScan && !(access.trial && siteUsed) && BudgetLeft(db.jobs, request.target, access.trial, now)
  }

  /** The guards of `create_scan`, in the order the handler runs them. `Ok` carries the proof row relied on. */
  function CreateScanVerdict(db: Tables, request: ScanRequest, access: Access, siteUsed: bool, now: Time)
    : (r: Result<nat, ApiError>)
    ensures r.Ok? <==>
      && WellFormed(request) && OwnTarget(db, request) && ProofCurrent(db.proofs, request.target, now)
      && PlanAllows(db, request, access, siteUsed, now)
    ensures r.Ok? ==> Latest(db.proofs, request.target) == Some(r.value)
    ensures r == Err(BadRequest) <==> !WellFormed(request)
    ensures r == Err(NotFound) <==> WellFormed(request) && !OwnTarget(db, request)
    ensures r == Err(TargetNotVerified) <==>
      WellFormed(request) && OwnTarget(db, request) && !ProofCurrent(db.proofs, request.target, now)
  {
    if !request.acceptTerms || !IsAllowedTool(request.tool) then Err(BadRequest)
    else if request.target >= |db.targets| || db.targets[request.target].owner != request.user then Err(NotFound)
    else match Latest(db.proofs, request.target)
      case None => Err(TargetNotVerified)
      case Some(v) =>
        var recent := Recent(db.jobs, request.target, now - DAY);
        if !IsCurrentlyVerified(db.proofs[v].verifiedAt, db.proofs[v].expiresAt, now) then Err(TargetNotVerified)
        else if !access.allowsFullScan then Err(PlanLimit)
        else if !WithinScanBudget(recent) || recent >= access.ScansPerTargetPerDay() then Err(PlanLimit)
        else if access.trial && siteUsed then Err(PlanLimit)
        else Ok(v)
  }

  function CreateScan(db: Tables, request: ScanRequest, access: Access, siteUsed: bool, now: Time): (r: Tables)
    ensures db.jobs <= r.jobs
  {
    match CreateScanVerdict(db, request, access, siteUsed, now)
    case Err(_) => db
    case Ok(v) => Authorize(db, request.user, request.target, v, ByHand, [request.tool], now)
  }

  /**
   What the scheduler reads from tables outside the pipeline: accounts whose paid plan is in force,
   accounts on a three-day trial, sites used in another trial, and targets whose query or
   transaction fails this time.
   */
  datatype Accounts = Accounts(paid: set<nat>, trial: set<nat>, siteUsed: set<nat>, failing: set<nat>)

  /** A week or thirty days have passed since the last scheduled scan, if there was one. */
  predicate IntervalPassed(target: Target, now: Time) {
    match target.cadence
    case Manual => false
    case Weekly => target.lastScheduledAt.Some? ==> target.lastScheduledAt.value + 7 * DAY <= now
    case Monthly => target.lastScheduledAt.Some? ==> target.lastScheduledAt.value + 30 * DAY <= now
  }

  /** When a target is due for a scheduled scan and its account may have one, told from the tables. */
  predicate Fires(db: Tables, t: nat, accounts: Accounts, now: Time)
    requires t < |db.targets|
  {
    var owner := db.targets[t].owner;
    && IntervalPassed(db.targets[t], now) && owner in accounts.paid && ProofCurrent(db.proofs, t, now)
    && BudgetLeft(db.jobs, t, owner in accounts.trial, now)
    && !(owner in accounts.trial && t in accounts.siteUsed) && t !in accounts.failing
  }

  /** Whether the tick queues a scheduled scan of `t`, and the proof row it will name. */
  function FiringProof(db: Tables, t: nat, accounts: Accounts, now: Time): (r: Option<nat>)
    requires t < |db.targets|
    ensures r.Some? ==> r.value < |db.proofs|
  {
    var target := db.targets[t];
    var recent := Recent(db.jobs, t, now - DAY);
    if target.cadence == Manual || target.owner !in accounts.paid then None
    else if Due(target.cadence, target.lastScheduledAt, LatestExpiry(db.proofs, t), now).Err? then None
    else if !WithinScanBudget(recent) then None
    else if target.owner in accounts.trial && (recent >= TRIAL_MAX_SCANS_PER_TARGET_PER_DAY || t in accounts.siteUsed)
    then None
    else if t in accounts.failing then None
    else Latest(db.proofs, t)
  }

  /** The scheduler passes over a target exactly when one of these conditions fails. */
  lemma FiresExactlyWhenDue(db: Tables, t: nat, accounts: Accounts, now: Time)
    requires t < |db.targets|
    ensures FiringProof(db, t, accounts, now).Some? <==> Fires(db, t, accounts, now)
  {
    var target := db.targets[t];
    assert Due(target.cadence, target.lastScheduledAt, LatestExpiry(db.proofs, t), now).Ok? <==>
      IntervalPassed(target, now) && ProofCurrent(db.proofs, t, now);
  }

  const SCHEDULED_TOOLS: seq<string> := ["nuclei", "tls"]

  /** The scheduler's transaction: authorization, both jobs, and the stamp. */
  function Enqueue(db: Tables, t: nat, proof: nat, now: Time): Tables
    requires t < |db.targets|
  {
    var queued := Authorize(db, db.targets[t].owner, t, proof, BySchedule, SCHEDULED_TOOLS, now);
    queued.(targets := queued.targets[t := queued.targets[t].(lastScheduledAt := Some(now))])
  }

  function Fire(db: Tables, t: nat, accounts: Accounts, now: Time): (r: Tables)
    ensures db.jobs <= r.jobs && |r.targets| == |db.targets| && r.proofs == db.proofs
  {
    if t >= |db.targets| then db else
    match FiringProof(db, t, accounts, now)
    case None => db
    case Some(v) => Enqueue(db, t, v, now)
  }

  /** Firing the targets below `n` one after another, each deciding on the rows as they then are. */
  function FireEach(db: Tables, n: nat, accounts: Accounts, now: Time): (r: Tables)
    requires n <= |db.targets|
    ensures |r.targets| == |db.targets| && r.proofs == db.proofs
  {
    if n == 0 then db else Fire(FireEach(db, n - 1, accounts, now), n - 1, accounts, now)
  }

  // ------------------------------------------------------------------ running

  /** The queued job that `for update skip locked` leaves to this worker: the oldest one not locked elsewhere. */
  function NextQueued(jobs: seq<Job>, locked: set<nat>): (r: Option<nat>)
    ensures r.Some? ==>
      && r.value < |jobs| && r.value !in locked && jobs[r.value].status == Queued
      && forall k | 0 <= k < |jobs| && k !in locked && jobs[k].status == Queued ::
           jobs[r.value].createdAt <= jobs[k].createdAt
    ensures r == None <==> forall k | 0 <= k < |jobs| :: k in locked || jobs[k].status != Queued
  {
    if |jobs| == 0 then None else
    var last := |jobs| - 1;
    var before := NextQueued(jobs[..last], locked);
    assert forall k | 0 <= k < last :: jobs[..last][k] == jobs[k];
    if last !in locked && jobs[last].status == Queued
       && (before == None || jobs[last].createdAt < jobs[before.value].createdAt)
    then Some(last)
    else before
  }

  function Claim(job: Job, now: Time): Job {
    job.(status := Running, startedAt := Some(now))
  }

  const STALE_RUNNING: int := 60 * MINUTE

  predicate Stale(job: Job, now: Time) {
    job.status == Running && job.startedAt.Some? && job.startedAt.value < now - STALE_RUNNING
  }

  function Requeue(job: Job, now: Time): Job {
    if Stale(job, now) then job.(status := Queued, startedAt := None) else job
  }

  /** One `update` over the whole table. */
  function RequeueInterrupted(jobs: seq<Job>, now: Time): seq<Job> {
    seq(|jobs|, i requires 0 <= i < |jobs| => Requeue(jobs[i], now))
  }

  /** `fail_job` and the completing update. Neither looks at the status it overwrites. */
  function Finish(job: Job, succeeded: bool, now: Time): Job {
    job.(status := if succeeded then Completed else Failed, completedAt := Some(now))
  }
}
