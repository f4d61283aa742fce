/** Several job runners share the queue: no job has two live runners, and an ended job never moves again. */
module ScanExclusive {
  import opened Clock
  import opened Verification
  import opened ScanTables
  import opened Renewal
  import opened ScanRuns

  /** Some completed proof of the target outlived the moment the tool was started. */
  ghost predicate StartedUnderProof(proofs: seq<Proof>, target: nat, since: Time) {
    exists v :: 0 <= v < |proofs| && Unexpired(proofs, v, target, since)
  }

  /** A live runner's job is marked running since its claim, which is at most an hour ago. */
  ghost predicate Holds(w: World, e: Execution) {
    && e.job < |w.db.jobs|
    && w.db.jobs[e.job].status == Running && w.db.jobs[e.job].startedAt == Some(e.claimedAt)
    && e.claimedAt <= w.now <= e.claimedAt + STALE_RUNNING
    && (e.phase.Scanning? ==>
          e.claimedAt <= e.phase.since <= w.now && StartedUnderProof(w.db.proofs, w.db.jobs[e.job].target, e.phase.since))
  }

  ghost predicate Exclusive(w: World) {
    && (forall a | a in w.workers :: Holds(w, w.workers[a]))
    && (forall a, b | a in w.workers && b in w.workers && a != b :: w.workers[a].job != w.workers[b].job)
  }

  /** The assumption on executions: none is still live when more than an hour has passed since its claim. */
  ghost predicate Timely(w: World, step: Step) {
    step.Wait? ==> forall a | a in w.workers :: step.until <= w.workers[a].claimedAt + STALE_RUNNING
  }

  lemma StartedStays(before: seq<Proof>, after: seq<Proof>, target: nat, since: Time, t0: Time, t1: Time)
    requires WellTimed(before, t0) && WellTimed(after, t1) && RowsExtend(before, after)
    requires StartedUnderProof(before, target, since)
    ensures StartedUnderProof(after, target, since)
  {
    var v :| 0 <= v < |before| && Unexpired(before, v, target, since);
    assert RowExtends(before[v], after[v]);
    assert Unexpired(after, v, target, since);
  }

  lemma {:induction false} HoldsStays(w: World, w': World, e: Execution)
    requires Holds(w, e) && Audited(w.db, w.now) && Audited(w'.db, w'.now) && Grows(w.db, w'.db)
    requires w.now <= w'.now <= e.claimedAt + STALE_RUNNING && w'.db.jobs[e.job] == w.db.jobs[e.job]
    ensures Holds(w', e)
  {
    if e.phase.Scanning? {
      StartedStays(w.db.proofs, w'.db.proofs, w.db.jobs[e.job].target, e.phase.since, w.now, w'.now);
    }
  }

  /** A step that takes no runner on and leaves the jobs of those that stay. */
  ghost predicate LeavesRunners(w: World, w': World) {
    && w.now <= w'.now && Grows(w.db, w'.db)
    && forall a | a in w'.workers :: a in w.workers && w'.workers[a] == w.workers[a] && Unmoved(w, w', w.workers[a])
  }

  ghost predicate Unmoved(w: World, w': World, e: Execution) {
    && w'.now <= e.claimedAt + STALE_RUNNING
    && (e.job < |w.db.jobs| <= |w'.db.jobs| ==> w'.db.jobs[e.job] == w.db.jobs[e.job])
  }

  lemma {:induction false} LeftRunnersStayExclusive(w: World, w': World)
    requires Exclusive(w) && Audited(w.db, w.now) && Audited(w'.db, w'.now) && LeavesRunners(w, w')
    ensures Exclusive(w')
  {
    forall a | a in w'.workers ensures Holds(w', w'.workers[a]) {
      assert Holds(w, w.workers[a]) && Unmoved(w, w', w.workers[a]);
      HoldsStays(w, w', w.workers[a]);
    }
  }

  /** A new runner on a job that was queued. */
  lemma {:induction false} TakenOn(w: World, w': World, worker: nat, j: nat)
    requires Exclusive(w) && Audited(w.db, w.now) && Audited(w'.db, w'.now) && Grows(w.db, w'.db)
    requires worker !in w.workers && w'.workers == w.workers[worker := Execution(j, w.now, Claimed)]
    requires w'.now == w.now && j < |w.db.jobs| == |w'.db.jobs| && w.db.jobs[j].status == Queued
    requires w'.db.jobs[j].status == Running && w'.db.jobs[j].startedAt == Some(w.now)
    requires forall k | 0 <= k < |w.db.jobs| && k != j :: w'.db.jobs[k] == w.db.jobs[k]
    ensures Exclusive(w')
  {
    forall a | a in w'.workers ensures Holds(w', w'.workers[a]) {
      if a in w.workers {
        assert Holds(w, w.workers[a]);
        HoldsStays(w, w', w.workers[a]);
      }
    }
    forall a, b | a in w'.workers && b in w'.workers && a != b ensures w'.workers[a].job != w'.workers[b].job {
      if a in w.workers { assert Holds(w, w.workers[a]); }
      if b in w.workers { assert Holds(w, w.workers[b]); }
    }
  }

  lemma {:induction false} ClaimExclusive(w: World, worker: nat, locked: set<nat>)
    requires Audited(w.db, w.now) && Exclusive(w)
    ensures Exclusive(Apply(w, ClaimJob(worker, locked)))
  {
    if NextQueued(w.db.jobs, locked).Some? && worker !in w.workers {
      JobStepAudited(w, ClaimJob(worker, locked));
      TakenOn(w, Apply(w, ClaimJob(worker, locked)), worker, NextQueued(w.db.jobs, locked).value);
    }
  }

  predicate EndedUnrun(job: Job, now: Time) {
    job.status == Failed && job.completedAt == Some(now)
  }

  lemma {:induction false} BeginDecides(w: World, worker: nat)
    requires Audited(w.db, w.now) && Exclusive(w) && worker in w.workers && w.workers[worker].phase == Claimed
    ensures var w', j := Apply(w, BeginJob(worker)), w.workers[worker].job;
      && j < |w.db.jobs| == |w'.db.jobs|
      && if ProofCurrent(w.db.proofs, w.db.jobs[j].target, w.now)
         then w' == w.(workers := w.workers[worker := w.workers[worker].(phase := Scanning(w.now))])
         else w' == Close(w, worker, false) && worker !in w'.workers && EndedUnrun(w'.db.jobs[j], w.now)
  {
    assert Holds(w, w.workers[worker]);
    assert JobSound(w.db, w.db.jobs[w.workers[worker].job]);
  }

  lemma {:induction false} LettingGoLeavesRunners(w: World, worker: nat)
    requires Exclusive(w) && worker in w.workers && Grows(w.db, Close(w, worker, false).db)
    ensures LeavesRunners(w, Close(w, worker, false))
  {
    assert forall a | a in w.workers :: Holds(w, w.workers[a]);
  }

  lemma {:induction false} BeginExclusive(w: World, worker: nat)
    requires Audited(w.db, w.now) && Exclusive(w)
    ensures Exclusive(Apply(w, BeginJob(worker)))
    ensures worker in w.workers && w.workers[worker].phase == Claimed ==>
      var w', j := Apply(w, BeginJob(worker)), w.workers[worker].job;
      && j < |w.db.jobs| == |w'.db.jobs|
      && if ProofCurrent(w.db.proofs, w.db.jobs[j].target, w.now)
         then w'.db == w.db && worker in w'.workers && w'.workers[worker].phase == Scanning(w.now)
         else worker !in w'.workers && w'.db.jobs[j].status == Failed && w'.db.jobs[j].completedAt == Some(w.now)
  {
    if worker in w.workers && w.workers[worker].phase == Claimed {
      BeginDecides(w, worker);
      if ProofCurrent(w.db.proofs, w.db.jobs[w.workers[worker].job].target, w.now) {
        StartExclusive(w, worker);
      } else {
        JobStepAudited(w, BeginJob(worker));
        LettingGoLeavesRunners(w, worker);
        LeftRunnersStayExclusive(w, Close(w, worker, false));
      }
    }
  }

  lemma {:induction false} StartExclusive(w: World, worker: nat)
    requires Audited(w.db, w.now) && Exclusive(w) && worker in w.workers
    requires w.workers[worker].job < |w.db.jobs|
    requires ProofCurrent(w.db.proofs, w.db.jobs[w.workers[worker].job].target, w.now)
    ensures Exclusive(w.(workers := w.workers[worker := w.workers[worker].(phase := Scanning(w.now))]))
  {
    var w' := w.(workers := w.workers[worker := w.workers[worker].(phase := Scanning(w.now))]);
    var target := w.db.jobs[w.workers[worker].job].target;
    assert Unexpired(w.db.proofs, Latest(w.db.proofs, target).value, target, w.now);
    forall a | a in w'.workers ensures Holds(w', w'.workers[a]) {
      assert Holds(w, w.workers[a]);
    }
  }

  lemma {:induction false} StepExclusive(w: World, step: Step)
    requires Audited(w.db, w.now) && Exclusive(w) && Timely(w, step)
    ensures Exclusive(Apply(w, step))
  {
    if step.ClaimJob? {
      ClaimExclusive(w, step.worker, step.locked);
    } else if step.BeginJob? {
      BeginExclusive(w, step.worker);
    } else {
      StepAudited(w, step);
      assert forall a | a in w.workers :: Holds(w, w.workers[a]);
      OtherStepsLeaveRunners(w, step);
      LeftRunnersStayExclusive(w, Apply(w, step));
    }
  }

  lemma {:induction false} OtherStepsLeaveRunners(w: World, step: Step)
    requires Grows(w.db, Apply(w, step).db) && Exclusive(w) && Timely(w, step)
    requires !step.ClaimJob? && !step.BeginJob?
    ensures LeavesRunners(w, Apply(w, step))
  {
    assert forall a | a in w.workers :: Holds(w, w.workers[a]);
    match step {
      case EndJob(worker, succeeded) => EndLeavesOthers(w, worker, succeeded);
      case RequestScan(request, access, siteUsed) =>
        assert w.db.jobs <= CreateScan(w.db, request, access, siteUsed, w.now).jobs;
      case FireSchedule(t, accounts) => assert w.db.jobs <= Fire(w.db, t, accounts, w.now).jobs;
      case Sweep =>
        forall a | a in w.workers ensures Unmoved(w, Apply(w, step), w.workers[a]) {
          assert !Stale(w.db.jobs[w.workers[a].job], w.now);
        }
      case _ =>
    }
  }

  lemma {:induction false} EndLeavesOthers(w: World, worker: nat, succeeded: bool)
    requires Exclusive(w) && Grows(w.db, Apply(w, EndJob(worker, succeeded)).db)
    ensures LeavesRunners(w, Apply(w, EndJob(worker, succeeded)))
  {
    assert forall a | a in w.workers :: Holds(w, w.workers[a]);
  }

  /**
   With any number of runners, crashes and sweeps, as long as no execution outlives the hour the
   sweep allows it: no job is ever run by two live runners, and every tool was started under a
   proof that was current at that moment.
   */
  lemma {:induction false} NoJobHasTwoRunners(w: World, steps: seq<Step>)
    requires Audited(w.db, w.now) && Exclusive(w) && Throughout(w, steps, Timely)
    ensures Exclusive(Run(w, steps))
  {
    if |steps| > 0 {
      var most := steps[..|steps| - 1];
      NoJobHasTwoRunners(w, most);
      EveryJobIsTraceable(w, most);
      StepExclusive(Run(w, most), steps[|steps| - 1]);
    }
  }

  /** Completed and failed are final: nothing rewrites an ended job, neither a sweep nor a late runner. */
  lemma {:induction false} EndedJobsAreFinal(w: World, steps: seq<Step>, j: nat)
    requires Audited(w.db, w.now) && Exclusive(w) && Throughout(w, steps, Timely)
    requires j < |w.db.jobs| && Terminal(w.db.jobs[j].status)
    ensures j < |Run(w, steps).db.jobs| && Run(w, steps).db.jobs[j] == w.db.jobs[j]
  {
    if |steps| > 0 {
      var most := steps[..|steps| - 1];
      var before := Run(w, most);
      EndedJobsAreFinal(w, most, j);
      NoJobHasTwoRunners(w, most);
      assert forall a | a in before.workers :: Holds(before, before.workers[a]);
    }
  }

  /** The worker is scanning for job `j`, or has claimed it and not started yet. */
  predicate Scans(w: World, worker: nat, j: nat) {
    worker in w.workers && w.workers[worker].job == j && w.workers[worker].phase.Scanning?
  }

  predicate HasClaimed(w: World, worker: nat, j: nat) {
    worker in w.workers && w.workers[worker].job == j && w.workers[worker].phase == Claimed
  }

  predicate Becomes(w: World, step: Step, j: nat, status: Status) {
    j < |w.db.jobs| && j < |Apply(w, step).db.jobs| && w.db.jobs[j].status != status && Apply(w, step).db.jobs[j].status == status
  }

  lemma {:induction false} OtherStepsMoveNoJob(w: World, step: Step, j: nat)
    requires Audited(w.db, w.now) && j < |w.db.jobs|
    requires !step.EndJob? && !step.BeginJob? && !step.ClaimJob? && !step.Sweep?
    ensures j < |Apply(w, step).db.jobs| && Apply(w, step).db.jobs[j] == w.db.jobs[j]
  {
    match step {
      case RequestScan(request, access, siteUsed) =>
        assert w.db.jobs <= CreateScan(w.db, request, access, siteUsed, w.now).jobs;
      case FireSchedule(t, accounts) => assert w.db.jobs <= Fire(w.db, t, accounts, w.now).jobs;
      case _ =>
    }
  }

  /** What became of job `j`. */
  predicate Stays(w: World, w': World, j: nat)
    requires j < |w.db.jobs|
  {
    j < |w'.db.jobs| && w'.db.jobs[j] == w.db.jobs[j]
  }

  lemma {:induction false} EndMoves(w: World, worker: nat, succeeded: bool, j: nat)
    requires Exclusive(w) && j < |w.db.jobs|
    ensures if Scans(w, worker, j)
      then w.db.jobs[j].status == Running && j < |Apply(w, EndJob(worker, succeeded)).db.jobs|
        && Apply(w, EndJob(worker, succeeded)).db.jobs[j] == w.db.jobs[j].(
             status := if succeeded then Completed else Failed, completedAt := Some(w.now))
      else Stays(w, Apply(w, EndJob(worker, succeeded)), j)
  {
    assert worker in w.workers ==> Holds(w, w.workers[worker]);
  }

  lemma {:induction false} BeginMoves(w: World, worker: nat, j: nat)
    requires Audited(w.db, w.now) && Exclusive(w) && j < |w.db.jobs|
    ensures if HasClaimed(w, worker, j) && !ProofCurrent(w.db.proofs, w.db.jobs[j].target, w.now)
      then w.db.jobs[j].status == Running && j < |Apply(w, BeginJob(worker)).db.jobs|
        && Apply(w, BeginJob(worker)).db.jobs[j] == w.db.jobs[j].(status := Failed, completedAt := Some(w.now))
      else Stays(w, Apply(w, BeginJob(worker)), j)
  {
    assert JobSound(w.db, w.db.jobs[j]);
    if worker in w.workers {
      assert Holds(w, w.workers[worker]);
      assert JobSound(w.db, w.db.jobs[w.workers[worker].job]);
    }
  }

  lemma {:induction false} ClaimMoves(w: World, worker: nat, locked: set<nat>, j: nat)
    requires j < |w.db.jobs|
    ensures if worker !in w.workers && NextQueued(w.db.jobs, locked) == Some(j)
      then w.db.jobs[j].status == Queued && j < |Apply(w, ClaimJob(worker, locked)).db.jobs|
        && Apply(w, ClaimJob(worker, locked)).db.jobs[j] == w.db.jobs[j].(status := Running, startedAt := Some(w.now))
      else Stays(w, Apply(w, ClaimJob(worker, locked)), j)
  {
  }

  lemma {:induction false} SweepMoves(w: World, j: nat)
    requires Audited(w.db, w.now) && j < |w.db.jobs|
    ensures if w.db.jobs[j].status == Running && w.db.jobs[j].startedAt.value < w.now - 60 * MINUTE
      then j < |Apply(w, Sweep).db.jobs| && Apply(w, Sweep).db.jobs[j] == w.db.jobs[j].(status := Queued, startedAt := None)
      else Stays(w, Apply(w, Sweep), j)
  {
    assert JobSound(w.db, w.db.jobs[j]);
  }

  lemma {:induction false} StepMoves(w: World, step: Step, j: nat)
    requires Audited(w.db, w.now) && Exclusive(w) && j < |w.db.jobs|
    ensures !step.EndJob? && !step.BeginJob? && !step.ClaimJob? && !step.Sweep? ==> Stays(w, Apply(w, step), j)
  {
    if !step.EndJob? && !step.BeginJob? && !step.ClaimJob? && !step.Sweep? { OtherStepsMoveNoJob(w, step, j); }
  }

  /** A job ends as its own runner found, or unrun when its proof is not current at its start. */
  lemma {:induction false} JobEndsAsItsRunnerSays(w: World, step: Step, j: nat)
    requires Audited(w.db, w.now) && Exclusive(w) && j < |w.db.jobs|
    ensures Becomes(w, step, j, Completed) <==> step.EndJob? && step.succeeded && Scans(w, step.worker, j)
    ensures Becomes(w, step, j, Failed) <==>
      || (step.EndJob? && !step.succeeded && Scans(w, step.worker, j))
      || (step.BeginJob? && HasClaimed(w, step.worker, j) && !ProofCurrent(w.db.proofs, w.db.jobs[j].target, w.now))
    ensures Becomes(w, step, j, Completed) || Becomes(w, step, j, Failed) ==>
      Apply(w, step).db.jobs[j].completedAt == Some(w.now)
  {
    match step {
      case EndJob(worker, succeeded) => EndMoves(w, worker, succeeded, j);
      case BeginJob(worker) => BeginMoves(w, worker, j);
      case ClaimJob(worker, locked) => ClaimMoves(w, worker, locked, j);
      case Sweep => SweepMoves(w, j);
      case _ => StepMoves(w, step, j);
    }
  }

  /** A job starts running when it is claimed, and is queued again when it has run for more than an hour. */
  lemma {:induction false} JobStartsAndReturns(w: World, step: Step, j: nat)
    requires Audited(w.db, w.now) && Exclusive(w) && j < |w.db.jobs|
    ensures Becomes(w, step, j, Running) <==>
      step.ClaimJob? && step.worker !in w.workers && NextQueued(w.db.jobs, step.locked) == Some(j)
    ensures Becomes(w, step, j, Queued) <==>
      step.Sweep? && w.db.jobs[j].status == Running && w.db.jobs[j].startedAt.value < w.now - 60 * MINUTE
    ensures Becomes(w, step, j, Running) ==> Apply(w, step).db.jobs[j].startedAt == Some(w.now)
    ensures Becomes(w, step, j, Queued) ==> Apply(w, step).db.jobs[j].startedAt == None
  {
    assert JobSound(w.db, w.db.jobs[j]);
    match step {
      case EndJob(worker, succeeded) => EndMoves(w, worker, succeeded, j);
      case BeginJob(worker) => BeginMoves(w, worker, j);
      case ClaimJob(worker, locked) => ClaimMoves(w, worker, locked, j);
      case Sweep => SweepMoves(w, j);
      case _ => StepMoves(w, step, j);
    }
  }

  function AllBut(n: nat, j: nat): (r: set<nat>)
    ensures forall k: nat :: k in r <==> k < n && k != j
  {
    if n == 0 then {} else AllBut(n - 1, j) + (if n - 1 == j then {} else {n - 1})
  }

  /**
   The hour is exactly what exclusion needs. As soon as a live execution is older, a sweep and
   the next claim put a second runner on its job.
   */
  lemma OverlongExecutionIsShared(w: World, a: nat, b: nat)
    requires a in w.workers && b !in w.workers
    requires var e := w.workers[a];
      e.job < |w.db.jobs| && w.db.jobs[e.job].status == Running && w.db.jobs[e.job].startedAt == Some(e.claimedAt)
    ensures var j := w.workers[a].job;
      var locked := AllBut(|w.db.jobs|, j);
      var w' := Run(w, [Sweep, ClaimJob(b, locked)]);
      (a in w'.workers && b in w'.workers && w'.workers[a].job == w'.workers[b].job)
        <==> w.now > w.workers[a].claimedAt + STALE_RUNNING
  {
    var j := w.workers[a].job;
    var locked := AllBut(|w.db.jobs|, j);
    var steps := [Sweep, ClaimJob(b, locked)];
    assert steps[..1] == [Sweep] && [Sweep][..0] == [];
    var swept := Apply(w, Sweep);
    assert Run(w, [Sweep]) == swept;
    assert Run(w, steps) == Apply(swept, ClaimJob(b, locked));
    assert swept.db.jobs[j] == Requeue(w.db.jobs[j], w.now);
  }

  /** A sweep leaves no job that has been marked running for more than an hour, and moves no other job. */
  lemma SweepReturnsInterruptedJobs(w: World, j: nat)
    requires Audited(w.db, w.now) && j < |w.db.jobs|
    ensures var before, after := w.db.jobs[j], Apply(w, Sweep).db.jobs[j];
      if before.status == Running && before.startedAt.value < w.now - STALE_RUNNING
      then after.status == Queued && SameJob(before, after) && NextQueued(Apply(w, Sweep).db.jobs, {}).Some?
      else after == before
  {
    assert JobSound(w.db, w.db.jobs[j]);
    assert Apply(w, Sweep).db.jobs[j] == Requeue(w.db.jobs[j], w.now);
  }

  /** A crash loses no job: the first sweep after its hour puts it back in the queue, and no live runner has it. */
  lemma {:induction false} CrashedJobReturns(w: World, worker: nat, until: Time)
    requires Audited(w.db, w.now) && Exclusive(w) && worker in w.workers
    requires w.now <= until && w.workers[worker].claimedAt + 60 * MINUTE < until
    ensures var j := w.workers[worker].job;
      var w' := Apply(Apply(Apply(w, Crash(worker)), Wait(until)), Sweep);
      && j < |w'.db.jobs| && w'.db.jobs[j].status == Queued
      && worker !in w'.workers && forall a | a in w'.workers :: w'.workers[a].job != j
  {
    assert Holds(w, w.workers[worker]);
  }
}
