# Glarion, modelled and proved in Dafny

Glarion scans the web sites of agencies and reports to their clients. This project models the parts of it
whose promises hold only over whole runs or whole inputs, and proves them.

**The scan pipeline.** `ScanTables` has the rows shared by the API, the scheduler and the job runners, and what
each statement or transaction does to them. `ScanRuns` interleaves all actors in any order: manual requests,
scheduler firings, renewal passes, claims, starts, ends, crashes, sweeps, changes of cadence, new proofs. On these
runs `ScanRuns` proves the audit trail, `ScanExclusive` exclusive execution, `ScanBudget` the rolling daily
budget and that it comes back, `ScanSchedule` the spacing of firings and when a published proof never lapses,
`SleepingLoop` the same for the loop that sleeps after its work. `ScanStore` has the same operations as methods on a
class, each proved to do what the step does, with the real loops of a tick, an enqueue and a renewal pass. `Verification`, `Policy`, `Schedule` and `Renewal` hold the rules these share.

**Triage and change detection.** `Triage` sorts raw findings into three sections. `TriageFacts` proves that nothing
is lost and that each section has a canonical form independent of the order of findings; `TriageEvidence` that
merged evidence can be split again, and when two scans are told apart; `TriageOrder` what the order of findings does to
that; `TriageRules` states the rulebook template by template, as facts about the printed report.

**Limits, names, accounts, mail.** `RateLimit` relates the in-memory limiter with its sweep, one that never
forgets, and the SQL counter, and bounds bursts. `Domain`, `DomainFacts` and `DomainNames` characterise exactly what
the target parser accepts and why it refuses the rest. `Accounts` and `AccountStore` have the user rows, passwords,
sessions and links. `TrialReminder` has the mark-before-send protocol among several workers, `MailRelay` the chain of
mail providers and `MailSenders` who may use them.

**Small algorithms.** `Hex`, `Numbers`, `Signature` and `HeaderFields` cover webhook signatures, `Html`, `Css`, `Page`, `Report`,
`ReportFacts`, `ReportTexts` and `ReportRender` the report page, `Palette` the command palette. `Text` and `Clock` are shared.

Time is a whole number of microseconds. Text is ASCII. Rows are numbered in the order they are inserted.

## Where the code and its words differ

The model follows the code.

- The schedule queues two jobs after checking for one, so a target can have seven jobs in 24 hours, not the six of
  `crates/orchestrator/src/policy.rs:17`, and a trial three, not two. `ScanBudget.FiringOvershootsFromFive` and
  `ScanBudget.FiringOvershootsTrialFromOne` say exactly when, `ScanBudget.SevenIsReached` and
  `ScanBudget.ThreeIsReached` that it happens.
- The warning 72 hours before a proof lapses is only sent when a pass starts at exactly that microsecond, because the row
  is selected only from then on and the point is crossed only up to then: `Renewal.WarningsSent`.
- The hourly attempt counts on loop starts at most 300 s apart, and to the microsecond that is what a proof needs when
  nothing else is known of the loop: `ScanSchedule.NeverLapsesIffWithinTick`. The loop sleeps 300 s after its work, so
  its starts are further apart. They drift through the hour, and that saves the proof: it never lapses exactly while an
  iteration works for at most 27.237354 s, `SleepingLoop.SleeperNeverLapsesIffShortEnough`; no two hours in a row pass
  without an attempt exactly up to 25 s, `SleepingLoop.EveryOtherHourIffShortWork`.
- A send that fails clears its mark and is tried again under a new key, also when the provider answered 409 or not at
  all and may hold the message. So one end date can be reminded of twice: `TrialReminder.OneReminderPerEnd` says
  exactly when, `TrialReminder.TwoReminders` that it happens.
- A scan's findings are read back in no promised order, and a folded row keeps the template id it saw first. So an
  unchanged scan can be reported as replaced: `TriageOrder.SilentInAnyOrderIffOneIdPerTitle` says exactly for which
  scans, `TriageOrder.ReorderedScanIsReported` that the rulebook itself has one.
- Erasing an account leaves its reset and address-change links in the row, and the account comes back through one that
  is under an hour old: `Accounts.ErasureIsFinalIffNoLinkOutstanding`.
- With a limit of 0 the two rate limiters disagree: `RateLimit.ZeroLimitDisagrees`.
- A command that contains the query does not always outrank a scattered match: `Palette.ContainedOutranksScattered`
  says exactly when it does.
- The webhook's window check is computed on 64-bit integers that wrap in a release build:
  `Signature.RecentIffNearOrOverflow` gives the exact condition.
- Merged evidence can be split again exactly when no piece contains ", ": `TriageEvidence.EvidenceIsLossless`.
- Two scans are compared as sets of issues exactly when the keys of the later one are distinct
  (`Schedule.ComparesBySetIffDistinct`). Template ids without '|' are enough for that
  (`TriageEvidence.KeysAreDistinct`); with one, a scan of the same keys can be reported
  (`TriageEvidence.AmbiguousIdIsReported`).

## Model

| member | source | states |
|---|---|---|
| `Verification.CurrentIffSomeRowIsUnexpired` | crates/orchestrator/src/runner.rs:311-344 | reading only the latest completed proof row decides as reading them all would: a target may be scanned iff some completed row of its own is unexpired |
| `Verification.CompletedProofLasts` | crates/orchestrator/src/verification.rs:88-94 | a completed proof carries its target for exactly thirty days |
| `Schedule.Due` | crates/orchestrator/src/schedule.rs:83-102 | a scheduled scan is due iff the cadence has an interval, the proof is unexpired, and it never fired or the interval has passed; which refusal is given follows from cadence and proof |
| `Schedule.UnseenIsSetDifference` | crates/orchestrator/src/schedule.rs:159 | on distinct keys, the number of unseen keys is the size of the set difference |
| `Schedule.SilentIffSameIssues` | crates/orchestrator/src/schedule.rs:155-165 | on distinct keys no change is reported iff this is the first scan or both scans have the same set of issues (equal length and inclusion force equality) |
| `Schedule.VerdictMeaning` | crates/orchestrator/src/schedule.rs:139-165 | what each verdict says about the two sets of issues: Better is a strict subset, Replaced carries the exact number of new issues, Resolved and Appeared are an empty side |
| `Schedule.RepeatedKeyIsReported` | crates/orchestrator/src/schedule.rs:155-165 | without distinct keys the verdict can report a change although both scans have the same set of issues |
| `Schedule.ComparesBySetIffDistinct` | crates/orchestrator/src/schedule.rs:155-165 | silence means the same issues, whatever distinct keys the last scan had, iff the scan's own keys are distinct |
| `ScanTables.NextQueued` | crates/orchestrator/src/runner.rs:88-103 | the claimed job is a queued one that no other worker has locked, with the earliest creation time among those; nothing is claimed iff every queued job is locked |
| `ScanTables.CreateScanVerdict` | crates/api/src/routes/scans.rs:67-165 | a request is granted iff it is well formed, about the user's own target, its proof is current and the plan, the trial rule and the trailing day's count (fewer than six, on trial two) allow it; which error is given when they do not; the proof row relied on is the latest |
| `ScanTables.RecentCountsEachOnce` | crates/api/src/routes/scans.rs:133-142 | the trailing day's count is the number of the target's jobs created since, and of no older or foreign one |
| `ScanTables.FiresExactlyWhenDue` | crates/orchestrator/src/scheduler.rs:53-141 | the scheduler queues a target iff it is on a schedule whose interval has passed, its owner pays, its proof is current, fewer than six jobs (on trial two, and the site unused elsewhere) lie in the trailing day, and its transaction does not fail |
| `ScanRuns.RequestWrites` | crates/api/src/routes/scans.rs:167-204 | a granted request adds one authorization by hand under the proof relied on and one queued job under it, and nothing else; a refused one adds nothing |
| `ScanRuns.FiringWrites` | crates/orchestrator/src/scheduler.rs:162-199 | a firing adds one authorization by schedule, a nuclei and a tls job under it, and stamps its target; nothing else changes |
| `ScanRuns.NewJobsSound` | crates/orchestrator/src/scheduler.rs:185-192 | the jobs of one authorization are one queued job per tool, all created at the same moment for its target |
| `ScanRuns.AuthorizeAudited` | crates/api/src/routes/scans.rs:167-204 | writing an authorization with its jobs under the current proof keeps the audit trail and rewrites nothing |
| `ScanRuns.FiringHasCurrentProof` | crates/orchestrator/src/scheduler.rs:82-141 | a scheduled firing always relies on a completed proof that is current at that moment |
| `ScanRuns.CreateScanAudited` | crates/api/src/routes/scans.rs:60-204 | a manual request keeps the audit trail whichever guard stops it |
| `ScanRuns.FireAudited` | crates/orchestrator/src/scheduler.rs:82-199 | a firing keeps the audit trail |
| `ScanRuns.JobStepAudited` | crates/orchestrator/src/runner.rs:36-158 | claiming, starting, ending and sweeping jobs keep the audit trail |
| `ScanRuns.StepAudited` | crates/orchestrator/src/runner.rs:88-158 | every step of every actor keeps the audit trail; owners, authorizations and what a job is for are never rewritten |
| `ScanRuns.EveryJobIsTraceable` | crates/api/src/routes/scans.rs:167-204 | in every reachable state each job has an authorization by the target's owner naming a completed proof of that same target that was unexpired when the job was queued |
| `ScanRuns.QueuedUnderCurrentProof` | crates/api/src/routes/scans.rs:95-117 | the step that adds a job ran while the target's proof was current: by hand with accepted terms by the requester, by schedule on a target that has one |
| `ScanExclusive.TakenOn` | crates/orchestrator/src/runner.rs:84-103 | taking on a queued job keeps live workers on distinct jobs, because a live worker's job is never queued |
| `ScanExclusive.ClaimExclusive` | crates/orchestrator/src/runner.rs:88-103 | claiming keeps exclusive execution |
| `ScanExclusive.BeginExclusive` | crates/orchestrator/src/runner.rs:105-147 | a tool starts only under a proof current at that moment; otherwise the job fails and the runner lets go |
| `ScanExclusive.StepExclusive` | crates/orchestrator/src/runner.rs:34-158 | every step keeps exclusive execution when live executions end within an hour of their claim |
| `ScanExclusive.NoJobHasTwoRunners` | crates/orchestrator/src/runner.rs:34-103 | over every run with any number of workers, crashes and sweeps, no job ever has two live runners, if none stays live for more than an hour after its claim |
| `ScanExclusive.EndedJobsAreFinal` | crates/orchestrator/src/runner.rs:364-376 | completed and failed jobs keep their status over every such run |
| `ScanExclusive.JobEndsAsItsRunnerSays` | crates/orchestrator/src/runner.rs:105-158 | a job becomes completed iff its own runner ends with success, failed iff its runner ends without or finds no current proof at the start; its end is stamped |
| `ScanExclusive.JobStartsAndReturns` | crates/orchestrator/src/runner.rs:36-103 | a job becomes running iff it is claimed, and queued again iff it has been running for more than an hour; start times are set and cleared with it |
| `ScanExclusive.CrashedJobReturns` | crates/orchestrator/src/runner.rs:36-56 | a crash loses no job: the first sweep after its hour queues it again, with no live runner on it |
| `ScanExclusive.OverlongExecutionIsShared` | crates/orchestrator/src/runner.rs:38-56 | the hour is needed: an execution that outlives it is swept and claimed again while still live |
| `ScanExclusive.SweepReturnsInterruptedJobs` | crates/orchestrator/src/runner.rs:36-56 | a sweep puts every job marked running for more than an hour back in the queue and touches no other |
| `ScanBudget.AdmittedBatchKeepsCap` | crates/api/src/routes/scans.rs:133-152 | the window argument: a batch admitted because fewer than the limit were counted in the trailing day keeps every closed 24-hour window, wherever it starts, at limit - 1 + batch |
| `ScanBudget.StepKeepsCap` | crates/orchestrator/src/scheduler.rs:105-120 | each step keeps every window within the cap its own check gives |
| `ScanBudget.RunKeepsCap` | crates/orchestrator/src/policy.rs:17-21 | and so does every run |
| `ScanBudget.DailyBudget` | crates/orchestrator/src/policy.rs:17-18 | over every run any closed 24 hours hold at most 7 jobs of a target, and at most 6 when the schedule does not fire for it |
| `ScanBudget.TrialBudget` | crates/orchestrator/src/policy.rs:20-21 | for an account on trial throughout, at most 3, and 2 without firings |
| `ScanBudget.FiringOvershootsFromFive` | crates/orchestrator/src/scheduler.rs:105-120 | a firing leaves more than the documented six in the trailing day iff it found exactly five |
| `ScanBudget.FiringOvershootsTrialFromOne` | crates/orchestrator/src/scheduler.rs:105-120 | for an account on trial, a firing leaves more than the documented two iff it found exactly one |
| `ScanBudget.SevenIsReached` | crates/orchestrator/src/scheduler.rs:185-192 | the bound of seven is attained: five manual scans and one firing |
| `ScanBudget.ThreeIsReached` | crates/orchestrator/src/scheduler.rs:185-192 | on trial throughout, the bound of three is attained: one manual scan and one firing |
| `ScanBudget.GrantedIffBudgetLeft` | crates/api/src/routes/scans.rs:133-152 | in every state a proper request of a paying owner under a current proof adds a job iff fewer than six, on trial two, of the target's jobs were created in the trailing 24 hours, however many there ever were |
| `ScanBudget.BudgetComesBack` | crates/api/src/routes/scans.rs:133-152 | a day after any run the whole budget is back: such a request is granted |
| `ScanSchedule.FiringsAreSpaced` | crates/orchestrator/src/scheduler.rs:162-199 | scheduled firings of one target under an unchanged cadence are at least one interval apart, over every run |
| `ScanSchedule.StepExpiry` | crates/orchestrator/src/renewal.rs:64-117 | whatever the step, a scheduled target with its proof published keeps its expiry or gains; a renewal pass moves it exactly as its own item would |
| `ScanSchedule.StepAlive` | crates/orchestrator/src/scheduler.rs:34-51 | with loop starts at most a tick apart and the published proof found, every step leaves enough proof to reach the next hour's first loop start |
| `ScanSchedule.PublishedProofNeverLapses` | crates/orchestrator/src/renewal.rs:64-101 | over every such run the proof is current at every moment, so a due check never answers that the verification lapsed |
| `ScanSchedule.MicrosecondMoreLapses` | crates/orchestrator/src/scheduler.rs:34-51 | a run in which the published proof is found at every pass, loop starts are never more than a tick and a microsecond apart, and the proof lapses |
| `ScanSchedule.NeverLapsesIffWithinTick` | crates/orchestrator/src/renewal.rs:45-50 | over all runs, a published proof never lapses iff loop starts may be at most a tick apart, to the microsecond |
| `SleepingLoop.LateStartsFollow` | crates/orchestrator/src/scheduler.rs:34-51 | the loop sleeps a tick after its work: starts in an hour whose first one came too late keep their places, and the twelfth is in time for the next hour or late by less than the hour before |
| `SleepingLoop.EveryOtherHourIffShortWork` | crates/orchestrator/src/scheduler.rs:34-51 | no two hours in a row pass without an attempt iff an iteration works for at most a twelfth of a tick, to the microsecond |
| `SleepingLoop.StepAwake` | crates/orchestrator/src/scheduler.rs:34-51 | with at most 70/771 of a tick of work, every step leaves enough proof for all the hours that can still be missed in a row, and one more |
| `SleepingLoop.ShortWorkNeverLapses` | crates/orchestrator/src/scheduler.rs:34-51 | so over every run of that loop a proof completed since its last start and published throughout is current at every moment |
| `SleepingLoop.LongWorkLapses` | crates/orchestrator/src/scheduler.rs:34-51 | for any more work there is a run of that loop, its proof found at every pass that reads it, in which that proof lapses |
| `SleepingLoop.SleeperNeverLapsesIffShortEnough` | crates/orchestrator/src/scheduler.rs:34-51 | over all runs of the loop that sleeps after its work, a published proof never lapses iff an iteration works for at most 70/771 of a tick |
| `Renewal.RenewOneMoves` | crates/orchestrator/src/renewal.rs:88-101 | one item renews its own target's proof exactly when that proof is read in this pass |
| `Renewal.PassRenews` | crates/orchestrator/src/renewal.rs:64-117 | a whole pass moves a scheduled target's expiry as its own item does, whatever the other items do |
| `Renewal.ItemsTouchTheirOwn` | crates/orchestrator/src/renewal.rs:88-101 | the items of a pass change only rows of their own targets |
| `Renewal.AttemptIsHourly` | crates/orchestrator/src/renewal.rs:47-50 | an attempt is due iff less than one tick has passed since the hour, although the code computes in whole seconds |
| `Renewal.LoopKeepsProofAlive` | crates/orchestrator/src/renewal.rs:38-50 | one loop start at most a tick after the last finds the proof unexpired and leaves it safe |
| `Renewal.OffTheHourNeverReads` | crates/orchestrator/src/renewal.rs:36-50 | a start past the first tick of an hour neither attempts nor meets a reminder point of a proof that lapses just before the end of an hour's first tick |
| `Renewal.ExactSpacingCrossesOnce` | crates/orchestrator/src/renewal.rs:36-43 | with loop starts exactly one tick apart each reminder point is crossed by exactly one of them |
| `Renewal.WiderSpacingCrossesAtMostOnce` | crates/orchestrator/src/renewal.rs:36-43 | with wider spacing no point is crossed twice |
| `Renewal.WarningsSent` | crates/orchestrator/src/renewal.rs:64-117 | together with the selection of rows, the 72-hour warning goes out only when a pass starts at exactly that instant; the 24-hour one by the tick that crosses it |
| `ScanStore.Store.constructor` | crates/orchestrator/src/runner.rs:58-82 | the four tables start as given |
| `ScanStore.Store.StartVerification` | crates/api/src/routes/targets.rs:293-321 | the owner's request adds one pending proof row, another's adds nothing |
| `ScanStore.Store.CheckVerification` | crates/api/src/routes/targets.rs:325-419 | the newest pending row of an own target is completed iff its token is found, and the target then is currently verified; each refusal and what it leaves alone |
| `ScanStore.Store.SetCadence` | crates/api/src/routes/targets.rs:58-139 | the handler leaves the tables as the step says: a schedule needs ownership, current proof and a plan, in this order, and clears the stamp |
| `ScanStore.Store.CreateScan` | crates/api/src/routes/scans.rs:60-220 | the handler leaves the tables as the step says and answers with its verdict |
| `ScanStore.Store.Enqueue` | crates/orchestrator/src/scheduler.rs:162-209 | the transaction's loop over tools writes the authorization, both jobs and the stamp, and nothing else |
| `ScanStore.Store.Tick` | crates/orchestrator/src/scheduler.rs:53-153 | the loop over candidates read once does what deciding on the rows one after another does, and queues both tools for exactly the targets that are due and may be scanned |
| `ScanStore.Store.RenewDue` | crates/orchestrator/src/renewal.rs:64-117 | the pass over selected rows rewrites the proofs as the step says, and warns exactly the unfound scheduled targets whose proof meets a warning point at this instant |
| `ScanStore.Store.RequeueInterrupted` | crates/orchestrator/src/runner.rs:36-56 | the update puts back exactly the stale running rows |
| `ScanStore.Store.ClaimNextJob` | crates/orchestrator/src/runner.rs:88-103 | the claimed row is the oldest unlocked queued one and becomes running now; nothing else changes |
| `ScanStore.Store.BeginJob` | crates/orchestrator/src/runner.rs:105-147 | a job starts iff its target's proof is current and its tool allowed, and fails otherwise |
| `ScanStore.Store.EndJob` | crates/orchestrator/src/runner.rs:155-158 | the end is written whatever the status was |
| `ScanStore.TickFiresExactlyTheDue` | crates/orchestrator/src/scheduler.rs:53-199 | over a tick each target that is due and may be scanned gets a nuclei and a tls job and its stamp, and no other target gets anything |
| `ScanStore.SnapshotDecides` | crates/orchestrator/src/scheduler.rs:53-93 | candidates read once at the start of a tick decide as rows read one at a time would, as a firing touches only its own target |
| `ScanStore.TickIsARun` | crates/orchestrator/src/scheduler.rs:53-153 | a whole tick is a run of single firings, so what holds of runs holds of ticks |
| `RateLimit.RateLimiter.constructor` | crates/api/src/rate_limit.rs:125-132 | a new limiter remembers nobody |
| `RateLimit.RateLimiter.Check` | crates/api/src/rate_limit.rs:151-173 | the method answers and updates the map as the evicting step says |
| `RateLimit.EvictionIsInvisible` | crates/api/src/rate_limit.rs:161-170 | for windows of at most 900 s, a map that lost only elapsed entries gives the same answer, and still has lost only elapsed ones |
| `RateLimit.EvictingRefinesPlain` | crates/api/src/rate_limit.rs:150-173 | on every request sequence the limiter with its sweep answers as a map that never evicts |
| `RateLimit.SharedMirrorsPlain` | crates/api/src/rate_limit.rs:186-211 | the SQL counter's row stands for the in-memory entry: same start, count equal up to the 32-bit cap |
| `RateLimit.LimitersAgree` | crates/api/src/rate_limit.rs:84-211 | for limit at least 1 and whole-second windows of at most 900 s, evicting, plain and SQL limiters give the same answers to every sequence |
| `RateLimit.ZeroLimitDisagrees` | crates/api/src/rate_limit.rs:107-115 | with limit 0 the in-memory limiter lets the first request through and the SQL one does not |
| `RateLimit.LongWindowIsForgotten` | crates/api/src/rate_limit.rs:74-76 | for any limit and any window above 900 s, a run of requests whose last one is refused by a map that never forgets and let through after the sweep |
| `RateLimit.EvictionNeverShowsIffShortWindow` | crates/api/src/rate_limit.rs:74-76 | over all ordered runs eviction changes no answer iff the window is at most 900 s |
| `RateLimit.MapStaysSmall` | crates/api/src/rate_limit.rs:74-76 | after every request of every run more than ten thousand clients are remembered only if all of them came within fifteen minutes |
| `RateLimit.DecisionKeepsBound` | crates/api/src/rate_limit.rs:87-116 | one decision keeps the invariant behind the burst bound |
| `RateLimit.BurstBound` | crates/api/src/rate_limit.rs:12-14 | over every ordered sequence any closed interval of one window length allows at most twice the limit per client, and at most the limit if the counter window covers it |
| `RateLimit.BurstIsReached` | crates/api/src/rate_limit.rs:12-14 | the factor two is attained |
| `Triage.UnknownTemplatesStayVisible` | crates/orchestrator/src/triage.rs:279-508 | a template without a rule acts iff rated at least medium, waits for a decision iff low, goes to the appendix iff informational; of the others only the appendix list and certificate expiry can send a medium one there |
| `TriageRules.FindingIsPrinted` | crates/orchestrator/src/triage.rs:131-162 | every finding has a row of its title in its section, at least as pressing as itself, whatever else was found |
| `TriageRules.ContentSecurityPolicy` | crates/orchestrator/src/triage.rs:286-299 | a missing content security policy is a high action under its own title, printed so in every list of findings |
| `TriageRules.FrameOptions` | crates/orchestrator/src/triage.rs:286-310 | a missing x-frame-options is a medium action, printed so in every list of findings |
| `TriageRules.ContentTypeOptions` | crates/orchestrator/src/triage.rs:286-318 | a missing x-content-type-options is a low action, printed so in every list of findings |
| `TriageRules.IsolationHeaders` | crates/orchestrator/src/triage.rs:286-332 | a missing isolation header is a low decision, printed so in every list of findings |
| `TriageRules.OtherHeaders` | crates/orchestrator/src/triage.rs:333-344 | any other missing header is a low decision under its name, or the scanner's title without one, printed so in every list of findings |
| `TriageRules.WeakTransportSecurity` | crates/orchestrator/src/triage.rs:346-357 | short-lived HSTS is a medium action, printed so in every list of findings |
| `TriageRules.CdnDebugHeaders` | crates/orchestrator/src/triage.rs:359-369 | CDN debug headers are a low action, printed so in every list of findings |
| `TriageRules.TlsVersion` | crates/orchestrator/src/triage.rs:372-390 | an obsolete TLS version is a high action, one in order an appendix line, by the scanner's severity, printed so in every list of findings |
| `TriageRules.OtherTransport` | crates/orchestrator/src/triage.rs:372-390 | the other certificate templates likewise, each under its own title, printed so in every list of findings |
| `TriageRules.CertificateExpired` | crates/orchestrator/src/triage.rs:392-404 | an expired certificate is an urgent action, printed so in every list of findings |
| `TriageRules.CertificateCritical` | crates/orchestrator/src/triage.rs:405-412 | one with a week left is an urgent action, printed so in every list of findings |
| `TriageRules.CertificateSoon` | crates/orchestrator/src/triage.rs:413-420 | one with a fortnight left is a high action, printed so in every list of findings |
| `TriageRules.CertificateApproaching` | crates/orchestrator/src/triage.rs:421-428 | one with a month left is a medium decision, printed so in every list of findings |
| `TriageRules.CertificateInOrder` | crates/orchestrator/src/triage.rs:429-432 | any other is an appendix line, printed so in every list of findings |
| `TriageRules.CertificateNameMismatch` | crates/orchestrator/src/triage.rs:434-441 | a certificate for other names is an urgent action, printed so in every list of findings |
| `TriageRules.CertificateSelfSigned` | crates/orchestrator/src/triage.rs:443-450 | a self-signed certificate is an urgent action, printed so in every list of findings |
| `TriageRules.EmailAddresses` | crates/orchestrator/src/triage.rs:453-464 | published addresses are a low decision, printed so in every list of findings |
| `TriageRules.RobotsEntries` | crates/orchestrator/src/triage.rs:466-476 | disclosed paths are a low decision, printed so in every list of findings |
| `TriageRules.AppendixTemplates` | crates/orchestrator/src/triage.rs:478-494 | each of the fifteen inventory templates is an appendix line under its own title, whatever the scanner rated it, printed so in every list of findings |
| `TriageRules.UnknownTemplate` | crates/orchestrator/src/triage.rs:496-506 | a template without a rule is placed by the scanner's severity alone, under the scanner's title, printed so in every list of findings |
| `TriageRules.ExpiredCertificateLeads` | crates/orchestrator/src/triage.rs:392-412 | in every scan an expired or nearly expired certificate has an urgent row among the actions, and no row before it is less than urgent |
| `TriageRules.UrgentComesFirst` | crates/orchestrator/src/triage.rs:148-155 | so does every finding printed as urgent |
| `TriageRules.TextsAreTaken` | crates/orchestrator/src/triage.rs:512-530 | extracted texts are taken as they come |
| `TriageRules.NonTextsAreSkipped` | crates/orchestrator/src/triage.rs:512-530 | and what is no text is passed over |
| `TriageRules.EvidenceIsWhatWasExtracted` | crates/orchestrator/src/triage.rs:512-538 | a finding's evidence is the extracted texts joined, and where it matched only if there are none |
| `TriageRules.RowKeepsItsSource` | crates/orchestrator/src/triage.rs:165-196 | a row keeps the finding's severity, template and matcher |
| `Triage.CollapseDuplicates` | crates/orchestrator/src/triage.rs:542-588 | the loop over rows with its seen list builds exactly the fold |
| `Triage.TriageScan` | crates/orchestrator/src/triage.rs:131-162 | the loop over findings with its three buckets and in-place sorts builds exactly the three sections, whose rows the rulebook lemmas pin |
| `TriageFacts.CollapseFolds` | crates/orchestrator/src/triage.rs:542-588 | folding leaves each title once, with the count of its members and their highest priority, and covers every member |
| `TriageFacts.CollapseConserves` | crates/orchestrator/src/triage.rs:542-588 | folding keeps the total number of occurrences |
| `TriageFacts.NothingIsLost` | crates/orchestrator/src/triage.rs:110-122 | the occurrences printed over all three sections sum to the number of raw findings |
| `TriageFacts.SortOrders` | crates/orchestrator/src/triage.rs:148-155 | the sort leaves rows strictly ordered by priority, then title |
| `TriageFacts.SectionIsCanonical` | crates/orchestrator/src/triage.rs:131-162 | each section: distinct titles, strictly ordered, each row the maximum and count of its members, every member represented |
| `TriageFacts.OrderDeterminesLines` | crates/orchestrator/src/triage.rs:148-155 | two strictly ordered lists of the same lines are the same list |
| `TriageFacts.LinesFromMembers` | crates/orchestrator/src/triage.rs:131-162 | a line is printed iff its count and priority are those of the findings of its title, told from the findings alone |
| `TriageFacts.OrderOfFindingsIsInvisible` | crates/orchestrator/src/triage.rs:131-162 | permuting the findings changes no section's sequence of titles, priorities and counts |
| `TriageEvidence.RowsShow` | crates/orchestrator/src/triage.rs:557-575 | a folded row's evidence is the merge, in order, of its members' evidence |
| `TriageEvidence.ShownIsJoin` | crates/orchestrator/src/triage.rs:557-575 | when no piece contains the separator, that merge is the join of the distinct pieces in first-seen order |
| `TriageEvidence.EvidenceIsLossless` | crates/orchestrator/src/triage.rs:557-575 | splitting merged evidence at ', ' gives back the distinct pieces in first-seen order iff no piece contains the separator |
| `TriageEvidence.SectionEvidence` | crates/orchestrator/src/triage.rs:131-162 | and this holds for every row of every printed section |
| `TriageEvidence.KeyIsInjective` | crates/orchestrator/src/runner.rs:243-249 | when template ids hold no bar the key determines id and title |
| `TriageEvidence.KeysAreDistinct` | crates/orchestrator/src/runner.rs:243-249 | a triaged scan whose ids hold no bar has distinct keys |
| `TriageEvidence.NoMailIffSameIssues` | crates/orchestrator/src/runner.rs:160-172 | from raw findings to verdict: when template ids hold no bar, no change is reported iff it is the first scan or both scans have the same set of keys |
| `TriageEvidence.AmbiguousIdIsReported` | crates/orchestrator/src/runner.rs:243-249 | with a bar in an id two issues can share a key, and a scan with the same set of keys is reported as a change |
| `TriageOrder.FoldingKeepsTheFirstId` | crates/orchestrator/src/triage.rs:542-588 | a folded row carries the template id of the first finding of its title |
| `TriageOrder.FoldedRowsComeFromTheFirst` | crates/orchestrator/src/triage.rs:542-588 | but for evidence, count and priority a folded row is the first finding of its title |
| `TriageOrder.IdentityIsTheFirstId` | crates/orchestrator/src/runner.rs:243-249 | a key is in a scan iff the scan's first finding of that title has that template id |
| `TriageOrder.SilentInAnyOrderIffOneIdPerTitle` | crates/orchestrator/src/runner.rs:283-309 | the same findings, in whatever order they are read next time, are reported as no change iff actionable findings that share a title share a template id |
| `TriageOrder.ReorderedScanIsReported` | crates/orchestrator/src/triage.rs:279-508 | two templates of the rulebook share a title: the same scan read in the other order is reported as replaced |
| `DomainFacts.DressedNameParses` | crates/orchestrator/src/domain.rs:68-135 | a canonical name in any proper dressing (scheme, userinfo, upper case, dots, port, path, query, fragment, padding) parses to that name |
| `DomainFacts.Undress` | crates/orchestrator/src/domain.rs:68-108 | every non-blank text falls into a dressing around the host that is read from it |
| `DomainFacts.CheckedIsCanonical` | crates/orchestrator/src/domain.rs:110-168 | a host that passes the checks is in canonical form: lower-case labels of 1 to 63 characters, at most 253 in all, a dot, no IPv4 address, no blocked suffix |
| `DomainFacts.AcceptsExactlyDressedNames` | crates/orchestrator/src/domain.rs:68-168 | the parser accepts a text as a name iff the name is canonical and the text is it in a proper dressing |
| `DomainFacts.CanonicalIsFixed` | crates/orchestrator/src/domain.rs:68-135 | a stored name parses to itself |
| `DomainFacts.StraySchemeIsCut` | crates/orchestrator/src/domain.rs:76-79 | without a scheme of its own, a text containing '://' is read from there on: why the tail of a dressing must not contain it |
| `DomainNames.AddressesAreDottedBytes` | crates/orchestrator/src/domain.rs:119-121 | what is refused as an address is exactly four numbers up to 255, written out and joined by dots |
| `DomainNames.BlockedIffPrivate` | crates/orchestrator/src/domain.rs:51-61 | a host is refused as private iff it is one of eight names or below one |
| `DomainNames.StoredLabels` | crates/orchestrator/src/domain.rs:146-168 | a stored label is one to sixty-three lower-case letters, digits, hyphens and underscores, with no hyphen at either end |
| `DomainNames.CharactersAreRead` | crates/orchestrator/src/domain.rs:68-108 | which characters are folded, trimmed and end a host |
| `DomainNames.TextsAreJudgedSo` | crates/orchestrator/src/domain.rs:68-116 | a blank text is empty, brackets or two colons are an address, and anything else is the check of the host left |
| `DomainNames.RefusalsSayWhy` | crates/orchestrator/src/domain.rs:110-135 | which refusal a host gets, for every host |
| `Accounts.StepGood` | crates/api/src/routes/accounts.rs:184-1030 | every handler keeps tokens and addresses distinct across rows, sessions no newer than their row's version and live only for confirmed rows, and one welcome per live account, and never lowers a version |
| `Accounts.RunGood` | crates/api/src/routes/accounts.rs:184-1030 | and so does every run |
| `Accounts.SignInIffItOpens` | crates/api/src/routes/accounts.rs:428-492 | signing in opens a twelve-hour session of the row with that address, exactly that password and a confirmed address, and does nothing when there is none |
| `Accounts.PasswordStands` | crates/api/src/routes/accounts.rs:604-791 | a password set by sign-up, reset or change is, over every run until the next one or erasure, exactly what signing in to the account takes |
| `Accounts.SensitiveStepsNeedThePassword` | crates/api/src/routes/accounts.rs:691-1019 | a change of password or address and an erasure take effect iff a live session comes with the row's password (and the change is one, the address free, no subscription left) |
| `Accounts.LinksWorkForSoLong` | crates/api/src/routes/accounts.rs:325-924 | a confirmation link works for a day, a reset or address-change link for an hour |
| `Accounts.LinksAreSentSparingly` | crates/api/src/routes/accounts.rs:366-602 | a new reset or confirmation link is drawn iff the address has a row that needs one and had none in the last two minutes |
| `Accounts.SignupLinkWorks` | crates/api/src/routes/accounts.rs:184-267 | a sign-up's link confirms the new row |
| `Accounts.ResentLinkWorks` | crates/api/src/routes/accounts.rs:366-426 | a resent link confirms the row of its address |
| `Accounts.ChangeLinkWorks` | crates/api/src/routes/accounts.rs:793-875 | an address-change link is for the address asked for |
| `Accounts.ConfirmsOnce` | crates/api/src/routes/accounts.rs:325-364 | a confirmation link confirms, signs in, welcomes, and is used up |
| `Accounts.MovesOnce` | crates/api/src/routes/accounts.rs:877-924 | an address-change link moves the row to the pending address, ends its sessions, and is used up |
| `Accounts.ConfirmedOnlyThroughALink` | crates/api/src/routes/accounts.rs:184-924 | no step but a redeemed link makes an account confirmed, and none is signed up confirmed |
| `Accounts.ErasureClears` | crates/api/src/routes/accounts.rs:1000-1017 | what erasure leaves in the row |
| `Accounts.RevokedSessionsStayOut` | crates/api/src/auth.rs:188-203 | a session issued before a reset, password change, confirmed address change or deletion of its account never authenticates in any later state |
| `Accounts.SessionLastsUntilRevoked` | crates/api/src/auth.rs:138-140 | and no other step ends a session: it authenticates until it expires |
| `Accounts.SpentStays` | crates/api/src/routes/accounts.rs:604-666 | a reset token no row holds never works again |
| `Accounts.ResetLinkLifetime` | crates/api/src/routes/accounts.rs:555-645 | over every run after its issue a reset link works iff it is under an hour old and nobody redeemed it, asked for a newer one, or changed the password |
| `Accounts.WelcomedAtMostOnce` | crates/api/src/routes/accounts.rs:334-355 | at most one welcome is sent per account before its deletion |
| `Accounts.QuietIsGone` | crates/api/src/routes/accounts.rs:1000-1017 | an erased row without an outstanding link keeps its placeholder address and signs nobody in, over every run |
| `Accounts.ErasureIsFinalIffNoLinkOutstanding` | crates/api/src/routes/accounts.rs:1000-1017 | the statement leaves the row's links: the account stays gone in every later state iff none of them is under an hour old (and the version can still grow), given that the pending address is free |
| `AccountStore.Service.constructor` | crates/api/src/routes/accounts.rs:184-267 | the service starts without accounts, in a state that keeps the invariant of the runs |
| `AccountStore.Service.Signup` | crates/api/src/routes/accounts.rs:184-267 | the handler leaves the service as the sign-up step says; a taken address changes nothing |
| `AccountStore.Service.VerifyEmail` | crates/api/src/routes/accounts.rs:325-364 | a live confirmation token is cleared, confirms once, welcomes and signs in |
| `AccountStore.Service.ResendVerification` | crates/api/src/routes/accounts.rs:366-426 | a fresh token replaces the old one unless confirmed or inside the cooldown |
| `AccountStore.Service.Login` | crates/api/src/routes/accounts.rs:428-492 | a session is given iff some row has that address and exactly that password and is confirmed; an unconfirmed account is named only to who has its password, everything else is one refusal |
| `AccountStore.Service.ForgotPassword` | crates/api/src/routes/accounts.rs:523-590 | a fresh reset link replaces the old one unless inside the cooldown |
| `AccountStore.Service.ResetPassword` | crates/api/src/routes/accounts.rs:604-666 | a live link sets the password, clears itself and ends all sessions |
| `AccountStore.Service.ChangePassword` | crates/api/src/routes/accounts.rs:691-763 | a change under a live session and the right password ends all older sessions and issues one |
| `AccountStore.Service.ChangeEmail` | crates/api/src/routes/accounts.rs:793-864 | a pending address and link are recorded; the address stays |
| `AccountStore.Service.ConfirmEmailChange` | crates/api/src/routes/accounts.rs:877-924 | a live link moves the address if it is still free and ends all older sessions |
| `AccountStore.Service.DeleteAccount` | crates/api/src/routes/accounts.rs:948-1030 | the row is anonymised and all its sessions end |
| `TrialReminder.Entitlements.constructor` | crates/orchestrator/src/trial_reminder.rs:31-51 | the rows start as given |
| `TrialReminder.Entitlements.SendDue` | crates/orchestrator/src/trial_reminder.rs:28-83 | with nobody else at the table, exactly the due rows are handed to the mailer, and a row ends marked iff it was marked already or its message was taken |
| `TrialReminder.MayHoldIsInTheReplies` | crates/orchestrator/src/mail_relay.rs:306-313 | a failed send may be held by a provider iff one of its requests was answered by a 409, a 5xx, a timeout or a network error, told from the replies |
| `TrialReminder.StepGood` | crates/orchestrator/src/trial_reminder.rs:31-77 | every step of every worker that does not mark a held row again keeps one place per reminder (in flight, delivered or held) and the mark of the date that stands |
| `TrialReminder.MarksExactlyTheDue` | crates/orchestrator/src/trial_reminder.rs:31-51 | a pass marks exactly the eligible accounts whose trial ends in more than an hour and at most a day and that are not marked for that date |
| `TrialReminder.HeldAreTheUnclear` | crates/orchestrator/src/trial_reminder.rs:68-77 | what a provider may hold is exactly what the failed sends of the run that were not plainly rejected left there |
| `TrialReminder.UnmarkedIffNeverRemarks` | crates/orchestrator/src/trial_reminder.rs:31-51 | no step marks a held row again iff no mark cleared by an unclear send is set again later in the run |
| `TrialReminder.OneReminderPerEnd` | crates/orchestrator/src/trial_reminder.rs:28-77 | over every interleaving of workers, failures and crashes, if end dates never return: at every moment each account and end date has at most one reminder in flight, delivered or held iff no mark cleared by an unclear send is set again |
| `TrialReminder.UnclearSendIsRepeated` | crates/orchestrator/src/trial_reminder.rs:31-77 | and the next pass does set it again while the date stands and the window is open, so the message goes out a second time |
| `TrialReminder.TwoReminders` | crates/orchestrator/src/trial_reminder.rs:28-77 | a run that ends with one reminder delivered and the same one held after a 409 |
| `TrialReminder.FailedReminderIsDueAgain` | crates/orchestrator/src/trial_reminder.rs:68-77 | a failed reminder is due again while its date stands and the window is open |
| `TrialReminder.FailClearsOnlyItsOwn` | crates/orchestrator/src/trial_reminder.rs:68-77 | a failed send clears at most the mark of its own end date, for which no other reminder is in flight, delivered or held |
| `TrialReminder.ReturningEndIsRemindedAgain` | crates/orchestrator/src/trial_reminder.rs:42 | the assumption is needed: an end date that returns is reminded of twice |
| `MailRelay.Turn` | crates/orchestrator/src/mail_relay.rs:341-345 | a turn is one request, and a second one iff the provider is Resend and the first answer was ambiguous |
| `MailRelay.TakenEndsTheChain` | crates/orchestrator/src/mail_relay.rs:347-358 | every request but the last of a chain has an outcome the chain goes on from |
| `MailRelay.GoesOnAfter` | crates/orchestrator/src/mail_relay.rs:347-358 | every request but the last got no answer, a 5xx, a refused 2xx or another answer that is no 409 |
| `MailRelay.AskedAgainWhenUnclear` | crates/orchestrator/src/mail_relay.rs:341-345 | a turn has a second request iff it is Resend's and the first got no answer or a 5xx |
| `MailRelay.OutcomeOfTheLast` | crates/orchestrator/src/mail_relay.rs:347-358 | the last request decides, by the reply it got |
| `MailRelay.RepliesAreReadSo` | crates/orchestrator/src/mail_relay.rs:298-313 | a reply means sent iff it is a 2xx not refused in its body by SMTP2GO or Mailjet, in flight iff a 409, unclear iff a 5xx or none, refused otherwise |
| `MailRelay.RequestsAreJudged` | crates/orchestrator/src/mail_relay.rs:306-313 | each request's outcome is read off the reply to that request |
| `MailRelay.ProvidersInOrder` | crates/orchestrator/src/mail_relay.rs:336-340 | the k-th turn goes to the k-th usable provider: none is skipped, none repeated |
| `MailRelay.NobodyIsLeftOut` | crates/orchestrator/src/mail_relay.rs:336-358 | unless a request is taken, every usable provider is contacted |
| `MailRelay.RequestBound` | crates/orchestrator/src/mail_relay.rs:336-345 | a chain makes at most as many requests as it has usable providers plus turns of Resend |
| `MailRelay.WhoMaySend` | crates/orchestrator/src/mail_relay.rs:195-208 | a provider is in the chain iff it is in the order (or the default one), known, has its key and may send for the sender's domain |
| `MailSenders.FirstEntryCounts` | crates/orchestrator/src/mail_relay.rs:195-202 | the first entry of a provider is its list of domains |
| `MailSenders.SenderDomainDecides` | crates/orchestrator/src/mail_relay.rs:98-103 | whichever way the sender is written, what follows its last @ decides, letter case aside |
| `MailRelay.SendAlong` | crates/orchestrator/src/mail_relay.rs:335-363 | the loop with its list of tried providers takes exactly the turns of the specification and reports the outcome of the last one |
| `MailRelay.Send` | crates/orchestrator/src/mail_relay.rs:317-364 | nothing leaves iff the sink is on; not configured iff no provider is usable; sent iff the last reply is an unrefused 2xx, in flight iff it is a 409; undelivered after every usable provider was asked |
| `Hex.DecodesExactlyItsEncoding` | crates/api/src/billing.rs:482-490 | a text decodes to given bytes iff, case folded and with a plus sign before a digit read as zero, it is their lower-case encoding |
| `Hex.DecodeUndoesEncode` | crates/api/src/billing.rs:482-490 | decoding inverts lower-case hex encoding |
| `Hex.ConstantTimeEq` | crates/api/src/billing.rs:492-498 | the OR of XORs is zero iff one byte string is a prefix of the other, which on equal lengths is equality |
| `Numbers.DigitsReadBack` | crates/api/src/billing.rs:461 | a printed number reads back as itself |
| `Signature.DecimalReadsBack` | crates/api/src/billing.rs:443 | every 64-bit integer parses back from its decimal text |
| `Signature.RecentIffNearOrOverflow` | crates/api/src/billing.rs:454 | with wrap-around, the window check holds iff the timestamp is within 300 s or the subtraction leaves the 64-bit range and lands back in the window; for non-negative times it is the plain test |
| `Signature.FarTimestampPasses` | crates/api/src/billing.rs:454 | a timestamp far outside the window that passes the check on overflow |
| `HeaderFields.FieldsAreCut` | crates/api/src/billing.rs:437-440 | white space around a field is dropped and its first = ends the key |
| `HeaderFields.NoEqualsNoField` | crates/api/src/billing.rs:438-440 | a part without = is no field |
| `HeaderFields.NumbersAreRead` | crates/api/src/billing.rs:443 | a timestamp is read exactly from digits, with or without a sign, whose value fits in 64 bits |
| `Signature.LastTimestampDecides` | crates/api/src/billing.rs:437-443 | the last t field decides the timestamp, and one that does not parse leaves none |
| `Signature.TimestampNeedsAField` | crates/api/src/billing.rs:437-443 | there is no timestamp without a t field |
| `Signature.SignaturesMeaning` | crates/api/src/billing.rs:444-446 | the candidates are exactly the values of the v1 fields |
| `Signature.ReadHeader` | crates/api/src/billing.rs:434-449 | the loop over the header's parts computes that timestamp and those candidates |
| `Signature.VerifySignature` | crates/api/src/billing.rs:428-480 | a header is accepted iff its last t parses, is recent, and some v1 decodes to the MAC of 't.payload'; malformed and stale are told apart exactly |
| `Signature.SignedHeaderIsGenuine` | crates/api/src/billing.rs:428-480 | a header signed now, with any other fields along, splits into its parts and is genuine for every payload and MAC |
| `Html.EscapeText` | crates/report/src/html.rs:41-54 | the loop over characters computes the escape |
| `Html.EscapedIsInert` | crates/report/src/html.rs:41-54 | escaped text holds no angle bracket and no quote |
| `Html.UnescapeUndoesEscape` | crates/report/src/html.rs:37-54 | escaping has a left inverse: resolving character references gives the text back |
| `Html.ReadWritten` | crates/report/src/html.rs:197-200 | an attribute is read back with its value, whatever the value is |
| `Html.ReadTag` | crates/report/src/html.rs:104-160 | a written tag is read back as itself |
| `Css.IdentityReadsBack` | crates/report/src/html.rs:120-132 | the CSS identity reads back as written under section 4.3.7 of CSS Syntax Module Level 3, except that NUL becomes the replacement character |
| `Css.IdentityIsKept` | crates/report/src/html.rs:126-131 | so it is unchanged iff it holds no NUL |
| `Css.IdentityStaysInside` | crates/report/src/html.rs:118-131 | it holds only hex digits, backslashes and spaces, so nothing in it ends the string or the style element |
| `Page.PageReadsBack` | crates/report/src/html.rs:9-16 | reading a printed page gives back exactly its tags, and exactly its text between them |
| `Page.OutlineIgnoresTexts` | crates/report/src/html.rs:9-16 | the tags of a page do not depend on the texts that fill it, but for the logo's address and alternative text |
| `Page.IdTextsDiffer` | crates/report/src/html.rs:284-299 | different places of the page have different ids |
| `Page.TargetsInMarkup` | crates/report/src/html.rs:263-299 | the ids in the markup are exactly the places the page was built with |
| `Page.LinksInMarkup` | crates/report/src/html.rs:237-261 | every link in the markup is one the page was built with |
| `ReportFacts.MarkupIgnoresTexts` | crates/report/src/html.rs:104-160 | two reports of one shape have the same tag and id sequence whatever names, titles, evidence and guidance say |
| `ReportFacts.NavLeads` | crates/report/src/html.rs:238-245 | the navigation links to actions and scope, and to decisions and reference only when they are there |
| `ReportFacts.PlanLeads` | crates/report/src/html.rs:246-260 | the plan links to the first three actions, and to the list of them all iff there are more |
| `ReportFacts.SectionPlaces` | crates/report/src/html.rs:263-296 | a section of findings has its heading's id and one numbered id per row; the actions' heading is there even when empty |
| `ReportFacts.IdsAreThePlaces` | crates/report/src/html.rs:134-155 | the ids of a rendered report are exactly its places, each once |
| `ReportFacts.EveryLinkHasOneTarget` | crates/report/src/html.rs:237-261 | every in-page link of a rendered report leads to exactly one element |
| `ReportTexts.FindingTexts` | crates/report/src/html.rs:298-333 | a finding shows what it is called, its number, its priority and its row's title, its count iff seen more than once, its guidance or that there is none, and its evidence iff it has any, in that order and nothing else but constant wording |
| `ReportTexts.SectionShowsItsRows` | crates/report/src/html.rs:263-296 | a section shows its heading, which an empty list of actions keeps, and each of its rows once, in order, and nothing else but constant wording |
| `ReportTexts.InventoryTexts` | crates/report/src/html.rs:355-357 | the appendix shows the titles of its rows, each once, in order |
| `ReportTexts.ReportShowsExactlyThis` | crates/report/src/html.rs:104-405 | everything a report shows besides constant wording, from top to bottom: the client's names and date, headline and counts, the first three actions, each row's own number, priority, title, count, explanation and evidence, and the appendix titles |
| `ReportFacts.PillsAreMarkedSo` | crates/report/src/html.rs:74-92 | the mark beside a priority is that priority's own |
| `ReportFacts.LogoAndIdentityAreThisReports` | crates/report/src/html.rs:104-205 | a logo that is shown carries the agency's name, and the running identity is this report's names and date |
| `ReportFacts.LogoComesFromSafePlaces` | crates/report/src/html.rs:61-72 | a logo is shown iff its address starts with https or is inline image data of one of four kinds |
| `ReportRender.RenderPlanItems` | crates/report/src/html.rs:251-253 | the loop appends one item per listed action, at most three |
| `ReportRender.RenderFindings` | crates/report/src/html.rs:291-293 | the loop appends one numbered article per row |
| `ReportRender.RenderInventoryItems` | crates/report/src/html.rs:355-357 | the loop appends one line per row |
| `Palette.Gaps` | web/src/palette.ts:59-69 | the loop finds the greedy hits iff there are any and adds up the slack between them |
| `Palette.Score` | web/src/palette.ts:46-72 | the method computes the score |
| `Palette.GreedyIsLeftmost` | web/src/palette.ts:63-69 | greedy search is complete, and its hits are no later than any embedding's |
| `Palette.ScoresIffSubsequence` | web/src/palette.ts:46-72 | a text scores iff the trimmed lower-case query is a subsequence of it |
| `Palette.ScatteredScore` | web/src/palette.ts:59-71 | a hit that is not a substring scores 500 less the slack of the leftmost embedding, and that slack is never zero |
| `Palette.PrefixOutranksAll` | web/src/palette.ts:52-57 | a text scores 1000 iff it starts with the query, and every other match scores less than 800 |
| `Palette.EarlierRanksHigher` | web/src/palette.ts:52-57 | of two texts that contain the query the one with it earlier ranks higher |
| `Palette.ContainedOutranksScattered` | web/src/palette.ts:52-71 | a text with the query from position d on outranks a scattered match iff d is below 300 plus the slack of that match's leftmost embedding |
| `Palette.OutranksAllUpTo300` | web/src/palette.ts:52-71 | it outranks every scattered match iff d is at most 300 |
| `Palette.LateSubstringDoesNot` | web/src/palette.ts:52-57 | from 301 on, whatever the text, a match on ac ranks no higher than the scattered one in abc |
| `Palette.RankIsTheRanking` | web/src/palette.ts:74-85 | the ranking lists precisely the matching commands, best score first, ties as listed |
| `Palette.RankingIsUnique` | web/src/palette.ts:74-85 | and no other list of entries does |
| `Palette.FoundByAnyText` | web/src/palette.ts:79-80 | a command is listed if the query is a subsequence of its title, its detail or its keywords |
| `Palette.BlankQueryListsAll` | web/src/palette.ts:74-75 | a blank query, and only a blank one, is scored with an empty needle, and returns the commands as they are |

## Left out

- Network, DNS, TLS, the scanner process and SQL execution: their results are inputs of steps (`published`, `accounts`, `locked`, `access`, reply scripts).
- Cryptography and randomness: passwords and tokens stand for their hashes and tokens are drawn fresh; the MAC is an arbitrary function; a session is genuine iff it was issued.
- Races between a read and a later write inside one API handler: check and write are one step. Claiming, sweeping, ending, renewing and reminding interleave freely.
- Ties between proof rows verified at the same instant, which the query leaves open: the later row is taken.
- The clock inside one tick or one renewal pass: it is read once.
- Which sites were used in another trial, and which plan an account has: inputs of the step.
- The storing of findings, which is not transactional with completion, and the emails a comparison sends.
- In the reminder protocol a worker stands for one pass of the sending loop. Reminders are counted as sends: a chain that goes on after an ambiguous answer may leave copies of one send with two providers.
- ErasureIsFinalIffNoLinkOutstanding: does not cover a pending address that another row holds at the moment of erasure, which that row may give up within the hour. Without outstanding links erasure is final in any case (`Accounts.QuietIsGone`).
- What the erased fields of a person's profile held.
- Requests refused by the rate limiter, the cross-site check or validation of names, dates and passwords: they are no step.
- Fetching published tokens and comparing them: the input `published` of a renewal pass.
- The parse of a host as an IPv6 address, which cannot succeed once the port is cut; non-ASCII case and white space.
- Writing to the mail sink, which can fail; the provider's message bodies and headers.
- In the report: the document type line, line breaks between tags, the wording and the style sheet (any text without '<'), the wording of guidance, the formatting of the date. Straight-line appends to the buffer are one tree; only the loops over rows are methods.
- The tokenizer that reads reports back reads what the renderer writes (double-quoted attributes, no comments), not all of HTML.
- Signature headers are ASCII, as HTTP header text is; the hash itself is arbitrary.
- The algorithm of the engine's sort; its stability is what is modelled.
- Price, date and plan tables, address guards, dashboard code and landing scripts: they would only add easy members.
