/**
 The scheduler's loop as it runs: it sleeps a whole tick after its work, so its starts are a tick and
 the time of that work apart, and drift through the hour.
 */
module SleepingLoop {
  import opened Clock
  import opened Verification
  import opened Renewal
  import opened ScanRuns
  import opened ScanSchedule

  /** An iteration may work for up to `work`. */
  function PaceOf(work: int): Pace {
    Pace(TICK, TICK + work)
  }

  // ------------------------------------------------------------------ missed hours

  /** The `j`-th start of an hour whose first start came less than `lag` after the hour's first tick. */
  predicate LateBy(now: Time, j: nat, lag: int, work: int) {
    0 <= now - HourStart(now) - j * TICK < (j - 1) * work + lag
  }

  lemma FirstMissIsBarelyLate(previous: Time, next: Time, work: int)
    requires 0 <= 11 * work < TICK && KeepsPace(previous, next, PaceOf(work))
    requires HourStart(previous) != HourStart(next) && !AttemptDue(next, TICK)
    ensures HourStart(next) == HourStart(previous) + HOUR && LateBy(next, 1, work, work)
  {
    AttemptIsHourly(next);
    NextHour(previous, next);
  }

  lemma NextHour(previous: Time, next: Time)
    requires previous <= next < previous + HOUR && HourStart(previous) != HourStart(next)
    ensures HourStart(next) == HourStart(previous) + HOUR
    ensures previous < HourStart(next) <= next
  {
    var a, b := previous / HOUR, next / HOUR;
    assert HourStart(previous) == a * HOUR && HourStart(next) == b * HOUR;
    assert a < b <= a + 1;
  }

  lemma SameHour(previous: Time, next: Time)
    requires HourStart(previous) <= next < HourStart(previous) + HOUR
    ensures HourStart(next) == HourStart(previous)
  {
    var a, b := previous / HOUR, next / HOUR;
    assert HourStart(previous) == a * HOUR && HourStart(next) == b * HOUR;
    assert a == b;
  }

  /**
   The starts that follow stay in their places. The twelfth falls in the next hour, in its first tick
   or, if it misses that as well, with less of a lag than the hour before.
   */
  lemma LateStartsFollow(previous: Time, next: Time, j: nat, lag: int, work: int)
    requires 0 <= 11 * work < TICK && lag <= work && KeepsPace(previous, next, PaceOf(work))
    requires 1 <= j <= 11 && LateBy(previous, j, lag, work)
    ensures j <= 10 ==> HourStart(next) == HourStart(previous) && LateBy(next, j + 1, lag, work)
    ensures j == 11 ==> HourStart(next) == HourStart(previous) + HOUR
    ensures j == 11 ==> AttemptDue(next, TICK) || LateBy(next, 1, lag + 11 * work - TICK, work)
  {
    var base := HourStart(previous);
    OneStartLater(previous - base, next - previous, j, lag, work);
    if j <= 10 {
      PlacesFitTheHour(j, work);
      SameHour(previous, next);
    } else {
      AfterTheLastPlace(previous, next, lag, work);
    }
  }

  lemma OneStartLater(rest: int, gap: int, j: nat, lag: int, work: int)
    requires 0 <= rest - j * TICK < (j - 1) * work + lag && TICK <= gap <= TICK + work
    ensures 0 <= rest + gap - (j + 1) * TICK < j * work + lag
  {
    assert (j + 1) * TICK == j * TICK + TICK && j * work == (j - 1) * work + work;
  }

  lemma PlacesFitTheHour(j: nat, work: int)
    requires 0 <= 11 * work < TICK && j <= 10
    ensures (j + 1) * TICK + j * work + work < HOUR
  {
    assert j * work <= 10 * work;
  }

  lemma AfterTheLastPlace(previous: Time, next: Time, lag: int, work: int)
    requires 0 <= 11 * work < TICK && lag <= work && 0 <= next - HourStart(previous) - HOUR < 11 * work + lag
    ensures HourStart(next) == HourStart(previous) + HOUR
    ensures AttemptDue(next, TICK) || LateBy(next, 1, lag + 11 * work - TICK, work)
  {
    var following := HourStart(previous) + HOUR;
    assert following == (previous / HOUR + 1) * HOUR;
    assert HourStart(following) == following;
    SameHour(following, next);
    AttemptIsHourly(next);
  }

  ghost predicate Sleeping(starts: seq<Time>, work: int) {
    forall k | 0 <= k < |starts| - 1 :: KeepsPace(starts[k], starts[k + 1], PaceOf(work))
  }

  /** The first start of its hour, and already past the hour's first tick: the hour passes without an attempt. */
  predicate Missed(starts: seq<Time>, k: nat) {
    0 < k < |starts| && HourStart(starts[k - 1]) != HourStart(starts[k]) && !AttemptDue(starts[k], TICK)
  }

  lemma {:induction false} PlacesAfterMiss(starts: seq<Time>, i: nat, k: nat, work: int)
    requires 0 <= 12 * work <= TICK && Sleeping(starts, work) && Missed(starts, i) && i <= k < |starts| && k <= i + 10
    ensures HourStart(starts[k]) == HourStart(starts[i]) && LateBy(starts[k], k - i + 1, work, work)
    decreases k
  {
    assert KeepsPace(starts[k - 1], starts[k - 1 + 1], PaceOf(work));
    if i == k {
      FirstMissIsBarelyLate(starts[k - 1], starts[k], work);
    } else {
      PlacesAfterMiss(starts, i, k - 1, work);
      LateStartsFollow(starts[k - 1], starts[k], k - i, work, work);
    }
  }

  lemma {:induction false} HoursPass(starts: seq<Time>, i: nat, j: nat, work: int)
    requires Sleeping(starts, work) && i <= j < |starts|
    ensures HourStart(starts[i]) <= HourStart(starts[j])
    decreases j
  {
    if i < j {
      HoursPass(starts, i, j - 1, work);
      assert KeepsPace(starts[j - 1], starts[j - 1 + 1], PaceOf(work));
      HourOrder(starts[j - 1], starts[j]);
    }
  }

  lemma HourOrder(a: Time, b: Time)
    requires a <= b
    ensures HourStart(a) <= HourStart(b)
    ensures HourStart(a) != HourStart(b) ==> HourStart(a) + HOUR <= HourStart(b)
  {
    assert HourStart(a) == a / HOUR * HOUR && HourStart(b) == b / HOUR * HOUR;
    assert a / HOUR <= b / HOUR;
  }

  lemma {:induction false} MissesAreApart(starts: seq<Time>, i: nat, j: nat, work: int)
    requires 0 <= 12 * work <= TICK && Sleeping(starts, work) && Missed(starts, i) && Missed(starts, j) && i < j
    ensures HourStart(starts[i]) + 2 * HOUR <= HourStart(starts[j])
  {
    assert KeepsPace(starts[j - 1], starts[j - 1 + 1], PaceOf(work));
    HourOrder(starts[j - 1], starts[j]);
    if j <= i + 10 {
      PlacesAfterMiss(starts, i, j - 1, work);
      PlacesAfterMiss(starts, i, j, work);
    } else {
      PlacesAfterMiss(starts, i, i + 10, work);
      assert KeepsPace(starts[i + 10], starts[i + 10 + 1], PaceOf(work));
      LateStartsFollow(starts[i + 10], starts[i + 11], 11, work, work);
      if j > i + 11 { HoursPass(starts, i + 11, j - 1, work); }
    }
  }

  /** No two hours in a row pass without an attempt. */
  ghost predicate AttemptsEveryOtherHour(work: int) {
    forall starts: seq<Time>, i: nat, j: nat | Sleeping(starts, work) && i < j && Missed(starts, i) && Missed(starts, j) ::
      HourStart(starts[i]) + 2 * HOUR <= HourStart(starts[j])
  }

  /** Thirteen starts with a twelfth of a tick and a microsecond of work between them, from the end of an hour on. */
  function Thirteen(): (starts: seq<Time>)
    ensures |starts| == 13 && forall k | 0 <= k < 13 :: starts[k] == k * (TICK + TICK / 12 + 1) - 1
  {
    seq(13, k requires 0 <= k < 13 => k * (TICK + TICK / 12 + 1) - 1)
  }

  lemma {:induction false} ThirteenMissesTwice()
    ensures var starts := Thirteen();
      Missed(starts, 1) && Missed(starts, 12) && HourStart(starts[12]) == HourStart(starts[1]) + HOUR
  {
    var starts := Thirteen();
    AttemptIsHourly(starts[1]);
    AttemptIsHourly(starts[12]);
    assert HourStart(starts[0]) == -HOUR && HourStart(starts[1]) == 0 && HourStart(starts[11]) == 0 && HourStart(starts[12]) == HOUR;
  }

  /** An iteration's work may take a twelfth of a tick, and not a microsecond more. */
  lemma {:induction false} EveryOtherHourIffShortWork(work: nat)
    ensures AttemptsEveryOtherHour(work) <==> 12 * work <= TICK
  {
    if 12 * work <= TICK {
      forall starts: seq<Time>, i: nat, j: nat | Sleeping(starts, work) && i < j && Missed(starts, i) && Missed(starts, j)
        ensures HourStart(starts[i]) + 2 * HOUR <= HourStart(starts[j])
      {
        MissesAreApart(starts, i, j, work);
      }
    } else {
      var starts := Thirteen();
      assert Sleeping(starts, work);
      ThirteenMissesTwice();
    }
  }

  // ------------------------------------------------------------------ the proof outlives the missed hours

  /** How much of its lag each missed hour in a row costs. */
  function Recovery(work: int): int {
    TICK - 11 * work
  }

  /** What the first start of the `m`-th hour missed in a row can lag at most. */
  function MostLag(m: nat, work: int): int {
    work - (m - 1) * Recovery(work)
  }

  /** This hour was missed, as the `m`-th in a row. */
  predicate Late(now: Time, m: nat, work: int) {
    exists j | 1 <= j <= 11 :: LateBy(now, j, MostLag(m, work), work)
  }

  /** After `m` hours missed in a row enough is left for the others of the seventy there can be, and one more. */
  predicate OutlastsAfter(expiresAt: Time, loopStart: Time, m: nat, work: int) {
    m <= 70 && (m > 0 ==> Late(loopStart, m, work)) && expiresAt >= HourStart(loopStart) + (71 - m) * HOUR + TICK
  }

  predicate Outlasts(expiresAt: Time, loopStart: Time, work: int) {
    exists m | 0 <= m <= 70 :: OutlastsAfter(expiresAt, loopStart, m, work)
  }

  /** With this little work no seventy-first hour in a row is missed. */
  predicate ShortEnough(work: int) {
    0 <= 771 * work <= 70 * TICK
  }

  lemma ShortWorkRecovers(work: int)
    requires ShortEnough(work)
    ensures 0 <= 11 * work < TICK && work <= 70 * Recovery(work)
  {
  }

  lemma LagShrinks(m: nat, work: int)
    requires 1 <= m <= 70 && ShortEnough(work)
    ensures MostLag(m, work) + 11 * work - TICK == MostLag(m + 1, work)
    ensures MostLag(m, work) <= work
    ensures m == 70 ==> MostLag(m + 1, work) <= 0
  {
    assert m * Recovery(work) == (m - 1) * Recovery(work) + Recovery(work);
  }

  lemma LateStays(previous: Time, next: Time, m: nat, work: int)
    requires ShortEnough(work) && KeepsPace(previous, next, PaceOf(work)) && 1 <= m <= 70 && Late(previous, m, work)
    ensures HourStart(next) == HourStart(previous) ==> Late(next, m, work)
    ensures HourStart(next) != HourStart(previous) ==> HourStart(next) == HourStart(previous) + HOUR
    ensures HourStart(next) != HourStart(previous) ==> AttemptDue(next, TICK) || (m < 70 && Late(next, m + 1, work))
  {
    var lag := MostLag(m, work);
    var j :| 1 <= j <= 11 && LateBy(previous, j, lag, work);
    ShortWorkRecovers(work);
    LagShrinks(m, work);
    LateStartsFollow(previous, next, j, lag, work);
    if j <= 10 {
      assert LateBy(next, j + 1, lag, work);
    } else if !AttemptDue(next, TICK) {
      assert LateBy(next, 1, MostLag(m + 1, work), work);
      assert Late(next, m + 1, work);
    }
  }

  lemma AttemptRefills(expiresAt: Time, next: Time, work: int)
    requires AttemptDue(next, TICK) && next < expiresAt
    ensures OutlastsAfter(ExpiryAfterPass(expiresAt, next), next, 0, work)
  {
  }

  lemma ExpiryOnlyGrows(expiresAt: Time, next: Time)
    ensures ExpiryAfterPass(expiresAt, next) >= expiresAt
  {
  }

  /** The iteration after a start of the seventieth missed hour ends in the first tick of the next. */
  lemma SeventiethMissEnds(loopStart: Time, work: int)
    requires ShortEnough(work) && Late(loopStart, 70, work)
    ensures loopStart + TICK + work < HourStart(loopStart) + HOUR + TICK
  {
    var lag := MostLag(70, work);
    var j :| 1 <= j <= 11 && LateBy(loopStart, j, lag, work);
    ShortWorkRecovers(work);
    LagShrinks(70, work);
    LastPlace(loopStart - HourStart(loopStart), j, lag, work);
  }

  lemma LastPlace(rest: int, j: nat, lag: int, work: int)
    requires 1 <= j <= 11 && 0 <= work && rest - j * TICK < (j - 1) * work + lag
    ensures rest < 11 * TICK + 10 * work + lag
  {
    assert (j - 1) * work + (11 - j) * work == 10 * work;
  }

  /** Until the next loop start, however long the iteration works and sleeps. */
  lemma AliveUntilNextStart(expiresAt: Time, loopStart: Time, now: Time, m: nat, work: int)
    requires ShortEnough(work) && OutlastsAfter(expiresAt, loopStart, m, work) && now <= loopStart + TICK + work
    ensures now < expiresAt
  {
    ShortWorkRecovers(work);
    if m == 70 {
      SeventiethMissEnds(loopStart, work);
    } else {
      assert (71 - m) * HOUR >= 2 * HOUR;
      InItsHour(loopStart);
    }
  }

  lemma InItsHour(now: Time)
    ensures HourStart(now) <= now < HourStart(now) + HOUR
  {
  }

  lemma SleepingPassKeepsProofAlive(expiresAt: Time, previous: Time, next: Time, m: nat, work: int)
    requires ShortEnough(work) && KeepsPace(previous, next, PaceOf(work)) && OutlastsAfter(expiresAt, previous, m, work)
    ensures Outlasts(ExpiryAfterPass(expiresAt, next), next, work)
  {
    ExpiryOnlyGrows(expiresAt, next);
    AliveUntilNextStart(expiresAt, previous, next, m, work);
    if m > 0 { LateStays(previous, next, m, work); }
    if HourStart(next) == HourStart(previous) {
      assert OutlastsAfter(ExpiryAfterPass(expiresAt, next), next, m, work);
    } else if AttemptDue(next, TICK) {
      AttemptRefills(expiresAt, next, work);
    } else {
      ShortWorkRecovers(work);
      if m == 0 {
        FirstMissIsBarelyLate(previous, next, work);
        assert LateBy(next, 1, MostLag(1, work), work);
      }
      assert (71 - m) * HOUR == (71 - (m + 1)) * HOUR + HOUR;
      assert OutlastsAfter(ExpiryAfterPass(expiresAt, next), next, m + 1, work);
    }
  }

  ghost predicate Awake(w: World, target: nat, work: int) {
    && Scheduled(w, target) && Outlasts(Expiry(w, target), w.loopStart, work)
    && w.loopStart <= w.now <= w.loopStart + TICK + work
  }

  lemma {:induction false} StepAwake(w: World, step: Step, target: nat, work: int)
    requires ShortEnough(work)
    requires Audited(w.db, w.now) && Awake(w, target, work) && Renewing(w, step, target, PaceOf(work))
    ensures Awake(Apply(w, step), target, work)
  {
    StepExpiry(w, step, target);
    var m :| 0 <= m <= 70 && OutlastsAfter(Expiry(w, target), w.loopStart, m, work);
    if step.StartLoop? {
      SleepingPassKeepsProofAlive(Expiry(w, target), w.loopStart, w.now, m, work);
    } else {
      assert OutlastsAfter(Expiry(Apply(w, step), target), w.loopStart, m, work);
    }
  }

  lemma {:induction false} StaysAwake(w: World, steps: seq<Step>, target: nat, work: int)
    requires ShortEnough(work) && Audited(w.db, w.now) && Awake(w, target, work)
    requires Throughout(w, steps, (v, step) => Renewing(v, step, target, PaceOf(work)))
    ensures Awake(Run(w, steps), target, work)
  {
    if |steps| > 0 {
      var most := steps[..|steps| - 1];
      StaysAwake(w, most, target, work);
      EveryJobIsTraceable(w, most);
      StepAwake(Run(w, most), steps[|steps| - 1], target, work);
    }
  }

  /** A target on a schedule whose proof was completed or renewed since the last loop start. */
  ghost predicate JustProved(w: World, target: nat, work: int) {
    && Scheduled(w, target) && Expiry(w, target) >= ExpiryFrom(w.loopStart)
    && w.loopStart <= w.now <= w.loopStart + TICK + work
  }

  /**
   The loop that sleeps after its work keeps a published proof alive at every moment while its
   iterations are short enough, although it may miss hours in a row.
   */
  lemma {:induction false} ShortWorkNeverLapses(w: World, steps: seq<Step>, target: nat, work: int)
    requires ShortEnough(work) && Audited(w.db, w.now) && JustProved(w, target, work)
    requires Throughout(w, steps, (v, step) => Renewing(v, step, target, PaceOf(work)))
    ensures ProofCurrent(Run(w, steps).db.proofs, target, Run(w, steps).now)
  {
    assert OutlastsAfter(Expiry(w, target), w.loopStart, 0, work);
    StaysAwake(w, steps, target, work);
    EveryJobIsTraceable(w, steps);
    var end := Run(w, steps);
    var m :| 0 <= m <= 70 && OutlastsAfter(Expiry(end, target), end.loopStart, m, work);
    AliveUntilNextStart(Expiry(end, target), end.loopStart, end.now, m, work);
  }

  // ------------------------------------------------------------------ a microsecond more

  /** The least work that is not short enough, and the loop's spacing with it. */
  const LONG_WORK: int := 70 * TICK / 771 + 1
  const LONG_GAP: int := TICK + LONG_WORK

  /** How far into an hour's first tick the last start falls that is in time, and how far the proof lapses. */
  const LAST_IN_TIME: int := TICK - 11 * LONG_WORK - 1
  const LAPSE: int := 290 * SECOND

  /** The lag of the `m`-th missed hour. */
  function Lag(m: nat): int {
    LONG_WORK - 1 - (m - 1) * Recovery(LONG_WORK)
  }

  lemma LagsAreLeft(m: nat)
    requires 1 <= m <= 71
    ensures 0 <= Lag(m) < LONG_WORK
    ensures m >= 47 ==> Lag(m) <= Lag(47)
  {
  }

  /** The `i`-th start after the last one that is in time: eleven to the hour, the first of each hour a little too late. */
  lemma PlaceOfStart(i: nat)
    requires 1 <= i
    ensures i < 12 ==> TICK <= LAST_IN_TIME + i * LONG_GAP < HOUR
    ensures i >= 12 ==> var m, c := (i - 12) / 11 + 1, (i - 12) % 11;
      LAST_IN_TIME + i * LONG_GAP == m * HOUR + TICK + Lag(m) + c * LONG_GAP
  {
    if i < 12 {
      assert LONG_GAP <= i * LONG_GAP <= 11 * LONG_GAP;
    } else {
      var m, c := (i - 12) / 11 + 1, (i - 12) % 11;
      assert i == 12 + 11 * (m - 1) + c;
      assert i * LONG_GAP == 12 * LONG_GAP + (m - 1) * (11 * LONG_GAP) + c * LONG_GAP;
      assert 11 * LONG_GAP == HOUR - Recovery(LONG_WORK);
      assert (m - 1) * (11 * LONG_GAP) == (m - 1) * HOUR - (m - 1) * Recovery(LONG_WORK);
    }
  }

  lemma PlaceInHour(m: nat, c: nat)
    requires 1 <= m <= 71 && c <= 10
    ensures TICK <= TICK + Lag(m) + c * LONG_GAP < HOUR
    ensures m == 47 ==> TICK + Lag(m) + c * LONG_GAP <= HOUR + LAPSE - TICK
  {
    LagsAreLeft(m);
    assert 0 <= c * LONG_GAP <= 10 * LONG_GAP;
  }

  /** Starts past an hour's first tick that keep clear of the last day's reminder point do not read the proof. */
  lemma ClearOfThePoints(m: nat, rest: int)
    requires m <= 71 && TICK <= rest < HOUR && (m == 47 ==> rest <= HOUR + LAPSE - TICK)
    ensures !ProofIsRead(72 * HOUR + LAPSE, m * HOUR + rest)
  {
    var now := m * HOUR + rest;
    assert now % HOUR == rest;
    AttemptIsHourly(now);
    if m < 47 { assert (m + 1) * HOUR <= 47 * HOUR; }
    if m > 47 { assert m * HOUR >= 48 * HOUR; }
  }

  lemma MissedHoursNeverRead(m: nat, c: nat)
    requires 1 <= m && c <= 10
    ensures !ProofIsRead(72 * HOUR + LAPSE, m * HOUR + TICK + Lag(m) + c * LONG_GAP)
  {
    if m >= 72 {
      LaterHoursAreTooLate(m, c);
    } else {
      PlaceInHour(m, c);
      ClearOfThePoints(m, TICK + Lag(m) + c * LONG_GAP);
    }
  }

  lemma LongWorkNeverReads(i: int)
    ensures !ProofIsRead(72 * HOUR + LAPSE, LAST_IN_TIME + i * LONG_GAP)
  {
    if i <= 0 {
      TooEarlyToRead(i);
    } else if i < 12 {
      FirstHourNeverReads(i);
    } else {
      PlaceOfStart(i);
      MissedHoursNeverRead((i - 12) / 11 + 1, (i - 12) % 11);
    }
  }

  lemma TooEarlyToRead(i: int)
    requires i <= 0
    ensures !ProofIsRead(72 * HOUR + LAPSE, LAST_IN_TIME + i * LONG_GAP)
  {
    assert i * LONG_GAP <= 0;
  }

  lemma FirstHourNeverReads(i: nat)
    requires 1 <= i < 12
    ensures !ProofIsRead(72 * HOUR + LAPSE, LAST_IN_TIME + i * LONG_GAP)
  {
    PlaceOfStart(i);
    ClearOfThePoints(0, LAST_IN_TIME + i * LONG_GAP);
  }

  /** What starts before the proof lapses is one of the seventy-one missed hours. */
  lemma LaterHoursAreTooLate(m: nat, c: nat)
    requires 72 <= m && c <= 10
    ensures m * HOUR + TICK + Lag(m) + c * LONG_GAP >= 72 * HOUR + LAPSE
  {
    var step := HOUR - Recovery(LONG_WORK);
    assert m * HOUR + Lag(m) == HOUR + LONG_WORK - 1 + (m - 1) * step;
    assert (m - 1) * step >= 71 * step;
    assert c * LONG_GAP >= 0;
  }

  /** A proof completed at `PROVED` lapses seventy-two hours after the last start in time, and `LAPSE` past the hour. */
  const PROVED: int := 72 * HOUR + LAPSE - VERIFICATION_TTL_DAYS * DAY

  /** Loop starts one gap apart from the first one after `PROVED` on. */
  function LongStart(k: nat): Time {
    LAST_IN_TIME + (k - (LAST_IN_TIME - PROVED) / LONG_GAP) * LONG_GAP
  }

  lemma {:induction false} LongStartsReadNothing(work: int)
    requires work >= LONG_WORK
    ensures NoneReads(PROVED, LongStart(0) - LONG_GAP, LongStart, PaceOf(work))
  {
    var n := (LAST_IN_TIME - PROVED) / LONG_GAP;
    forall k: nat
      ensures KeepsPace(LongStart(k), LongStart(k + 1), PaceOf(work)) && !ProofIsRead(ExpiryFrom(PROVED), LongStart(k))
    {
      assert (k + 1 - n) * LONG_GAP == (k - n) * LONG_GAP + LONG_GAP;
      LongWorkNeverReads(k - n);
    }
    FirstLongStart(n);
  }

  lemma FirstLongStart(n: int)
    requires n == (LAST_IN_TIME - PROVED) / LONG_GAP
    ensures LongStart(0) - LONG_GAP <= PROVED <= LongStart(0)
  {
    assert n * LONG_GAP <= LAST_IN_TIME - PROVED < n * LONG_GAP + LONG_GAP;
    assert LongStart(0) == LAST_IN_TIME + (0 - n) * LONG_GAP;
    assert (0 - n) * LONG_GAP == -(n * LONG_GAP);
  }

  /** With a microsecond more of work there is a run in which the published proof lapses. */
  lemma {:induction false} LongWorkLapses(work: int) returns (w: World, steps: seq<Step>)
    requires work >= LONG_WORK
    ensures Audited(w.db, w.now) && JustProved(w, 0, work)
    ensures Throughout(w, steps, (v, step) => Renewing(v, step, 0, PaceOf(work)))
    ensures !ProofCurrent(Run(w, steps).db.proofs, 0, Run(w, steps).now)
  {
    var n := (LAST_IN_TIME - PROVED) / LONG_GAP;
    var loopStart := LongStart(0) - LONG_GAP;
    var last: nat := n + 1000;
    LongStartsReadNothing(work);
    FirstLongStart(n);
    OneSiteIsScheduled(PROVED, loopStart);
    assert LongStart(last) >= ExpiryFrom(PROVED);
    NoneReadsLapses(PROVED, loopStart, LongStart, PaceOf(work), last);
    w, steps := OneSite(PROVED, loopStart), LoopsAt(LongStart, last + 1);
  }

  /** Whatever happens on the way, a proof that was current and stays published is current at the end of the run. */
  ghost predicate SleeperNeverLapses(work: int) {
    forall w: World, steps: seq<Step>, target: nat |
      && Audited(w.db, w.now) && JustProved(w, target, work)
      && Throughout(w, steps, (v, step) => Renewing(v, step, target, PaceOf(work))) ::
      ProofCurrent(Run(w, steps).db.proofs, target, Run(w, steps).now)
  }

  /** How long an iteration of the loop may work, to the microsecond: 27.237354 seconds. */
  lemma {:induction false} SleeperNeverLapsesIffShortEnough(work: nat)
    ensures SleeperNeverLapses(work) <==> 771 * work <= 70 * TICK
  {
    if ShortEnough(work) {
      forall w: World, steps: seq<Step>, target: nat |
        && Audited(w.db, w.now) && JustProved(w, target, work)
        && Throughout(w, steps, (v, step) => Renewing(v, step, target, PaceOf(work)))
        ensures ProofCurrent(Run(w, steps).db.proofs, target, Run(w, steps).now)
      {
        ShortWorkNeverLapses(w, steps, target, work);
      }
    } else {
      var w, steps := LongWorkLapses(work);
    }
  }
}
