/** Keeps ownership proof current for sites on a schedule: when it is re-read, extended and warned about. */
module Renewal {
  import opened Clock
  import opened Verification
  import opened Schedule
  import opened ScanTables

  const RENEW_WITHIN: int := 72 * HOUR
  const FIRST_REMINDER: int := 72 * HOUR
  const LAST_REMINDER: int := 24 * HOUR
  const TICK: int := 300 * SECOND

  /** The tick that starts at `now` is the one whose span contains `point`. */
  predicate Crosses(point: Time, now: Time, tick: int) {
    now <= point < now + tick
  }

  predicate ReminderDue(expiresAt: Time, now: Time, tick: int) {
    Crosses(expiresAt - FIRST_REMINDER, now, tick) || Crosses(expiresAt - LAST_REMINDER, now, tick)
  }

  /** Whole seconds, rounded down as `timestamp` does. */
  function Seconds(now: Time): int {
    now / SECOND
  }

  predicate AttemptDue(now: Time, tick: nat) {
    Seconds(now) % 3600 < Seconds(tick)
  }

  /** The rows `renew_due` selects: unexpired, and within the renewal window. */
  predicate Selected(expiresAt: Time, now: Time) {
    now < expiresAt <= now + RENEW_WITHIN
  }

  predicate ProofIsRead(expiresAt: Time, now: Time) {
    Selected(expiresAt, now) && (ReminderDue(expiresAt, now, TICK) || AttemptDue(now, TICK))
  }

  /** The proof row of `t` this pass re-reads, if any. */
  function RowRead(targets: seq<Target>, proofs: seq<Proof>, t: nat, now: Time): (r: Option<nat>)
    requires t < |targets|
    ensures r.Some? ==> r == Latest(proofs, t)
  {
    match Latest(proofs, t)
    case None => None
    case Some(v) =>
      if targets[t].cadence != Manual && proofs[v].expiresAt.Some? && ProofIsRead(proofs[v].expiresAt.value, now)
      then Some(v) else None
  }

  function Renewed(proof: Proof, now: Time): Proof {
    proof.(verifiedAt := Some(now), expiresAt := Some(ExpiryFrom(now)))
  }

  /** One item of the loop in `renew_due`; `published` holds the rows whose token is still found. */
  function RenewOne(targets: seq<Target>, proofs: seq<Proof>, t: nat, published: set<nat>, now: Time)
    : (r: seq<Proof>)
    requires t < |targets|
    ensures |r| == |proofs|
  {
    match RowRead(targets, proofs, t, now)
    case None => proofs
    case Some(v) => if v in published then proofs[v := Renewed(proofs[v], now)] else proofs
  }

  function RenewEach(targets: seq<Target>, proofs: seq<Proof>, n: nat, published: set<nat>, now: Time)
    : (r: seq<Proof>)
    requires n <= |targets|
    ensures |r| == |proofs|
  {
    if n == 0 then proofs
    else RenewOne(targets, RenewEach(targets, proofs, n - 1, published, now), n - 1, published, now)
  }

  /** The expiry a scheduled target with published proof has after a pass at `now`. */
  function ExpiryAfterPass(expiresAt: Time, now: Time): Time {
    if ProofIsRead(expiresAt, now) then ExpiryFrom(now) else expiresAt
  }

  // ------------------------------------------------------------------ one pass

  /** Rows stay with their target and never lose time. */
  ghost predicate RowsExtend(before: seq<Proof>, after: seq<Proof>) {
    |before| <= |after| && forall k | 0 <= k < |before| :: RowExtends(before[k], after[k])
  }

  predicate RowExtends(before: Proof, after: Proof) {
    && after.target == before.target
    && (before.verifiedAt.Some? ==> after.verifiedAt.Some? && before.verifiedAt.value <= after.verifiedAt.value)
  }

  /** A target whose own completed rows are untouched keeps its expiry. */
  lemma SameLatest(before: seq<Proof>, after: seq<Proof>, t: nat, clock: Time)
    requires |before| <= |after| && WellTimed(after, clock)
    requires forall k | 0 <= k < |before| :: IsProofOf(before[k], t) || IsProofOf(after[k], t) ==> after[k] == before[k]
    requires forall k | |before| <= k < |after| :: !IsProofOf(after[k], t)
    ensures LatestExpiry(after, t) == LatestExpiry(before, t)
  {
    match Latest(before, t) {
      case None => assert forall k | 0 <= k < |after| :: !IsProofOf(after[k], t);
      case Some(v) =>
        assert IsProofOf(after[v], t);
        assert Latest(after, t).Some?;
        var w := Latest(after, t).value;
        assert IsProofOf(before[w], t);
        assert after[v].verifiedAt.value == after[w].verifiedAt.value;
    }
  }

  lemma RenewOneKeeps(targets: seq<Target>, proofs: seq<Proof>, t: nat, published: set<nat>, now: Time, other: nat)
    requires t < |targets| && WellTimed(proofs, now)
    ensures var after := RenewOne(targets, proofs, t, published, now);
      && WellTimed(after, now) && RowsExtend(proofs, after)
      && (other != t ==> LatestExpiry(after, other) == LatestExpiry(proofs, other))
  {
    if other != t { SameLatest(proofs, RenewOne(targets, proofs, t, published, now), other, now); }
  }

  /** The network check finds the token of every row of `t`. */
  ghost predicate Found(proofs: seq<Proof>, t: nat, published: set<nat>) {
    forall v | 0 <= v < |proofs| && proofs[v].target == t :: v in published
  }

  lemma StillFound(before: seq<Proof>, after: seq<Proof>, t: nat, published: set<nat>)
    requires Found(before, t, published) && RowsExtend(before, after) && |before| == |after|
    ensures Found(after, t, published)
  {
    forall v | 0 <= v < |after| && after[v].target == t ensures v in published {
      assert RowExtends(before[v], after[v]);
    }
  }

  lemma RenewOneMoves(targets: seq<Target>, proofs: seq<Proof>, t: nat, published: set<nat>, now: Time)
    requires t < |targets| && WellTimed(proofs, now)
    requires targets[t].cadence != Manual && LatestExpiry(proofs, t).Some?
    requires Found(proofs, t, published)
    ensures LatestExpiry(RenewOne(targets, proofs, t, published, now), t)
         == Some(ExpiryAfterPass(LatestExpiry(proofs, t).value, now))
  {
    var after, v := RenewOne(targets, proofs, t, published, now), Latest(proofs, t).value;
    if RowRead(targets, proofs, t, now).Some? {
      assert IsProofOf(after[v], t);
      assert Latest(after, t).Some?;
      assert after[v].verifiedAt.value <= after[Latest(after, t).value].verifiedAt.value;
    }
  }

  lemma RowsExtendTransitive(a: seq<Proof>, b: seq<Proof>, c: seq<Proof>)
    requires RowsExtend(a, b) && RowsExtend(b, c)
    ensures RowsExtend(a, c)
  {
    forall k | 0 <= k < |a| ensures RowExtends(a[k], c[k]) {
      assert RowExtends(a[k], b[k]) && RowExtends(b[k], c[k]);
    }
  }

  lemma {:induction false} RenewEachExtends(
    targets: seq<Target>, proofs: seq<Proof>, n: nat, published: set<nat>, now: Time)
    requires n <= |targets| && WellTimed(proofs, now)
    ensures WellTimed(RenewEach(targets, proofs, n, published, now), now)
    ensures RowsExtend(proofs, RenewEach(targets, proofs, n, published, now))
  {
    if n > 0 {
      var before := RenewEach(targets, proofs, n - 1, published, now);
      RenewEachExtends(targets, proofs, n - 1, published, now);
      RenewOneKeeps(targets, before, n - 1, published, now, n - 1);
      RowsExtendTransitive(proofs, before, RenewOne(targets, before, n - 1, published, now));
    }
  }

  /** Only rows of targets `from` up to `n` differ. */
  ghost predicate OnlyRows(before: seq<Proof>, after: seq<Proof>, from: nat, n: nat) {
    |before| == |after| && forall k | 0 <= k < |before| :: OnlyRow(before[k], after[k], from, n)
  }

  predicate OnlyRow(before: Proof, after: Proof, from: nat, n: nat) {
    after.target == before.target && (from <= before.target < n || after == before)
  }

  lemma {:induction false} ItemsTouchTheirOwn(
    targets: seq<Target>, proofs: seq<Proof>, from: nat, n: nat, published: set<nat>, now: Time)
    requires from <= n <= |targets|
    ensures OnlyRows(RenewEach(targets, proofs, from, published, now), RenewEach(targets, proofs, n, published, now), from, n)
  {
    if from < n {
      ItemsTouchTheirOwn(targets, proofs, from, n - 1, published, now);
      var base := RenewEach(targets, proofs, from, published, now);
      var before := RenewEach(targets, proofs, n - 1, published, now);
      var after := RenewOne(targets, before, n - 1, published, now);
      forall k | 0 <= k < |base| ensures OnlyRow(base[k], after[k], from, n) {
        assert OnlyRow(base[k], before[k], from, n - 1);
        assert OnlyRow(before[k], after[k], n - 1, n);
      }
    }
  }

  lemma OthersKeepLatest(before: seq<Proof>, after: seq<Proof>, from: nat, n: nat, t: nat, clock: Time)
    requires OnlyRows(before, after, from, n) && WellTimed(after, clock) && !(from <= t < n)
    ensures LatestExpiry(after, t) == LatestExpiry(before, t)
  {
    forall k | 0 <= k < |before| && (IsProofOf(before[k], t) || IsProofOf(after[k], t)) ensures after[k] == before[k] {
      assert OnlyRow(before[k], after[k], from, n);
    }
    SameLatest(before, after, t, clock);
  }

  lemma {:induction false} RenewEachKeeps(
    targets: seq<Target>, proofs: seq<Proof>, n: nat, published: set<nat>, now: Time, other: nat)
    requires n <= |targets| && WellTimed(proofs, now)
    ensures WellTimed(RenewEach(targets, proofs, n, published, now), now)
    ensures RowsExtend(proofs, RenewEach(targets, proofs, n, published, now))
    ensures other >= n ==>
      LatestExpiry(RenewEach(targets, proofs, n, published, now), other) == LatestExpiry(proofs, other)
  {
    RenewEachExtends(targets, proofs, n, published, now);
    if other >= n {
      ItemsTouchTheirOwn(targets, proofs, 0, n, published, now);
      OthersKeepLatest(proofs, RenewEach(targets, proofs, n, published, now), 0, n, other, now);
    }
  }

  lemma {:induction false} LaterItemsLeaveIt(
    targets: seq<Target>, proofs: seq<Proof>, n: nat, published: set<nat>, now: Time, t: nat)
    requires t < n <= |targets| && WellTimed(proofs, now)
    ensures LatestExpiry(RenewEach(targets, proofs, n, published, now), t)
         == LatestExpiry(RenewEach(targets, proofs, t + 1, published, now), t)
  {
    RenewEachExtends(targets, proofs, n, published, now);
    ItemsTouchTheirOwn(targets, proofs, t + 1, n, published, now);
    OthersKeepLatest(RenewEach(targets, proofs, t + 1, published, now),
                     RenewEach(targets, proofs, n, published, now), t + 1, n, t, now);
  }

  /** A pass moves a scheduled target whose proof is found to `ExpiryAfterPass`, whatever the other targets do. */
  lemma PassRenews(targets: seq<Target>, proofs: seq<Proof>, published: set<nat>, now: Time, t: nat)
    requires t < |targets| && WellTimed(proofs, now)
    requires targets[t].cadence != Manual && LatestExpiry(proofs, t).Some?
    requires Found(proofs, t, published)
    ensures LatestExpiry(RenewEach(targets, proofs, |targets|, published, now), t)
         == Some(ExpiryAfterPass(LatestExpiry(proofs, t).value, now))
  {
    var before := RenewEach(targets, proofs, t, published, now);
    RenewEachKeeps(targets, proofs, t, published, now, t);
    StillFound(proofs, before, t, published);
    RenewOneMoves(targets, before, t, published, now);
    LaterItemsLeaveIt(targets, proofs, |targets|, published, now, t);
  }

  // ------------------------------------------------------------------ the proof never lapses

  function HourStart(now: Time): Time {
    now - now % HOUR
  }

  /** Enough is left to reach the first loop start of the coming hour. */
  predicate Safe(expiresAt: Time, loopStart: Time) {
    expiresAt >= HourStart(loopStart) + HOUR + TICK
  }

  lemma AttemptIsHourly(now: Time)
    ensures AttemptDue(now, TICK) <==> now - HourStart(now) < TICK
  {
    var whole, rest := now / HOUR, now % HOUR;
    assert now == whole * HOUR + rest;
    assert Seconds(now) == whole * 3600 + rest / SECOND;
    assert 0 <= rest / SECOND < 3600;
    assert Seconds(now) % 3600 == rest / SECOND;
  }

  /** One loop iteration no more than a tick after the last keeps the proof alive up to and at its start. */
  lemma LoopKeepsProofAlive(expiresAt: Time, previous: Time, next: Time)
    requires Safe(expiresAt, previous) && previous <= next <= previous + TICK
    ensures Safe(ExpiryAfterPass(expiresAt, next), next)
    ensures next < expiresAt <= ExpiryAfterPass(expiresAt, next)
  {
    AttemptIsHourly(next);
    if HourStart(next) != HourStart(previous) {
      assert HourStart(next) > previous by {
        var a, b := previous / HOUR, next / HOUR;
        assert HourStart(previous) == a * HOUR && HourStart(next) == b * HOUR;
        assert a < b;
      }
      assert AttemptDue(next, TICK);
    }
  }

  /**
   Loop starts 5, 10, ..., 55 minutes and one microsecond less than an hour past the hour: never more
   than a microsecond over a tick apart, and never in the first tick of an hour.
   */
  function LateStart(k: nat): Time {
    (k / 12) * HOUR + (if k % 12 == 11 then HOUR - 1 else TICK * (1 + k % 12))
  }

  lemma LateStartsAreClose(k: nat)
    ensures LateStart(k) < LateStart(k + 1) <= LateStart(k) + TICK + 1
  {
    assert (k + 1) / 12 == if k % 12 == 11 then k / 12 + 1 else k / 12;
  }

  lemma LateStartsNeverRead(k: nat, hours: int)
    ensures !ProofIsRead(hours * HOUR + TICK - 1, LateStart(k))
  {
    OffTheHourNeverReads(k / 12, LateStart(k) - (k / 12) * HOUR, hours);
  }

  /** A proof that lapses just before the end of an hour's first tick is not read by a start past that tick. */
  lemma OffTheHourNeverReads(hour: int, rest: int, hours: int)
    requires TICK <= rest < HOUR
    ensures !ProofIsRead(hours * HOUR + TICK - 1, hour * HOUR + rest)
  {
    var now := hour * HOUR + rest;
    assert now % HOUR == rest;
    AttemptIsHourly(now);
    BetweenPoints(hours - hour - 72, rest);
    BetweenPoints(hours - hour - 24, rest);
  }

  lemma BetweenPoints(hours: int, rest: int)
    requires TICK <= rest < HOUR
    ensures !(0 <= hours * HOUR + TICK - 1 - rest < TICK)
  {
  }

  // ------------------------------------------------------------------ warnings

  /** With loop starts exactly one tick apart, each point is crossed by one of them and no other. */
  lemma ExactSpacingCrossesOnce(start: Time, point: Time, tick: nat) returns (k: nat)
    requires tick > 0 && start <= point
    ensures forall i: nat :: Crosses(point, start + i * tick, tick) <==> i == k
  {
    k := (point - start) / tick;
    forall i: nat ensures Crosses(point, start + i * tick, tick) <==> i == k {
      var rest := (point - start) % tick;
      assert point - start == k * tick + rest;
      if i < k { assert (i + 1) * tick <= k * tick; }
      if i > k { assert i * tick >= (k + 1) * tick; }
    }
  }

  ghost predicate Spaced(starts: seq<Time>, tick: int) {
    forall k | 0 <= k < |starts| - 1 :: starts[k] + tick <= starts[k + 1]
  }

  lemma {:induction false} SpacedApart(starts: seq<Time>, tick: nat, i: nat, j: nat)
    requires Spaced(starts, tick) && i < j < |starts|
    ensures starts[i] + tick <= starts[j]
    decreases j
  {
    assert starts[j - 1] + tick <= starts[j - 1 + 1];
    if i < j - 1 { SpacedApart(starts, tick, i, j - 1); }
  }

  /** Wider spacing never crosses a point twice, so a warning is not repeated. */
  lemma WiderSpacingCrossesAtMostOnce(starts: seq<Time>, point: Time, tick: nat, i: nat, j: nat)
    requires Spaced(starts, tick) && i < |starts| && j < |starts|
    requires Crosses(point, starts[i], tick) && Crosses(point, starts[j], tick)
    ensures i == j
  {
    if i < j { SpacedApart(starts, tick, i, j); }
    if j < i { SpacedApart(starts, tick, j, i); }
  }

  /**
   What the selection leaves of the two warnings. A row is selected only from 72 hours before its
   expiry on, and the 72-hour point is crossed only up to that instant, so the first warning goes
   out when a pass starts at exactly that microsecond and otherwise never; only the 24-hour
   warning is sent by the tick that crosses it.
   */
  lemma WarningsSent(expiresAt: Time, now: Time)
    ensures Selected(expiresAt, now) && ReminderDue(expiresAt, now, TICK) <==>
      now == expiresAt - FIRST_REMINDER || Crosses(expiresAt - LAST_REMINDER, now, TICK)
  {
    assert !(Crosses(expiresAt - FIRST_REMINDER, now, TICK) && Crosses(expiresAt - LAST_REMINDER, now, TICK));
  }
}
