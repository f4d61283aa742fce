/** The fixed-window limiter: in memory with eviction, as a map that never forgets, and as SQL rows. */
module RateLimit {
  import opened Clock

  const U32_MAX: nat := 0xFFFF_FFFF
  const I64_MAX: nat := 0x7FFF_FFFF_FFFF_FFFF
  const ENTRY_TTL: nat := 900 * SECOND
  const CLEANUP_THRESHOLD: nat := 10_000

  type U32 = n: nat | n <= U32_MAX
  type I64Count = n: nat | n <= I64_MAX

  datatype Window = Window(started: Time, count: U32)

  type Buckets = map<nat, Window>

  datatype Request = Request(client: nat, at: Time)

  function Elapsed(now: Time, started: Time): nat {
    if now < started then 0 else now - started
  }

  /** Whether the request may proceed, and the window it leaves; refused attempts count too. */
  function Decide(window: Option<Window>, now: Time, limit: U32, length: nat): (bool, Window) {
    match window
    case Some(existing) =>
      if Elapsed(now, existing.started) < length
      then (existing.count < limit,
            Window(existing.started, if existing.count == U32_MAX then U32_MAX else existing.count + 1))
      else (true, Window(now, 1))
    case None => (true, Window(now, 1))
  }

  function Lookup(buckets: Buckets, client: nat): Option<Window> {
    if client in buckets then Some(buckets[client]) else None
  }

  /** The map after the opportunistic cleanup. */
  function Retained(buckets: Buckets, now: Time): Buckets {
    if |buckets| > CLEANUP_THRESHOLD
    then map c | c in buckets && Elapsed(now, buckets[c].started) < ENTRY_TTL :: buckets[c]
    else buckets
  }

  /** One request against a map that never forgets a client. */
  function Plain(buckets: Buckets, r: Request, limit: U32, length: nat): (bool, Buckets) {
    var (allowed, updated) := Decide(Lookup(buckets, r.client), r.at, limit, length);
    (allowed, buckets[r.client := updated])
  }

  /** One request against the in-process limiter. */
  function Evicting(buckets: Buckets, r: Request, limit: U32, length: nat): (bool, Buckets) {
    Plain(Retained(buckets, r.at), r, limit, length)
  }

  class RateLimiter {
    var buckets: Buckets
    const limit: U32
    const window: nat

    constructor (limit: U32, window: nat)
      ensures buckets == map[] && this.limit == limit && this.window == window
    {
      this.buckets, this.limit, this.window := map[], limit, window;
    }

    method Check(client: nat, now: Time) returns (allowed: bool)
      modifies this
      ensures (allowed, buckets) == Evicting(old(buckets), Request(client, now), limit, window)
    {
      if |buckets| > CLEANUP_THRESHOLD {
        buckets := map c | c in buckets && Elapsed(now, buckets[c].started) < ENTRY_TTL :: buckets[c];
      }
      var existing := Lookup(buckets, client);
      var decision := Decide(existing, now, limit, window);
      allowed := decision.0;
      buckets := buckets[client := decision.1];
    }
  }

  // ------------------------------------------------------------------ the SQL counter

  datatype Row = Row(startedAt: Time, attempts: I64Count)

  type Rows = map<nat, Row>

  /**
   One upsert. The open-window branch adds before it clamps, so at the largest count the statement
   fails; a failed statement changes nothing and the request is refused.
   */
  function Shared(rows: Rows, r: Request, limit: U32, windowSecs: nat): (bool, Rows) {
    if r.client !in rows || rows[r.client].startedAt <= r.at - windowSecs * SECOND
    then (1 <= limit, rows[r.client := Row(r.at, 1)])
    else
      var row := rows[r.client];
      if row.attempts == I64_MAX then (false, rows)
      else (row.attempts + 1 <= limit, rows[r.client := row.(attempts := row.attempts + 1)])
  }

  // ------------------------------------------------------------------ runs

  ghost predicate Ordered(reqs: seq<Request>) {
    forall i, j | 0 <= i < j < |reqs| :: reqs[i].at <= reqs[j].at
  }

  function AfterPlain(reqs: seq<Request>, limit: U32, length: nat): Buckets {
    if |reqs| == 0 then map[]
    else Plain(AfterPlain(reqs[..|reqs| - 1], limit, length), reqs[|reqs| - 1], limit, length).1
  }

  function AfterEvicting(reqs: seq<Request>, limit: U32, length: nat): Buckets {
    if |reqs| == 0 then map[]
    else Evicting(AfterEvicting(reqs[..|reqs| - 1], limit, length), reqs[|reqs| - 1], limit, length).1
  }

  function AfterShared(reqs: seq<Request>, limit: U32, windowSecs: nat): Rows {
    if |reqs| == 0 then map[]
    else Shared(AfterShared(reqs[..|reqs| - 1], limit, windowSecs), reqs[|reqs| - 1], limit, windowSecs).1
  }

  /** The in-process limiter's answer to request `k` of a run. */
  function Answer(reqs: seq<Request>, k: nat, limit: U32, length: nat): bool
    requires k < |reqs|
  {
    Evicting(AfterEvicting(reqs[..k], limit, length), reqs[k], limit, length).0
  }

  function SharedAnswer(reqs: seq<Request>, k: nat, limit: U32, windowSecs: nat): bool
    requires k < |reqs|
  {
    Shared(AfterShared(reqs[..k], limit, windowSecs), reqs[k], limit, windowSecs).0
  }

  function PlainAnswer(reqs: seq<Request>, k: nat, limit: U32, length: nat): bool
    requires k < |reqs|
  {
    Plain(AfterPlain(reqs[..k], limit, length), reqs[k], limit, length).0
  }

  // ------------------------------------------------------------------ eviction changes no answer

  /** What eviction may have dropped: only windows that are over. */
  ghost predicate Forgets(kept: Buckets, all: Buckets, now: Time) {
    && (forall c | c in kept :: c in all && kept[c] == all[c])
    && (forall c | c in all && c !in kept :: all[c].started + ENTRY_TTL <= now)
  }

  lemma {:induction false} EvictionIsInvisible(kept: Buckets, all: Buckets, r: Request, before: Time, limit: U32, length: nat)
    requires length <= ENTRY_TTL && before <= r.at && Forgets(kept, all, before)
    ensures Evicting(kept, r, limit, length).0 == Plain(all, r, limit, length).0
    ensures Forgets(Evicting(kept, r, limit, length).1, Plain(all, r, limit, length).1, r.at)
  {
    var retained := Retained(kept, r.at);
    assert Forgets(retained, all, r.at);
  }

  lemma {:induction false} EvictingRefinesPlain(reqs: seq<Request>, limit: U32, length: nat)
    requires Ordered(reqs) && length <= ENTRY_TTL
    ensures |reqs| > 0 ==>
      Forgets(AfterEvicting(reqs, limit, length), AfterPlain(reqs, limit, length), reqs[|reqs| - 1].at)
    ensures forall k | 0 <= k < |reqs| :: Answer(reqs, k, limit, length) == PlainAnswer(reqs, k, limit, length)
  {
    if |reqs| > 0 {
      var n := |reqs| - 1;
      var most := reqs[..n];
      EvictingRefinesPlain(most, limit, length);
      var before := if n == 0 then reqs[n].at else most[n - 1].at;
      EvictionIsInvisible(AfterEvicting(most, limit, length), AfterPlain(most, limit, length), reqs[n], before, limit, length);
      forall k | 0 <= k < |reqs| ensures Answer(reqs, k, limit, length) == PlainAnswer(reqs, k, limit, length) {
        if k < n {
          assert most[..k] == reqs[..k];
          assert Answer(most, k, limit, length) == PlainAnswer(most, k, limit, length);
        }
      }
    }
  }

  // ------------------------------------------------------------------ the SQL counter gives the same answers

  /** The row counts on where the in-memory counter saturates. */
  ghost predicate Mirrors(all: Buckets, rows: Rows, now: Time) {
    && all.Keys == rows.Keys
    && forall c | c in all ::
         && all[c].started == rows[c].startedAt <= now
         && all[c].count == if rows[c].attempts <= U32_MAX then rows[c].attempts else U32_MAX
  }

  lemma {:induction false} SharedMirrorsPlain(all: Buckets, rows: Rows, r: Request, before: Time, limit: U32, secs: nat)
    requires before <= r.at && Mirrors(all, rows, before)
    ensures Mirrors(Plain(all, r, limit, secs * SECOND).1, Shared(rows, r, limit, secs).1, r.at)
    ensures 1 <= limit ==> Plain(all, r, limit, secs * SECOND).0 == Shared(rows, r, limit, secs).0
  {
  }

  /**
   The three limiters give the same answer to every request of every run, for a limit of at least
   one and a whole-second window no longer than the eviction age.
   */
  lemma {:induction false} LimitersAgree(reqs: seq<Request>, limit: U32, secs: nat)
    requires Ordered(reqs) && 1 <= limit && secs <= 900
    ensures |reqs| > 0 ==>
      Mirrors(AfterPlain(reqs, limit, secs * SECOND), AfterShared(reqs, limit, secs), reqs[|reqs| - 1].at)
    ensures forall k | 0 <= k < |reqs| ::
      Answer(reqs, k, limit, secs * SECOND) == PlainAnswer(reqs, k, limit, secs * SECOND) == SharedAnswer(reqs, k, limit, secs)
  {
    EvictingRefinesPlain(reqs, limit, secs * SECOND);
    if |reqs| > 0 {
      var n := |reqs| - 1;
      var most := reqs[..n];
      LimitersAgree(most, limit, secs);
      var before := if n == 0 then reqs[n].at else most[n - 1].at;
      SharedMirrorsPlain(AfterPlain(most, limit, secs * SECOND), AfterShared(most, limit, secs), reqs[n], before, limit, secs);
      forall k | 0 <= k < |reqs|
        ensures Answer(reqs, k, limit, secs * SECOND) == PlainAnswer(reqs, k, limit, secs * SECOND) == SharedAnswer(reqs, k, limit, secs)
      {
        if k < n {
          assert most[..k] == reqs[..k];
          assert PlainAnswer(most, k, limit, secs * SECOND) == SharedAnswer(most, k, limit, secs);
        }
      }
    }
  }

  /** The bound on the limit is needed. */
  lemma {:induction false} ZeroLimitDisagrees(r: Request, secs: nat)
    ensures Answer([r], 0, 0, secs * SECOND) && !SharedAnswer([r], 0, 0, secs)
  {
    assert [r][..0] == [];
  }

  // ------------------------------------------------------------------ a longer window is forgotten

  /** The first `n` requests of a crowd: client 0 uses up its limit, then other clients come once each, all at time 0. */
  function Crowd(limit: U32, n: nat): (reqs: seq<Request>)
    ensures |reqs| == n && Ordered(reqs)
  {
    seq(n, k => Request(if k < AtLeastOne(limit) then 0 else k - AtLeastOne(limit) + 1, 0))
  }

  function Clients(limit: U32, n: nat): nat {
    if n == 0 then 0 else if n <= AtLeastOne(limit) then 1 else n - AtLeastOne(limit) + 1
  }

  /** A window for each of so many clients, opened at time 0: client 0 with `first` requests, the others with one. */
  function Windows(clients: nat, first: U32): (m: Buckets)
    ensures |m| == clients && forall c: nat :: c in m <==> c < clients
    ensures forall c | c in m :: m[c] == Window(0, if c == 0 then first else 1)
  {
    if clients == 0 then map[]
    else Windows(clients - 1, first)[clients - 1 := Window(0, if clients == 1 then first else 1)]
  }

  /** The windows the crowd leaves. */
  function CrowdWindows(limit: U32, n: nat): Buckets {
    Windows(Clients(limit, n), if n <= AtLeastOne(limit) then n else AtLeastOne(limit))
  }

  lemma {:induction false} NothingElapsed(m: Buckets)
    requires forall c | c in m :: m[c].started == 0
    ensures Retained(m, 0) == m
  {
  }

  lemma SameWindows(a: Buckets, b: Buckets)
    requires forall c: nat :: c in a <==> c in b
    requires forall c | c in a && c in b :: a[c] == b[c]
    ensures a == b
  {
  }

  lemma {:induction false} CrowdStep(limit: U32, length: nat, n: nat)
    requires 0 < length && 0 < n
    ensures Plain(CrowdWindows(limit, n - 1), Crowd(limit, n)[n - 1], limit, length).1 == CrowdWindows(limit, n)
  {
    var before, r := CrowdWindows(limit, n - 1), Crowd(limit, n)[n - 1];
    SameWindows(Plain(before, r, limit, length).1, CrowdWindows(limit, n));
  }

  lemma {:induction false} CrowdFills(limit: U32, length: nat, n: nat)
    requires 0 < length
    ensures AfterPlain(Crowd(limit, n), limit, length) == CrowdWindows(limit, n)
    ensures AfterEvicting(Crowd(limit, n), limit, length) == CrowdWindows(limit, n)
  {
    if n > 0 {
      assert Crowd(limit, n)[..n - 1] == Crowd(limit, n - 1);
      CrowdFills(limit, length, n - 1);
      NothingElapsed(CrowdWindows(limit, n - 1));
      CrowdStep(limit, length, n);
    }
  }

  /** A refused client is let in again when its window outlasts the eviction age and the map is cleaned up. */
  lemma {:induction false} LongWindowIsForgotten(limit: U32, length: nat) returns (reqs: seq<Request>)
    requires length > ENTRY_TTL
    ensures Ordered(reqs) && |reqs| > 0
    ensures Answer(reqs, |reqs| - 1, limit, length) && !PlainAnswer(reqs, |reqs| - 1, limit, length)
  {
    var n := AtLeastOne(limit) + CLEANUP_THRESHOLD;
    var windows, last := CrowdWindows(limit, n), Request(0, ENTRY_TTL);
    reqs := Crowd(limit, n) + [last];
    assert reqs[..n] == Crowd(limit, n);
    CrowdFills(limit, length, n);
    assert |windows| == CLEANUP_THRESHOLD + 1;
    assert windows[0] == Window(0, AtLeastOne(limit));
    assert 0 !in Retained(windows, ENTRY_TTL);
  }

  ghost predicate EvictionNeverShows(limit: U32, length: nat) {
    forall reqs: seq<Request>, k: nat | Ordered(reqs) && k < |reqs| ::
      Answer(reqs, k, limit, length) == PlainAnswer(reqs, k, limit, length)
  }

  /** Forgetting old windows is harmless exactly for windows no longer than the eviction age. */
  lemma {:induction false} EvictionNeverShowsIffShortWindow(limit: U32, length: nat)
    ensures EvictionNeverShows(limit, length) <==> length <= ENTRY_TTL
  {
    if length <= ENTRY_TTL {
      forall reqs: seq<Request>, k: nat | Ordered(reqs) && k < |reqs|
        ensures Answer(reqs, k, limit, length) == PlainAnswer(reqs, k, limit, length)
      {
        EvictingRefinesPlain(reqs, limit, length);
      }
    } else {
      var reqs := LongWindowIsForgotten(limit, length);
    }
  }

  // ------------------------------------------------------------------ the burst bound

  /** Requests of `client` allowed in the closed interval from `lo` to `hi`. */
  function AllowedIn(reqs: seq<Request>, client: nat, lo: Time, hi: Time, limit: U32, length: nat): nat {
    if |reqs| == 0 then 0 else
    var n := |reqs| - 1;
    AllowedIn(reqs[..n], client, lo, hi, limit, length)
    + (if reqs[n].client == client && lo <= reqs[n].at <= hi && Answer(reqs, n, limit, length) then 1 else 0)
  }

  /** How many of a window's requests were allowed. */
  function Granted(count: nat, cap: nat): nat {
    if count <= cap then count else cap
  }

  function AtLeastOne(limit: nat): nat {
    if limit == 0 then 1 else limit
  }

  /**
   What holds of one client after any prefix, for the interval starting at `lo`: requests allowed
   there come from the client's current window and at most one before it.
   */
  ghost predicate Bounded(window: Option<Window>, allowed: nat, lo: Time, now: Time, limit: U32, length: nat) {
    var cap := AtLeastOne(limit);
    match window
    case None => allowed == 0
    case Some(w) =>
      && w.started <= now && 1 <= w.count
      && allowed <= 2 * cap
      && (w.started <= lo + length ==> allowed <= cap + Granted(w.count, cap))
      && (w.started <= lo ==> allowed <= Granted(w.count, cap))
      && (w.started + length <= lo ==> allowed == 0)
  }

  lemma {:induction false} DecisionKeepsBound(
    window: Option<Window>, allowed: nat, lo: Time, before: Time, at: Time, limit: U32, length: nat)
    requires 0 < length && before <= at && Bounded(window, allowed, lo, before, limit, length)
    ensures var (ok, updated) := Decide(window, at, limit, length);
      Bounded(Some(updated), allowed + (if ok && lo <= at <= lo + length then 1 else 0), lo, at, limit, length)
  {
  }

  lemma {:induction false} EveryPrefixIsBounded(reqs: seq<Request>, client: nat, lo: Time, limit: U32, length: nat)
    requires Ordered(reqs) && 0 < length <= ENTRY_TTL && |reqs| > 0
    ensures Bounded(Lookup(AfterPlain(reqs, limit, length), client),
      AllowedIn(reqs, client, lo, lo + length, limit, length), lo, reqs[|reqs| - 1].at, limit, length)
  {
    var n := |reqs| - 1;
    var most := reqs[..n];
    EvictingRefinesPlain(reqs, limit, length);
    assert Answer(reqs, n, limit, length) == PlainAnswer(reqs, n, limit, length);
    var before := if n == 0 then reqs[n].at else most[n - 1].at;
    if n > 0 { EveryPrefixIsBounded(most, client, lo, limit, length); }
    if reqs[n].client == client {
      DecisionKeepsBound(Lookup(AfterPlain(most, limit, length), client),
        AllowedIn(most, client, lo, lo + length, limit, length), lo, before, reqs[n].at, limit, length);
    }
  }

  /**
   The documented burst bound, over whole runs of the evicting limiter: any closed interval of one
   window length holds at most twice the limit for one client, and any that starts with the
   client's current window holds at most the limit. A limit of zero still lets one request open a window.
   */
  lemma {:induction false} BurstBound(reqs: seq<Request>, client: nat, lo: Time, limit: U32, length: nat)
    requires Ordered(reqs) && 0 < length <= ENTRY_TTL
    ensures AllowedIn(reqs, client, lo, lo + length, limit, length) <= 2 * AtLeastOne(limit)
    ensures client in AfterPlain(reqs, limit, length) && AfterPlain(reqs, limit, length)[client].started <= lo ==>
      AllowedIn(reqs, client, lo, lo + length, limit, length) <= AtLeastOne(limit)
  {
    if |reqs| > 0 { EveryPrefixIsBounded(reqs, client, lo, limit, length); }
  }

  /** `n` requests of one client: `first` of them at time zero, the rest one window length later. */
  function Burst(first: nat, n: nat, client: nat, length: nat): (reqs: seq<Request>)
    ensures |reqs| == n && Ordered(reqs)
    ensures forall k | 0 <= k < n :: reqs[k] == Request(client, if k < first then 0 else length)
  {
    seq(n, k => Request(client, if k < first then 0 else length))
  }

  /** The client's window after `sent` requests of the burst. */
  function BurstWindow(limit: U32, length: nat, sent: nat): Option<Window>
    requires sent <= 2 * limit
  {
    if sent == 0 then None
    else if sent <= limit then Some(Window(0, sent))
    else Some(Window(length, sent - limit))
  }

  lemma {:induction false} BurstDecision(limit: U32, length: nat, sent: nat)
    requires 0 < length && 0 < sent <= 2 * limit
    ensures Decide(BurstWindow(limit, length, sent - 1), if sent <= limit then 0 else length, limit, length)
      == (true, BurstWindow(limit, length, sent).value)
  {
  }

  lemma {:induction false} BurstFills(limit: U32, length: nat, sent: nat)
    requires 1 <= limit && 0 < length && sent <= 2 * limit
    ensures Lookup(AfterPlain(Burst(limit, sent, 7, length), limit, length), 7) == BurstWindow(limit, length, sent)
    ensures sent > 0 ==> PlainAnswer(Burst(limit, sent, 7, length), sent - 1, limit, length)
    decreases sent
  {
    if sent > 0 {
      BurstFills(limit, length, sent - 1);
      BurstDecision(limit, length, sent);
      var reqs, most := Burst(limit, sent, 7, length), Burst(limit, sent - 1, 7, length);
      assert reqs[..sent - 1] == most;
      StepOf(reqs, most, limit, length);
    }
  }

  lemma {:induction false} StepOf(reqs: seq<Request>, most: seq<Request>, limit: U32, length: nat)
    requires |reqs| > 0 && most == reqs[..|reqs| - 1]
    ensures var last := reqs[|reqs| - 1];
      var decision := Decide(Lookup(AfterPlain(most, limit, length), last.client), last.at, limit, length);
      && Lookup(AfterPlain(reqs, limit, length), last.client) == Some(decision.1)
      && PlainAnswer(reqs, |reqs| - 1, limit, length) == decision.0
  {
  }

  /** Twice the limit is reached: a full budget at the start of one window and at the start of the next. */
  lemma {:induction false} BurstIsReached(limit: U32, length: nat, sent: nat)
    requires 1 <= limit && 0 < length <= ENTRY_TTL && sent <= 2 * limit
    ensures AllowedIn(Burst(limit, sent, 7, length), 7, 0, length, limit, length) == sent
    decreases sent
  {
    if sent > 0 {
      BurstIsReached(limit, length, sent - 1);
      BurstFills(limit, length, sent);
      var reqs := Burst(limit, sent, 7, length);
      assert reqs[..sent - 1] == Burst(limit, sent - 1, 7, length);
      EvictingRefinesPlain(reqs, limit, length);
      assert Answer(reqs, sent - 1, limit, length) == PlainAnswer(reqs, sent - 1, limit, length);
    }
  }

  // ------------------------------------------------------------------ what the map can grow to

  /** More than ten thousand clients are remembered only while all of them came within the last fifteen minutes. */
  ghost predicate Small(buckets: Buckets, now: Time) {
    |buckets| > 10_001 ==> forall c | c in buckets :: Elapsed(now, buckets[c].started) < 15 * MINUTE
  }

  lemma {:induction false} SweepKeepsSmall(buckets: Buckets, r: Request, limit: U32, length: nat)
    ensures Small(Evicting(buckets, r, limit, length).1, r.at)
  {
    var kept := Retained(buckets, r.at);
    var after := Evicting(buckets, r, limit, length).1;
    assert after.Keys == kept.Keys + {r.client};
    if |buckets| <= CLEANUP_THRESHOLD { assert |after.Keys| <= |kept.Keys| + 1; }
  }

  /** So the sweep bounds the map after every request of every run. */
  lemma {:induction false} MapStaysSmall(reqs: seq<Request>, limit: U32, length: nat)
    requires |reqs| > 0
    ensures Small(AfterEvicting(reqs, limit, length), reqs[|reqs| - 1].at)
  {
    SweepKeepsSmall(AfterEvicting(reqs[..|reqs| - 1], limit, length), reqs[|reqs| - 1], limit, length);
  }
}
