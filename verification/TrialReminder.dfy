/**
 The reminder before a trial ends: rows are marked before their messages go out, a failed send clears
 the mark, and several workers may do this at once, fail, or stop half-way.
 */
module TrialReminder {
  import opened Clock
  import MailRelay

  /** `eligible` is the part of the query that only the billing webhook changes: trialing, not cancelled, claimed. */
  datatype Row = Row(eligible: bool, trialEndsAt: Option<Time>, reminderFor: Option<Time>)

  predicate IsDue(row: Row, now: Time) {
    && row.eligible && row.trialEndsAt.Some?
    && now + HOUR < row.trialEndsAt.value <= now + 24 * HOUR
    && row.reminderFor != row.trialEndsAt
  }

  function Marked(row: Row, now: Time): Row {
    if IsDue(row, now) then row.(reminderFor := row.trialEndsAt) else row
  }

  /** One account's reminder for one end date. */
  datatype Item = Item(user: nat, endsAt: Time)

  /** The rows the marking statement returns. */
  function DueItems(rows: seq<Row>, now: Time): (items: seq<Item>)
    ensures forall k | 0 <= k < |items| ::
      items[k].user < |rows| && IsDue(rows[items[k].user], now) && rows[items[k].user].trialEndsAt == Some(items[k].endsAt)
    ensures forall j, k | 0 <= j < k < |items| :: items[j].user < items[k].user
    ensures forall u | 0 <= u < |rows| && IsDue(rows[u], now) :: Item(u, rows[u].trialEndsAt.value) in items
  {
    if |rows| == 0 then [] else
    var last := |rows| - 1;
    var before := DueItems(rows[..last], now);
    if IsDue(rows[last], now) then
      var item := Item(last, rows[last].trialEndsAt.value);
      assert (before + [item])[|before|] == item;
      assert forall i | i in before :: i in before + [item];
      before + [item]
    else before
  }

  function MarkedRows(rows: seq<Row>, now: Time): (r: seq<Row>)
    ensures |r| == |rows| && forall k | 0 <= k < |rows| :: r[k] == Marked(rows[k], now)
  {
    seq(|rows|, k requires 0 <= k < |rows| => Marked(rows[k], now))
  }

  /** The clearing statement, which names the end date it clears. */
  function Cleared(rows: seq<Row>, item: Item): (r: seq<Row>)
    ensures |r| == |rows|
  {
    if item.user < |rows| && rows[item.user].reminderFor == Some(item.endsAt)
    then rows[item.user := rows[item.user].(reminderFor := None)] else rows
  }

  // ------------------------------------------------------------------ one pass, undisturbed

  class Entitlements {
    var rows: seq<Row>

    constructor (rows: seq<Row>)
      ensures this.rows == rows
    {
      this.rows := rows;
    }

    /** `send_due` with nobody else at the table; `accepts` says whose message the mail provider takes. */
    method SendDue(accepts: nat -> bool, now: Time) returns (sent: seq<Item>)
      modifies this
      ensures |rows| == |old(rows)|
      ensures forall u | 0 <= u < |rows| ::
        rows[u] == if !IsDue(old(rows)[u], now) then old(rows)[u]
                   else old(rows)[u].(reminderFor := if accepts(u) then old(rows)[u].trialEndsAt else None)
      ensures forall i :: i in sent <==>
        && i.user < |old(rows)| && IsDue(old(rows)[i.user], now)
        && old(rows)[i.user].trialEndsAt == Some(i.endsAt) && accepts(i.user)
    {
      var before := rows;
      var due := DueItems(rows, now);
      rows := MarkedRows(rows, now);
      sent := [];
      for n := 0 to |due|
        invariant |rows| == |before|
        invariant forall u | 0 <= u < |rows| ::
          rows[u] == if IsDue(before[u], now) && !accepts(u) && Item(u, before[u].trialEndsAt.value) in due[..n]
                     then before[u].(reminderFor := None) else Marked(before[u], now)
        invariant forall i :: i in sent <==> i in due[..n] && accepts(i.user)
      {
        var item := due[n];
        assert due[..n + 1] == due[..n] + [item];
        if !accepts(item.user) {
          if rows[item.user].reminderFor == Some(item.endsAt) {
            rows := rows[item.user := rows[item.user].(reminderFor := None)];
          }
        } else {
          sent := sent + [item];
        }
      }
      assert due[..|due|] == due;
    }
  }

  // ------------------------------------------------------------------ many workers

  /**
   Whether some provider may hold the message after a send that ended in an error: a request that was not
   plainly rejected. A timeout, a network error or a 5xx leaves it open; a 409 says it is already there.
   */
  predicate MayHold(requests: seq<MailRelay.Request>) {
    exists k | 0 <= k < |requests| :: requests[k].outcome != MailRelay.Rejected
  }

  /** The relay knows this when it returns: it is what the replies to its requests were. */
  lemma MayHoldIsInTheReplies(order: seq<MailRelay.Provider>, may: MailRelay.Provider -> bool, script: nat -> MailRelay.Reply)
    ensures var requests := MailRelay.Requests(MailRelay.Turns(order, may, script, 0));
      MayHold(requests) <==>
        exists k | 0 <= k < |requests| :: MailRelay.Judge(requests[k].provider, script(k)) != MailRelay.Rejected
  {
    var requests := MailRelay.Requests(MailRelay.Turns(order, may, script, 0));
    forall k | 0 <= k < |requests| ensures requests[k].outcome == MailRelay.Judge(requests[k].provider, script(k)) {
      MailRelay.RequestsAreJudged(order, may, script, 0, k);
    }
  }

  /**
   `flight` is what each pass of the loop has marked and not settled. `sent` records deliveries, `held` the
   messages of failed sends that a provider may hold all the same, `seen` end dates.
   */
  datatype World = World(
    now: Time, rows: seq<Row>, flight: map<nat, seq<Item>>, sent: seq<Item>, held: seq<Item>, seen: set<Item>)

  /** A pass that crashes may have had its message delivered; a send that fails carries the relay's requests. */
  datatype Step =
    | Wait(until: Time)
    | MarkDue(worker: nat)
    | Deliver(worker: nat)
    | Fail(worker: nat, requests: seq<MailRelay.Request>)
    | Crash(worker: nat, delivered: bool)
    | SetEnd(user: nat, endsAt: Option<Time>)
    | SetEligible(user: nat, eligible: bool)

  predicate Sending(w: World, worker: nat) {
    worker in w.flight && w.flight[worker] != []
  }

  function Apply(w: World, step: Step): World {
    match step
    case Wait(until) => if until < w.now then w else w.(now := until)
    case MarkDue(worker) =>
      if worker in w.flight then w
      else w.(rows := MarkedRows(w.rows, w.now), flight := w.flight[worker := DueItems(w.rows, w.now)])
    case Deliver(worker) =>
      if !Sending(w, worker) then w
      else w.(sent := w.sent + [w.flight[worker][0]], flight := w.flight[worker := w.flight[worker][1..]])
    case Fail(worker, requests) =>
      if !Sending(w, worker) then w
      else w.(rows := Cleared(w.rows, w.flight[worker][0]),
              flight := w.flight[worker := w.flight[worker][1..]],
              held := if MayHold(requests) then w.held + [w.flight[worker][0]] else w.held)
    case Crash(worker, delivered) =>
      w.(sent := if delivered && Sending(w, worker) then w.sent + [w.flight[worker][0]] else w.sent,
         flight := w.flight - {worker})
    case SetEnd(u, endsAt) =>
      if u >= |w.rows| then w
      else w.(rows := w.rows[u := w.rows[u].(trialEndsAt := endsAt)],
              seen := if endsAt.Some? then w.seen + {Item(u, endsAt.value)} else w.seen)
    case SetEligible(u, eligible) =>
      if u >= |w.rows| then w else w.(rows := w.rows[u := w.rows[u].(eligible := eligible)])
  }

  function Run(w: World, steps: seq<Step>): World {
    if |steps| == 0 then w else Apply(Run(w, steps[..|steps| - 1]), steps[|steps| - 1])
  }

  /** The assumption on the webhook: an account's end date never returns to an earlier value. */
  ghost predicate MovesOn(w: World, step: Step) {
    step.SetEnd? && step.endsAt.Some? && step.user < |w.rows| ==>
      w.rows[step.user].trialEndsAt == step.endsAt || Item(step.user, step.endsAt.value) !in w.seen
  }

  ghost predicate AllMoveOn(w: World, steps: seq<Step>) {
    |steps| == 0 || (AllMoveOn(w, steps[..|steps| - 1]) && MovesOn(Run(w, steps[..|steps| - 1]), steps[|steps| - 1]))
  }

  /** Where a reminder can be: waiting in a pass's list, delivered, or with a provider after an unclear send. */
  datatype Place = InFlight(worker: nat, index: nat) | Sent(index: nat) | Held(index: nat)

  predicate Occupied(w: World, p: Place) {
    match p
    case InFlight(worker, index) => worker in w.flight && index < |w.flight[worker]|
    case Sent(index) => index < |w.sent|
    case Held(index) => index < |w.held|
  }

  function At(w: World, p: Place): Item
    requires Occupied(w, p)
  {
    match p
    case InFlight(worker, index) => w.flight[worker][index]
    case Sent(index) => w.sent[index]
    case Held(index) => w.held[index]
  }

  /** No account and end date has two reminders in flight, delivered or held. */
  ghost predicate AtMostOne(w: World) {
    forall p, q | Occupied(w, p) && Occupied(w, q) && p != q :: At(w, p) != At(w, q)
  }

  /**
   A reminder somewhere is for an end date that was seen, and unless it is only held, the row is marked for it
   while that date stands.
   */
  ghost predicate Backed(w: World, p: Place)
    requires Occupied(w, p)
  {
    var i := At(w, p);
    && i.user < |w.rows| && i in w.seen
    && (!p.Held? && w.rows[i.user].trialEndsAt == Some(i.endsAt) ==> w.rows[i.user].reminderFor == Some(i.endsAt))
  }

  ghost predicate Good(w: World) {
    && (forall u | 0 <= u < |w.rows| :: w.rows[u].trialEndsAt.Some? ==> Item(u, w.rows[u].trialEndsAt.value) in w.seen)
    && (forall p | Occupied(w, p) :: Backed(w, p))
    && AtMostOne(w)
  }

  /** The step marks a row again whose message a provider may hold from an unclear send. */
  predicate Remarks(w: World, step: Step) {
    step.MarkDue? && step.worker !in w.flight && exists i | i in DueItems(w.rows, w.now) :: i in w.held
  }

  /** Where the reminder at `p` was before the step, if it was anywhere. */
  function Origin(w: World, step: Step, p: Place): Place {
    match (step, p)
    case (Deliver(worker), InFlight(v, index)) => if v == worker then InFlight(v, index + 1) else p
    case (Deliver(worker), Sent(index)) => if index == |w.sent| then InFlight(worker, 0) else p
    case (Crash(worker, _), Sent(index)) => if index == |w.sent| then InFlight(worker, 0) else p
    case (Fail(worker, _), InFlight(v, index)) => if v == worker then InFlight(v, index + 1) else p
    case (Fail(worker, _), Held(index)) => if index == |w.held| then InFlight(worker, 0) else p
    case _ => p
  }

  predicate Fresh(w: World, step: Step, p: Place) {
    step.MarkDue? && p.InFlight? && p.worker == step.worker && step.worker !in w.flight
  }

  lemma {:induction false} PlacesHaveOrigins(w: World, step: Step, p: Place)
    requires Occupied(Apply(w, step), p) && !Fresh(w, step, p)
    ensures Occupied(w, Origin(w, step, p)) && At(w, Origin(w, step, p)) == At(Apply(w, step), p)
    ensures !p.Held? ==> !Origin(w, step, p).Held?
  {
  }

  lemma {:induction false} OriginsAreDistinct(w: World, step: Step, p: Place, q: Place)
    requires Occupied(Apply(w, step), p) && Occupied(Apply(w, step), q) && p != q
    requires !Fresh(w, step, p) && !Fresh(w, step, q)
    ensures Origin(w, step, p) != Origin(w, step, q)
  {
  }

  /** What a failed send takes off the list: the head, which is then held or nowhere. */
  lemma {:induction false} FailedIsGone(w: World, worker: nat, requests: seq<MailRelay.Request>, p: Place)
    requires Good(w) && Sending(w, worker)
    requires Occupied(Apply(w, Fail(worker, requests)), p) && !p.Held?
    ensures At(Apply(w, Fail(worker, requests)), p) != w.flight[worker][0]
  {
    PlacesHaveOrigins(w, Fail(worker, requests), p);
    assert At(w, InFlight(worker, 0)) == w.flight[worker][0];
    assert Origin(w, Fail(worker, requests), p) != InFlight(worker, 0);
  }

  lemma {:induction false} StepBacked(w: World, step: Step, p: Place)
    requires Good(w) && MovesOn(w, step) && Occupied(Apply(w, step), p)
    ensures Backed(Apply(w, step), p)
  {
    if !Fresh(w, step, p) {
      PlacesHaveOrigins(w, step, p);
      assert Backed(w, Origin(w, step, p));
      if step.Fail? && Sending(w, step.worker) && !p.Held? {
        FailedIsGone(w, step.worker, step.requests, p);
      }
    }
  }

  /** A row is only marked when no reminder for its end date is anywhere, if none is held. */
  lemma {:induction false} FreshIsNew(w: World, worker: nat, elsewhere: Place, p: Place)
    requires Good(w) && !Remarks(w, MarkDue(worker))
    requires Occupied(w, elsewhere) && Fresh(w, MarkDue(worker), p) && Occupied(Apply(w, MarkDue(worker)), p)
    ensures At(Apply(w, MarkDue(worker)), p) != At(w, elsewhere)
  {
    assert Backed(w, elsewhere);
    assert At(Apply(w, MarkDue(worker)), p) in DueItems(w.rows, w.now);
    if elsewhere.Held? { assert At(w, elsewhere) in w.held; }
  }

  lemma {:induction false} StepDistinct(w: World, step: Step, p: Place, q: Place)
    requires Good(w) && !Remarks(w, step)
    requires Occupied(Apply(w, step), p) && Occupied(Apply(w, step), q) && p != q
    ensures At(Apply(w, step), p) != At(Apply(w, step), q)
  {
    if !Fresh(w, step, p) && !Fresh(w, step, q) {
      PlacesHaveOrigins(w, step, p);
      PlacesHaveOrigins(w, step, q);
      OriginsAreDistinct(w, step, p, q);
    } else if !Fresh(w, step, p) {
      PlacesHaveOrigins(w, step, p);
      FreshIsNew(w, step.worker, Origin(w, step, p), q);
    } else if !Fresh(w, step, q) {
      PlacesHaveOrigins(w, step, q);
      FreshIsNew(w, step.worker, Origin(w, step, q), p);
    }
  }

  lemma {:induction false} StepGood(w: World, step: Step)
    requires Good(w) && MovesOn(w, step) && !Remarks(w, step)
    ensures Good(Apply(w, step))
  {
    var w' := Apply(w, step);
    forall p | Occupied(w', p) ensures Backed(w', p) { StepBacked(w, step, p); }
    forall p, q | Occupied(w', p) && Occupied(w', q) && p != q ensures At(w', p) != At(w', q) { StepDistinct(w, step, p, q); }
  }

  /** Marking a held row again puts a second reminder for its end date in flight. */
  lemma {:induction false} RemarkDoubles(w: World, step: Step)
    requires Remarks(w, step)
    ensures !AtMostOne(Apply(w, step))
  {
    var w', items := Apply(w, step), DueItems(w.rows, w.now);
    var i :| i in items && i in w.held;
    var j :| 0 <= j < |items| && items[j] == i;
    var k :| 0 <= k < |w.held| && w.held[k] == i;
    assert Occupied(w', InFlight(step.worker, j)) && At(w', InFlight(step.worker, j)) == i;
    assert Occupied(w', Held(k)) && At(w', Held(k)) == i;
  }

  /**
   Whom a pass reminds: exactly the eligible accounts whose trial ends more than an hour and at most a day from
   now and that are not marked for that end date.
   */
  lemma {:induction false} MarksExactlyTheDue(w: World, worker: nat, i: Item)
    requires worker !in w.flight
    ensures worker in Apply(w, MarkDue(worker)).flight
    ensures i in Apply(w, MarkDue(worker)).flight[worker] <==>
      && i.user < |w.rows| && w.rows[i.user].eligible && w.rows[i.user].trialEndsAt == Some(i.endsAt)
      && w.now + HOUR < i.endsAt <= w.now + 24 * HOUR && w.rows[i.user].reminderFor != Some(i.endsAt)
  {
  }

  // ------------------------------------------------------------------ exactly when a reminder is repeated

  /** At every moment of the run. */
  ghost predicate AlwaysAtMostOne(w: World, steps: seq<Step>) {
    AtMostOne(Run(w, steps)) && (|steps| > 0 ==> AlwaysAtMostOne(w, steps[..|steps| - 1]))
  }

  ghost predicate RemarksAt(w: World, steps: seq<Step>, n: nat)
    requires n < |steps|
  {
    Remarks(Run(w, steps[..n]), steps[n])
  }

  ghost predicate NeverRemarks(w: World, steps: seq<Step>) {
    forall n | 0 <= n < |steps| :: !RemarksAt(w, steps, n)
  }

  lemma {:induction false} NeverRemarksByStep(w: World, steps: seq<Step>, last: nat)
    requires |steps| == last + 1
    ensures NeverRemarks(w, steps) <==> NeverRemarks(w, steps[..last]) && !RemarksAt(w, steps, last)
  {
    forall n | 0 <= n < last ensures RemarksAt(w, steps[..last], n) <==> RemarksAt(w, steps, n) {
      assert steps[..last][..n] == steps[..n];
    }
  }

  lemma {:induction false} AlwaysOneIffNeverRemarked(w: World, steps: seq<Step>)
    requires Good(w) && AllMoveOn(w, steps)
    ensures NeverRemarks(w, steps) ==> Good(Run(w, steps))
    ensures AlwaysAtMostOne(w, steps) <==> NeverRemarks(w, steps)
  {
    if |steps| > 0 {
      var most, last := steps[..|steps| - 1], steps[|steps| - 1];
      AlwaysOneIffNeverRemarked(w, most);
      NeverRemarksByStep(w, steps, |most|);
      if NeverRemarks(w, most) {
        if Remarks(Run(w, most), last) {
          RemarkDoubles(Run(w, most), last);
        } else {
          StepGood(Run(w, most), last);
        }
      }
    }
  }

  /** Step `m` of the run is a failed send of `i` that the relay could not call a plain rejection. */
  ghost predicate UnclearAt(w: World, steps: seq<Step>, m: nat, i: Item)
    requires m < |steps|
  {
    var v := Run(w, steps[..m]);
    && steps[m].Fail? && MayHold(steps[m].requests)
    && Sending(v, steps[m].worker) && v.flight[steps[m].worker][0] == i
  }

  /** Step `n` of the run marks the row of `i` for its end date. */
  ghost predicate MarksAt(w: World, steps: seq<Step>, n: nat, i: Item)
    requires n < |steps|
  {
    var v := Run(w, steps[..n]);
    steps[n].MarkDue? && steps[n].worker !in v.flight && i in DueItems(v.rows, v.now)
  }

  ghost predicate Clash(w: World, steps: seq<Step>, m: nat, n: nat, i: Item)
    requires m < n < |steps|
  {
    UnclearAt(w, steps, m, i) && MarksAt(w, steps, n, i)
  }

  /** Step `n` of the run clashes with an unclear send before it. */
  ghost predicate Clashing(w: World, steps: seq<Step>, n: nat)
    requires n < |steps|
  {
    exists m, i | 0 <= m < n :: Clash(w, steps, m, n, i)
  }

  /** No mark cleared by an unclear send is ever set again. */
  ghost predicate UnclearStaysUnmarked(w: World, steps: seq<Step>) {
    forall n | 0 <= n < |steps| :: !Clashing(w, steps, n)
  }

  /** What is held is what the unclear sends of the run left there. */
  lemma {:induction false} HeldAreTheUnclear(w: World, steps: seq<Step>, i: Item)
    requires w.held == []
    ensures i in Run(w, steps).held <==> exists m | 0 <= m < |steps| :: UnclearAt(w, steps, m, i)
  {
    if |steps| > 0 {
      var n := |steps| - 1;
      var most := steps[..n];
      HeldAreTheUnclear(w, most, i);
      forall m | 0 <= m < n ensures UnclearAt(w, most, m, i) <==> UnclearAt(w, steps, m, i) {
        assert most[..m] == steps[..m];
      }
      assert UnclearAt(w, steps, n, i) || (i in Run(w, steps).held <==> i in Run(w, most).held);
    }
  }

  lemma {:induction false} EarlierUnclear(w: World, steps: seq<Step>, n: nat, i: Item)
    requires w.held == [] && n < |steps|
    ensures i in Run(w, steps[..n]).held <==> exists m | 0 <= m < n :: UnclearAt(w, steps, m, i)
  {
    var most := steps[..n];
    HeldAreTheUnclear(w, most, i);
    forall m | 0 <= m < n ensures UnclearAt(w, most, m, i) <==> UnclearAt(w, steps, m, i) {
      assert most[..m] == steps[..m];
    }
  }

  /** A step marks a held row again exactly when it clashes with an unclear send before it. */
  lemma {:induction false} RemarkClashes(w: World, steps: seq<Step>, n: nat)
    requires w.held == [] && n < |steps| && Remarks(Run(w, steps[..n]), steps[n])
    ensures Clashing(w, steps, n)
  {
    var v := Run(w, steps[..n]);
    var i :| i in DueItems(v.rows, v.now) && i in v.held;
    EarlierUnclear(w, steps, n, i);
    var m :| 0 <= m < n && UnclearAt(w, steps, m, i);
    assert Clash(w, steps, m, n, i);
  }

  lemma {:induction false} ClashRemarks(w: World, steps: seq<Step>, n: nat)
    requires w.held == [] && n < |steps| && Clashing(w, steps, n)
    ensures Remarks(Run(w, steps[..n]), steps[n])
  {
    var m, i :| 0 <= m < n && Clash(w, steps, m, n, i);
    EarlierUnclear(w, steps, n, i);
  }

  lemma {:induction false} RemarksAtIffClashing(w: World, steps: seq<Step>, n: nat)
    requires w.held == [] && n < |steps|
    ensures RemarksAt(w, steps, n) <==> Clashing(w, steps, n)
  {
    if RemarksAt(w, steps, n) { RemarkClashes(w, steps, n); }
    if Clashing(w, steps, n) { ClashRemarks(w, steps, n); }
  }

  lemma {:induction false} UnmarkedIffNeverRemarks(w: World, steps: seq<Step>)
    requires w.held == []
    ensures NeverRemarks(w, steps) <==> UnclearStaysUnmarked(w, steps)
  {
    forall n | 0 <= n < |steps| ensures RemarksAt(w, steps, n) <==> Clashing(w, steps, n) {
      RemarksAtIffClashing(w, steps, n);
    }
  }

  /**
   Whatever the workers do, and if end dates never return: at every moment at most one reminder is in flight,
   delivered or held for each account and end date, exactly when no send that failed without a plain
   rejection has its row marked again.
   */
  lemma OneReminderPerEnd(w: World, steps: seq<Step>)
    requires Good(w) && w.held == [] && AllMoveOn(w, steps)
    ensures AlwaysAtMostOne(w, steps) <==> UnclearStaysUnmarked(w, steps)
  {
    AlwaysOneIffNeverRemarked(w, steps);
    UnmarkedIffNeverRemarks(w, steps);
  }

  /** And an unclear send does have its row marked again by the next pass, while the date stands and the window is open. */
  lemma {:induction false} UnclearSendIsRepeated(w: World, worker: nat, requests: seq<MailRelay.Request>, next: nat)
    requires Good(w) && Sending(w, worker) && MayHold(requests) && next !in w.flight
    requires var i := w.flight[worker][0];
      && i.user < |w.rows| && w.rows[i.user].eligible && w.rows[i.user].trialEndsAt == Some(i.endsAt)
      && w.now + HOUR < i.endsAt <= w.now + 24 * HOUR
    ensures var w' := Apply(Apply(w, Fail(worker, requests)), MarkDue(next));
      next in w'.flight && w.flight[worker][0] in w'.flight[next] && w.flight[worker][0] in w'.held
  {
    assert Backed(w, InFlight(worker, 0));
    var v := Apply(w, Fail(worker, requests));
    assert IsDue(v.rows[w.flight[worker][0].user], v.now);
  }

  /** One row whose trial ends in twelve hours, and nothing sent yet. */
  function OneTrial(): World {
    World(0, [Row(true, Some(12 * HOUR), None)], map[], [], [], {Item(0, 12 * HOUR)})
  }

  lemma {:induction false} RunOneMore(w: World, steps: seq<Step>, step: Step)
    ensures Run(w, steps + [step]) == Apply(Run(w, steps), step)
  {
    assert (steps + [step])[..|steps|] == steps;
  }

  /** A run that sets no end date satisfies the assumption. */
  lemma {:induction false} NothingReturns(w: World, steps: seq<Step>)
    requires forall k | 0 <= k < |steps| :: !steps[k].SetEnd?
    ensures AllMoveOn(w, steps)
  {
    if |steps| > 0 {
      assert !steps[|steps| - 1].SetEnd?;
      NothingReturns(w, steps[..|steps| - 1]);
    }
  }

  /** A run that ends with the same reminder delivered and, from an earlier 409, held by a provider. */
  lemma {:induction false} TwoReminders() returns (steps: seq<Step>)
    ensures Good(OneTrial()) && AllMoveOn(OneTrial(), steps)
    ensures Run(OneTrial(), steps).sent == Run(OneTrial(), steps).held == [Item(0, 12 * HOUR)]
  {
    var conflict := [MailRelay.Request(MailRelay.Resend, MailRelay.Conflict)];
    assert MayHold(conflict) by { assert conflict[0].outcome != MailRelay.Rejected; }
    var w, i := OneTrial(), Item(0, 12 * HOUR);
    var row := w.rows[0];
    assert w.rows[..0] == [];
    assert DueItems([row], 0) == [i];
    steps := [MarkDue(0)];
    assert steps[..0] == [];
    assert Run(w, steps) == World(0, [row.(reminderFor := Some(12 * HOUR))], map[0 := [i]], [], [], w.seen);
    RunOneMore(w, steps, Fail(0, conflict));
    steps := steps + [Fail(0, conflict)];
    assert Run(w, steps) == World(0, [row], map[0 := []], [], [i], w.seen);
    RunOneMore(w, steps, MarkDue(1));
    steps := steps + [MarkDue(1)];
    assert Run(w, steps).flight[1] == [i];
    RunOneMore(w, steps, Deliver(1));
    steps := steps + [Deliver(1)];
    NothingReturns(w, steps);
  }

  /** A failed send is tried again: its row is due as long as the date stands and the window is open. */
  lemma {:induction false} FailedReminderIsDueAgain(w: World, worker: nat, requests: seq<MailRelay.Request>)
    requires Good(w) && Sending(w, worker)
    ensures w.flight[worker][0].user < |w.rows|
    ensures var i := w.flight[worker][0];
      var row := Apply(w, Fail(worker, requests)).rows[i.user];
      row.eligible && row.trialEndsAt == Some(i.endsAt) && w.now + HOUR < i.endsAt <= w.now + 24 * HOUR ==> IsDue(row, w.now)
  {
    assert Backed(w, InFlight(worker, 0));
  }

  /**
   A failed send clears at most its own mark: the row is marked for exactly that end date, and no
   other reminder for it is in flight or delivered, so a newer mark is never erased.
   */
  lemma {:induction false} FailClearsOnlyItsOwn(w: World, worker: nat, requests: seq<MailRelay.Request>, u: nat, p: Place)
    requires Good(w) && Sending(w, worker) && u < |w.rows|
    requires Apply(w, Fail(worker, requests)).rows[u] != w.rows[u]
    requires Occupied(w, p) && p != InFlight(worker, 0)
    ensures var i := w.flight[worker][0];
      u == i.user && w.rows[u].reminderFor == Some(i.endsAt) && At(w, p) != i
  {
    assert Occupied(w, InFlight(worker, 0));
  }

  /** What the assumption guards against: an end date that returns is reminded of a second time. */
  lemma {:induction false} ReturningEndIsRemindedAgain(w: World, k: nat, worker: nat)
    requires Good(w) && k < |w.sent| && worker !in w.flight
    requires var i := w.sent[k];
      && i.user < |w.rows|
      && w.rows[i.user].eligible && w.now + HOUR < i.endsAt <= w.now + 24 * HOUR
      && w.rows[i.user].reminderFor != Some(i.endsAt)
    ensures var w' := Run(w, [SetEnd(w.sent[k].user, Some(w.sent[k].endsAt)), MarkDue(worker)]);
      worker in w'.flight && w.sent[k] in w'.flight[worker] && k < |w'.sent| && w'.sent[k] == w.sent[k]
  {
    var i := w.sent[k];
    assert Backed(w, Place.Sent(k));
    var first := SetEnd(i.user, Some(i.endsAt));
    assert [first, MarkDue(worker)][..1] == [first] && [first][..0] == [];
    assert Run(w, [first]) == Apply(w, first);
    assert IsDue(Apply(w, first).rows[i.user], w.now);
  }
}
