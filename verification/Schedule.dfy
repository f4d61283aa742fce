/** When a target is due for another scan, and what changed when one lands. */
module Schedule {
  import opened Clock

  datatype Cadence = Manual | Weekly | Monthly

  function Interval(cadence: Cadence): Option<int> {
    match cadence
    case Manual => None
    case Weekly => Some(7 * DAY)
    case Monthly => Some(30 * DAY)
  }

  datatype NotDue = NotScheduled | TooSoon | VerificationLapsed

  function Due(cadence: Cadence, lastScheduledAt: Option<Time>, verificationExpiresAt: Option<Time>, now: Time)
    : (r: Result<(), NotDue>)
    ensures r.Ok? <==>
      && cadence != Manual && verificationExpiresAt.Some? && now < verificationExpiresAt.value
      && (lastScheduledAt.Some? ==> lastScheduledAt.value + (if cadence == Weekly then 7 else 30) * DAY <= now)
    ensures r == Err(NotScheduled) <==> cadence == Manual
    ensures r == Err(VerificationLapsed) <==>
      cadence != Manual && (verificationExpiresAt.Some? ==> verificationExpiresAt.value <= now)
  {
    match Interval(cadence)
    case None => Err(NotScheduled)
    case Some(interval) =>
      if verificationExpiresAt == None || verificationExpiresAt.value <= now then Err(VerificationLapsed)
      else if lastScheduledAt == None || now - lastScheduledAt.value >= interval then Ok(())
      else Err(TooSoon)
  }

  datatype Change =
    | NoChange
    | Worse(from: nat, to: nat)
    | Better(from: nat, to: nat)
    | Resolved(from: nat)
    | Appeared(to: nat)
    | Replaced(unseen: nat, to: nat)

  function Compare(previous: Option<nat>, current: nat): (r: Change)
    ensures r == NoChange <==> previous == None || previous == Some(current)
  {
    match previous
    case None => NoChange
    case Some(p) =>
      if p == current then NoChange
      else if p == 0 then Appeared(current)
      else if current == 0 then Resolved(p)
      else if current > p then Worse(p, current)
      else Better(p, current)
  }

  /** How many entries of `current` the previous scan did not contain. */
  function CountUnseen(current: seq<string>, previous: seq<string>): nat {
    if current == [] then 0
    else (if current[0] in previous then 0 else 1) + CountUnseen(current[1..], previous)
  }

  function CompareIdentities(previous: Option<seq<string>>, current: seq<string>): Change {
    match previous
    case None => NoChange
    case Some(keys) =>
      var unseen := CountUnseen(current, keys);
      if unseen > 0 && |current| <= |keys| && |keys| > 0 then Replaced(unseen, |current|)
      else Compare(Some(|keys|), |current|)
  }

  ghost function Keys(keys: seq<string>): set<string> {
    set k | k in keys
  }

  ghost predicate Distinct(keys: seq<string>) {
    forall i, j | 0 <= i < j < |keys| :: keys[i] != keys[j]
  }

  lemma {:induction false} KeyCount(keys: seq<string>)
    ensures |Keys(keys)| <= |keys|
    ensures Distinct(keys) <==> |Keys(keys)| == |keys|
  {
    if keys != [] {
      var rest := keys[1..];
      KeyCount(rest);
      if keys[0] in rest {
        var j :| 0 <= j < |rest| && rest[j] == keys[0];
        assert keys[0] == keys[j + 1];
        assert Keys(keys) == Keys(rest);
      } else {
        assert Keys(keys) == Keys(rest) + {keys[0]};
        if Distinct(rest) {
          forall i, j | 0 <= i < j < |keys| ensures keys[i] != keys[j] {
            if i == 0 { assert keys[j] == rest[j - 1]; } else { assert keys[i] == rest[i - 1] && keys[j] == rest[j - 1]; }
          }
        } else {
          var i, j :| 0 <= i < j < |rest| && rest[i] == rest[j];
          assert keys[i + 1] == keys[j + 1];
        }
      }
    }
  }

  lemma KeysFromFront(keys: seq<string>)
    requires keys != []
    ensures Keys(keys) == Keys(keys[1..]) + {keys[0]}
    ensures Distinct(keys) ==> Distinct(keys[1..]) && keys[0] !in Keys(keys[1..])
  {
    assert keys == [keys[0]] + keys[1..];
  }

  lemma OneMore<T>(a: set<T>, b: set<T>, x: T)
    requires x !in a
    ensures |a + {x} - b| == |a - b| + (if x in b then 0 else 1)
  {
    assert a + {x} - b == if x in b then a - b else (a - b) + {x};
  }

  /** The count behind `Replaced` is the number of keys the last scan did not have. */
  lemma {:induction false} UnseenIsSetDifference(current: seq<string>, previous: seq<string>)
    requires Distinct(current)
    ensures CountUnseen(current, previous) == |Keys(current) - Keys(previous)|
  {
    if current == [] {
      assert Keys(current) - Keys(previous) == {};
    } else {
      KeysFromFront(current);
      UnseenIsSetDifference(current[1..], previous);
      OneMore(Keys(current[1..]), Keys(previous), current[0]);
    }
  }

  lemma SameSize<T>(a: set<T>, b: set<T>)
    requires a - b == {}
    ensures a <= b && |a| <= |b|
    ensures |a| == |b| ==> a == b
  {
    forall x | x in a ensures x in b {
      assert x !in a - b;
    }
    assert b == a + (b - a);
  }

  /**
   A message is sent exactly when the set of issues differs from the last scan's: no change that
   matters is silent, and no email says "same as last week".
   */
  lemma SilentIffSameIssues(previous: Option<seq<string>>, current: seq<string>)
    requires Distinct(current)
    requires previous.Some? ==> Distinct(previous.value)
    ensures CompareIdentities(previous, current) == NoChange <==>
      (previous == None || Keys(previous.value) == Keys(current))
  {
    if previous.Some? {
      UnseenIsSetDifference(current, previous.value);
      KeyCount(current);
      KeyCount(previous.value);
      var now, before := Keys(current), Keys(previous.value);
      if now - before == {} {
        SameSize(now, before);
      } else {
        assert now != before;
      }
    }
  }

  /** What each verdict says about the issues themselves, not only about their number. */
  lemma VerdictMeaning(previous: seq<string>, current: seq<string>)
    requires Distinct(current) && Distinct(previous)
    ensures var before, now := Keys(previous), Keys(current);
      match CompareIdentities(Some(previous), current)
      case NoChange => now == before
      case Better(from, to) => {} < now < before && from == |before| && to == |now|
      case Resolved(from) => now == {} && from == |before| > 0
      case Appeared(to) => before == {} && to == |now| > 0
      case Worse(from, to) => {} < before && from == |before| < |now| == to
      case Replaced(unseen, to) => unseen == |now - before| > 0 && to == |now| <= |before|
  {
    SilentIffSameIssues(Some(previous), current);
    UnseenIsSetDifference(current, previous);
    KeyCount(current);
    KeyCount(previous);
    var before, now := Keys(previous), Keys(current);
    if now - before == {} {
      SameSize(now, before);
    }
  }

  /** Without distinct keys the comparison is by count, so equal sets can still be reported. */
  lemma RepeatedKeyIsReported(key: string)
    ensures Keys([key]) == Keys([key, key])
    ensures CompareIdentities(Some([key]), [key, key]) == Worse(1, 2)
  {
    assert Keys([key]) == {key} == Keys([key, key]);
    assert [key, key][1..] == [key];
    assert CountUnseen([key], [key]) == 0 by { assert [key][1..] == []; }
  }

  function Once(keys: seq<string>): (once: seq<string>)
    ensures Keys(once) == Keys(keys) && Distinct(once)
  {
    if keys == [] then [] else
    var rest := Once(keys[1..]);
    assert Keys(keys) == Keys(keys[1..]) + {keys[0]};
    if keys[0] in rest then
      assert keys[0] in Keys(rest);
      rest
    else
      assert Keys([keys[0]] + rest) == Keys(rest) + {keys[0]};
      [keys[0]] + rest
  }

  lemma {:induction false} NoneUnseen(current: seq<string>, previous: seq<string>)
    requires Keys(current) <= Keys(previous)
    ensures CountUnseen(current, previous) == 0
  {
    if current != [] {
      assert current[0] in Keys(current) && current[0] in Keys(previous);
      assert Keys(current[1..]) <= Keys(current);
      NoneUnseen(current[1..], previous);
    }
  }

  /** Whatever the last scan had, the silence means the same issues. */
  ghost predicate ComparesBySet(current: seq<string>) {
    forall previous | Distinct(previous) ::
      CompareIdentities(Some(previous), current) == NoChange <==> Keys(previous) == Keys(current)
  }

  /** The comparison is one of sets exactly when the scan's own keys are distinct. */
  lemma {:induction false} ComparesBySetIffDistinct(current: seq<string>)
    ensures ComparesBySet(current) <==> Distinct(current)
  {
    if Distinct(current) {
      forall previous | Distinct(previous)
        ensures CompareIdentities(Some(previous), current) == NoChange <==> Keys(previous) == Keys(current)
      {
        SilentIffSameIssues(Some(previous), current);
      }
    } else {
      var previous := Once(current);
      KeyCount(previous);
      KeyCount(current);
      NoneUnseen(current, previous);
      assert CompareIdentities(Some(previous), current) != NoChange;
    }
  }
}
