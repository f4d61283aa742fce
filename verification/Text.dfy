/** Searching, splitting, ordering and trimming ASCII text. */
module Text {
  import opened Clock

  predicate OccursAt(s: string, pat: string, i: nat) {
    i + |pat| <= |s| && s[i..i + |pat|] == pat
  }

  lemma TailSlice(s: string, i: nat, j: nat)
    requires 0 < i <= j <= |s|
    ensures s[i..j] == s[1..][i - 1..j - 1]
  {
    var tail := s[1..];
    assert |tail| == |s| - 1;
    forall k | 0 <= k < j - i ensures s[i..j][k] == tail[i - 1..j - 1][k] {
      assert tail[i - 1 + k] == s[i + k];
    }
  }

  lemma OccursInTail(s: string, pat: string)
    requires s != ""
    ensures forall i: nat | i > 0 :: OccursAt(s, pat, i) == OccursAt(s[1..], pat, i - 1)
  {
    forall i: nat | i > 0 ensures OccursAt(s, pat, i) == OccursAt(s[1..], pat, i - 1) {
      var end := i + |pat|;
      assert i - 1 + |pat| == end - 1 && |s[1..]| == |s| - 1;
      if end <= |s| {
        TailSlice(s, i, end);
        assert s[1..][i - 1..i - 1 + |pat|] == s[1..][i - 1..end - 1];
      }
    }
  }

  /** Where `pat` first occurs. */
  function Find(s: string, pat: string): (r: Option<nat>)
    ensures r.Some? ==> OccursAt(s, pat, r.value) && forall i: nat | i < r.value :: !OccursAt(s, pat, i)
    ensures r == None ==> forall i: nat :: !OccursAt(s, pat, i)
  {
    if |s| < |pat| then None
    else if s[..|pat|] == pat then Some(0)
    else
      OccursInTail(s, pat);
      match Find(s[1..], pat)
      case None => None
      case Some(i) => Some(i + 1)
  }

  predicate Contains(s: string, pat: string) {
    Find(s, pat).Some?
  }

  function Split(s: string, sep: string): (parts: seq<string>)
    requires |sep| > 0
    ensures |parts| > 0
    decreases |s|
  {
    match Find(s, sep)
    case None => [s]
    case Some(i) => [s[..i]] + Split(s[i + |sep|..], sep)
  }

  function Join(parts: seq<string>, sep: string): string {
    if |parts| == 0 then ""
    else if |parts| == 1 then parts[0]
    else parts[0] + sep + Join(parts[1..], sep)
  }

  lemma {:induction false} SplitPartsAreFree(s: string, sep: string)
    requires |sep| > 0
    ensures forall k | 0 <= k < |Split(s, sep)| :: !Contains(Split(s, sep)[k], sep)
    decreases |s|
  {
    if Find(s, sep).Some? {
      var i := Find(s, sep).value;
      SplitPartsAreFree(s[i + |sep|..], sep);
      if Contains(s[..i], sep) {
        var j := Find(s[..i], sep).value;
        assert s[..i][j..j + |sep|] == s[j..j + |sep|];
        assert OccursAt(s, sep, j);
      }
    }
  }

  /** A separator that no proper prefix of it ends: it cannot start inside one part and end in the next. */
  ghost predicate CleanSeparator(sep: string) {
    |sep| > 0 && forall k | 1 <= k < |sep| :: sep[k..] != sep[..|sep| - k]
  }

  lemma {:induction false} NoEarlierSeparator(part: string, sep: string, rest: string, j: nat)
    requires CleanSeparator(sep) && !Contains(part, sep) && j < |part|
    ensures !OccursAt(part + sep + rest, sep, j)
  {
    var s := part + sep + rest;
    if j + |sep| <= |part| {
      assert s[j..j + |sep|] == part[j..j + |sep|];
      assert !OccursAt(part, sep, j);
    } else {
      var k := |part| - j;
      assert s[j..j + |sep|][k..] == sep[..|sep| - k];
    }
  }

  /** After a part without the separator, the first separator is the one appended. */
  lemma {:induction false} FirstSeparator(part: string, sep: string, rest: string)
    requires CleanSeparator(sep) && !Contains(part, sep)
    ensures Find(part + sep + rest, sep) == Some(|part|)
  {
    var s := part + sep + rest;
    assert s[|part|..|part| + |sep|] == sep;
    assert OccursAt(s, sep, |part|);
    forall j: nat | j < |part| ensures !OccursAt(s, sep, j) { NoEarlierSeparator(part, sep, rest, j); }
  }

  lemma {:induction false} SplitCutsFirst(part: string, sep: string, rest: string)
    requires CleanSeparator(sep) && !Contains(part, sep)
    ensures Split(part + sep + rest, sep) == [part] + Split(rest, sep)
  {
    FirstSeparator(part, sep, rest);
    var s := part + sep + rest;
    assert s[..|part|] == part && s[|part| + |sep|..] == rest;
  }

  lemma {:induction false} SplitUndoesJoin(parts: seq<string>, sep: string)
    requires CleanSeparator(sep) && |parts| > 0
    requires forall k | 0 <= k < |parts| :: !Contains(parts[k], sep)
    ensures Split(Join(parts, sep), sep) == parts
  {
    if |parts| > 1 {
      SplitCutsFirst(parts[0], sep, Join(parts[1..], sep));
      SplitUndoesJoin(parts[1..], sep);
      assert parts == [parts[0]] + parts[1..];
    }
  }

  lemma {:induction false} JoinAppend(parts: seq<string>, last: string, sep: string)
    requires |parts| > 0
    ensures Join(parts + [last], sep) == Join(parts, sep) + sep + last
  {
    if |parts| == 1 {
      assert (parts + [last])[1..] == [last];
    } else {
      JoinAppend(parts[1..], last, sep);
      assert (parts + [last])[1..] == parts[1..] + [last];
      assert Join(parts + [last], sep) == parts[0] + sep + (Join(parts[1..], sep) + sep + last);
    }
  }

  // ------------------------------------------------------------------ order

  /** Scalar by scalar, the shorter first on a tie: the order of the encoded bytes. */
  predicate Less(a: string, b: string) {
    if b == "" then false
    else if a == "" then true
    else a[0] < b[0] || (a[0] == b[0] && Less(a[1..], b[1..]))
  }

  lemma {:induction false} LessTotal(a: string, b: string)
    ensures Less(a, b) || a == b || Less(b, a)
    ensures !(Less(a, b) && Less(b, a)) && !Less(a, a)
    decreases |a|, |b|
  {
    if a != "" { LessIrreflexive(a); }
    if a != "" && b != "" {
      LessTotal(a[1..], b[1..]);
      assert a == [a[0]] + a[1..] && b == [b[0]] + b[1..];
    }
  }

  lemma {:induction false} LessIrreflexive(a: string)
    ensures !Less(a, a)
  {
    if a != "" { LessIrreflexive(a[1..]); }
  }

  lemma {:induction false} LessTransitive(a: string, b: string, c: string)
    requires Less(a, b) && Less(b, c)
    ensures Less(a, c)
  {
    if a != "" && a[0] == b[0] && b[0] == c[0] { LessTransitive(a[1..], b[1..], c[1..]); }
  }

  // ------------------------------------------------------------------ trimming, case, last occurrences

  predicate IsSpace(c: char) {
    c == ' ' || '\t' <= c <= '\r'
  }

  function TrimStart(s: string): string {
    if s != "" && IsSpace(s[0]) then TrimStart(s[1..]) else s
  }

  function TrimEnd(s: string): string {
    if s != "" && IsSpace(s[|s| - 1]) then TrimEnd(s[..|s| - 1]) else s
  }

  function Trim(s: string): string {
    TrimEnd(TrimStart(s))
  }

  /** What follows the last `c`, or everything. */
  function AfterLast(s: string, c: char): string {
    if c !in s then s
    else if s[|s| - 1] == c then ""
    else AfterLast(s[..|s| - 1], c) + [s[|s| - 1]]
  }

  /** What precedes the last `c`, or everything. */
  function BeforeLast(s: string, c: char): (r: string)
    ensures |r| <= |s|
    ensures c in s ==> |r| < |s|
  {
    if c !in s then s
    else if s[|s| - 1] == c then s[..|s| - 1]
    else BeforeLast(s[..|s| - 1], c)
  }

  function LowerChar(c: char): char {
    if 'A' <= c <= 'Z' then (c as int + 32) as char else c
  }

  function Lower(s: string): (r: string)
    ensures |r| == |s| && forall k | 0 <= k < |s| :: r[k] == LowerChar(s[k])
  {
    seq(|s|, k requires 0 <= k < |s| => LowerChar(s[k]))
  }
}
