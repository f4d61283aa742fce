/** What triage promises about every report: nothing is lost, and its form depends only on what was found. */
module TriageFacts {
  import opened Clock
  import opened Text
  import opened Triage

  ghost predicate DistinctTitles(rows: seq<Row>) {
    forall i, j | 0 <= i < j < |rows| :: rows[i].title != rows[j].title
  }

  function CountTitle(members: seq<Row>, title: string): nat {
    if |members| == 0 then 0 else
    CountTitle(members[..|members| - 1], title) + (if members[|members| - 1].title == title then 1 else 0)
  }

  /** The highest priority among the members with this title. */
  ghost predicate TopOf(members: seq<Row>, title: string, p: Priority) {
    && (exists m :: m in members && m.title == title && m.priority == p)
    && (forall m | m in members && m.title == title :: Rank(m.priority) <= Rank(p))
  }

  /** The row stands for all members of its title, and for no other. */
  ghost predicate StandsFor(r: Row, members: seq<Row>) {
    r.occurrences == CountTitle(members, r.title) && TopOf(members, r.title, r.priority)
  }

  ghost predicate FoldOf(rows: seq<Row>, members: seq<Row>) {
    && DistinctTitles(rows)
    && (forall k | 0 <= k < |rows| :: StandsFor(rows[k], members))
    && (forall m | m in members :: RowOf(rows, m.title).Some?)
  }

  lemma {:induction false} CountPositive(members: seq<Row>, title: string)
    ensures CountTitle(members, title) > 0 <==> exists m :: m in members && m.title == title
  {
    if |members| > 0 {
      var most := members[..|members| - 1];
      CountPositive(most, title);
      assert members == most + [members[|members| - 1]];
    }
  }

  lemma {:induction false} StandsForMore(r: Row, members: seq<Row>, f: Row)
    requires StandsFor(r, members) && r.title != f.title
    ensures StandsFor(r, members + [f])
  {
    assert (members + [f])[..|members|] == members;
    var m :| m in members && m.title == r.title && m.priority == r.priority;
    assert m in members + [f];
  }

  lemma {:induction false} MergedStandsFor(r: Row, members: seq<Row>, f: Row)
    requires StandsFor(r, members) && r.title == f.title
    ensures StandsFor(Merge(r, f), members + [f])
  {
    assert (members + [f])[..|members|] == members;
    var m :| m in members && m.title == r.title && m.priority == r.priority;
    assert m in members + [f] && f in members + [f];
  }

  lemma {:induction false} AbsorbStands(rows: seq<Row>, members: seq<Row>, f: Row)
    requires FoldOf(rows, members) && f.occurrences == 1
    ensures forall k | 0 <= k < |Absorb(rows, f)| :: StandsFor(Absorb(rows, f)[k], members + [f])
  {
    var after := Absorb(rows, f);
    forall k | 0 <= k < |after| ensures StandsFor(after[k], members + [f]) {
      if k < |rows| && rows[k].title != f.title {
        StandsForMore(rows[k], members, f);
      } else if k < |rows| {
        assert RowOf(rows, f.title).value == k;
        MergedStandsFor(rows[k], members, f);
      } else {
        NewStandsFor(rows, members, f);
      }
    }
  }

  lemma {:induction false} NewStandsFor(rows: seq<Row>, members: seq<Row>, f: Row)
    requires FoldOf(rows, members) && f.occurrences == 1 && RowOf(rows, f.title) == None
    ensures StandsFor(f, members + [f])
  {
    assert (members + [f])[..|members|] == members;
    CountPositive(members, f.title);
    assert f in members + [f];
  }

  lemma {:induction false} AbsorbCovers(rows: seq<Row>, f: Row, title: string)
    requires title == f.title || RowOf(rows, title).Some?
    ensures RowOf(Absorb(rows, f), title).Some?
  {
    var after := Absorb(rows, f);
    if title == f.title {
      assert after[if RowOf(rows, title).Some? then RowOf(rows, title).value else |rows|].title == title;
    } else {
      assert after[RowOf(rows, title).value].title == title;
    }
  }

  lemma {:induction false} AbsorbKeepsFold(rows: seq<Row>, members: seq<Row>, f: Row)
    requires FoldOf(rows, members) && f.occurrences == 1
    ensures FoldOf(Absorb(rows, f), members + [f])
  {
    AbsorbStands(rows, members, f);
    forall m | m in members + [f] ensures RowOf(Absorb(rows, f), m.title).Some? { AbsorbCovers(rows, f, m.title); }
  }

  lemma {:induction false} CollapseFolds(members: seq<Row>)
    requires forall m | m in members :: m.occurrences == 1
    ensures FoldOf(Collapse(members), members)
  {
    if |members| > 0 {
      var most := members[..|members| - 1];
      assert members == most + [members[|members| - 1]];
      CollapseFolds(most);
      AbsorbKeepsFold(Collapse(most), most, members[|members| - 1]);
    }
  }

  // ------------------------------------------------------------------ conservation

  function Occurrences(rows: seq<Row>): nat {
    if |rows| == 0 then 0 else Occurrences(rows[..|rows| - 1]) + rows[|rows| - 1].occurrences
  }

  /** `TriagedScan::observations`. */
  function Observations(scan: TriagedScan): nat {
    Occurrences(scan.actionable) + Occurrences(scan.review) + Occurrences(scan.inventory)
  }

  lemma {:induction false} OccurrencesSplit(a: seq<Row>, b: seq<Row>)
    ensures Occurrences(a + b) == Occurrences(a) + Occurrences(b)
  {
    if |b| == 0 {
      assert a + b == a;
    } else {
      OccurrencesSplit(a, b[..|b| - 1]);
      assert (a + b)[..|a + b| - 1] == a + b[..|b| - 1];
    }
  }

  lemma {:induction false} OccurrencesUpdate(rows: seq<Row>, i: nat, r: Row)
    requires i < |rows|
    ensures Occurrences(rows[i := r]) == Occurrences(rows) - rows[i].occurrences + r.occurrences
  {
    var n := |rows| - 1;
    if i < n {
      OccurrencesUpdate(rows[..n], i, r);
      assert rows[i := r][..n] == rows[..n][i := r];
    } else {
      assert rows[i := r][..n] == rows[..n];
    }
  }

  lemma {:induction false} CollapseConserves(members: seq<Row>)
    requires forall m | m in members :: m.occurrences == 1
    ensures Occurrences(Collapse(members)) == |members|
  {
    if |members| > 0 {
      var most, f := members[..|members| - 1], members[|members| - 1];
      CollapseConserves(most);
      var rows := Collapse(most);
      match RowOf(rows, f.title) {
        case None => assert (rows + [f])[..|rows|] == rows;
        case Some(i) => OccurrencesUpdate(rows, i, Merge(rows[i], f));
      }
    }
  }

  lemma {:induction false} InsertConserves(r: Row, sorted: seq<Row>)
    ensures Occurrences(Insert(r, sorted)) == r.occurrences + Occurrences(sorted)
    ensures multiset(Insert(r, sorted)) == multiset{r} + multiset(sorted)
  {
    assert Occurrences([r]) == r.occurrences by { assert [r][..0] == []; }
    OccurrencesSplit([r], sorted);
    if sorted != [] {
      assert sorted == [sorted[0]] + sorted[1..];
      InsertConserves(r, sorted[1..]);
      OccurrencesSplit([sorted[0]], Insert(r, sorted[1..]));
      OccurrencesSplit([sorted[0]], sorted[1..]);
    }
  }

  lemma {:induction false} SortConserves(rows: seq<Row>)
    ensures Occurrences(Sort(rows)) == Occurrences(rows)
    ensures multiset(Sort(rows)) == multiset(rows)
  {
    if rows != [] {
      SortConserves(rows[1..]);
      InsertConserves(rows[0], Sort(rows[1..]));
      assert rows == [rows[0]] + rows[1..];
      OccurrencesSplit([rows[0]], rows[1..]);
      assert Occurrences([rows[0]]) == rows[0].occurrences by { assert [rows[0]][..0] == []; }
    }
  }

  lemma {:induction false} BucketMembers(findings: seq<Finding>, d: Disposition)
    ensures forall m | m in Bucket(findings, d) :: m.occurrences == 1 && m.disposition == d
    ensures forall m :: m in Bucket(findings, d) <==> exists f :: f in findings && TriageOne(f) == m && m.disposition == d
  {
    if |findings| > 0 {
      var most, last := findings[..|findings| - 1], findings[|findings| - 1];
      BucketMembers(most, d);
      assert findings == most + [last];
    }
  }

  lemma {:induction false} BucketsPartition(findings: seq<Finding>)
    ensures |Bucket(findings, Act)| + |Bucket(findings, Review)| + |Bucket(findings, Inventory)| == |findings|
  {
    if |findings| > 0 { BucketsPartition(findings[..|findings| - 1]); }
  }

  /** Nothing is silently discarded: every raw result is counted in exactly one printed row. */
  lemma NothingIsLost(findings: seq<Finding>)
    ensures Observations(Triaged(findings)) == |findings|
  {
    BucketsPartition(findings);
    SectionConserves(findings, Act);
    SectionConserves(findings, Review);
    SectionConserves(findings, Inventory);
  }

  lemma {:induction false} SectionConserves(findings: seq<Finding>, d: Disposition)
    ensures Occurrences(Section(findings, d)) == |Bucket(findings, d)|
  {
    BucketMembers(findings, d);
    CollapseConserves(Bucket(findings, d));
    SortConserves(Collapse(Bucket(findings, d)));
  }

  // ------------------------------------------------------------------ order

  ghost predicate StrictlyOrdered(rows: seq<Row>) {
    forall i, j | 0 <= i < j < |rows| :: Before(rows[i], rows[j])
  }

  lemma BeforeTransitive(a: Row, b: Row, c: Row)
    requires Before(a, b) && Before(b, c)
    ensures Before(a, c)
  {
    if Rank(a.priority) == Rank(c.priority) { LessTransitive(a.title, b.title, c.title); }
  }

  lemma {:induction false} InsertOrders(r: Row, sorted: seq<Row>)
    requires StrictlyOrdered(sorted) && forall k | 0 <= k < |sorted| :: sorted[k].title != r.title
    ensures StrictlyOrdered(Insert(r, sorted))
  {
    if sorted != [] {
      LessTotal(r.title, sorted[0].title);
      if Before(sorted[0], r) {
        var rest := Insert(r, sorted[1..]);
        InsertOrders(r, sorted[1..]);
        InsertConserves(r, sorted[1..]);
        forall j | 0 <= j < |rest| ensures Before(sorted[0], rest[j]) {
          assert rest[j] in multiset(rest);
          if rest[j] != r {
            assert rest[j] in sorted[1..];
            var i :| 0 <= i < |sorted[1..]| && sorted[1..][i] == rest[j];
            assert Before(sorted[0], sorted[i + 1]);
          }
        }
      } else {
        forall j | 0 <= j < |sorted| ensures Before(r, sorted[j]) {
          if j > 0 { BeforeTransitive(r, sorted[0], sorted[j]); }
        }
      }
    }
  }

  lemma {:induction false} SortOrders(rows: seq<Row>)
    requires DistinctTitles(rows)
    ensures StrictlyOrdered(Sort(rows))
  {
    if rows != [] {
      var rest := rows[1..];
      assert DistinctTitles(rest) by { assert forall k | 0 <= k < |rest| :: rest[k] == rows[k + 1]; }
      SortOrders(rest);
      SortConserves(rest);
      forall k | 0 <= k < |Sort(rest)| ensures Sort(rest)[k].title != rows[0].title {
        assert Sort(rest)[k] in multiset(Sort(rest));
        var i :| 0 <= i < |rest| && rest[i] == Sort(rest)[k];
        assert rest[i] == rows[i + 1];
      }
      InsertOrders(rows[0], Sort(rest));
    }
  }

  lemma {:induction false} SortKeepsDistinct(rows: seq<Row>)
    requires DistinctTitles(rows)
    ensures DistinctTitles(Sort(rows))
  {
    SortOrders(rows);
    SortConserves(rows);
    var sorted := Sort(rows);
    forall i, j | 0 <= i < j < |sorted| ensures sorted[i].title != sorted[j].title {
      assert sorted[i] in multiset(sorted) && sorted[j] in multiset(sorted);
      var a :| 0 <= a < |rows| && rows[a] == sorted[i];
      var b :| 0 <= b < |rows| && rows[b] == sorted[j];
      assert Before(sorted[i], sorted[j]);
      LessIrreflexive(sorted[i].title);
    }
  }

  /**
   The form of a section: each title once, strictly ordered by priority and then title, and each row
   carries the loudest priority and the number of all findings it stands for. Every finding of the
   section has its row.
   */
  lemma {:induction false} SectionIsCanonical(findings: seq<Finding>, d: Disposition)
    ensures DistinctTitles(Section(findings, d)) && StrictlyOrdered(Section(findings, d))
    ensures forall r | r in Section(findings, d) :: StandsFor(r, Bucket(findings, d))
    ensures forall m | m in Bucket(findings, d) :: exists r :: r in Section(findings, d) && r.title == m.title
  {
    var rows, members := Section(findings, d), Bucket(findings, d);
    var folded := Collapse(members);
    BucketMembers(findings, d);
    CollapseFolds(members);
    SortOrders(folded);
    SortKeepsDistinct(folded);
    SameRowsSorted(folded);
    forall m | m in members ensures exists r :: r in rows && r.title == m.title {
      assert folded[RowOf(folded, m.title).value] in folded;
    }
  }

  lemma {:induction false} SameRowsSorted(rows: seq<Row>)
    ensures forall r :: r in Sort(rows) <==> r in rows
  {
    SortConserves(rows);
    assert forall r :: r in Sort(rows) <==> r in multiset(Sort(rows));
    assert forall r :: r in rows <==> r in multiset(rows);
  }

  // ------------------------------------------------------------------ independence of the order of findings

  datatype Line = Line(title: string, priority: Priority, occurrences: nat)

  function LineOf(r: Row): Line { Line(r.title, r.priority, r.occurrences) }

  function Lines(rows: seq<Row>): (lines: seq<Line>)
    ensures |lines| == |rows| && forall k | 0 <= k < |rows| :: lines[k] == LineOf(rows[k])
  {
    seq(|rows|, k requires 0 <= k < |rows| => LineOf(rows[k]))
  }

  predicate LineBefore(a: Line, b: Line) {
    Precedes(a.priority, a.title, b.priority, b.title)
  }

  ghost predicate OrderedLines(lines: seq<Line>) {
    forall i, j | 0 <= i < j < |lines| :: LineBefore(lines[i], lines[j])
  }

  lemma FirstIsShared(a: seq<Line>, b: seq<Line>)
    requires OrderedLines(a) && OrderedLines(b) && |a| > 0 && (forall l :: l in a <==> l in b)
    ensures |b| > 0 && a[0] == b[0]
  {
    assert a[0] in b;
    assert b[0] in a;
    var i :| 0 <= i < |b| && b[i] == a[0];
    var j :| 0 <= j < |a| && a[j] == b[0];
    if i > 0 && j > 0 {
      assert LineBefore(b[0], b[i]) && LineBefore(a[0], a[j]);
      LessTotal(a[0].title, b[0].title);
    }
  }

  lemma EmptyTogether(a: seq<Line>, b: seq<Line>)
    requires forall l :: l in a <==> l in b
    ensures |a| == 0 <==> |b| == 0
  {
    if |a| > 0 { assert a[0] in a; }
    if |b| > 0 { assert b[0] in b; }
  }

  /** Two strictly ordered lists of the same lines are the same list. */
  lemma {:induction false} OrderDeterminesLines(a: seq<Line>, b: seq<Line>)
    requires OrderedLines(a) && OrderedLines(b) && (forall l :: l in a <==> l in b)
    ensures a == b
  {
    EmptyTogether(a, b);
    if |a| > 0 {
      FirstIsShared(a, b);
      var x, y := a[1..], b[1..];
      assert OrderedLines(x) by { assert forall k | 0 <= k < |x| :: x[k] == a[k + 1]; }
      assert OrderedLines(y) by { assert forall k | 0 <= k < |y| :: y[k] == b[k + 1]; }
      forall l ensures l in x <==> l in y {
        InRest(a, l);
        InRest(b, l);
      }
      OrderDeterminesLines(x, y);
      assert a == [a[0]] + x && b == [b[0]] + y;
    }
  }

  lemma InRest(a: seq<Line>, l: Line)
    requires OrderedLines(a) && |a| > 0
    ensures l in a[1..] <==> l in a && l != a[0]
  {
    if l in a[1..] {
      var k :| 0 <= k < |a[1..]| && a[1..][k] == l;
      assert LineBefore(a[0], a[k + 1]);
      LessIrreflexive(l.title);
    }
  }

  /** How many findings go to section `d` under `title`. */
  function CountFindings(findings: seq<Finding>, d: Disposition, title: string): nat {
    if |findings| == 0 then 0 else
    var last := TriageOne(findings[|findings| - 1]);
    CountFindings(findings[..|findings| - 1], d, title) + (if last.disposition == d && last.title == title then 1 else 0)
  }

  lemma {:induction false} CountThroughBucket(findings: seq<Finding>, d: Disposition, title: string)
    ensures CountTitle(Bucket(findings, d), title) == CountFindings(findings, d, title)
  {
    if |findings| > 0 {
      var before := Bucket(findings[..|findings| - 1], d);
      var last := TriageOne(findings[|findings| - 1]);
      CountThroughBucket(findings[..|findings| - 1], d, title);
      assert (before + [last])[..|before|] == before;
      assert before + [] == before;
    }
  }

  lemma {:induction false} CountFindingsSplit(a: seq<Finding>, b: seq<Finding>, d: Disposition, title: string)
    ensures CountFindings(a + b, d, title) == CountFindings(a, d, title) + CountFindings(b, d, title)
  {
    if |b| == 0 {
      assert a + b == a;
    } else {
      CountFindingsSplit(a, b[..|b| - 1], d, title);
      assert (a + b)[..|a + b| - 1] == a + b[..|b| - 1];
    }
  }

  /** Taking one finding out. */
  lemma {:induction false} CountRemoved(b: seq<Finding>, k: nat, d: Disposition, title: string)
    requires k < |b|
    ensures CountFindings(b, d, title) == CountFindings(b[..k] + b[k + 1..], d, title) + CountFindings([b[k]], d, title)
  {
    assert b == (b[..k] + [b[k]]) + b[k + 1..];
    CountFindingsSplit(b[..k], b[k + 1..], d, title);
    CountFindingsSplit(b[..k] + [b[k]], b[k + 1..], d, title);
    CountFindingsSplit(b[..k], [b[k]], d, title);
  }

  lemma OneRemoved(a: seq<Finding>, b: seq<Finding>) returns (k: nat)
    requires a != [] && multiset(a) == multiset(b)
    ensures k < |b| && b[k] == a[|a| - 1]
    ensures multiset(a[..|a| - 1]) == multiset(b[..k] + b[k + 1..])
  {
    var most, x := a[..|a| - 1], a[|a| - 1];
    assert a == most + [x];
    assert x in multiset(b);
    k :| 0 <= k < |b| && b[k] == x;
    assert b == b[..k] + [x] + b[k + 1..];
    assert multiset(most) == multiset(a) - multiset{x} == multiset(b[..k] + b[k + 1..]);
  }

  lemma {:induction false} CountIgnoresOrder(a: seq<Finding>, b: seq<Finding>, d: Disposition, title: string)
    requires multiset(a) == multiset(b)
    ensures CountFindings(a, d, title) == CountFindings(b, d, title)
    decreases |a|
  {
    if |a| == 0 {
      assert |multiset(b)| == 0;
    } else {
      var n := |a| - 1;
      var k := OneRemoved(a, b);
      CountIgnoresOrder(a[..n], b[..k] + b[k + 1..], d, title);
      CountRemoved(a, n, d, title);
      assert a[..n] + a[n + 1..] == a[..n];
      CountRemoved(b, k, d, title);
    }
  }

  lemma LineHasItsMembers(findings: seq<Finding>, d: Disposition, l: Line)
    requires l in Lines(Section(findings, d))
    ensures l.occurrences == CountFindings(findings, d, l.title)
    ensures TopOf(Bucket(findings, d), l.title, l.priority)
  {
    var rows := Section(findings, d);
    SectionIsCanonical(findings, d);
    CountThroughBucket(findings, d, l.title);
    var k :| 0 <= k < |rows| && Lines(rows)[k] == l;
    assert rows[k] in rows;
  }

  lemma OneTop(members: seq<Row>, title: string, p: Priority, q: Priority)
    requires TopOf(members, title, p) && TopOf(members, title, q)
    ensures p == q
  {
  }

  lemma MembersHaveTheirLine(findings: seq<Finding>, d: Disposition, l: Line)
    requires l.occurrences == CountFindings(findings, d, l.title)
    requires TopOf(Bucket(findings, d), l.title, l.priority)
    ensures l in Lines(Section(findings, d))
  {
    var rows, members := Section(findings, d), Bucket(findings, d);
    SectionIsCanonical(findings, d);
    CountThroughBucket(findings, d, l.title);
    var m :| m in members && m.title == l.title && m.priority == l.priority;
    var r :| r in rows && r.title == m.title;
    assert StandsFor(r, members);
    OneTop(members, l.title, r.priority, l.priority);
    var k :| 0 <= k < |rows| && rows[k] == r;
    assert Lines(rows)[k] == l;
  }

  /** A section's lines, told from the findings alone. */
  lemma LinesFromMembers(findings: seq<Finding>, d: Disposition, l: Line)
    ensures l in Lines(Section(findings, d)) <==>
      && l.occurrences == CountFindings(findings, d, l.title)
      && TopOf(Bucket(findings, d), l.title, l.priority)
  {
    if l in Lines(Section(findings, d)) {
      LineHasItsMembers(findings, d, l);
    } else if l.occurrences == CountFindings(findings, d, l.title) && TopOf(Bucket(findings, d), l.title, l.priority) {
      MembersHaveTheirLine(findings, d, l);
    }
  }

  /** Reordering the scanner's output changes no title, no priority, no count and no position. */
  lemma OrderOfFindingsIsInvisible(a: seq<Finding>, b: seq<Finding>, d: Disposition)
    requires multiset(a) == multiset(b)
    ensures Lines(Section(a, d)) == Lines(Section(b, d))
  {
    assert forall f :: f in a <==> f in b by { assert forall f :: f in a <==> f in multiset(a); }
    BucketMembers(a, d);
    BucketMembers(b, d);
    forall l ensures l in Lines(Section(a, d)) <==> l in Lines(Section(b, d)) {
      LinesFromMembers(a, d, l);
      LinesFromMembers(b, d, l);
      CountIgnoresOrder(a, b, d, l.title);
      SameMembersSameTop(Bucket(a, d), Bucket(b, d), l.title, l.priority);
    }
    SectionIsCanonical(a, d);
    SectionIsCanonical(b, d);
    LinesOrdered(Section(a, d));
    LinesOrdered(Section(b, d));
    OrderDeterminesLines(Lines(Section(a, d)), Lines(Section(b, d)));
  }

  lemma SameMembersSameTop(a: seq<Row>, b: seq<Row>, title: string, p: Priority)
    requires forall m :: m in a <==> m in b
    ensures TopOf(a, title, p) <==> TopOf(b, title, p)
  {
  }

  lemma LinesOrdered(rows: seq<Row>)
    requires StrictlyOrdered(rows)
    ensures OrderedLines(Lines(rows))
  {
    forall i, j | 0 <= i < j < |rows| ensures LineBefore(Lines(rows)[i], Lines(rows)[j]) {
      assert Before(rows[i], rows[j]);
    }
  }
}
