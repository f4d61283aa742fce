/** Whether the order in which a scan's findings are read can make an unchanged scan look changed. */
module TriageOrder {
  import opened Clock
  import opened Triage
  import opened TriageFacts
  import opened TriageEvidence
  import opened Schedule

  // ------------------------------------------------------------------ the id a folded row keeps

  /** The template id of the first member of this title. */
  function FirstId(members: seq<Row>, title: string): Option<string> {
    if |members| == 0 then None else
    var before := FirstId(members[..|members| - 1], title);
    if before == None && members[|members| - 1].title == title then Some(members[|members| - 1].templateId) else before
  }

  lemma {:induction false} FirstIdIsAMember(members: seq<Row>, title: string)
    ensures match FirstId(members, title)
      case None => forall m | m in members :: m.title != title
      case Some(id) => exists m :: m in members && m.title == title && m.templateId == id
  {
    if |members| > 0 {
      var most, last := members[..|members| - 1], members[|members| - 1];
      FirstIdIsAMember(most, title);
      assert members == most + [last];
      assert last in members;
    }
  }

  lemma {:induction false} FoldingKeepsTheFirstId(members: seq<Row>)
    requires forall m | m in members :: m.occurrences == 1
    ensures forall k | 0 <= k < |Collapse(members)| ::
      FirstId(members, Collapse(members)[k].title) == Some(Collapse(members)[k].templateId)
  {
    if |members| > 0 {
      var most, f := members[..|members| - 1], members[|members| - 1];
      FoldingKeepsTheFirstId(most);
      CollapseFolds(most);
      FirstIdIsAMember(most, f.title);
      if RowOf(Collapse(most), f.title) == None {
        forall m | m in most ensures m.title != f.title { assert RowOf(Collapse(most), m.title).Some?; }
      }
    }
  }

  /** The first member of this title. */
  function FirstOf(members: seq<Row>, title: string): Option<Row> {
    if |members| == 0 then None else
    var before := FirstOf(members[..|members| - 1], title);
    if before == None && members[|members| - 1].title == title then Some(members[|members| - 1]) else before
  }

  lemma {:induction false} FirstOfIsThere(members: seq<Row>, title: string)
    ensures FirstOf(members, title) == None ==> forall m | m in members :: m.title != title
    ensures FirstOf(members, title).Some? ==> exists m :: m in members && m.title == title
  {
    if |members| > 0 {
      var most, last := members[..|members| - 1], members[|members| - 1];
      FirstOfIsThere(most, title);
      assert members == most + [last];
      assert last in members;
    }
  }

  /** Section, explanation, scanner's severity, template and matcher are the first finding's. */
  predicate ComesFrom(r: Row, first: Row) {
    r == first.(occurrences := r.occurrences, evidence := r.evidence, priority := r.priority)
  }

  lemma {:induction false} FoldedRowsComeFromTheFirst(members: seq<Row>)
    requires forall m | m in members :: m.occurrences == 1
    ensures forall k | 0 <= k < |Collapse(members)| ::
      FirstOf(members, Collapse(members)[k].title).Some?
      && ComesFrom(Collapse(members)[k], FirstOf(members, Collapse(members)[k].title).value)
  {
    if |members| > 0 {
      var most, f := members[..|members| - 1], members[|members| - 1];
      FoldedRowsComeFromTheFirst(most);
      CollapseFolds(most);
      FirstOfIsThere(most, f.title);
      if RowOf(Collapse(most), f.title) == None {
        forall m | m in most ensures m.title != f.title { assert RowOf(Collapse(most), m.title).Some?; }
      }
    }
  }

  lemma {:induction false} RowHasTheFirstId(findings: seq<Finding>, r: Row)
    requires r in Section(findings, Act)
    ensures FirstId(Bucket(findings, Act), r.title) == Some(r.templateId)
  {
    var folded := Collapse(Bucket(findings, Act));
    BucketMembers(findings, Act);
    FoldingKeepsTheFirstId(Bucket(findings, Act));
    SameRowsSorted(folded);
    var k :| 0 <= k < |folded| && folded[k] == r;
  }

  /** An issue's identity is in the scan exactly when the scan's first finding of its title has its template id. */
  lemma {:induction false} IdentityIsTheFirstId(findings: seq<Finding>, x: Row)
    requires PlainIds(findings) && '|' !in x.templateId
    ensures Key(x) in ActionableKeys(findings) <==> FirstId(Bucket(findings, Act), x.title) == Some(x.templateId)
  {
    var rows, members := Section(findings, Act), Bucket(findings, Act);
    if Key(x) in ActionableKeys(findings) {
      var k :| 0 <= k < |rows| && ActionableKeys(findings)[k] == Key(x);
      ActionableIdsPlain(findings, rows[k]);
      KeyIsInjective(rows[k], x);
      RowHasTheFirstId(findings, rows[k]);
    }
    if FirstId(members, x.title) == Some(x.templateId) {
      FirstIdIsAMember(members, x.title);
      SectionIsCanonical(findings, Act);
      var r :| r in rows && r.title == x.title;
      RowHasTheFirstId(findings, r);
      var k :| 0 <= k < |rows| && rows[k] == r;
      assert ActionableKeys(findings)[k] == Key(r) == Key(x);
    }
  }

  // ------------------------------------------------------------------ reordered scans

  /** Findings that end in one row of the section of actions come from one template. */
  ghost predicate OneIdPerTitle(findings: seq<Finding>) {
    forall x, y | x in Bucket(findings, Act) && y in Bucket(findings, Act) && x.title == y.title :: x.templateId == y.templateId
  }

  /** Whatever order the same findings are read in next time, no message goes out. */
  ghost predicate SilentInAnyOrder(findings: seq<Finding>) {
    forall other | multiset(other) == multiset(findings) ::
      CompareIdentities(Some(ActionableKeys(findings)), ActionableKeys(other)) == NoChange
  }

  lemma {:induction false} SameFindings(a: seq<Finding>, b: seq<Finding>)
    requires multiset(a) == multiset(b)
    ensures forall m :: m in Bucket(a, Act) <==> m in Bucket(b, Act)
    ensures PlainIds(a) <==> PlainIds(b)
  {
    assert forall f :: f in a <==> f in b by { assert forall f :: f in a <==> f in multiset(a); }
    BucketMembers(a, Act);
    BucketMembers(b, Act);
  }

  lemma {:induction false} KeysCarryOver(a: seq<Finding>, b: seq<Finding>, key: string)
    requires multiset(a) == multiset(b) && PlainIds(a) && OneIdPerTitle(a) && key in ActionableKeys(a)
    ensures key in ActionableKeys(b)
  {
    var rows, there := Section(a, Act), Bucket(b, Act);
    var k :| 0 <= k < |rows| && ActionableKeys(a)[k] == key;
    RowHasTheFirstId(a, rows[k]);
    ActionableIdsPlain(a, rows[k]);
    FirstIdIsAMember(Bucket(a, Act), rows[k].title);
    SameFindings(a, b);
    FirstIdIsAMember(there, rows[k].title);
    IdentityIsTheFirstId(b, rows[k]);
  }

  lemma {:induction false} AgreementIsSilent(a: seq<Finding>, b: seq<Finding>)
    requires PlainIds(a) && OneIdPerTitle(a) && multiset(a) == multiset(b)
    ensures CompareIdentities(Some(ActionableKeys(a)), ActionableKeys(b)) == NoChange
  {
    SameFindings(a, b);
    forall key ensures key in ActionableKeys(a) <==> key in ActionableKeys(b) {
      if key in ActionableKeys(a) { KeysCarryOver(a, b, key); }
      if key in ActionableKeys(b) { KeysCarryOver(b, a, key); }
    }
    assert Keys(ActionableKeys(a)) == Keys(ActionableKeys(b));
    NoMailIffSameIssues(Some(a), b);
  }

  lemma {:induction false} FirstRowDecides(x: Row, members: seq<Row>)
    ensures FirstId([x] + members, x.title) == Some(x.templateId)
  {
    if |members| == 0 {
      assert [x] + members == [x] && [x][..0] == [];
    } else {
      FirstRowDecides(x, members[..|members| - 1]);
      assert ([x] + members)[..|members|] == [x] + members[..|members| - 1];
    }
  }

  lemma {:induction false} BucketOneMore(findings: seq<Finding>, f: Finding)
    ensures Bucket(findings + [f], Act) ==
      Bucket(findings, Act) + (if TriageOne(f).disposition == Act then [TriageOne(f)] else [])
  {
    assert (findings + [f])[..|findings|] == findings;
  }

  lemma {:induction false} BucketFromFront(h: Finding, rest: seq<Finding>)
    requires TriageOne(h).disposition == Act
    ensures Bucket([h] + rest, Act) == [TriageOne(h)] + Bucket(rest, Act)
  {
    if |rest| == 0 {
      assert [h] + rest == [h] && [TriageOne(h)] + Bucket(rest, Act) == [TriageOne(h)];
      SectionOfOne(h);
    } else {
      BucketFromFront(h, rest[..|rest| - 1]);
      BucketFromFrontStep(h, rest[..|rest| - 1], rest[|rest| - 1], TriageOne(h));
      assert rest == rest[..|rest| - 1] + [rest[|rest| - 1]];
    }
  }

  lemma {:induction false} BucketFromFrontStep(h: Finding, most: seq<Finding>, last: Finding, x: Row)
    requires Bucket([h] + most, Act) == [x] + Bucket(most, Act)
    ensures Bucket([h] + (most + [last]), Act) == [x] + Bucket(most + [last], Act)
  {
    BucketOneMore([h] + most, last);
    BucketOneMore(most, last);
    assert [h] + (most + [last]) == ([h] + most) + [last];
  }

  lemma MovedToFront<T>(a: seq<T>, k: nat)
    requires k < |a|
    ensures multiset([a[k]] + (a[..k] + a[k + 1..])) == multiset(a)
  {
    assert a == a[..k] + [a[k]] + a[k + 1..];
  }

  lemma OwnIdIsPlain(a: seq<Finding>, k: nat)
    requires PlainIds(a) && k < |a|
    ensures '|' !in TriageOne(a[k]).templateId
  {
    assert a[k] in a;
  }

  /** A finding whose template id is not the one its row shows, read first next time, is reported as new. */
  lemma {:induction false} SwappingIsReported(a: seq<Finding>, k: nat) returns (b: seq<Finding>)
    requires PlainIds(a) && k < |a| && TriageOne(a[k]).disposition == Act
    requires FirstId(Bucket(a, Act), TriageOne(a[k]).title) != Some(TriageOne(a[k]).templateId)
    ensures multiset(a) == multiset(b)
    ensures CompareIdentities(Some(ActionableKeys(a)), ActionableKeys(b)) != NoChange
  {
    var h := a[k];
    var x := TriageOne(h);
    var rest := a[..k] + a[k + 1..];
    b := [h] + rest;
    MovedToFront(a, k);
    SameFindings(a, b);
    BucketFromFront(h, rest);
    FirstRowDecides(x, Bucket(rest, Act));
    OwnIdIsPlain(a, k);
    IdentityIsTheFirstId(a, x);
    IdentityIsTheFirstId(b, x);
    assert Key(x) in Keys(ActionableKeys(b)) && Key(x) !in Keys(ActionableKeys(a));
    NoMailIffSameIssues(Some(a), b);
  }

  lemma {:induction false} DisagreementIsReported(a: seq<Finding>) returns (b: seq<Finding>)
    requires PlainIds(a) && !OneIdPerTitle(a)
    ensures multiset(a) == multiset(b)
    ensures CompareIdentities(Some(ActionableKeys(a)), ActionableKeys(b)) != NoChange
  {
    var members := Bucket(a, Act);
    BucketMembers(a, Act);
    var x, y :| x in members && y in members && x.title == y.title && x.templateId != y.templateId;
    var odd := if FirstId(members, x.title) == Some(x.templateId) then y else x;
    var f :| f in a && TriageOne(f) == odd;
    var k :| 0 <= k < |a| && a[k] == f;
    b := SwappingIsReported(a, k);
  }

  /**
   The rows of a scan come back from the database in no promised order. An unchanged scan stays silent in
   every order exactly when the findings that share a title also share a template.
   */
  lemma {:induction false} SilentInAnyOrderIffOneIdPerTitle(findings: seq<Finding>)
    requires PlainIds(findings)
    ensures SilentInAnyOrder(findings) <==> OneIdPerTitle(findings)
  {
    if OneIdPerTitle(findings) {
      forall other | multiset(other) == multiset(findings)
        ensures CompareIdentities(Some(ActionableKeys(findings)), ActionableKeys(other)) == NoChange
      {
        AgreementIsSilent(findings, other);
      }
    } else {
      var other := DisagreementIsReported(findings);
    }
  }

  function DebugHeader(id: string): Finding {
    Finding(Info, "", Raw(Some(id), None, None, None))
  }

  lemma {:induction false} DebugHeaderRow(id: string)
    requires id == "fastly-debug-headers" || id == "x-debug-headers"
    ensures var r := TriageOne(DebugHeader(id));
      r.disposition == Act && r.title == "CDN debug headers exposed in responses" && r.templateId == id
    ensures '|' !in id
  {
  }

  lemma {:induction false} KeyOfTwins(f: Finding, g: Finding)
    requires TriageOne(f).disposition == Act == TriageOne(g).disposition && TriageOne(f).title == TriageOne(g).title
    ensures ActionableKeys([f, g]) == [Key(TriageOne(f))]
  {
    var x, y := TriageOne(f), TriageOne(g);
    SectionOfOne(f);
    assert [f, g][..1] == [f];
    assert Bucket([f, g], Act) == [x, y] && [x, y][..1] == [x];
    SortedOne(x);
    assert Collapse([x, y]) == [Merge(x, y)];
    SortedOne(Merge(x, y));
  }

  lemma {:induction false} OneKeyReplaced(before: string, now: string)
    requires before != now
    ensures CompareIdentities(Some([before]), [now]) == Replaced(1, 1)
  {
    assert [now][0] !in [before] && [now][1..] == [];
    assert CountUnseen([now], [before]) == 1 + CountUnseen([now][1..], [before]);
  }

  lemma {:induction false} TwinsReordered(f: Finding, g: Finding)
    requires TriageOne(f).disposition == Act == TriageOne(g).disposition && TriageOne(f).title == TriageOne(g).title
    requires '|' !in TriageOne(f).templateId && '|' !in TriageOne(g).templateId
    requires TriageOne(f).templateId != TriageOne(g).templateId
    ensures PlainIds([f, g])
    ensures CompareIdentities(Some(ActionableKeys([f, g])), ActionableKeys([g, f])) == Replaced(1, 1)
  {
    KeyOfTwins(f, g);
    KeyOfTwins(g, f);
    if Key(TriageOne(f)) == Key(TriageOne(g)) { KeyIsInjective(TriageOne(f), TriageOne(g)); }
    OneKeyReplaced(Key(TriageOne(f)), Key(TriageOne(g)));
  }

  /** The rulebook's own two templates of one title: the same scan, read in the other order, is reported as replaced. */
  lemma {:induction false} ReorderedScanIsReported() returns (a: seq<Finding>, b: seq<Finding>)
    ensures multiset(a) == multiset(b) && PlainIds(a)
    ensures CompareIdentities(Some(ActionableKeys(a)), ActionableKeys(b)) == Replaced(1, 1)
  {
    DebugHeaderRow("fastly-debug-headers");
    DebugHeaderRow("x-debug-headers");
    var f, g := DebugHeader("fastly-debug-headers"), DebugHeader("x-debug-headers");
    a, b := [f, g], [g, f];
    assert multiset(a) == multiset{f, g} == multiset(b);
    TwinsReordered(f, g);
  }
}
