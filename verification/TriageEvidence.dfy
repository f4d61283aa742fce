/** What folding duplicates keeps of their evidence, and how folded rows are recognised from scan to scan. */
module TriageEvidence {
  import opened Clock
  import opened Text
  import opened Triage
  import opened TriageFacts
  import opened Schedule

  // ------------------------------------------------------------------ evidence

  /** The evidence of the members of one title, in the order they were found. */
  function Pieces(members: seq<Row>, title: string): seq<string> {
    if |members| == 0 then [] else
    var last := members[|members| - 1];
    Pieces(members[..|members| - 1], title)
    + (if last.title == title && last.evidence.Some? then [last.evidence.value] else [])
  }

  /** First sightings only. */
  function FirstSeen(pieces: seq<string>): seq<string> {
    if |pieces| == 0 then [] else
    var before := FirstSeen(pieces[..|pieces| - 1]);
    if pieces[|pieces| - 1] in before then before else before + [pieces[|pieces| - 1]]
  }

  /** What the folded row of `title` shows. */
  function Shown(members: seq<Row>, title: string): Option<string> {
    if |members| == 0 then None else
    var last := members[|members| - 1];
    var before := Shown(members[..|members| - 1], title);
    if last.title == title then MergeEvidence(before, last.evidence) else before
  }

  lemma {:induction false} NothingShownBefore(members: seq<Row>, title: string)
    requires forall m | m in members :: m.title != title
    ensures Shown(members, title) == None
  {
    if |members| > 0 {
      assert members[|members| - 1] in members;
      NothingShownBefore(members[..|members| - 1], title);
    }
  }

  lemma {:induction false} RowsShow(members: seq<Row>)
    requires forall m | m in members :: m.occurrences == 1
    ensures forall k | 0 <= k < |Collapse(members)| ::
      Collapse(members)[k].evidence == Shown(members, Collapse(members)[k].title)
  {
    if |members| > 0 {
      var most, f := members[..|members| - 1], members[|members| - 1];
      RowsShow(most);
      CollapseFolds(most);
      var rows := Collapse(most);
      if RowOf(rows, f.title) == None {
        forall m | m in most ensures m.title != f.title { assert RowOf(rows, m.title).Some?; }
        NothingShownBefore(most, f.title);
      }
    }
  }

  lemma CommaSpaceIsClean()
    ensures CleanSeparator(EVIDENCE_SEPARATOR)
  {
    assert EVIDENCE_SEPARATOR[1..] == " " && EVIDENCE_SEPARATOR[..1] == ",";
  }

  ghost predicate SeparatorFree(pieces: seq<string>) {
    forall k | 0 <= k < |pieces| :: !Contains(pieces[k], EVIDENCE_SEPARATOR)
  }

  lemma {:induction false} FirstSeenMembers(pieces: seq<string>)
    ensures forall p :: p in FirstSeen(pieces) <==> p in pieces
  {
    if |pieces| > 0 {
      FirstSeenMembers(pieces[..|pieces| - 1]);
      assert pieces == pieces[..|pieces| - 1] + [pieces[|pieces| - 1]];
    }
  }

  lemma FirstSeenIsFree(pieces: seq<string>)
    requires SeparatorFree(pieces)
    ensures SeparatorFree(FirstSeen(pieces))
  {
    FirstSeenMembers(pieces);
    forall k | 0 <= k < |FirstSeen(pieces)| ensures !Contains(FirstSeen(pieces)[k], EVIDENCE_SEPARATOR) {
      assert FirstSeen(pieces)[k] in pieces;
    }
  }

  lemma {:induction false} ShownIsJoin(members: seq<Row>, title: string)
    requires SeparatorFree(Pieces(members, title))
    ensures Shown(members, title) ==
      if Pieces(members, title) == [] then None else Some(Join(FirstSeen(Pieces(members, title)), EVIDENCE_SEPARATOR))
  {
    if |members| > 0 {
      var most, last := members[..|members| - 1], members[|members| - 1];
      var before := Pieces(most, title);
      assert SeparatorFree(before) by {
        assert forall k | 0 <= k < |before| :: before[k] == Pieces(members, title)[k];
      }
      ShownIsJoin(most, title);
      if last.title == title && last.evidence.Some? {
        var e := last.evidence.value;
        assert (before + [e])[..|before|] == before;
        if before == [] {
          assert before + [e] == [e] && FirstSeen(before) + [e] == [e];
        } else {
          FirstSeenIsFree(before);
          FirstSeenMembers(before);
          assert before[0] in FirstSeen(before);
          CommaSpaceIsClean();
          SplitUndoesJoin(FirstSeen(before), EVIDENCE_SEPARATOR);
          JoinAppend(FirstSeen(before), e, EVIDENCE_SEPARATOR);
        }
      } else {
        assert before + [] == before;
      }
    }
  }

  /**
   Splitting a folded row's evidence gives back the distinct pieces of its members in first-seen
   order exactly when no piece contains the separator itself.
   */
  lemma EvidenceIsLossless(members: seq<Row>, title: string)
    requires Shown(members, title).Some?
    ensures Split(Shown(members, title).value, EVIDENCE_SEPARATOR) == FirstSeen(Pieces(members, title))
        <==> SeparatorFree(Pieces(members, title))
  {
    var pieces := Pieces(members, title);
    FirstSeenMembers(pieces);
    if SeparatorFree(pieces) {
      ShownIsJoin(members, title);
      assert pieces[0] in FirstSeen(pieces);
      FirstSeenIsFree(pieces);
      CommaSpaceIsClean();
      SplitUndoesJoin(FirstSeen(pieces), EVIDENCE_SEPARATOR);
    }
    SplitPartsAreFree(Shown(members, title).value, EVIDENCE_SEPARATOR);
    if Split(Shown(members, title).value, EVIDENCE_SEPARATOR) == FirstSeen(pieces) {
      forall k | 0 <= k < |pieces| ensures !Contains(pieces[k], EVIDENCE_SEPARATOR) {
        assert pieces[k] in FirstSeen(pieces);
        var i :| 0 <= i < |FirstSeen(pieces)| && FirstSeen(pieces)[i] == pieces[k];
      }
    }
  }

  /** The same, read off the printed rows of a section. */
  lemma SectionEvidence(findings: seq<Finding>, d: Disposition, r: Row)
    requires r in Section(findings, d)
    ensures var pieces := Pieces(Bucket(findings, d), r.title);
      r.evidence.Some? ==> (Split(r.evidence.value, EVIDENCE_SEPARATOR) == FirstSeen(pieces) <==> SeparatorFree(pieces))
  {
    var members := Bucket(findings, d);
    var folded := Collapse(members);
    BucketMembers(findings, d);
    RowsShow(members);
    SameRowsSorted(folded);
    var k :| 0 <= k < |folded| && folded[k] == r;
    if r.evidence.Some? { EvidenceIsLossless(members, r.title); }
  }

  // ------------------------------------------------------------------ identity from scan to scan

  function Key(r: Row): string {
    r.templateId + "|" + r.title
  }

  function KeysOf(rows: seq<Row>): (keys: seq<string>)
    ensures |keys| == |rows| && forall k | 0 <= k < |rows| :: keys[k] == Key(rows[k])
  {
    seq(|rows|, k requires 0 <= k < |rows| => Key(rows[k]))
  }

  /** `actionable_keys` of the job runner. */
  function ActionableKeys(findings: seq<Finding>): seq<string> {
    KeysOf(Triaged(findings).actionable)
  }

  ghost predicate PlainIds(findings: seq<Finding>) {
    forall f | f in findings :: '|' !in OrEmpty(f.raw.templateId)
  }

  ghost predicate SomeMemberHasId(members: seq<Row>, id: string) {
    exists m :: m in members && m.templateId == id
  }

  lemma {:induction false} RowIdFromMember(members: seq<Row>)
    ensures forall k | 0 <= k < |Collapse(members)| :: SomeMemberHasId(members, Collapse(members)[k].templateId)
  {
    if |members| > 0 {
      var most, f := members[..|members| - 1], members[|members| - 1];
      RowIdFromMember(most);
      assert members == most + [f];
      var before, rows := Collapse(most), Collapse(members);
      forall k | 0 <= k < |rows| ensures SomeMemberHasId(members, rows[k].templateId) {
        if k < |before| {
          assert SomeMemberHasId(most, before[k].templateId);
          var m :| m in most && m.templateId == before[k].templateId;
          assert m in members;
        } else {
          assert f in members;
        }
      }
    }
  }

  lemma {:induction false} BarSeparates(id: string, title: string)
    requires '|' !in id
    ensures Find(id + "|" + title, "|") == Some(|id|)
  {
    forall i: nat | i < |id| ensures !OccursAt(id, "|", i) { assert id[i..i + 1] == [id[i]]; }
    FirstSeparator(id, "|", title);
  }

  lemma {:induction false} KeyIsInjective(a: Row, b: Row)
    requires '|' !in a.templateId && '|' !in b.templateId && Key(a) == Key(b)
    ensures a.templateId == b.templateId && a.title == b.title
  {
    BarSeparates(a.templateId, a.title);
    BarSeparates(b.templateId, b.title);
    assert Key(a)[..|a.templateId|] == a.templateId && Key(b)[..|b.templateId|] == b.templateId;
    assert Key(a)[|a.templateId| + 1..] == a.title && Key(b)[|b.templateId| + 1..] == b.title;
  }

  lemma {:induction false} ActionableIdsPlain(findings: seq<Finding>, r: Row)
    requires PlainIds(findings) && r in Section(findings, Act)
    ensures '|' !in r.templateId
  {
    var members := Bucket(findings, Act);
    BucketMembers(findings, Act);
    RowIdFromMember(members);
    SameRowsSorted(Collapse(members));
    assert SomeMemberHasId(members, r.templateId);
    var m :| m in members && m.templateId == r.templateId;
    var f :| f in findings && TriageOne(f) == m;
    assert m.templateId == OrEmpty(f.raw.templateId);
  }

  lemma {:induction false} KeysAreDistinct(findings: seq<Finding>)
    requires PlainIds(findings)
    ensures Distinct(ActionableKeys(findings))
  {
    var rows := Section(findings, Act);
    SectionIsCanonical(findings, Act);
    forall i, j | 0 <= i < j < |rows| ensures KeysOf(rows)[i] != KeysOf(rows)[j] {
      ActionableIdsPlain(findings, rows[i]);
      ActionableIdsPlain(findings, rows[j]);
      if Key(rows[i]) == Key(rows[j]) { KeyIsInjective(rows[i], rows[j]); }
    }
  }

  /**
   From the scanner's output to the decision to write to the owner: no message goes out exactly for
   the first scan and for a scan with the last one's set of keys. Template ids without '|' are enough
   for each scan to have distinct keys.
   */
  lemma NoMailIffSameIssues(previous: Option<seq<Finding>>, current: seq<Finding>)
    requires PlainIds(current) && (previous.Some? ==> PlainIds(previous.value))
    ensures var before := if previous.Some? then Some(ActionableKeys(previous.value)) else None;
      CompareIdentities(before, ActionableKeys(current)) == NoChange <==>
        (previous == None || Keys(ActionableKeys(previous.value)) == Keys(ActionableKeys(current)))
  {
    KeysAreDistinct(current);
    if previous.Some? { KeysAreDistinct(previous.value); }
    SilentIffSameIssues(if previous.Some? then Some(ActionableKeys(previous.value)) else None, ActionableKeys(current));
  }

  function Critic(title: string, id: string): Finding {
    Finding(Critical, title, Raw(Some(id), None, None, None))
  }

  /** A critical finding of an unknown template, as it stands in the section of actions. */
  lemma {:induction false} OneUrgentRow(title: string, id: string)
    requires id == "a" || id == "a|b"
    ensures TriageOne(Critic(title, id)) == Row(title, Act, Urgent, Critical, None, None, id, "", 1)
    ensures Key(TriageOne(Critic(title, id))) == id + "|" + title
  {
  }

  lemma {:induction false} SectionOfOne(f: Finding)
    requires TriageOne(f).disposition == Act
    ensures Bucket([f], Act) == [TriageOne(f)] && Section([f], Act) == [TriageOne(f)]
  {
    var x := TriageOne(f);
    assert [f][..0] == [];
    assert Bucket([f], Act) == [x];
    SortedOne(x);
  }

  lemma {:induction false} SortedOne(x: Row)
    ensures Collapse([x]) == [x] && Sort([x]) == [x]
  {
    assert [x][..0] == [] && [x][1..] == [];
  }

  lemma {:induction false} SectionOfTwo(f: Finding, g: Finding)
    requires TriageOne(f).disposition == Act == TriageOne(g).disposition
    requires TriageOne(f).title != TriageOne(g).title && Before(TriageOne(f), TriageOne(g))
    ensures Section([f, g], Act) == [TriageOne(f), TriageOne(g)]
  {
    SectionOfOne(f);
    assert [f, g][..1] == [f];
    assert Bucket([f, g], Act) == [TriageOne(f), TriageOne(g)];
    SortedTwo(TriageOne(f), TriageOne(g));
  }

  lemma {:induction false} SortedTwo(x: Row, y: Row)
    requires x.title != y.title && Before(x, y)
    ensures Sort(Collapse([x, y])) == [x, y]
  {
    SortedOne(x);
    SortedOne(y);
    assert [x, y][..1] == [x];
    assert RowOf([x], y.title) == None;
    assert Collapse([x, y]) == [x] + [y];
    assert ([x] + [y])[1..] == [y];
    LessTotal(x.title, y.title);
  }

  lemma {:induction false} KeysOfOne(f: Finding, key: string)
    requires TriageOne(f).disposition == Act && Key(TriageOne(f)) == key
    ensures ActionableKeys([f]) == [key]
  {
    SectionOfOne(f);
  }

  lemma {:induction false} KeysOfTwo(f: Finding, g: Finding, key: string)
    requires TriageOne(f).disposition == Act == TriageOne(g).disposition
    requires TriageOne(f).title != TriageOne(g).title && Before(TriageOne(f), TriageOne(g))
    requires Key(TriageOne(f)) == key == Key(TriageOne(g))
    ensures ActionableKeys([f, g]) == [key, key]
  {
    SectionOfTwo(f, g);
  }

  /** With '|' in an id, two different issues can share an identity, and a scan can read as a change of nothing. */
  lemma {:induction false} AmbiguousIdIsReported() returns (previous: seq<Finding>, current: seq<Finding>)
    ensures Keys(ActionableKeys(previous)) == Keys(ActionableKeys(current))
    ensures CompareIdentities(Some(ActionableKeys(previous)), ActionableKeys(current)) != NoChange
  {
    var f, g := Critic("b|c", "a"), Critic("c", "a|b");
    var key := "a" + "|" + "b|c";
    previous, current := [f], [f, g];
    OneUrgentRow("b|c", "a");
    OneUrgentRow("c", "a|b");
    assert key == "a|b" + "|" + "c";
    KeysOfOne(f, key);
    KeysOfTwo(f, g, key);
    RepeatedKeyIsReported(key);
  }
}
