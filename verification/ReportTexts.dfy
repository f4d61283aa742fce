/** What a report shows besides its own wording: each row's own texts, numbers and priority, each row once and in order. */
module ReportTexts {
  import opened Clock
  import opened Numbers
  import opened Page
  import opened Report

  /** The word printed for a priority. */
  function PriorityWord(p: Triage.Priority): Wording {
    match p
    case Urgent => UrgentLabel
    case HighPriority => HighLabel
    case MediumPriority => MediumLabel
    case LowPriority => LowLabel
    case Noted => NotedLabel
  }

  /** What a section calls its findings. */
  function KindWord(b: Bucket): Wording {
    match b
    case Acting => ActionWord
    case _ => DecisionWord
  }

  /** What a finding shows of its row: its number, its priority, its title and what else there is. */
  function RowTexts(row: RowShape, b: Bucket, n: nat): seq<Leaf> {
    [Said(KindWord(b)), Figure(n, true), Said(PriorityWord(row.priority)), Given(TitleOf(b, n))]
    + (if row.repeated then [Given(SeenCount(b, n))] else [])
    + (if row.guided then [Given(WhyOf(b, n)), Given(FixOf(b, n))] else [Said(NoGuidance)])
    + (if row.evidenced then [Given(EvidenceOf(b, n))] else [])
  }

  function SectionTexts(rows: seq<RowShape>, b: Bucket): seq<Leaf> {
    if rows == [] then [] else SectionTexts(rows[..|rows| - 1], b) + RowTexts(rows[|rows| - 1], b, |rows|)
  }

  lemma ThenTexts(a: Prose, b: Prose)
    ensures ProseLeaves(Then(a, b)) == ProseLeaves(a) + ProseLeaves(b)
  {
  }

  /** An element whose content is wording followed by one more piece. */
  lemma Labelled(w: Wording, e: Element, name: Fixed, inner: Prose)
    requires !IsTelling(w)
    ensures ProseLeaves(Classed(e, name, Then(Copy(w), inner))) == ProseLeaves(inner)
    ensures ProseLeaves(Block(e, [], Then(Copy(w), inner))) == ProseLeaves(inner)
  {
    ThenTexts(Copy(w), inner);
    assert [] + ProseLeaves(inner) == ProseLeaves(inner);
  }

  lemma PillTexts(p: Triage.Priority)
    ensures ProseLeaves(Pill(p)) == [Said(PriorityWord(p))]
  {
  }

  lemma HeadTexts(row: RowShape, b: Bucket, n: nat)
    ensures ProseLeaves(FindingHead(row, b, n))
         == [Said(KindWord(b)), Figure(n, true), Said(PriorityWord(row.priority)), Given(TitleOf(b, n))]
  {
    var title := Block(Heading(3), [], Text(TitleOf(b, n)));
    var count := Classed(Span, FindingRefValue, Then(Copy(if b == Acting then ActionWord else DecisionWord), Number(n, true)));
    assert ProseLeaves(title) == [Given(TitleOf(b, n))];
    ThenTexts(Copy(KindWord(b)), Number(n, true));
    assert ProseLeaves(count) == [Said(KindWord(b)), Figure(n, true)];
    PillTexts(row.priority);
    ThenTexts(Pill(row.priority), title);
    ThenTexts(count, Then(Pill(row.priority), title));
  }

  lemma SeenTexts(row: RowShape, b: Bucket, n: nat)
    ensures ProseLeaves(SeenPart(row, b, n)) == if row.repeated then [Given(SeenCount(b, n))] else []
  {
    var rest := Then(Text(SeenCount(b, n)), Copy(Times));
    assert ProseLeaves(rest) == [Given(SeenCount(b, n))];
    Labelled(Observed, Paragraph, SeenValue, rest);
  }

  lemma GuidanceTexts(row: RowShape, b: Bucket, n: nat)
    ensures ProseLeaves(GuidancePart(row, b, n)) == if row.guided then [Given(WhyOf(b, n)), Given(FixOf(b, n))] else [Said(NoGuidance)]
  {
    var why := Classed(Paragraph, WhyValue, Text(WhyOf(b, n)));
    var fix := Block(Paragraph, [], Text(FixOf(b, n)));
    assert ProseLeaves(why) == [Given(WhyOf(b, n))] && ProseLeaves(fix) == [Given(FixOf(b, n))];
    HeadingThen(Block(Heading(4), [], Copy(WhyHeading)), why, ImpactValue);
    HeadingThen(Classed(Heading(4), FixLabelValue, Copy(FixHeading)), fix, FixValue);
    ThenTexts(ImpactPart(b, n), FixPart(b, n));
  }

  lemma HeadingThen(heading: Prose, inner: Prose, name: Fixed)
    requires ProseLeaves(heading) == []
    ensures ProseLeaves(Classed(Div, name, Then(heading, inner))) == ProseLeaves(inner)
  {
    ThenTexts(heading, inner);
    assert [] + ProseLeaves(inner) == ProseLeaves(inner);
  }

  lemma EvidenceTexts(row: RowShape, b: Bucket, n: nat)
    ensures ProseLeaves(EvidencePart(row, b, n)) == if row.evidenced then [Given(EvidenceOf(b, n))] else []
  {
    var code := Block(Code, [], Text(EvidenceOf(b, n)));
    assert ProseLeaves(code) == [Given(EvidenceOf(b, n))];
    HeadingThen(Classed(Heading(4), EvidenceLabelValue, Copy(EvidenceHeading)), code, EvidenceValue);
  }

  /** A finding shows its row's title, then its count if it was seen more than once, its guidance, its evidence. */
  lemma FindingTexts(row: RowShape, b: Bucket, n: nat)
    ensures ProseLeaves(FindingText(row, b, n)) == RowTexts(row, b, n)
  {
    HeadTexts(row, b, n);
    SeenTexts(row, b, n);
    GuidanceTexts(row, b, n);
    EvidenceTexts(row, b, n);
    var tail := Then(GuidancePart(row, b, n), EvidencePart(row, b, n));
    ThenTexts(GuidancePart(row, b, n), EvidencePart(row, b, n));
    ThenTexts(SeenPart(row, b, n), tail);
    ThenTexts(FindingHead(row, b, n), Then(SeenPart(row, b, n), tail));
  }

  /** A section shows each of its rows once, in order, and nothing else from outside. */
  lemma {:induction false} FindingsTexts(rows: seq<RowShape>, b: Bucket)
    ensures Leaves(Findings(rows, b)) == SectionTexts(rows, b)
  {
    if rows != [] {
      FindingsTexts(rows[..|rows| - 1], b);
      FindingTexts(rows[|rows| - 1], b, |rows|);
      assert Leaves(FindingPart(rows[|rows| - 1], b, |rows|)) == RowTexts(rows[|rows| - 1], b, |rows|);
    }
  }

  /** A section's heading, which the list of actions has even when it is empty. */
  function HeadingWord(rows: seq<RowShape>, b: Bucket): seq<Leaf> {
    match b
    case Acting => [Said(ActHeading)]
    case _ => if rows == [] then [] else [Said(ReviewHeading)]
  }

  /** A section shows its heading, then each of its rows once, in order, and nothing else. */
  lemma SectionShowsItsRows(rows: seq<RowShape>, b: Bucket)
    ensures Leaves(SectionPart(rows, b)) == HeadingWord(rows, b) + SectionTexts(rows, b)
  {
    FindingsTexts(rows, b);
    LeadTexts(b);
    assert Leaves(Both(Plain(SectionLead(b)), Findings(rows, b))) == ProseLeaves(SectionLead(b)) + Leaves(Findings(rows, b));
  }

  /** Constant wording adds nothing to what follows or stands alone. */
  lemma CopyThen(w: Wording, rest: Prose, y: seq<Leaf>)
    requires !IsTelling(w) && ProseLeaves(rest) == y
    ensures ProseLeaves(Copy(w)) == [] && ProseLeaves(Then(Copy(w), rest)) == y
  {
    assert [] + y == y;
  }

  lemma TextThen(key: TextKey, rest: Prose, y: seq<Leaf>)
    requires ProseLeaves(rest) == y
    ensures ProseLeaves(Then(Text(key), rest)) == [Given(key)] + y
  {
  }

  /** A heading and a line of wording. */
  lemma HeadingAndLine(heading: Wording, line: Wording, name: Fixed)
    requires !IsTelling(heading) && !IsTelling(line)
    ensures ProseLeaves(Then(Block(Heading(2), [], Copy(heading)), Classed(Paragraph, name, Copy(line)))) == []
  {
    ThenTexts(Block(Heading(2), [], Copy(heading)), Classed(Paragraph, name, Copy(line)));
  }

  /** A telling heading and a line of wording. */
  lemma TellingHeading(heading: Wording, line: Wording, name: Fixed)
    requires IsTelling(heading) && !IsTelling(line)
    ensures ProseLeaves(Then(Block(Heading(2), [], Copy(heading)), Classed(Paragraph, name, Copy(line)))) == [Said(heading)]
  {
    CopyThen(line, Nothing, []);
    assert ProseLeaves(Copy(heading)) == [Said(heading)];
    HeadedLine(Copy(heading), Copy(line), name, [Said(heading)]);
  }

  lemma HeadedLine(heading: Prose, line: Prose, name: Fixed, x: seq<Leaf>)
    requires ProseLeaves(heading) == x && ProseLeaves(line) == []
    ensures ProseLeaves(Then(Block(Heading(2), [], heading), Classed(Paragraph, name, line))) == x
  {
    ThenTexts(Block(Heading(2), [], heading), Classed(Paragraph, name, line));
    assert x + [] == x;
  }

  lemma LeadTexts(b: Bucket)
    ensures ProseLeaves(SectionLead(b)) == [Said(if b == Acting then ActHeading else ReviewHeading)]
    ensures ProseLeaves(NothingText()) == [Said(ActHeading)]
  {
    TellingHeading(ActHeading, NothingToFix, EmptyValue);
    if b == Acting { TellingHeading(ActHeading, ActBlurb, BlurbValue); } else { TellingHeading(ReviewHeading, ReviewBlurb, BlurbValue); }
  }

  /** The appendix shows the titles of its rows, in order. */
  lemma {:induction false} InventoryTexts(count: nat)
    ensures |ProseLeaves(InventoryItems(count))| == count
    ensures forall k | 0 <= k < count :: ProseLeaves(InventoryItems(count))[k] == Given(TitleOf(Noting, k + 1))
  {
    if count > 0 {
      InventoryTexts(count - 1);
      assert ProseLeaves(Block(ListItem, [], Text(TitleOf(Noting, count)))) == [Given(TitleOf(Noting, count))];
      ThenTexts(InventoryItems(count - 1), Block(ListItem, [], Text(TitleOf(Noting, count))));
    }
  }

  // ------------------------------------------------------------------ the parts around the findings

  function TitleKeys(b: Bucket, n: nat): (keys: seq<Leaf>)
    ensures |keys| == n && forall k | 0 <= k < n :: keys[k] == Given(TitleOf(b, k + 1))
  {
    seq(n, k requires 0 <= k < n => Given(TitleOf(b, k + 1)))
  }

  function Names(keys: seq<TextKey>): (r: seq<Leaf>)
    ensures |r| == |keys| && forall k | 0 <= k < |keys| :: r[k] == Given(keys[k])
  {
    seq(|keys|, k requires 0 <= k < |keys| => Given(keys[k]))
  }

  lemma HeadKeys()
    ensures ProseLeaves(HeadPart()) == Names([Domain, Day])
  {
    TitleKeysShow();
    StyleShows();
    var last := Then(TitlePart(), StylePart());
    BothShow(TitlePart(), StylePart(), Names([Domain, Day]), []);
    var second := Void(Meta, [(Name, ViewportValue), (Content, DeviceWidthValue)]);
    NothingFirst(second, last, Names([Domain, Day]));
    NothingFirst(Void(Meta, [(Charset, Utf8Value)]), Then(second, last), Names([Domain, Day]));
  }

  lemma TitleKeysShow()
    ensures ProseLeaves(TitlePart()) == Names([Domain, Day])
  {
    CopyThen(TitleDash, Text(Day), [Given(Day)]);
    TextThen(Domain, Then(Copy(TitleDash), Text(Day)), [Given(Day)]);
    CopyThen(TitleLead, Then(Text(Domain), Then(Copy(TitleDash), Text(Day))), [Given(Domain), Given(Day)]);
  }

  lemma StyleShows()
    ensures ProseLeaves(StylePart()) == []
  {
    CopyThen(FooterRuleEnd, Nothing, []);
    NothingFirst(Identity, Copy(FooterRuleEnd), []);
    CopyThen(FooterRuleStart, Then(Identity, Copy(FooterRuleEnd)), []);
    CopyThen(StyleRules, Nothing, []);
    NothingFirst(Block(Style, [], Copy(StyleRules)),
      Block(Style, [], Then(Copy(FooterRuleStart), Then(Identity, Copy(FooterRuleEnd)))), []);
  }

  lemma FooterKeys()
    ensures ProseLeaves(RunningFooter()) == Names([Domain, Agency, Day])
    ensures ProseLeaves(SaveBar()) == []
    ensures ProseLeaves(ScopeText()) == Names([Agency, Client])
  {
    RunningKeys();
    SaveShows();
    ScopeKeys();
  }

  lemma RunningKeys()
    ensures ProseLeaves(RunningFooter()) == Names([Domain, Agency, Day])
  {
    CopyThen(RunningDot, Text(Day), [Given(Day)]);
    var dated := Then(Text(Agency), Then(Copy(RunningDot), Text(Day)));
    TextThen(Agency, Then(Copy(RunningDot), Text(Day)), [Given(Day)]);
    CopyThen(RunningBy, dated, [Given(Agency), Given(Day)]);
    TextThen(Domain, Then(Copy(RunningBy), dated), [Given(Agency), Given(Day)]);
  }

  lemma SaveShows()
    ensures ProseLeaves(SaveBar()) == []
  {
    CopyThen(SaveLabel, Nothing, []);
    CopyThen(SaveHint, Nothing, []);
    NothingFirst(Block(Button, [(Type, ButtonValue), (OnClick, PrintCallValue)], Copy(SaveLabel)), Block(Span, [], Copy(SaveHint)), []);
  }

  function ScopeLine(): Prose {
    Then(Copy(ScopeBy), Then(Text(Agency), Then(Copy(ScopeFor), Then(Text(Client), Copy(ScopeStop)))))
  }

  lemma TwoNamesBetween(w: Wording, k: TextKey, x: Wording, l: TextKey, y: Wording)
    requires !IsTelling(w) && !IsTelling(x) && !IsTelling(y)
    ensures ProseLeaves(Then(Copy(w), Then(Text(k), Then(Copy(x), Then(Text(l), Copy(y)))))) == [Given(k), Given(l)]
  {
    CopyThen(y, Nothing, []);
    TextThen(l, Copy(y), []);
    CopyThen(x, Then(Text(l), Copy(y)), [Given(l)]);
    TextThen(k, Then(Copy(x), Then(Text(l), Copy(y))), [Given(l)]);
    CopyThen(w, Then(Text(k), Then(Copy(x), Then(Text(l), Copy(y)))), [Given(k), Given(l)]);
  }

  lemma ScopeLineKeys()
    ensures ProseLeaves(ScopeLine()) == Names([Agency, Client])
  {
    TwoNamesBetween(ScopeBy, Agency, ScopeFor, Client, ScopeStop);
  }

  lemma ScopeKeys()
    ensures ProseLeaves(ScopeText()) == Names([Agency, Client])
  {
    ScopeLineKeys();
    CopyThen(Caveat, Nothing, []);
    CopyThen(ScopeHeading, Nothing, []);
    var line, caveat := Block(Paragraph, [], ScopeLine()), Classed(Paragraph, CaveatValue, Copy(Caveat));
    BothShow(line, caveat, Names([Agency, Client]), []);
    NothingFirst(Block(Heading(2), [], Copy(ScopeHeading)), Then(line, caveat), Names([Agency, Client]));
  }

  /** An element shows what is in it. */
  lemma Within(e: Element, name: Fixed, inner: Prose, y: seq<Leaf>)
    requires ProseLeaves(inner) == y
    ensures ProseLeaves(Classed(e, name, inner)) == y && ProseLeaves(Block(e, [], inner)) == y
  {
  }

  function SubjectLine(): Prose {
    Then(Block(Strong, [], Text(Domain)), Then(Copy(PreparedFor), Text(Client)))
  }

  lemma SubjectLineKeys()
    ensures ProseLeaves(SubjectLine()) == [Given(Domain), Given(Client)]
  {
    CopyThen(PreparedFor, Text(Client), [Given(Client)]);
    Within(Strong, SubjectValue, Text(Domain), [Given(Domain)]);
    BothShow(Block(Strong, [], Text(Domain)), Then(Copy(PreparedFor), Text(Client)), [Given(Domain)], [Given(Client)]);
  }

  lemma SubjectKeys()
    ensures ProseLeaves(Subject()) == Names([Agency, Domain, Client, Day])
  {
    CopyThen(PreparedBy, Text(Agency), [Given(Agency)]);
    Within(Paragraph, ByValue, Then(Copy(PreparedBy), Text(Agency)), [Given(Agency)]);
    SubjectLineKeys();
    Within(Paragraph, SubjectValue, SubjectLine(), [Given(Domain), Given(Client)]);
    CopyThen(Scanned, Text(Day), [Given(Day)]);
    Within(Paragraph, DateValue, Then(Copy(Scanned), Text(Day)), [Given(Day)]);
    CopyThen(ReportHeading, Nothing, []);
    SubjectInTurn(Classed(Paragraph, ByValue, Then(Copy(PreparedBy), Text(Agency))), Block(Heading(1), [], Copy(ReportHeading)),
      Classed(Paragraph, SubjectValue, SubjectLine()), Classed(Paragraph, DateValue, Then(Copy(Scanned), Text(Day))));
  }

  lemma FourNames()
    ensures Names([Agency, Domain, Client, Day]) == [Given(Agency)] + [Given(Domain), Given(Client), Given(Day)]
    ensures [Given(Domain), Given(Client)] + [Given(Day)] == [Given(Domain), Given(Client), Given(Day)]
  {
  }

  lemma SubjectInTurn(byline: Prose, heading: Prose, subject: Prose, dated: Prose)
    requires ProseLeaves(byline) == [Given(Agency)] && ProseLeaves(heading) == []
    requires ProseLeaves(subject) == [Given(Domain), Given(Client)] && ProseLeaves(dated) == [Given(Day)]
    ensures ProseLeaves(Then(byline, Then(heading, Then(subject, dated)))) == Names([Agency, Domain, Client, Day])
  {
    FourNames();
    FourInTurn(byline, heading, subject, dated, [Given(Agency)], [Given(Domain), Given(Client)], [Given(Day)]);
  }

  lemma FourInTurn(a: Prose, b: Prose, c: Prose, d: Prose, x: seq<Leaf>, y: seq<Leaf>, z: seq<Leaf>)
    requires ProseLeaves(a) == x && ProseLeaves(b) == [] && ProseLeaves(c) == y && ProseLeaves(d) == z
    ensures ProseLeaves(Then(a, Then(b, Then(c, d)))) == x + (y + z)
  {
    BothShow(c, d, y, z);
    NothingFirst(b, Then(c, d), y + z);
    BothShow(a, Then(b, Then(c, d)), x, y + z);
  }

  lemma BothShow(a: Prose, b: Prose, x: seq<Leaf>, y: seq<Leaf>)
    requires ProseLeaves(a) == x && ProseLeaves(b) == y
    ensures ProseLeaves(Then(a, b)) == x + y
  {
  }

  lemma NothingFirst(a: Prose, b: Prose, y: seq<Leaf>)
    requires ProseLeaves(a) == [] && ProseLeaves(b) == y
    ensures ProseLeaves(Then(a, b)) == y
  {
    assert [] + y == y;
  }

  lemma TallyLineKeys(term: Wording, n: nat)
    requires !IsTelling(term)
    ensures ProseLeaves(TallyLine(term, n)) == [Figure(n, false)]
  {
    CopyThen(term, Nothing, []);
    TermAndText(Copy(term), Number(n, false), [Figure(n, false)]);
  }

  lemma TermAndText(term: Prose, text: Prose, y: seq<Leaf>)
    requires ProseLeaves(term) == [] && ProseLeaves(text) == y
    ensures ProseLeaves(Block(Div, [], Then(Block(DescTerm, [], term), Block(DescText, [], text)))) == y
  {
    NothingFirst(Block(DescTerm, [], term), Block(DescText, [], text), y);
  }

  /** The headline by the number of actions, which is written out from two on. */
  function HeadlineKeys(actions: nat): seq<Leaf> {
    if actions == 0 then [Said(NoIssues)] else if actions == 1 then [Said(OneIssue)] else [Figure(actions, false), Said(ManyIssues)]
  }

  lemma HeadlineShows(actions: nat)
    ensures ProseLeaves(Headline(actions)) == HeadlineKeys(actions)
  {
    if actions > 1 { assert ProseLeaves(Then(Number(actions, false), Copy(ManyIssues))) == [Figure(actions, false)] + [Said(ManyIssues)]; }
  }

  lemma ThreeInTurn(a: Prose, b: Prose, c: Prose, x: Leaf, y: Leaf, z: Leaf)
    requires ProseLeaves(a) == [x] && ProseLeaves(b) == [y] && ProseLeaves(c) == [z]
    ensures ProseLeaves(Then(a, Then(b, c))) == [x, y, z]
  {
    BothShow(b, c, [y], [z]);
    BothShow(a, Then(b, c), [x], [y, z]);
  }

  lemma TallyKeys(shape: Shape)
    ensures ProseLeaves(Tally(shape)) == [Figure(|shape.actions|, false), Figure(|shape.decisions|, false), Figure(shape.notes, false)]
  {
    TallyLineKeys(TallyAct, |shape.actions|);
    TallyLineKeys(TallyReview, |shape.decisions|);
    TallyLineKeys(TallyInventory, shape.notes);
    ThreeInTurn(TallyLine(TallyAct, |shape.actions|), TallyLine(TallyReview, |shape.decisions|),
      TallyLine(TallyInventory, shape.notes),
      Figure(|shape.actions|, false), Figure(|shape.decisions|, false), Figure(shape.notes, false));
  }

  function OverviewLeaves(shape: Shape): seq<Leaf> {
    HeadlineKeys(|shape.actions|)
    + [Figure(|shape.actions|, false), Figure(|shape.decisions|, false), Figure(shape.notes, false)]
  }

  lemma OverviewKeys(shape: Shape)
    ensures ProseLeaves(Overview(shape)) == OverviewLeaves(shape)
  {
    TallyKeys(shape);
    HeadlineShows(|shape.actions|);
    var note, headline := Classed(Paragraph, SummaryNoteValue, Copy(SummaryNote)), Classed(Paragraph, HeadlineValue, Headline(|shape.actions|));
    assert ProseLeaves(note) == [] && ProseLeaves(headline) == HeadlineKeys(|shape.actions|);
    NothingFirst(note, Tally(shape), ProseLeaves(Tally(shape)));
    BothShow(headline, Then(note, Tally(shape)), HeadlineKeys(|shape.actions|), ProseLeaves(Tally(shape)));
  }

  lemma CoverKeys(shape: Shape)
    ensures ProseLeaves(CoverPart(shape)) == Names([Agency, Domain, Client, Day]) + OverviewLeaves(shape)
  {
    SubjectKeys();
    OverviewKeys(shape);
    BothShow(Subject(), Overview(shape), Names([Agency, Domain, Client, Day]), OverviewLeaves(shape));
    assert ProseLeaves(If(shape.logo, Logo)) == [];
    NothingFirst(If(shape.logo, Logo), CoverText(shape), ProseLeaves(CoverText(shape)));
  }

  lemma LinkShows(id: PageId, w: Wording, shown: bool)
    requires !IsTelling(w)
    ensures Leaves(LinkTo(id, [], Copy(w))) == [] && Leaves(When(shown, LinkTo(id, [], Copy(w)))) == []
  {
    CopyThen(w, Nothing, []);
  }

  function Links(shape: Shape): Node {
    Both(LinkTo(Actions, [], Copy(LinkActions)),
    Both(When(shape.decisions != [], LinkTo(Decisions, [], Copy(LinkDecisions))),
    Both(When(shape.notes > 0, LinkTo(Reference, [], Copy(LinkReference))),
      LinkTo(Scope, [], Copy(LinkScope)))))
  }

  lemma FourLinks(i: PageId, j: PageId, k: PageId, l: PageId, w: Wording, x: Wording, y: Wording, z: Wording, second: bool, third: bool)
    requires !IsTelling(w) && !IsTelling(x) && !IsTelling(y) && !IsTelling(z)
    ensures Leaves(Both(LinkTo(i, [], Copy(w)), Both(When(second, LinkTo(j, [], Copy(x))),
      Both(When(third, LinkTo(k, [], Copy(y))), LinkTo(l, [], Copy(z)))))) == []
  {
    LinkShows(i, w, true);
    LinkShows(j, x, second);
    LinkShows(k, y, third);
    LinkShows(l, z, true);
    NavInTurn(LinkTo(i, [], Copy(w)), When(second, LinkTo(j, [], Copy(x))), When(third, LinkTo(k, [], Copy(y))), LinkTo(l, [], Copy(z)));
  }

  lemma LinksShow(shape: Shape)
    ensures Leaves(Links(shape)) == []
  {
    FourLinks(Actions, Decisions, Reference, Scope, LinkActions, LinkDecisions, LinkReference, LinkScope,
      shape.decisions != [], shape.notes > 0);
  }

  lemma NavKeys(shape: Shape)
    ensures Leaves(NavPart(shape)) == []
  {
    LinksShow(shape);
    AroundShows(Nav, [(Class, ReportNavValue), (AriaLabel, ReportSectionsValue)], Links(shape));
  }

  lemma AroundShows(e: Element, attrs: seq<(Attribute, Fixed)>, inner: Node)
    ensures Leaves(Around(e, attrs, inner)) == Leaves(inner)
  {
  }

  lemma NavInTurn(a: Node, b: Node, c: Node, d: Node)
    requires Leaves(a) == [] && Leaves(b) == [] && Leaves(c) == [] && Leaves(d) == []
    ensures Leaves(Both(a, Both(b, Both(c, d)))) == []
  {
    EmptyFirst(c, d, []);
    EmptyFirst(b, Both(c, d), []);
    EmptyFirst(a, Both(b, Both(c, d)), []);
  }

  /** Priority and title of each planned action. */
  function PlanLeaves(rows: seq<RowShape>): seq<Leaf> {
    if rows == [] then [] else
    PlanLeaves(rows[..|rows| - 1]) + [Said(PriorityWord(rows[|rows| - 1].priority)), Given(TitleOf(Acting, |rows|))]
  }

  lemma PlanItemKeys(row: RowShape, n: nat)
    ensures Leaves(PlanItem(row, n)) == [Said(PriorityWord(row.priority)), Given(TitleOf(Acting, n))]
  {
    assert ProseLeaves(PlanText(n)) == [Given(TitleOf(Acting, n))] + [];
    PillTexts(row.priority);
    assert Leaves(LinkTo(Action(n), [], PlanText(n))) == [Given(TitleOf(Acting, n))];
    BothKeys(Plain(Pill(row.priority)), LinkTo(Action(n), [], PlanText(n)),
      [Said(PriorityWord(row.priority))], [Given(TitleOf(Acting, n))]);
  }

  lemma {:induction false} PlanKeys(rows: seq<RowShape>)
    ensures Leaves(PlanItems(rows)) == PlanLeaves(rows)
  {
    if rows != [] {
      PlanKeys(rows[..|rows| - 1]);
      PlanItemKeys(rows[|rows| - 1], |rows|);
    }
  }

  function Least(n: nat, m: nat): nat {
    if n <= m then n else m
  }

  /** The plan: the first three actions, and how many there are if there are more. */
  function ActionPlanLeaves(rows: seq<RowShape>): seq<Leaf> {
    PlanLeaves(rows[..Least(|rows|, 3)]) + (if |rows| > 3 then [Figure(|rows|, false)] else [])
  }

  lemma ViewAllKeys(n: nat)
    ensures ProseLeaves(ViewAllText(n)) == [Figure(n, false)]
  {
    BothShow(Number(n, false), Copy(ViewAllActions), [Figure(n, false)], []);
    NothingFirst(Copy(ViewAll), Then(Number(n, false), Copy(ViewAllActions)), [Figure(n, false)]);
  }

  lemma PlanRestKeys(n: nat)
    ensures Leaves(PlanRest(n)) == if n > 3 then [Figure(n, false)] else []
  {
    ViewAllKeys(n);
  }

  lemma ActionPlanKeys(rows: seq<RowShape>)
    ensures Leaves(ActionPlan(rows)) == ActionPlanLeaves(rows)
  {
    if rows == [] {
      assert rows[..Least(|rows|, 3)] == [];
    } else {
      SomePlanKeys(rows);
    }
  }

  lemma SomePlanKeys(rows: seq<RowShape>)
    requires rows != []
    ensures Leaves(ActionPlan(rows)) == ActionPlanLeaves(rows)
  {
    assert FirstThree(rows) == rows[..Least(|rows|, 3)];
    PlanKeys(FirstThree(rows));
    HeadingAndLine(PlanHeading, PlanBlurb, BlurbValue);
    PlanRestKeys(|rows|);
    AroundShows(OrderedList, [(Class, PlanListValue)], PlanItems(FirstThree(rows)));
    PlanInTurn(Around(OrderedList, [(Class, PlanListValue)], PlanItems(FirstThree(rows))), PlanRest(|rows|),
      PlanLeaves(FirstThree(rows)), if |rows| > 3 then [Figure(|rows|, false)] else []);
  }

  lemma PlanInTurn(listed: Node, rest: Node, x: seq<Leaf>, y: seq<Leaf>)
    requires Leaves(listed) == x && Leaves(rest) == y && ProseLeaves(PlanLead()) == []
    ensures Leaves(Both(Plain(PlanLead()), Both(listed, rest))) == x + y
  {
    BothKeys(listed, rest, x, y);
    EmptyFirst(Plain(PlanLead()), Both(listed, rest), x + y);
  }

  lemma InventoryKeys(count: nat)
    ensures Leaves(InventoryPart(count)) == TitleKeys(Noting, count)
  {
    if count > 0 {
      InventoryTexts(count);
      assert ProseLeaves(InventoryItems(count)) == TitleKeys(Noting, count);
      var list := Block(BulletList, [], InventoryItems(count));
      var blurb := Classed(Paragraph, BlurbValue, Copy(InventoryBlurb));
      NothingFirst(blurb, list, TitleKeys(Noting, count));
      NothingFirst(Block(Heading(2), [], Copy(InventoryHeading)), Then(blurb, list), TitleKeys(Noting, count));
    }
  }

  lemma BothKeys(a: Node, b: Node, x: seq<Leaf>, y: seq<Leaf>)
    requires Leaves(a) == x && Leaves(b) == y
    ensures Leaves(Both(a, b)) == x + y
  {
  }

  lemma EmptyFirst(a: Node, b: Node, y: seq<Leaf>)
    requires Leaves(a) == [] && Leaves(b) == y
    ensures Leaves(Both(a, b)) == y
  {
    assert [] + y == y;
  }

  function SectionLeaves(rows: seq<RowShape>, b: Bucket): seq<Leaf> {
    HeadingWord(rows, b) + SectionTexts(rows, b)
  }

  function FindingLeaves(shape: Shape): seq<Leaf> {
    SectionLeaves(shape.actions, Acting) + (SectionLeaves(shape.decisions, Deciding)
    + (TitleKeys(Noting, shape.notes) + Names([Agency, Client])))
  }

  lemma FindingKeys(shape: Shape)
    ensures Leaves(Both(SectionPart(shape.actions, Acting), Both(SectionPart(shape.decisions, Deciding),
        Both(InventoryPart(shape.notes), FooterPart())))) == FindingLeaves(shape)
  {
    SectionShowsItsRows(shape.actions, Acting);
    SectionShowsItsRows(shape.decisions, Deciding);
    InventoryKeys(shape.notes);
    FooterKeys();
    assert Leaves(FooterPart()) == Names([Agency, Client]);
    BothKeys(InventoryPart(shape.notes), FooterPart(), TitleKeys(Noting, shape.notes), Names([Agency, Client]));
    var last := Both(InventoryPart(shape.notes), FooterPart());
    BothKeys(SectionPart(shape.decisions, Deciding), last, SectionLeaves(shape.decisions, Deciding), Leaves(last));
    var later := Both(SectionPart(shape.decisions, Deciding), last);
    BothKeys(SectionPart(shape.actions, Acting), later, SectionLeaves(shape.actions, Acting), Leaves(later));
  }

  function PieceLeaves(shape: Shape): seq<Leaf> {
    (Names([Agency, Domain, Client, Day]) + OverviewLeaves(shape)) + (ActionPlanLeaves(shape.actions) + FindingLeaves(shape))
  }

  lemma PiecesKeys(shape: Shape)
    ensures Leaves(Pieces(shape)) == PieceLeaves(shape)
  {
    CoverKeys(shape);
    NavKeys(shape);
    ActionPlanKeys(shape.actions);
    FindingKeys(shape);
    var findings := Both(SectionPart(shape.actions, Acting), Both(SectionPart(shape.decisions, Deciding),
      Both(InventoryPart(shape.notes), FooterPart())));
    var planned := Both(ActionPlan(shape.actions), findings);
    BothKeys(ActionPlan(shape.actions), findings, ActionPlanLeaves(shape.actions), FindingLeaves(shape));
    EmptyFirst(NavPart(shape), planned, Leaves(planned));
    BothKeys(Plain(CoverPart(shape)), Both(NavPart(shape), planned),
      Names([Agency, Domain, Client, Day]) + OverviewLeaves(shape), Leaves(planned));
  }

  /** What a report shows, from top to bottom. */
  function DocumentLeaves(shape: Shape): seq<Leaf> {
    Names([Domain, Day]) + (Names([Domain, Agency, Day]) + PieceLeaves(shape))
  }

  lemma DocumentShows(shape: Shape)
    ensures Leaves(Document(shape)) == DocumentLeaves(shape)
  {
    HeadKeys();
    FooterKeys();
    PiecesKeys(shape);
    var page := MainPart(shape);
    assert Leaves(page) == Leaves(Pieces(shape));
    EmptyFirst(Plain(SaveBar()), page, Leaves(page));
    var body := Both(Plain(RunningFooter()), Both(Plain(SaveBar()), page));
    BothKeys(Plain(RunningFooter()), Both(Plain(SaveBar()), page), Names([Domain, Agency, Day]), Leaves(page));
    BothKeys(Plain(HeadPart()), Around(Body, [], body), Names([Domain, Day]), Leaves(body));
  }

  // ------------------------------------------------------------------ a whole report, filled in

  function LeafText(leaf: Leaf, source: Source): string {
    match leaf
    case Given(key) => source.given(key)
    case Figure(n, padded) => NumberText(n, padded)
    case Said(w) => source.fixed(w)
  }

  function Filled(leaves: seq<Leaf>, source: Source): (texts: seq<string>)
    ensures |texts| == |leaves| && forall k | 0 <= k < |leaves| :: texts[k] == LeafText(leaves[k], source)
  {
    seq(|leaves|, k requires 0 <= k < |leaves| => LeafText(leaves[k], source))
  }

  lemma FilledBoth(a: seq<Leaf>, b: seq<Leaf>, source: Source)
    ensures Filled(a + b, source) == Filled(a, source) + Filled(b, source)
  {
  }

  /** A row's place in its section, in two digits at least. */
  function Ordinal(n: nat): string {
    if n < 10 then "0" + DigitsOf(n) else DigitsOf(n)
  }

  /** What belongs to a row: place, priority, title, count if seen more than once, explanation, evidence. */
  function OwnTexts(row: Triage.Row, b: Bucket, n: nat, explain: Explain, fixed: Wording -> string): seq<string> {
    [fixed(KindWord(b)), Ordinal(n), fixed(PriorityWord(row.priority)), row.title]
    + (if row.occurrences > 1 then [DigitsOf(row.occurrences)] else [])
    + (if row.guidance.Some? then [explain(row.guidance.value).why, explain(row.guidance.value).fix] else [fixed(NoGuidance)])
    + (if row.evidence.Some? then [row.evidence.value] else [])
  }

  function AllOwnTexts(rows: seq<Triage.Row>, b: Bucket, explain: Explain, fixed: Wording -> string): seq<string> {
    if rows == [] then [] else
    AllOwnTexts(rows[..|rows| - 1], b, explain, fixed) + OwnTexts(rows[|rows| - 1], b, |rows|, explain, fixed)
  }

  function Planned(rows: seq<Triage.Row>, fixed: Wording -> string): seq<string> {
    if rows == [] then [] else
    Planned(rows[..|rows| - 1], fixed) + [fixed(PriorityWord(rows[|rows| - 1].priority)), rows[|rows| - 1].title]
  }

  function Titles(rows: seq<Triage.Row>): (titles: seq<string>)
    ensures |titles| == |rows| && forall k | 0 <= k < |rows| :: titles[k] == rows[k].title
  {
    seq(|rows|, k requires 0 <= k < |rows| => rows[k].title)
  }

  /** The rows of a section, without recourse to how the page looks them up. */
  predicate AreRowsOf(rows: seq<Triage.Row>, scan: Triage.TriagedScan, b: Bucket) {
    match b
    case Acting => rows == scan.actionable
    case Deciding => rows == scan.review
    case Noting => rows == scan.inventory
  }

  /** What is given for the places of a row is the row's own. */
  ghost predicate GivenFor(source: Source, row: Triage.Row, explain: Explain, b: Bucket, n: nat) {
    && source.given(TitleOf(b, n)) == row.title && source.given(SeenCount(b, n)) == DigitsOf(row.occurrences)
    && (row.guidance.Some? ==>
          source.given(WhyOf(b, n)) == explain(row.guidance.value).why && source.given(FixOf(b, n)) == explain(row.guidance.value).fix)
    && (row.evidence.Some? ==> source.given(EvidenceOf(b, n)) == row.evidence.value)
  }

  lemma RowKeysGiven(
    meta: ReportMeta, scan: Triage.TriagedScan, explain: Explain, fixed: Wording -> string,
    rows: seq<Triage.Row>, b: Bucket, n: nat)
    requires AreRowsOf(rows, scan, b) && 1 <= n <= |rows|
    ensures GivenFor(SourceOf(meta, scan, explain, fixed), rows[n - 1], explain, b, n)
  {
    assert RowAt(scan, b, n) == Some(rows[n - 1]);
  }

  lemma FourFilled(source: Source, a: seq<Leaf>, b: seq<Leaf>, c: seq<Leaf>, d: seq<Leaf>)
    ensures Filled(a + b + c + d, source) == Filled(a, source) + Filled(b, source) + Filled(c, source) + Filled(d, source)
  {
    FilledBoth(a + b + c, d, source);
    FilledBoth(a + b, c, source);
    FilledBoth(a, b, source);
  }

  lemma LeadFilled(source: Source, row: Triage.Row, b: Bucket, n: nat)
    requires source.given(TitleOf(b, n)) == row.title
    ensures Filled([Said(KindWord(b)), Figure(n, true), Said(PriorityWord(row.priority)), Given(TitleOf(b, n))], source)
         == [source.fixed(KindWord(b)), Ordinal(n), source.fixed(PriorityWord(row.priority)), row.title]
  {
  }

  lemma CountsFilled(source: Source, row: Triage.Row, b: Bucket, n: nat)
    requires source.given(SeenCount(b, n)) == DigitsOf(row.occurrences)
    ensures Filled(if row.occurrences > 1 then [Given(SeenCount(b, n))] else [], source)
         == if row.occurrences > 1 then [DigitsOf(row.occurrences)] else []
  {
  }

  lemma WordsFilled(source: Source, row: Triage.Row, explain: Explain, b: Bucket, n: nat)
    requires row.guidance.Some? ==>
      source.given(WhyOf(b, n)) == explain(row.guidance.value).why && source.given(FixOf(b, n)) == explain(row.guidance.value).fix
    ensures Filled(if row.guidance.Some? then [Given(WhyOf(b, n)), Given(FixOf(b, n))] else [Said(NoGuidance)], source)
         == if row.guidance.Some? then [explain(row.guidance.value).why, explain(row.guidance.value).fix] else [source.fixed(NoGuidance)]
  {
  }

  lemma EvidenceFilled(source: Source, row: Triage.Row, b: Bucket, n: nat)
    requires row.evidence.Some? ==> source.given(EvidenceOf(b, n)) == row.evidence.value
    ensures Filled(if row.evidence.Some? then [Given(EvidenceOf(b, n))] else [], source)
         == if row.evidence.Some? then [row.evidence.value] else []
  {
  }

  lemma {:induction false} RowIsFilled(
    meta: ReportMeta, scan: Triage.TriagedScan, explain: Explain, fixed: Wording -> string,
    rows: seq<Triage.Row>, b: Bucket, n: nat)
    requires AreRowsOf(rows, scan, b) && 1 <= n <= |rows|
    ensures Filled(RowTexts(RowShapes(rows)[n - 1], b, n), SourceOf(meta, scan, explain, fixed))
         == OwnTexts(rows[n - 1], b, n, explain, fixed)
  {
    var source, row := SourceOf(meta, scan, explain, fixed), rows[n - 1];
    RowKeysGiven(meta, scan, explain, fixed, rows, b, n);
    FourFilled(source, [Said(KindWord(b)), Figure(n, true), Said(PriorityWord(row.priority)), Given(TitleOf(b, n))],
      if row.occurrences > 1 then [Given(SeenCount(b, n))] else [],
      if row.guidance.Some? then [Given(WhyOf(b, n)), Given(FixOf(b, n))] else [Said(NoGuidance)],
      if row.evidence.Some? then [Given(EvidenceOf(b, n))] else []);
    LeadFilled(source, row, b, n);
    CountsFilled(source, row, b, n);
    WordsFilled(source, row, explain, b, n);
    EvidenceFilled(source, row, b, n);
  }

  lemma {:induction false} RowsAreFilled(
    meta: ReportMeta, scan: Triage.TriagedScan, explain: Explain, fixed: Wording -> string,
    rows: seq<Triage.Row>, b: Bucket, n: nat)
    requires AreRowsOf(rows, scan, b) && n <= |rows|
    ensures Filled(SectionTexts(RowShapes(rows)[..n], b), SourceOf(meta, scan, explain, fixed)) == AllOwnTexts(rows[..n], b, explain, fixed)
  {
    if n > 0 {
      RowsAreFilled(meta, scan, explain, fixed, rows, b, n - 1);
      RowIsFilled(meta, scan, explain, fixed, rows, b, n);
      SectionOneMore(RowShapes(rows), b, n);
      AllOneMore(rows, b, n, explain, fixed);
      FilledBoth(SectionTexts(RowShapes(rows)[..n - 1], b), RowTexts(RowShapes(rows)[n - 1], b, n), SourceOf(meta, scan, explain, fixed));
    }
  }

  lemma SectionOneMore(rows: seq<RowShape>, b: Bucket, n: nat)
    requires 1 <= n <= |rows|
    ensures SectionTexts(rows[..n], b) == SectionTexts(rows[..n - 1], b) + RowTexts(rows[n - 1], b, n)
  {
    assert rows[..n][..n - 1] == rows[..n - 1];
  }

  lemma AllOneMore(rows: seq<Triage.Row>, b: Bucket, n: nat, explain: Explain, fixed: Wording -> string)
    requires 1 <= n <= |rows|
    ensures AllOwnTexts(rows[..n], b, explain, fixed) ==
      AllOwnTexts(rows[..n - 1], b, explain, fixed) + OwnTexts(rows[n - 1], b, n, explain, fixed)
  {
    assert rows[..n][..n - 1] == rows[..n - 1];
  }

  lemma {:induction false} PlanIsFilled(
    meta: ReportMeta, scan: Triage.TriagedScan, explain: Explain, fixed: Wording -> string, n: nat)
    requires n <= |scan.actionable|
    ensures Filled(PlanLeaves(RowShapes(scan.actionable)[..n]), SourceOf(meta, scan, explain, fixed))
         == Planned(scan.actionable[..n], fixed)
  {
    var rows, source := scan.actionable, SourceOf(meta, scan, explain, fixed);
    if n > 0 {
      PlanIsFilled(meta, scan, explain, fixed, n - 1);
      RowKeysGiven(meta, scan, explain, fixed, rows, Acting, n);
      assert RowShapes(rows)[..n][..n - 1] == RowShapes(rows)[..n - 1] && rows[..n][..n - 1] == rows[..n - 1];
      var item := [Said(PriorityWord(rows[n - 1].priority)), Given(TitleOf(Acting, n))];
      assert Filled(item, source) == [fixed(PriorityWord(rows[n - 1].priority)), rows[n - 1].title];
      FilledBoth(PlanLeaves(RowShapes(rows)[..n - 1]), item, source);
    }
  }

  lemma {:induction false} NotesAreFilled(
    meta: ReportMeta, scan: Triage.TriagedScan, explain: Explain, fixed: Wording -> string)
    ensures Filled(TitleKeys(Noting, |scan.inventory|), SourceOf(meta, scan, explain, fixed)) == Titles(scan.inventory)
  {
    forall k | 0 <= k < |scan.inventory|
      ensures SourceOf(meta, scan, explain, fixed).given(TitleOf(Noting, k + 1)) == scan.inventory[k].title
    {
      assert RowAt(scan, Noting, k + 1) == Some(scan.inventory[k]);
    }
  }

  lemma NamesAreFilled(meta: ReportMeta, scan: Triage.TriagedScan, explain: Explain, fixed: Wording -> string)
    ensures var source, date := SourceOf(meta, scan, explain, fixed), Ascii.Trim(meta.date);
      && Filled(Names([Domain, Day]), source) == [meta.domain, date]
      && Filled(Names([Domain, Agency, Day]), source) == [meta.domain, meta.agency, date]
      && Filled(Names([Agency, Domain, Client, Day]), source) == [meta.agency, meta.domain, meta.client, date]
      && Filled(Names([Agency, Client]), source) == [meta.agency, meta.client]
  {
  }

  /** The cover's headline, with the number of actions from two on, and the counts of the three sections. */
  function Counts(scan: Triage.TriagedScan, fixed: Wording -> string): seq<string> {
    (if scan.actionable == [] then [fixed(NoIssues)]
     else if |scan.actionable| == 1 then [fixed(OneIssue)]
     else [DigitsOf(|scan.actionable|), fixed(ManyIssues)])
    + [DigitsOf(|scan.actionable|), DigitsOf(|scan.review|), DigitsOf(|scan.inventory|)]
  }

  lemma CountsAreFilled(meta: ReportMeta, scan: Triage.TriagedScan, source: Source)
    ensures Filled(OverviewLeaves(ShapeOf(meta, scan)), source) == Counts(scan, source.fixed)
  {
    var shape := ShapeOf(meta, scan);
    FilledBoth(HeadlineKeys(|shape.actions|),
      [Figure(|shape.actions|, false), Figure(|shape.decisions|, false), Figure(shape.notes, false)], source);
  }

  /** The plan's texts: the first three actions, and the number of all if there are more. */
  function PlanTexts(scan: Triage.TriagedScan, fixed: Wording -> string): seq<string> {
    Planned(scan.actionable[..Least(|scan.actionable|, 3)], fixed)
    + (if |scan.actionable| > 3 then [DigitsOf(|scan.actionable|)] else [])
  }

  lemma ActionPlanIsFilled(meta: ReportMeta, scan: Triage.TriagedScan, explain: Explain, fixed: Wording -> string)
    ensures Filled(ActionPlanLeaves(RowShapes(scan.actionable)), SourceOf(meta, scan, explain, fixed)) == PlanTexts(scan, fixed)
  {
    var n, source := Least(|scan.actionable|, 3), SourceOf(meta, scan, explain, fixed);
    PlanIsFilled(meta, scan, explain, fixed, n);
    FilledBoth(PlanLeaves(RowShapes(scan.actionable)[..n]),
      if |scan.actionable| > 3 then [Figure(|scan.actionable|, false)] else [], source);
  }

  function FindingTextsOf(meta: ReportMeta, scan: Triage.TriagedScan, explain: Explain, fixed: Wording -> string): seq<string> {
    ([fixed(ActHeading)] + AllOwnTexts(scan.actionable, Acting, explain, fixed))
    + (((if scan.review == [] then [] else [fixed(ReviewHeading)]) + AllOwnTexts(scan.review, Deciding, explain, fixed))
    + (Titles(scan.inventory) + [meta.agency, meta.client]))
  }

  lemma {:induction false} FindingsAreFilled(meta: ReportMeta, scan: Triage.TriagedScan, explain: Explain, fixed: Wording -> string)
    ensures Filled(FindingLeaves(ShapeOf(meta, scan)), SourceOf(meta, scan, explain, fixed)) == FindingTextsOf(meta, scan, explain, fixed)
  {
    var shape, source := ShapeOf(meta, scan), SourceOf(meta, scan, explain, fixed);
    RowsAreFilled(meta, scan, explain, fixed, scan.actionable, Acting, |scan.actionable|);
    RowsAreFilled(meta, scan, explain, fixed, scan.review, Deciding, |scan.review|);
    NotesAreFilled(meta, scan, explain, fixed);
    NamesAreFilled(meta, scan, explain, fixed);
    assert scan.actionable[..|scan.actionable|] == scan.actionable && scan.review[..|scan.review|] == scan.review;
    assert shape.actions[..|scan.actionable|] == shape.actions && shape.decisions[..|scan.review|] == shape.decisions;
    HeadingsFilled(shape, source);
    SectionsInTurn(source, HeadingWord(shape.actions, Acting), SectionTexts(shape.actions, Acting),
      HeadingWord(shape.decisions, Deciding), SectionTexts(shape.decisions, Deciding),
      TitleKeys(Noting, shape.notes), Names([Agency, Client]));
  }

  lemma HeadingsFilled(shape: Shape, source: Source)
    ensures Filled(HeadingWord(shape.actions, Acting), source) == [source.fixed(ActHeading)]
    ensures Filled(HeadingWord(shape.decisions, Deciding), source) == if shape.decisions == [] then [] else [source.fixed(ReviewHeading)]
  {
  }

  lemma SectionsInTurn(
    source: Source, a: seq<Leaf>, b: seq<Leaf>, c: seq<Leaf>, d: seq<Leaf>, e: seq<Leaf>, f: seq<Leaf>)
    ensures Filled((a + b) + ((c + d) + (e + f)), source) ==
      (Filled(a, source) + Filled(b, source)) + ((Filled(c, source) + Filled(d, source)) + (Filled(e, source) + Filled(f, source)))
  {
    FilledBoth(a, b, source);
    FilledBoth(c, d, source);
    FilledBoth(e, f, source);
    FilledBoth(c + d, e + f, source);
    FilledBoth(a + b, (c + d) + (e + f), source);
  }

  /**
   Everything a report shows besides its wording, in order: this client's names and date, the counts, the first
   three actions, then what belongs to each row of each section, row by row, and the titles of the appendix.
   */
  lemma {:induction false} ReportShowsExactlyThis(
    meta: ReportMeta, scan: Triage.TriagedScan, explain: Explain, fixed: Wording -> string)
    ensures Filled(Leaves(Document(ShapeOf(meta, scan))), SourceOf(meta, scan, explain, fixed)) ==
      var date := Ascii.Trim(meta.date);
      [meta.domain, date] + ([meta.domain, meta.agency, date]
      + (([meta.agency, meta.domain, meta.client, date] + Counts(scan, fixed))
      + (PlanTexts(scan, fixed) + FindingTextsOf(meta, scan, explain, fixed))))
  {
    var shape, source := ShapeOf(meta, scan), SourceOf(meta, scan, explain, fixed);
    DocumentShows(shape);
    NamesAreFilled(meta, scan, explain, fixed);
    CountsAreFilled(meta, scan, source);
    ActionPlanIsFilled(meta, scan, explain, fixed);
    FindingsAreFilled(meta, scan, explain, fixed);
    FilledInTurn(source, Names([Domain, Day]), Names([Domain, Agency, Day]), Names([Agency, Domain, Client, Day]),
      OverviewLeaves(shape), ActionPlanLeaves(shape.actions), FindingLeaves(shape));
  }

  lemma FilledInTurn(
    source: Source, a: seq<Leaf>, b: seq<Leaf>, c: seq<Leaf>, d: seq<Leaf>, e: seq<Leaf>, f: seq<Leaf>)
    ensures Filled(a + (b + ((c + d) + (e + f))), source) ==
      Filled(a, source) + (Filled(b, source) + ((Filled(c, source) + Filled(d, source)) + (Filled(e, source) + Filled(f, source))))
  {
    FilledBoth(e, f, source);
    FilledBoth(c, d, source);
    FilledBoth(c + d, e + f, source);
    FilledBoth(b, (c + d) + (e + f), source);
    FilledBoth(a, b + ((c + d) + (e + f)), source);
  }
}
