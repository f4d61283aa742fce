/** The client's report: which page a triaged scan is rendered to, and the texts that fill it. */
module Report {
  import opened Clock
  import opened Html
  import opened Page
  import Triage
  import Ascii = Text

  /** Who the report is for and from; `date` is the scan's date as formatted, which may start with a space. */
  datatype ReportMeta =
    ReportMeta(agency: string, logoUrl: Option<string>, client: string, domain: string, date: string)

  datatype Guidance = Guidance(why: string, fix: string)

  type Explain = Triage.Topic -> Guidance

  // ------------------------------------------------------------------ what decides the page's structure

  /** What the structure of a finding depends on: not its title, its evidence or its guidance's words. */
  datatype RowShape = RowShape(priority: Triage.Priority, repeated: bool, guided: bool, evidenced: bool)

  datatype Shape = Shape(actions: seq<RowShape>, decisions: seq<RowShape>, notes: nat, logo: bool)

  function RowShapes(rows: seq<Triage.Row>): (r: seq<RowShape>)
    ensures |r| == |rows|
  {
    seq(|rows|, k requires 0 <= k < |rows| =>
      RowShape(rows[k].priority, rows[k].occurrences > 1, rows[k].guidance.Some?, rows[k].evidence.Some?))
  }

  /** A logo URL, only when its scheme is one the report is willing to put in `src`. */
  function SafeImageSrc(url: string): Option<string> {
    var trimmed := Ascii.Trim(url);
    var lowered := Ascii.Lower(trimmed);
    if StartsWith(lowered, "https://") || StartsWith(lowered, "data:image/png;base64,")
      || StartsWith(lowered, "data:image/jpeg;base64,") || StartsWith(lowered, "data:image/svg+xml;base64,")
      || StartsWith(lowered, "data:image/webp;base64,")
    then Some(trimmed) else None
  }

  function LogoSrc(meta: ReportMeta): Option<string> {
    match meta.logoUrl
    case None => None
    case Some(url) => SafeImageSrc(url)
  }

  function ShapeOf(meta: ReportMeta, scan: Triage.TriagedScan): Shape {
    Shape(RowShapes(scan.actionable), RowShapes(scan.review), |scan.inventory|, LogoSrc(meta).Some?)
  }

  // ------------------------------------------------------------------ what fills the page

  function RowsIn(scan: Triage.TriagedScan, bucket: Bucket): seq<Triage.Row> {
    match bucket
    case Acting => scan.actionable
    case Deciding => scan.review
    case Noting => scan.inventory
  }

  function RowAt(scan: Triage.TriagedScan, bucket: Bucket, number: nat): Option<Triage.Row> {
    var rows := RowsIn(scan, bucket);
    if 1 <= number <= |rows| then Some(rows[number - 1]) else None
  }

  function GivenText(meta: ReportMeta, scan: Triage.TriagedScan, explain: Explain,
                     fixed: Wording -> string, key: TextKey): string {
    match key
    case Agency => meta.agency
    case Client => meta.client
    case Domain => meta.domain
    case Day => Ascii.Trim(meta.date)
    case IdentityLine => meta.domain + fixed(IdentityBy) + meta.agency + fixed(IdentityDot) + meta.date
    case LogoUrl => (match LogoSrc(meta) case None => "" case Some(src) => src)
    case TitleOf(b, n) => (match RowAt(scan, b, n) case None => "" case Some(row) => row.title)
    case SeenCount(b, n) =>
      (match RowAt(scan, b, n) case None => "" case Some(row) => NumberText(row.occurrences, false))
    case WhyOf(b, n) =>
      (match RowAt(scan, b, n) case None => "" case Some(row) => if row.guidance.Some? then explain(row.guidance.value).why else "")
    case FixOf(b, n) =>
      (match RowAt(scan, b, n) case None => "" case Some(row) => if row.guidance.Some? then explain(row.guidance.value).fix else "")
    case EvidenceOf(b, n) =>
      (match RowAt(scan, b, n) case None => "" case Some(row) => if row.evidence.Some? then row.evidence.value else "")
  }

  function SourceOf(meta: ReportMeta, scan: Triage.TriagedScan, explain: Explain, fixed: Wording -> string): Source {
    Source(key => GivenText(meta, scan, explain, fixed, key), fixed)
  }

  // ------------------------------------------------------------------ building blocks

  function Classed(e: Element, name: Fixed, inner: Prose): Prose {
    Block(e, [(Class, name)], inner)
  }

  function If(shown: bool, prose: Prose): Prose {
    if shown then prose else Nothing
  }

  function When(shown: bool, part: Node): Node {
    if shown then part else Plain(Nothing)
  }

  /** An element without id or link around pieces that may have some. */
  function Around(e: Element, attrs: seq<(Attribute, Fixed)>, inner: Node): Node {
    Element(e, attrs, None, None, inner)
  }

  // ------------------------------------------------------------------ parts without ids or links

  function TitlePart(): Prose {
    Block(Title, [], Then(Copy(TitleLead), Then(Text(Domain), Then(Copy(TitleDash), Text(Day)))))
  }

  function StylePart(): Prose {
    Then(Block(Style, [], Copy(StyleRules)),
      Block(Style, [], Then(Copy(FooterRuleStart), Then(Identity, Copy(FooterRuleEnd)))))
  }

  function HeadPart(): Prose {
    Block(Head, [],
      Then(Void(Meta, [(Charset, Utf8Value)]),
      Then(Void(Meta, [(Name, ViewportValue), (Content, DeviceWidthValue)]),
      Then(TitlePart(), StylePart()))))
  }

  function RunningFooter(): Prose {
    Classed(Div, RunningValue,
      Then(Text(Domain), Then(Copy(RunningBy), Then(Text(Agency), Then(Copy(RunningDot), Text(Day))))))
  }

  function SaveBar(): Prose {
    Classed(Div, SaveValue,
      Then(Block(Button, [(Type, ButtonValue), (OnClick, PrintCallValue)], Copy(SaveLabel)), Block(Span, [], Copy(SaveHint))))
  }

  function TallyLine(term: Wording, n: nat): Prose {
    Block(Div, [], Then(Block(DescTerm, [], Copy(term)), Block(DescText, [], Number(n, false))))
  }

  function Tally(shape: Shape): Prose {
    Classed(DescList, TallyValue,
      Then(TallyLine(TallyAct, |shape.actions|),
      Then(TallyLine(TallyReview, |shape.decisions|), TallyLine(TallyInventory, shape.notes))))
  }

  function Headline(actions: nat): Prose {
    if actions == 0 then Copy(NoIssues)
    else if actions == 1 then Copy(OneIssue)
    else Then(Number(actions, false), Copy(ManyIssues))
  }

  /** Names and date of the cover. */
  function Subject(): Prose {
    Then(Classed(Paragraph, ByValue, Then(Copy(PreparedBy), Text(Agency))),
    Then(Block(Heading(1), [], Copy(ReportHeading)),
    Then(Classed(Paragraph, SubjectValue, Then(Block(Strong, [], Text(Domain)), Then(Copy(PreparedFor), Text(Client)))),
      Classed(Paragraph, DateValue, Then(Copy(Scanned), Text(Day))))))
  }

  function Overview(shape: Shape): Prose {
    Classed(Div, OverviewValue,
      Then(Classed(Paragraph, HeadlineValue, Headline(|shape.actions|)),
      Then(Classed(Paragraph, SummaryNoteValue, Copy(SummaryNote)), Tally(shape))))
  }

  function CoverText(shape: Shape): Prose {
    Then(Subject(), Overview(shape))
  }

  function CoverPart(shape: Shape): Prose {
    Classed(Header, CoverValue, Then(If(shape.logo, Logo), CoverText(shape)))
  }

  function ScopeText(): Prose {
    Then(Block(Heading(2), [], Copy(ScopeHeading)),
    Then(Block(Paragraph, [],
      Then(Copy(ScopeBy), Then(Text(Agency), Then(Copy(ScopeFor), Then(Text(Client), Copy(ScopeStop)))))),
      Classed(Paragraph, CaveatValue, Copy(Caveat))))
  }

  // ------------------------------------------------------------------ navigation and the action plan

  function LinkTo(id: PageId, attrs: seq<(Attribute, Fixed)>, inner: Prose): Node {
    Element(Anchor, attrs, None, Some(id), Plain(inner))
  }

  function NavPart(shape: Shape): Node {
    Around(Nav, [(Class, ReportNavValue), (AriaLabel, ReportSectionsValue)],
      Both(LinkTo(Actions, [], Copy(LinkActions)),
      Both(When(shape.decisions != [], LinkTo(Decisions, [], Copy(LinkDecisions))),
      Both(When(shape.notes > 0, LinkTo(Reference, [], Copy(LinkReference))),
        LinkTo(Scope, [], Copy(LinkScope))))))
  }

  function PriorityLabel(p: Triage.Priority): Wording {
    match p
    case Urgent => UrgentLabel
    case HighPriority => HighLabel
    case MediumPriority => MediumLabel
    case LowPriority => LowLabel
    case Noted => NotedLabel
  }

  function PillValue(p: Triage.Priority): Fixed {
    match p
    case Urgent => UrgentPill
    case HighPriority => HighPill
    case MediumPriority => MediumPill
    case LowPriority => LowPill
    case Noted => NotedPill
  }

  function Pill(p: Triage.Priority): Prose {
    Classed(Span, PillValue(p), Copy(PriorityLabel(p)))
  }

  function PlanText(number: nat): Prose {
    Then(Text(TitleOf(Acting, number)), Block(Span, [(Class, PlanArrowValue), (AriaHidden, TrueValue)], Copy(Arrow)))
  }

  function PlanItem(row: RowShape, number: nat): Node {
    Around(ListItem, [], Both(Plain(Pill(row.priority)), LinkTo(Action(number), [], PlanText(number))))
  }

  function PlanItems(rows: seq<RowShape>): Node {
    if rows == [] then Plain(Nothing) else Both(PlanItems(rows[..|rows| - 1]), PlanItem(rows[|rows| - 1], |rows|))
  }

  function FirstThree(rows: seq<RowShape>): seq<RowShape> {
    if |rows| > 3 then rows[..3] else rows
  }

  function PlanLead(): Prose {
    Then(Block(Heading(2), [], Copy(PlanHeading)), Classed(Paragraph, BlurbValue, Copy(PlanBlurb)))
  }

  function ViewAllText(count: nat): Prose {
    Then(Copy(ViewAll), Then(Number(count, false), Copy(ViewAllActions)))
  }

  function PlanRest(count: nat): Node {
    When(count > 3, LinkTo(Actions, [(Class, AllActionsValue)], ViewAllText(count)))
  }

  function ActionPlan(rows: seq<RowShape>): Node {
    When(rows != [], Around(Section, [(Class, ActionPlanValue)],
      Both(Plain(PlanLead()),
      Both(Around(OrderedList, [(Class, PlanListValue)], PlanItems(FirstThree(rows))), PlanRest(|rows|)))))
  }

  // ------------------------------------------------------------------ findings

  function FindingHead(row: RowShape, bucket: Bucket, number: nat): Prose {
    Classed(Div, FindingHeadValue,
      Then(Classed(Span, FindingRefValue,
        Then(Copy(if bucket == Acting then ActionWord else DecisionWord), Number(number, true))),
      Then(Pill(row.priority), Block(Heading(3), [], Text(TitleOf(bucket, number))))))
  }

  function SeenPart(row: RowShape, bucket: Bucket, number: nat): Prose {
    If(row.repeated,
      Classed(Paragraph, SeenValue, Then(Copy(Observed), Then(Text(SeenCount(bucket, number)), Copy(Times)))))
  }

  function ImpactPart(bucket: Bucket, number: nat): Prose {
    Classed(Div, ImpactValue,
      Then(Block(Heading(4), [], Copy(WhyHeading)), Classed(Paragraph, WhyValue, Text(WhyOf(bucket, number)))))
  }

  function FixPart(bucket: Bucket, number: nat): Prose {
    Classed(Div, FixValue,
      Then(Classed(Heading(4), FixLabelValue, Copy(FixHeading)), Block(Paragraph, [], Text(FixOf(bucket, number)))))
  }

  function GuidancePart(row: RowShape, bucket: Bucket, number: nat): Prose {
    if row.guided then Classed(Div, FindingBodyValue, Then(ImpactPart(bucket, number), FixPart(bucket, number)))
    else Classed(Paragraph, WhyValue, Copy(NoGuidance))
  }

  function EvidencePart(row: RowShape, bucket: Bucket, number: nat): Prose {
    If(row.evidenced, Classed(Div, EvidenceValue,
      Then(Classed(Heading(4), EvidenceLabelValue, Copy(EvidenceHeading)), Block(Code, [], Text(EvidenceOf(bucket, number))))))
  }

  function FindingText(row: RowShape, bucket: Bucket, number: nat): Prose {
    Then(FindingHead(row, bucket, number),
    Then(SeenPart(row, bucket, number),
    Then(GuidancePart(row, bucket, number), EvidencePart(row, bucket, number))))
  }

  function NumberedId(bucket: Bucket, number: nat): PageId {
    if bucket == Acting then Action(number) else Decision(number)
  }

  function FindingPart(row: RowShape, bucket: Bucket, number: nat): Node {
    Element(Article, [(Class, FindingValue)], Some(NumberedId(bucket, number)), None,
            Plain(FindingText(row, bucket, number)))
  }

  function Findings(rows: seq<RowShape>, bucket: Bucket): Node {
    if rows == [] then Plain(Nothing)
    else Both(Findings(rows[..|rows| - 1], bucket), FindingPart(rows[|rows| - 1], bucket, |rows|))
  }

  function SectionLead(bucket: Bucket): Prose {
    Then(Block(Heading(2), [], Copy(if bucket == Acting then ActHeading else ReviewHeading)),
      Classed(Paragraph, BlurbValue, Copy(if bucket == Acting then ActBlurb else ReviewBlurb)))
  }

  function NothingText(): Prose {
    Then(Block(Heading(2), [], Copy(ActHeading)), Classed(Paragraph, EmptyValue, Copy(NothingToFix)))
  }

  /** An empty list of actions is stated; an empty list of decisions is not. */
  function SectionPart(rows: seq<RowShape>, bucket: Bucket): Node {
    if rows == [] then When(bucket == Acting, Element(Section, [], Some(Actions), None, Plain(NothingText())))
    else Element(Section, [], Some(if bucket == Acting then Actions else Decisions), None,
                 Both(Plain(SectionLead(bucket)), Findings(rows, bucket)))
  }

  function InventoryItems(count: nat): Prose {
    if count == 0 then Nothing
    else Then(InventoryItems(count - 1), Block(ListItem, [], Text(TitleOf(Noting, count))))
  }

  function InventoryText(count: nat): Prose {
    Then(Block(Heading(2), [], Copy(InventoryHeading)),
    Then(Classed(Paragraph, BlurbValue, Copy(InventoryBlurb)), Block(BulletList, [], InventoryItems(count))))
  }

  function InventoryPart(count: nat): Node {
    When(count > 0, Element(Section, [(Class, if count > 8 then LongAppendixValue else AppendixValue)],
                            Some(Reference), None, Plain(InventoryText(count))))
  }

  // ------------------------------------------------------------------ the document

  function FooterPart(): Node {
    Element(Footer, [], Some(Scope), None, Plain(ScopeText()))
  }

  function Pieces(shape: Shape): Node {
    Both(Plain(CoverPart(shape)),
    Both(NavPart(shape),
    Both(ActionPlan(shape.actions),
    Both(SectionPart(shape.actions, Acting),
    Both(SectionPart(shape.decisions, Deciding),
    Both(InventoryPart(shape.notes), FooterPart()))))))
  }

  function MainPart(shape: Shape): Node {
    Element(Main, [(Class, ReportValue)], Some(PageId.Report), None, Pieces(shape))
  }

  function Document(shape: Shape): Node {
    Around(Root, [(Lang, EnValue)],
      Both(Plain(HeadPart()),
        Around(Body, [], Both(Plain(RunningFooter()), Both(Plain(SaveBar()), MainPart(shape))))))
  }

  /** `render_html`, but for the document type line and the line breaks between tags. */
  function Rendered(meta: ReportMeta, scan: Triage.TriagedScan, explain: Explain, fixed: Wording -> string): string {
    Serialize(Document(ShapeOf(meta, scan)), SourceOf(meta, scan, explain, fixed))
  }
}
