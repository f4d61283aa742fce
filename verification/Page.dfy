/** The pieces a report page is made of: what they print, the tags they add, the places and links they hold. */
module Page {
  import opened Clock
  import opened Numbers
  import opened Html
  import Css

  datatype Element =
    | Root | Head | Meta | Title | Style | Body | Div | Button | Span | Main | Header | Img | Paragraph
    | Strong | Heading(level: nat) | DescList | DescTerm | DescText | Nav | Anchor | Section | OrderedList
    | BulletList | ListItem | Article | Code | Footer

  function ElementName(e: Element): string {
    match e
    case Root => "html" case Head => "head" case Meta => "meta" case Title => "title" case Style => "style"
    case Body => "body" case Div => "div" case Button => "button" case Span => "span" case Main => "main"
    case Header => "header" case Img => "img" case Paragraph => "p" case Strong => "strong"
    case Heading(n) => if n == 1 then "h1" else if n == 2 then "h2" else if n == 3 then "h3" else "h4"
    case DescList => "dl" case DescTerm => "dt" case DescText => "dd" case Nav => "nav" case Anchor => "a"
    case Section => "section" case OrderedList => "ol" case BulletList => "ul" case ListItem => "li"
    case Article => "article" case Code => "code" case Footer => "footer"
  }

  datatype Attribute = Lang | Charset | Name | Content | Class | Type | OnClick | Src | Alt | AriaLabel | AriaHidden

  function AttributeName(a: Attribute): string {
    match a
    case Lang => "lang" case Charset => "charset" case Name => "name" case Content => "content"
    case Class => "class" case Type => "type" case OnClick => "onclick" case Src => "src" case Alt => "alt"
    case AriaLabel => "aria-label" case AriaHidden => "aria-hidden"
  }

  /** The attribute values that are written in the report's templates. */
  datatype Fixed =
    | TrueValue | ReportSectionsValue | Utf8Value | ActionPlanValue | AllActionsValue | BlurbValue | ByValue
    | CaveatValue | CoverValue | DateValue | EmptyValue | EvidenceValue | EvidenceLabelValue | FindingValue
    | FindingBodyValue | FindingHeadValue | FindingRefValue | FixValue | FixLabelValue | HeadlineValue
    | ImpactValue | LogoValue | OverviewValue | PlanArrowValue | PlanListValue | ReportValue | ReportNavValue
    | RunningValue | SaveValue | SeenValue | SubjectValue | SummaryNoteValue | TallyValue | WhyValue
    | LongAppendixValue | AppendixValue | DeviceWidthValue | EnValue | ViewportValue | PrintCallValue
    | ButtonValue | UrgentPill | HighPill | MediumPill | LowPill | NotedPill

  function FixedText(v: Fixed): string {
    match v
    case TrueValue => "true"
    case ReportSectionsValue => "Report sections"
    case Utf8Value => "utf-8"
    case ActionPlanValue => "action-plan"
    case AllActionsValue => "all-actions"
    case BlurbValue => "blurb"
    case ByValue => "by"
    case CaveatValue => "caveat"
    case CoverValue => "cover"
    case DateValue => "date"
    case EmptyValue => "empty"
    case EvidenceValue => "evidence"
    case EvidenceLabelValue => "evidence-label"
    case FindingValue => "finding"
    case FindingBodyValue => "finding-body"
    case FindingHeadValue => "finding-head"
    case FindingRefValue => "finding-ref"
    case FixValue => "fix"
    case FixLabelValue => "fix-label"
    case HeadlineValue => "headline"
    case ImpactValue => "impact"
    case LogoValue => "logo"
    case OverviewValue => "overview"
    case PlanArrowValue => "plan-arrow"
    case PlanListValue => "plan-list"
    case ReportValue => "report"
    case ReportNavValue => "report-nav"
    case RunningValue => "running"
    case SaveValue => "save"
    case SeenValue => "seen"
    case SubjectValue => "subject"
    case SummaryNoteValue => "summary-note"
    case TallyValue => "tally"
    case WhyValue => "why"
    case LongAppendixValue => "appendix appendix-long"
    case AppendixValue => "appendix"
    case DeviceWidthValue => "width=device-width, initial-scale=1"
    case EnValue => "en"
    case ViewportValue => "viewport"
    case PrintCallValue => "window.print()"
    case ButtonValue => "button"
    case UrgentPill => "pill p-urgent"
    case HighPill => "pill p-high"
    case MediumPill => "pill p-medium"
    case LowPill => "pill p-low"
    case NotedPill => "pill p-none"
  }

  /** The places of the page that carry an id. */
  datatype PageId = Report | Actions | Decisions | Reference | Scope | Action(number: nat) | Decision(number: nat)

  function IdText(id: PageId): string {
    match id
    case Report => "report"
    case Actions => "actions"
    case Decisions => "decisions"
    case Reference => "reference"
    case Scope => "scope"
    case Action(n) => "action-" + DigitsOf(n)
    case Decision(n) => "decision-" + DigitsOf(n)
  }

  /** The report's fixed wording, style rules included. */
  datatype Wording =
    | TitleLead | TitleDash | StyleRules | FooterRuleStart | FooterRuleEnd | RunningBy | RunningDot | SaveLabel | SaveHint
    | PreparedBy | ReportHeading | PreparedFor | Scanned | SummaryNote | TallyAct | TallyReview | TallyInventory
    | LinkActions | LinkDecisions | LinkReference | LinkScope | PlanHeading | PlanBlurb | Arrow | ViewAll | ViewAllActions
    | ActHeading | ActBlurb | ReviewHeading | ReviewBlurb | NothingToFix | ActionWord | DecisionWord | Observed | Times
    | WhyHeading | FixHeading | NoGuidance | EvidenceHeading | InventoryHeading | InventoryBlurb
    | ScopeHeading | ScopeBy | ScopeFor | ScopeStop | Caveat
    | UrgentLabel | HighLabel | MediumLabel | LowLabel | NotedLabel | NoIssues | OneIssue | ManyIssues
    | IdentityBy | IdentityDot

  datatype Bucket = Acting | Deciding | Noting

  /** Every text from outside that a page shows, by where it comes from. Rows are numbered from one. */
  datatype TextKey =
    | Agency | Client | Domain | Day | IdentityLine | LogoUrl
    | TitleOf(bucket: Bucket, number: nat) | SeenCount(bucket: Bucket, number: nat)
    | WhyOf(bucket: Bucket, number: nat) | FixOf(bucket: Bucket, number: nat) | EvidenceOf(bucket: Bucket, number: nat)

  /** What fills a page: the texts from outside, and the report's own wording. */
  datatype Source = Source(given: TextKey -> string, fixed: Wording -> string)

  /** The fixed wording opens no tag. */
  ghost predicate PlainWording(source: Source) {
    forall w :: '<' !in source.fixed(w)
  }

  /** Content without ids or links: elements, escaped text, numbers, the logo, the identity as CSS, fixed wording. */
  datatype Prose =
    | Nothing
    | Block(element: Element, attrs: seq<(Attribute, Fixed)>, inner: Prose)
    | Void(element: Element, attrs: seq<(Attribute, Fixed)>)
    | Logo
    | Text(key: TextKey)
    | Number(value: nat, padded: bool)
    | Identity
    | Copy(wording: Wording)
    | Then(first: Prose, second: Prose)

  /** A piece of the page: plain content, an element with its id or its link into the page, or two pieces. */
  datatype Node =
    | Plain(prose: Prose)
    | Element(element: Element, attrs: seq<(Attribute, Fixed)>, id: Option<PageId>, href: Option<PageId>, inner: Node)
    | Both(first: Node, second: Node)

  // ------------------------------------------------------------------ what a piece prints

  function Named(attrs: seq<(Attribute, Fixed)>): (r: seq<(string, string)>)
    ensures |r| == |attrs|
  {
    seq(|attrs|, k requires 0 <= k < |attrs| => (AttributeName(attrs[k].0), FixedText(attrs[k].1)))
  }

  function IdAttribute(id: Option<PageId>): seq<(string, string)> {
    match id
    case None => []
    case Some(x) => [("id", IdText(x))]
  }

  function HrefAttribute(href: Option<PageId>): seq<(string, string)> {
    match href
    case None => []
    case Some(x) => [("href", "#" + IdText(x))]
  }

  function StartTag(e: Element, attrs: seq<(Attribute, Fixed)>, id: Option<PageId>, href: Option<PageId>): Tag {
    Tag(ElementName(e), Named(attrs) + IdAttribute(id) + HrefAttribute(href))
  }

  function EndTag(e: Element): Tag {
    Tag("/" + ElementName(e), [])
  }

  function LogoTag(source: Source): Tag {
    Tag("img", [("class", "logo"), ("src", source.given(LogoUrl)), ("alt", source.given(Agency))])
  }

  /** A number, with a leading zero below ten where it is padded. */
  function NumberText(n: nat, padded: bool): (s: string)
    ensures '<' !in s
  {
    if padded && n < 10 then "0" + DigitsOf(n) else DigitsOf(n)
  }

  function PrintProse(prose: Prose, source: Source): string {
    match prose
    case Nothing => ""
    case Block(e, attrs, inner) =>
      WrittenTag(StartTag(e, attrs, None, None)) + PrintProse(inner, source) + WrittenTag(EndTag(e))
    case Void(e, attrs) => WrittenTag(StartTag(e, attrs, None, None))
    case Logo => WrittenTag(LogoTag(source))
    case Text(key) => Escape(source.given(key))
    case Number(n, padded) => NumberText(n, padded)
    case Identity => Css.EscapeIdentity(source.given(IdentityLine))
    case Copy(wording) => source.fixed(wording)
    case Then(a, b) => PrintProse(a, source) + PrintProse(b, source)
  }

  function Serialize(node: Node, source: Source): string {
    match node
    case Plain(prose) => PrintProse(prose, source)
    case Element(e, attrs, id, href, inner) =>
      WrittenTag(StartTag(e, attrs, id, href)) + Serialize(inner, source) + WrittenTag(EndTag(e))
    case Both(a, b) => Serialize(a, source) + Serialize(b, source)
  }

  /** The tags a piece contributes, in order. */
  function ProseTags(prose: Prose, source: Source): seq<Tag> {
    match prose
    case Block(e, attrs, inner) => [StartTag(e, attrs, None, None)] + ProseTags(inner, source) + [EndTag(e)]
    case Void(e, attrs) => [StartTag(e, attrs, None, None)]
    case Logo => [LogoTag(source)]
    case Then(a, b) => ProseTags(a, source) + ProseTags(b, source)
    case _ => []
  }

  function Tags(node: Node, source: Source): seq<Tag> {
    match node
    case Plain(prose) => ProseTags(prose, source)
    case Element(e, attrs, id, href, inner) => [StartTag(e, attrs, id, href)] + Tags(inner, source) + [EndTag(e)]
    case Both(a, b) => Tags(a, source) + Tags(b, source)
  }

  /** The text between the tags, as written. */
  function ProseData(prose: Prose, source: Source): string {
    match prose
    case Block(_, _, inner) => ProseData(inner, source)
    case Then(a, b) => ProseData(a, source) + ProseData(b, source)
    case Void(_, _) => ""
    case Logo => ""
    case _ => PrintProse(prose, source)
  }

  function DataOf(node: Node, source: Source): string {
    match node
    case Plain(prose) => ProseData(prose, source)
    case Element(_, _, _, _, inner) => DataOf(inner, source)
    case Both(a, b) => DataOf(a, source) + DataOf(b, source)
  }

  // ------------------------------------------------------------------ reading a page back

  lemma ElementNamesAreWords(e: Element)
    ensures Word(ElementName(e))
  {
  }

  lemma AttributeNamesAreWords(a: Attribute)
    ensures Word(AttributeName(a)) && AttributeName(a) != "id" && AttributeName(a) != "href"
  {
  }

  lemma {:induction false} StartTagIsReadable(e: Element, attrs: seq<(Attribute, Fixed)>,
                                              id: Option<PageId>, href: Option<PageId>)
    ensures Word(StartTag(e, attrs, id, href).name)
    ensures forall k | 0 <= k < |StartTag(e, attrs, id, href).attrs| :: Word(StartTag(e, attrs, id, href).attrs[k].0)
  {
    ElementNamesAreWords(e);
    forall k | 0 <= k < |attrs| ensures Word(AttributeName(attrs[k].0)) { AttributeNamesAreWords(attrs[k].0); }
  }

  lemma EndTagIsReadable(e: Element)
    ensures Word(EndTag(e).name)
  {
    ElementNamesAreWords(e);
    assert Word("/");
  }

  lemma ReadLeaf(r: Reader, prose: Prose, source: Source)
    requires r.mode == Data && PlainWording(source)
    requires prose.Nothing? || prose.Text? || prose.Number? || prose.Identity? || prose.Copy?
    ensures ReadAll(r, PrintProse(prose, source))
         == Reader(Data, r.tags + ProseTags(prose, source), r.data + ProseData(prose, source))
  {
    if prose.Text? { EscapedIsInert(source.given(prose.key)); }
    if prose.Identity? { Css.IdentityStaysInside(source.given(IdentityLine)); }
    ReadText(r, PrintProse(prose, source));
  }

  /** A start tag, content that reads as it should after it, and the end tag. */
  lemma {:induction false} ReadEnclosed(r: Reader, start: Tag, inner: string, tags: seq<Tag>, data: string, e: Element)
    requires r.mode == Data && Word(start.name) && forall k | 0 <= k < |start.attrs| :: Word(start.attrs[k].0)
    requires ReadAll(Reader(Data, r.tags + [start], r.data + ""), inner)
          == Reader(Data, r.tags + [start] + tags, r.data + "" + data)
    ensures ReadAll(r, WrittenTag(start) + inner + WrittenTag(EndTag(e)))
         == Reader(Data, r.tags + ([start] + tags + [EndTag(e)]), r.data + data)
  {
    EndTagIsReadable(e);
    ReadTagOnly(r, start);
    ReadBoth(r, WrittenTag(start), inner, [start], "", tags, data);
    ReadTagOnly(ReadAll(r, WrittenTag(start) + inner), EndTag(e));
    ReadBoth(r, WrittenTag(start) + inner, WrittenTag(EndTag(e)), [start] + tags, "" + data, [EndTag(e)], "");
    assert "" + data + "" == data;
  }

  lemma {:induction false} ReadProse(r: Reader, prose: Prose, source: Source)
    requires r.mode == Data && PlainWording(source)
    ensures ReadAll(r, PrintProse(prose, source))
         == Reader(Data, r.tags + ProseTags(prose, source), r.data + ProseData(prose, source))
    decreases prose
  {
    match prose
    case Block(e, attrs, inner) =>
      var start := StartTag(e, attrs, None, None);
      StartTagIsReadable(e, attrs, None, None);
      ReadProse(Reader(Data, r.tags + [start], r.data + ""), inner, source);
      ReadEnclosed(r, start, PrintProse(inner, source), ProseTags(inner, source), ProseData(inner, source), e);
    case Void(e, attrs) =>
      StartTagIsReadable(e, attrs, None, None);
      ReadTagOnly(r, StartTag(e, attrs, None, None));
    case Logo =>
      ReadTagOnly(r, LogoTag(source));
    case Then(a, b) =>
      ReadProse(r, a, source);
      ReadProse(ReadAll(r, PrintProse(a, source)), b, source);
      ReadBoth(r, PrintProse(a, source), PrintProse(b, source),
               ProseTags(a, source), ProseData(a, source), ProseTags(b, source), ProseData(b, source));
    case _ =>
      ReadLeaf(r, prose, source);
  }

  /** Reading a printed page gives back its tags, and its text as the text between them. */
  lemma {:induction false} ReadNode(r: Reader, node: Node, source: Source)
    requires r.mode == Data && PlainWording(source)
    ensures ReadAll(r, Serialize(node, source))
         == Reader(Data, r.tags + Tags(node, source), r.data + DataOf(node, source))
    decreases node
  {
    match node
    case Plain(prose) =>
      ReadProse(r, prose, source);
    case Element(e, attrs, id, href, inner) =>
      var start := StartTag(e, attrs, id, href);
      StartTagIsReadable(e, attrs, id, href);
      ReadNode(Reader(Data, r.tags + [start], r.data + ""), inner, source);
      ReadEnclosed(r, start, Serialize(inner, source), Tags(inner, source), DataOf(inner, source), e);
    case Both(a, b) =>
      ReadNode(r, a, source);
      ReadNode(ReadAll(r, Serialize(a, source)), b, source);
      ReadBoth(r, Serialize(a, source), Serialize(b, source),
               Tags(a, source), DataOf(a, source), Tags(b, source), DataOf(b, source));
  }

  /** From the start of a document: exactly its tags, and exactly its text between them. */
  lemma {:induction false} PageReadsBack(node: Node, source: Source)
    requires PlainWording(source)
    ensures Markup(Serialize(node, source)) == Tags(node, source)
    ensures ReadAll(Reader(Data, [], ""), Serialize(node, source)) == Reader(Data, Tags(node, source), DataOf(node, source))
  {
    ReadNode(Reader(Data, [], ""), node, source);
    assert [] + Tags(node, source) == Tags(node, source) && "" + DataOf(node, source) == DataOf(node, source);
  }

  // ------------------------------------------------------------------ the outline does not depend on the texts

  /** A tag without the values that come from the customer: the logo's address and its alternative text. */
  function Blank(attrs: seq<(string, string)>): seq<(string, string)> {
    seq(|attrs|, k requires 0 <= k < |attrs| =>
      if attrs[k].0 == "src" || attrs[k].0 == "alt" then (attrs[k].0, "") else attrs[k])
  }

  function Outline(tags: seq<Tag>): (r: seq<Tag>)
    ensures |r| == |tags|
  {
    seq(|tags|, k requires 0 <= k < |tags| => Tag(tags[k].name, Blank(tags[k].attrs)))
  }

  lemma {:induction false} OutlineAppend(a: seq<Tag>, b: seq<Tag>)
    ensures Outline(a + b) == Outline(a) + Outline(b)
  {
  }

  lemma {:induction false} LogoOutline(s: Source, t: Source)
    ensures Outline([LogoTag(s)]) == Outline([LogoTag(t)])
  {
    assert "class"[0] == 'c' && "src"[0] == 's' && "alt"[0] == 'a';
    assert Blank(LogoTag(s).attrs) == Blank(LogoTag(t).attrs);
  }

  lemma {:induction false} ProseOutline(prose: Prose, s: Source, t: Source)
    ensures Outline(ProseTags(prose, s)) == Outline(ProseTags(prose, t))
    decreases prose
  {
    match prose
    case Block(e, attrs, inner) =>
      ProseOutline(inner, s, t);
      OutlineElement(StartTag(e, attrs, None, None), ProseTags(inner, s), EndTag(e));
      OutlineElement(StartTag(e, attrs, None, None), ProseTags(inner, t), EndTag(e));
    case Logo =>
      LogoOutline(s, t);
    case Then(a, b) =>
      ProseOutline(a, s, t);
      ProseOutline(b, s, t);
      OutlineAppend(ProseTags(a, s), ProseTags(b, s));
      OutlineAppend(ProseTags(a, t), ProseTags(b, t));
    case _ =>
  }

  lemma {:induction false} OutlineIgnoresTexts(node: Node, s: Source, t: Source)
    ensures Outline(Tags(node, s)) == Outline(Tags(node, t))
    decreases node
  {
    match node
    case Plain(prose) =>
      ProseOutline(prose, s, t);
    case Element(e, attrs, id, href, inner) =>
      OutlineIgnoresTexts(inner, s, t);
      OutlineElement(StartTag(e, attrs, id, href), Tags(inner, s), EndTag(e));
      OutlineElement(StartTag(e, attrs, id, href), Tags(inner, t), EndTag(e));
    case Both(a, b) =>
      OutlineIgnoresTexts(a, s, t);
      OutlineIgnoresTexts(b, s, t);
      OutlineAppend(Tags(a, s), Tags(b, s));
      OutlineAppend(Tags(a, t), Tags(b, t));
  }

  lemma OutlineElement(start: Tag, inner: seq<Tag>, end: Tag)
    ensures Outline([start] + inner + [end]) == Outline([start]) + Outline(inner) + Outline([end])
  {
    OutlineAppend([start] + inner, [end]);
    OutlineAppend([start], inner);
  }

  // ------------------------------------------------------------------ the texts shown

  /** What a page shows besides its constant wording: a text from outside, a number, or a word chosen by the scan. */
  datatype Leaf = Given(key: TextKey) | Figure(value: nat, padded: bool) | Said(wording: Wording)

  predicate IsTelling(w: Wording) {
    || w == UrgentLabel || w == HighLabel || w == MediumLabel || w == LowLabel || w == NotedLabel
    || w == NoIssues || w == OneIssue || w == ManyIssues
    || w == ActHeading || w == ReviewHeading || w == ActionWord || w == DecisionWord || w == NoGuidance
  }

  /** What a piece shows, in the order it shows it. */
  function ProseLeaves(prose: Prose): seq<Leaf> {
    match prose
    case Block(_, _, inner) => ProseLeaves(inner)
    case Text(key) => [Given(key)]
    case Number(n, padded) => [Figure(n, padded)]
    case Copy(w) => if IsTelling(w) then [Said(w)] else []
    case Then(a, b) => ProseLeaves(a) + ProseLeaves(b)
    case _ => []
  }

  function Leaves(node: Node): seq<Leaf> {
    match node
    case Plain(prose) => ProseLeaves(prose)
    case Element(_, _, _, _, inner) => Leaves(inner)
    case Both(a, b) => Leaves(a) + Leaves(b)
  }

  // ------------------------------------------------------------------ places and links

  /** How many elements of a piece carry the id `x`. */
  function Targets(node: Node, x: PageId): nat {
    match node
    case Plain(_) => 0
    case Element(_, _, id, _, inner) => (if id == Some(x) then 1 else 0) + Targets(inner, x)
    case Both(a, b) => Targets(a, x) + Targets(b, x)
  }

  /** Whether a piece links to `x`. */
  predicate LinksTo(node: Node, x: PageId) {
    match node
    case Plain(_) => false
    case Element(_, _, _, href, inner) => href == Some(x) || LinksTo(inner, x)
    case Both(a, b) => LinksTo(a, x) || LinksTo(b, x)
  }

  // ------------------------------------------------------------------ ids and links in the markup

  function CountIn(attrs: seq<(string, string)>, name: string, value: string): nat {
    if attrs == [] then 0
    else (if attrs[0].0 == name && attrs[0].1 == value then 1 else 0) + CountIn(attrs[1..], name, value)
  }

  /** How many tags of a document carry an attribute with a value. */
  function Count(tags: seq<Tag>, name: string, value: string): nat {
    if tags == [] then 0 else CountIn(tags[0].attrs, name, value) + Count(tags[1..], name, value)
  }

  lemma {:induction false} CountInAppend(a: seq<(string, string)>, b: seq<(string, string)>, name: string, value: string)
    ensures CountIn(a + b, name, value) == CountIn(a, name, value) + CountIn(b, name, value)
  {
    if a == [] {
      assert a + b == b;
    } else {
      assert (a + b)[0] == a[0] && (a + b)[1..] == a[1..] + b;
      CountInAppend(a[1..], b, name, value);
    }
  }

  lemma {:induction false} CountAppend(a: seq<Tag>, b: seq<Tag>, name: string, value: string)
    ensures Count(a + b, name, value) == Count(a, name, value) + Count(b, name, value)
  {
    if a == [] {
      assert a + b == b;
    } else {
      assert (a + b)[0] == a[0] && (a + b)[1..] == a[1..] + b;
      CountAppend(a[1..], b, name, value);
    }
  }

  lemma {:induction false} CountOne(tag: Tag, name: string, value: string)
    ensures Count([tag], name, value) == CountIn(tag.attrs, name, value)
  {
    assert [tag][1..] == [];
  }

  lemma {:induction false} NamedHasNone(attrs: seq<(Attribute, Fixed)>, value: string)
    ensures CountIn(Named(attrs), "id", value) == 0 && CountIn(Named(attrs), "href", value) == 0
  {
    if attrs != [] {
      AttributeNamesAreWords(attrs[0].0);
      assert Named(attrs)[1..] == Named(attrs[1..]);
      NamedHasNone(attrs[1..], value);
    }
  }

  lemma IdNotHref()
    ensures "id" != "href"
  {
    assert |"id"| != |"href"|;
  }

  lemma {:induction false} StartTagIds(e: Element, attrs: seq<(Attribute, Fixed)>,
                                       id: Option<PageId>, href: Option<PageId>, value: string)
    ensures CountIn(StartTag(e, attrs, id, href).attrs, "id", value)
         == if id.Some? && IdText(id.value) == value then 1 else 0
  {
    IdNotHref();
    NamedHasNone(attrs, value);
    CountInAppend(Named(attrs) + IdAttribute(id), HrefAttribute(href), "id", value);
    CountInAppend(Named(attrs), IdAttribute(id), "id", value);
    if id.Some? { assert IdAttribute(id)[1..] == []; }
    if href.Some? { assert HrefAttribute(href)[1..] == []; }
  }

  lemma {:induction false} StartTagLinks(e: Element, attrs: seq<(Attribute, Fixed)>,
                                         id: Option<PageId>, href: Option<PageId>, value: string)
    ensures CountIn(StartTag(e, attrs, id, href).attrs, "href", value)
         == if href.Some? && "#" + IdText(href.value) == value then 1 else 0
  {
    IdNotHref();
    NamedHasNone(attrs, value);
    CountInAppend(Named(attrs) + IdAttribute(id), HrefAttribute(href), "href", value);
    CountInAppend(Named(attrs), IdAttribute(id), "href", value);
    if id.Some? { assert IdAttribute(id)[1..] == []; }
    if href.Some? { assert HrefAttribute(href)[1..] == []; }
  }

  lemma {:induction false} CountElement(start: Tag, inner: seq<Tag>, end: Tag, name: string, value: string)
    ensures Count([start] + inner + [end], name, value)
         == CountIn(start.attrs, name, value) + Count(inner, name, value) + CountIn(end.attrs, name, value)
  {
    CountAppend([start] + inner, [end], name, value);
    CountAppend([start], inner, name, value);
    CountOne(start, name, value);
    CountOne(end, name, value);
  }

  lemma LogoHasNone(source: Source, value: string)
    ensures CountIn(LogoTag(source).attrs, "id", value) == 0 && CountIn(LogoTag(source).attrs, "href", value) == 0
  {
    var attrs := LogoTag(source).attrs;
    assert attrs[0].0[0] == 'c' && attrs[1].0[0] == 's' && attrs[2].0[0] == 'a';
    assert "id"[0] == 'i' && "href"[0] == 'h';
    assert attrs[1..][1..] == [attrs[2]] && [attrs[2]][1..] == [];
    assert CountIn([attrs[2]], "id", value) == 0 && CountIn([attrs[2]], "href", value) == 0;
    assert CountIn(attrs[1..], "id", value) == 0 && CountIn(attrs[1..], "href", value) == 0;
  }

  /** Different places have different ids. */
  lemma {:induction false} IdTextsDiffer(x: PageId, y: PageId)
    ensures IdText(x) == IdText(y) <==> x == y
  {
    if IdText(x) == IdText(y) {
      IdTextTells(x);
      IdTextTells(y);
      if x.Action? && y.Action? {
        assert IdText(x)[7..] == DigitsOf(x.number) && IdText(y)[7..] == DigitsOf(y.number);
        DigitsDiffer(x.number, y.number);
      } else if x.Decision? && y.Decision? {
        assert IdText(x)[9..] == DigitsOf(x.number) && IdText(y)[9..] == DigitsOf(y.number);
        DigitsDiffer(x.number, y.number);
      }
    }
  }

  /** What tells the kinds of id apart: the third character, then the one after "action" or "decision". */
  predicate Tells(s: string, x: PageId) {
    |s| >= 5 &&
    match x
    case Report => s[2] == 'p'
    case Actions => s[2] == 't' && |s| == 7 && s[6] == 's'
    case Action(_) => s[2] == 't' && |s| > 7 && s[6] == '-'
    case Decisions => s[2] == 'c' && |s| == 9 && s[8] == 's'
    case Decision(_) => s[2] == 'c' && |s| > 9 && s[8] == '-'
    case Reference => s[2] == 'f'
    case Scope => s[2] == 'o'
  }

  lemma IdTextTells(x: PageId)
    ensures Tells(IdText(x), x)
  {
  }

  /** Plain content has no ids and no links. */
  lemma {:induction false} ProseHasNone(prose: Prose, source: Source, value: string)
    ensures Count(ProseTags(prose, source), "id", value) == 0 && Count(ProseTags(prose, source), "href", value) == 0
    decreases prose
  {
    match prose
    case Block(e, attrs, inner) =>
      ProseHasNone(inner, source, value);
      StartTagIds(e, attrs, None, None, value);
      StartTagLinks(e, attrs, None, None, value);
      CountElement(StartTag(e, attrs, None, None), ProseTags(inner, source), EndTag(e), "id", value);
      CountElement(StartTag(e, attrs, None, None), ProseTags(inner, source), EndTag(e), "href", value);
    case Void(e, attrs) =>
      StartTagIds(e, attrs, None, None, value);
      StartTagLinks(e, attrs, None, None, value);
      CountOne(StartTag(e, attrs, None, None), "id", value);
      CountOne(StartTag(e, attrs, None, None), "href", value);
    case Logo =>
      LogoHasNone(source, value);
      CountOne(LogoTag(source), "id", value);
      CountOne(LogoTag(source), "href", value);
    case Then(a, b) =>
      ProseHasNone(a, source, value);
      ProseHasNone(b, source, value);
      CountAppend(ProseTags(a, source), ProseTags(b, source), "id", value);
      CountAppend(ProseTags(a, source), ProseTags(b, source), "href", value);
    case _ =>
  }

  /** The ids in the markup are exactly the places the page was built with. */
  lemma {:induction false} TargetsInMarkup(node: Node, source: Source, x: PageId)
    ensures Count(Tags(node, source), "id", IdText(x)) == Targets(node, x)
    decreases node
  {
    match node
    case Plain(prose) =>
      ProseHasNone(prose, source, IdText(x));
    case Element(e, attrs, id, href, inner) =>
      TargetsInMarkup(inner, source, x);
      StartTagIds(e, attrs, id, href, IdText(x));
      CountElement(StartTag(e, attrs, id, href), Tags(inner, source), EndTag(e), "id", IdText(x));
      if id.Some? { IdTextsDiffer(id.value, x); }
    case Both(a, b) =>
      TargetsInMarkup(a, source, x);
      TargetsInMarkup(b, source, x);
      CountAppend(Tags(a, source), Tags(b, source), "id", IdText(x));
  }

  /** Every link in the markup is a link the page was built with. */
  lemma {:induction false} LinksInMarkup(node: Node, source: Source, value: string)
    requires Count(Tags(node, source), "href", value) > 0
    ensures exists x :: LinksTo(node, x) && value == "#" + IdText(x)
    decreases node
  {
    match node
    case Plain(prose) =>
      ProseHasNone(prose, source, value);
    case Element(e, attrs, id, href, inner) =>
      StartTagLinks(e, attrs, id, href, value);
      CountElement(StartTag(e, attrs, id, href), Tags(inner, source), EndTag(e), "href", value);
      if Count(Tags(inner, source), "href", value) > 0 {
        LinksInMarkup(inner, source, value);
        var x :| LinksTo(inner, x) && value == "#" + IdText(x);
        assert LinksTo(node, x);
      } else {
        assert LinksTo(node, href.value);
      }
    case Both(a, b) =>
      CountAppend(Tags(a, source), Tags(b, source), "href", value);
      var part := if Count(Tags(a, source), "href", value) > 0 then a else b;
      LinksInMarkup(part, source, value);
      var x :| LinksTo(part, x) && value == "#" + IdText(x);
      assert LinksTo(node, x);
  }
}
