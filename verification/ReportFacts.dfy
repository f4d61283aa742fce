/** What holds of every rendered report: its links lead somewhere, and no text from outside changes its markup. */
module ReportFacts {
  import opened Html
  import opened Page
  import opened Report

  // ------------------------------------------------------------------ markup independent of the texts

  /**
   Two reports of one shape have the same tags with the same ids, links and other attributes, whatever the names,
   titles, evidence and guidance say; only the logo's address and alternative text are left out of the comparison.
   */
  lemma {:induction false} MarkupIgnoresTexts(m: ReportMeta, n: ReportMeta, a: Triage.TriagedScan, b: Triage.TriagedScan,
                                              explainA: Explain, explainB: Explain, fixed: Wording -> string)
    requires forall w :: '<' !in fixed(w)
    requires ShapeOf(m, a) == ShapeOf(n, b)
    ensures Outline(Markup(Rendered(m, a, explainA, fixed))) == Outline(Markup(Rendered(n, b, explainB, fixed)))
  {
    var s, t := SourceOf(m, a, explainA, fixed), SourceOf(n, b, explainB, fixed);
    var page := Document(ShapeOf(m, a));
    PageReadsBack(page, s);
    PageReadsBack(page, t);
    OutlineIgnoresTexts(page, s, t);
  }

  // ------------------------------------------------------------------ places

  predicate NumberedUpTo(bucket: Bucket, n: nat, x: PageId) {
    if bucket == Acting then x.Action? && 1 <= x.number <= n else x.Decision? && 1 <= x.number <= n
  }

  /** The places of a section of findings: the actions' heading is always there, the decisions' only with rows. */
  predicate InSection(bucket: Bucket, n: nat, x: PageId) {
    NumberedUpTo(bucket, n, x) || (bucket == Acting && x == Actions) || (bucket != Acting && n > 0 && x == Decisions)
  }

  /** The places a report has. */
  predicate InPage(shape: Shape, x: PageId) {
    x == PageId.Report || InSection(Acting, |shape.actions|, x) || InSection(Deciding, |shape.decisions|, x)
    || (shape.notes > 0 && x == Reference) || x == Scope
  }

  predicate InNav(shape: Shape, x: PageId) {
    x == Actions || x == Scope || (shape.decisions != [] && x == Decisions) || (shape.notes > 0 && x == Reference)
  }

  lemma BothHave(a: Node, b: Node, x: PageId)
    ensures Targets(Both(a, b), x) == Targets(a, x) + Targets(b, x)
    ensures LinksTo(Both(a, b), x) <==> LinksTo(a, x) || LinksTo(b, x)
  {
  }

  lemma LinkIfShown(shown: bool, id: PageId, w: Wording, x: PageId)
    ensures Targets(When(shown, LinkTo(id, [], Copy(w))), x) == 0
    ensures LinksTo(When(shown, LinkTo(id, [], Copy(w))), x) <==> shown && x == id
  {
  }

  lemma NavLeads(shape: Shape, x: PageId)
    ensures Targets(NavPart(shape), x) == 0
    ensures LinksTo(NavPart(shape), x) <==> InNav(shape, x)
  {
    var actions, scope := LinkTo(Actions, [], Copy(LinkActions)), LinkTo(Scope, [], Copy(LinkScope));
    var decisions := When(shape.decisions != [], LinkTo(Decisions, [], Copy(LinkDecisions)));
    var reference := When(shape.notes > 0, LinkTo(Reference, [], Copy(LinkReference)));
    LinkIfShown(true, Actions, LinkActions, x);
    LinkIfShown(shape.decisions != [], Decisions, LinkDecisions, x);
    LinkIfShown(shape.notes > 0, Reference, LinkReference, x);
    LinkIfShown(true, Scope, LinkScope, x);
    BothHave(reference, scope, x);
    BothHave(decisions, Both(reference, scope), x);
    BothHave(actions, Both(decisions, Both(reference, scope)), x);
  }

  lemma PlanItemLeads(row: RowShape, number: nat, x: PageId)
    ensures Targets(PlanItem(row, number), x) == 0
    ensures LinksTo(PlanItem(row, number), x) <==> x == Action(number)
  {
    BothHave(Plain(Pill(row.priority)), LinkTo(Action(number), [], PlanText(number)), x);
  }

  lemma {:induction false} PlanItemsLead(rows: seq<RowShape>, x: PageId)
    ensures Targets(PlanItems(rows), x) == 0
    ensures LinksTo(PlanItems(rows), x) <==> NumberedUpTo(Acting, |rows|, x)
  {
    if rows != [] {
      PlanItemsLead(rows[..|rows| - 1], x);
      PlanItemLeads(rows[|rows| - 1], |rows|, x);
      BothHave(PlanItems(rows[..|rows| - 1]), PlanItem(rows[|rows| - 1], |rows|), x);
    }
  }

  lemma PlanRestLeads(count: nat, x: PageId)
    ensures Targets(PlanRest(count), x) == 0
    ensures LinksTo(PlanRest(count), x) <==> count > 3 && x == Actions
  {
  }

  /** The plan links to the first three actions, and to the list of them all when there are more. */
  lemma PlanLeads(rows: seq<RowShape>, x: PageId)
    ensures Targets(ActionPlan(rows), x) == 0
    ensures LinksTo(ActionPlan(rows), x)
      <==> NumberedUpTo(Acting, if |rows| > 3 then 3 else |rows|, x) || (|rows| > 3 && x == Actions)
  {
    PlanItemsLead(FirstThree(rows), x);
    PlanRestLeads(|rows|, x);
    var items := Around(OrderedList, [(Class, PlanListValue)], PlanItems(FirstThree(rows)));
    BothHave(items, PlanRest(|rows|), x);
    BothHave(Plain(PlanLead()), Both(items, PlanRest(|rows|)), x);
  }

  lemma {:induction false} FindingsPlaces(rows: seq<RowShape>, bucket: Bucket, x: PageId)
    ensures Targets(Findings(rows, bucket), x) == if NumberedUpTo(bucket, |rows|, x) then 1 else 0
    ensures !LinksTo(Findings(rows, bucket), x)
  {
    if rows != [] {
      var n := |rows| - 1;
      FindingsPlaces(rows[..n], bucket, x);
        BothHave(Findings(rows[..n], bucket), FindingPart(rows[n], bucket, |rows|), x);
    }
  }

  lemma SectionPlaces(rows: seq<RowShape>, bucket: Bucket, x: PageId)
    ensures Targets(SectionPart(rows, bucket), x) == if InSection(bucket, |rows|, x) then 1 else 0
    ensures !LinksTo(SectionPart(rows, bucket), x)
  {
    FindingsPlaces(rows, bucket, x);
    BothHave(Plain(SectionLead(bucket)), Findings(rows, bucket), x);
  }

  lemma TailPlaces(notes: nat, x: PageId)
    ensures Targets(InventoryPart(notes), x) == if notes > 0 && x == Reference then 1 else 0
    ensures Targets(FooterPart(), x) == if x == Scope then 1 else 0
    ensures !LinksTo(InventoryPart(notes), x) && !LinksTo(FooterPart(), x)
  {
  }

  /** Seven pieces one after another. */
  lemma SevenHave(a: Node, b: Node, c: Node, d: Node, e: Node, f: Node, g: Node, x: PageId)
    ensures Targets(Both(a, Both(b, Both(c, Both(d, Both(e, Both(f, g)))))), x)
         == Targets(a, x) + Targets(b, x) + Targets(c, x) + Targets(d, x) + Targets(e, x) + Targets(f, x) + Targets(g, x)
    ensures LinksTo(Both(a, Both(b, Both(c, Both(d, Both(e, Both(f, g)))))), x)
        ==> exists part | part in {a, b, c, d, e, f, g} :: LinksTo(part, x)
  {
    BothHave(f, g, x);
    BothHave(e, Both(f, g), x);
    BothHave(d, Both(e, Both(f, g)), x);
    BothHave(c, Both(d, Both(e, Both(f, g))), x);
    BothHave(b, Both(c, Both(d, Both(e, Both(f, g)))), x);
    BothHave(a, Both(b, Both(c, Both(d, Both(e, Both(f, g))))), x);
  }

  lemma MainPlaces(shape: Shape, x: PageId)
    ensures Targets(MainPart(shape), x) == if InPage(shape, x) then 1 else 0
    ensures LinksTo(MainPart(shape), x) ==> InPage(shape, x)
  {
    NavLeads(shape, x);
    PlanLeads(shape.actions, x);
    SectionPlaces(shape.actions, Acting, x);
    SectionPlaces(shape.decisions, Deciding, x);
    TailPlaces(shape.notes, x);
    SevenHave(Plain(CoverPart(shape)), NavPart(shape), ActionPlan(shape.actions), SectionPart(shape.actions, Acting),
              SectionPart(shape.decisions, Deciding), InventoryPart(shape.notes), FooterPart(), x);
  }

  /** The places of a report are `InPage`, each once, and its links lead nowhere else. */
  lemma DocumentPlaces(shape: Shape, x: PageId)
    ensures Targets(Document(shape), x) == if InPage(shape, x) then 1 else 0
    ensures LinksTo(Document(shape), x) ==> InPage(shape, x)
  {
    MainPlaces(shape, x);
    var main := MainPart(shape);
    var withBar := Both(Plain(SaveBar()), main);
    BothHave(Plain(SaveBar()), main, x);
    BothHave(Plain(RunningFooter()), withBar, x);
    BothHave(Plain(HeadPart()), Around(Body, [], Both(Plain(RunningFooter()), withBar)), x);
  }

  // ------------------------------------------------------------------ links

  /** The ids in a rendered report are exactly its places, each once. */
  lemma {:induction false} IdsAreThePlaces(m: ReportMeta, a: Triage.TriagedScan, explain: Explain,
                                           fixed: Wording -> string, x: PageId)
    requires forall w :: '<' !in fixed(w)
    ensures Count(Markup(Rendered(m, a, explain, fixed)), "id", IdText(x)) == if InPage(ShapeOf(m, a), x) then 1 else 0
  {
    var page, source := Document(ShapeOf(m, a)), SourceOf(m, a, explain, fixed);
    PageReadsBack(page, source);
    TargetsInMarkup(page, source, x);
    DocumentPlaces(ShapeOf(m, a), x);
  }

  /** Every link in a rendered report leads into the page, to exactly one element. */
  lemma {:induction false} EveryLinkHasOneTarget(m: ReportMeta, a: Triage.TriagedScan, explain: Explain,
                                                 fixed: Wording -> string, href: string)
    requires forall w :: '<' !in fixed(w)
    requires Count(Markup(Rendered(m, a, explain, fixed)), "href", href) > 0
    ensures exists x: PageId :: href == "#" + IdText(x) && Count(Markup(Rendered(m, a, explain, fixed)), "id", IdText(x)) == 1
  {
    var page, source := Document(ShapeOf(m, a)), SourceOf(m, a, explain, fixed);
    PageReadsBack(page, source);
    LinksInMarkup(page, source, href);
    var x :| LinksTo(page, x) && href == "#" + IdText(x);
    DocumentPlaces(ShapeOf(m, a), x);
    IdsAreThePlaces(m, a, explain, fixed, x);
  }

  const SAFE_STARTS: seq<string> := [
    "https://", "data:image/png;base64,", "data:image/jpeg;base64,", "data:image/svg+xml;base64,", "data:image/webp;base64,"]

  predicate StartsSafely(url: string) {
    exists k :: 0 <= k < |SAFE_STARTS| && StartsWith(Ascii.Lower(Ascii.Trim(url)), SAFE_STARTS[k])
  }

  /** A logo is shown only from the web over TLS or as inline image data of one of four kinds. */
  lemma LogoComesFromSafePlaces(meta: ReportMeta)
    ensures LogoSrc(meta).Some? <==> meta.logoUrl.Some? && StartsSafely(meta.logoUrl.value)
    ensures LogoSrc(meta).Some? ==> LogoSrc(meta).value == Ascii.Trim(meta.logoUrl.value)
  {
    var starts := SAFE_STARTS;
    assert starts[0] == "https://" && starts[1] == "data:image/png;base64," && starts[2] == "data:image/jpeg;base64,";
    assert starts[3] == "data:image/svg+xml;base64," && starts[4] == "data:image/webp;base64,";
  }

  /** The mark beside a priority is that priority's own. */
  lemma PillsAreMarkedSo()
    ensures FixedText(PillValue(Triage.Urgent)) == "pill p-urgent" && FixedText(PillValue(Triage.HighPriority)) == "pill p-high"
    ensures FixedText(PillValue(Triage.MediumPriority)) == "pill p-medium" && FixedText(PillValue(Triage.LowPriority)) == "pill p-low"
    ensures FixedText(PillValue(Triage.Noted)) == "pill p-none"
  {
  }

  lemma CoverHasLogo(shape: Shape, source: Source)
    ensures LogoTag(source) in ProseTags(CoverPart(shape), source) || !shape.logo
  {
    if shape.logo {
      var inner := Then(If(shape.logo, Logo), CoverText(shape));
      var tags := ProseTags(inner, source);
      assert tags == ProseTags(If(shape.logo, Logo), source) + ProseTags(CoverText(shape), source);
      assert ProseTags(If(shape.logo, Logo), source) == [LogoTag(source)];
      assert tags[0] == LogoTag(source);
      InBlock(Header, [(Class, CoverValue)], inner, source, LogoTag(source));
    }
  }

  lemma InBlock(e: Element, attrs: seq<(Attribute, Fixed)>, inner: Prose, source: Source, tag: Tag)
    requires tag in ProseTags(inner, source)
    ensures tag in ProseTags(Block(e, attrs, inner), source)
  {
    var tags := ProseTags(inner, source);
    var k :| 0 <= k < |tags| && tags[k] == tag;
    assert ProseTags(Block(e, attrs, inner), source)[k + 1] == tag;
  }

  /** The logo carries the agency's name, and the page's running identity this report's names and date. */
  lemma LogoAndIdentityAreThisReports(
    meta: ReportMeta, scan: Triage.TriagedScan, explain: Explain, fixed: Wording -> string)
    ensures var source := SourceOf(meta, scan, explain, fixed);
      && (LogoSrc(meta).Some? ==>
            Tag("img", [("class", "logo"), ("src", LogoSrc(meta).value), ("alt", meta.agency)])
              in ProseTags(CoverPart(ShapeOf(meta, scan)), source))
      && source.given(IdentityLine) == meta.domain + fixed(IdentityBy) + meta.agency + fixed(IdentityDot) + meta.date
  {
    CoverHasLogo(ShapeOf(meta, scan), SourceOf(meta, scan, explain, fixed));
  }
}
