/** Turning a scanner's raw findings into the rows of a report. */
module Triage {
  import opened Clock
  import opened Text

  datatype Severity = Info | Low | Medium | High | Critical

  datatype Disposition = Act | Review | Inventory

  /** Declared from least to most pressing. */
  datatype Priority = Noted | LowPriority | MediumPriority | HighPriority | Urgent

  function Rank(p: Priority): nat {
    match p
    case Noted => 0
    case LowPriority => 1
    case MediumPriority => 2
    case HighPriority => 3
    case Urgent => 4
  }

  predicate AtLeastMedium(s: Severity) {
    s == Medium || s == High || s == Critical
  }

  /** The tool's own record: each field is absent when missing or not of the expected JSON type. */
  datatype Raw = Raw(
    templateId: Option<string>, matcherName: Option<string>,
    extracted: Option<seq<Option<string>>>, matchedAt: Option<string>)

  datatype Finding = Finding(severity: Severity, title: string, raw: Raw)

  /** Which of the rulebook's explanations a row carries; the prose itself is not modelled. */
  datatype Topic =
    | MissingCsp | MissingFrameOptions | MissingContentTypeOptions | MissingIsolation | MissingOtherHeader
    | WeakHsts | DebugHeaders | ObsoleteTls
    | CertificateExpired | CertificateCritical | CertificateSoon | CertificateApproaching
    | CertificateNameMismatch | CertificateSelfSigned
    | PublishedEmails | RobotsPaths

  datatype Row = Row(
    title: string, disposition: Disposition, priority: Priority, scannerSeverity: Severity,
    guidance: Option<Topic>, evidence: Option<string>, templateId: string, matcher: string, occurrences: nat)

  datatype TriagedScan = TriagedScan(actionable: seq<Row>, review: seq<Row>, inventory: seq<Row>)

  // ------------------------------------------------------------------ one finding

  datatype Verdict = Verdict(disposition: Disposition, priority: Priority, guidance: Option<Topic>)

  const IN_ORDER := Verdict(Inventory, Noted, None)

  const INVENTORY_TEMPLATES: seq<string> := [
    "waf-detect", "dns-waf-detect", "tech-detect", "robots-txt", "security-txt", "google-floc-disabled",
    "form-detection", "dnssec-detection", "caa-fingerprint", "aaaa-fingerprint", "txt-fingerprint",
    "mx-fingerprint", "nameserver-fingerprint", "spf-record-detect", "dmarc-detect"]

  function ClassifyHeader(matcher: string): Verdict {
    if matcher == "content-security-policy" then Verdict(Act, HighPriority, Some(MissingCsp))
    else if matcher == "x-frame-options" then Verdict(Act, MediumPriority, Some(MissingFrameOptions))
    else if matcher == "x-content-type-options" then Verdict(Act, LowPriority, Some(MissingContentTypeOptions))
    else if matcher == "cross-origin-embedder-policy" || matcher == "cross-origin-opener-policy"
      || matcher == "cross-origin-resource-policy" then Verdict(Review, LowPriority, Some(MissingIsolation))
    else Verdict(Review, LowPriority, Some(MissingOtherHeader))
  }

  function ClassifyExpiry(matcher: string): Verdict {
    if matcher == "expired" then Verdict(Act, Urgent, Some(CertificateExpired))
    else if matcher == "critical" then Verdict(Act, Urgent, Some(CertificateCritical))
    else if matcher == "soon" then Verdict(Act, HighPriority, Some(CertificateSoon))
    else if matcher == "approaching" then Verdict(Review, MediumPriority, Some(CertificateApproaching))
    else IN_ORDER
  }

  function ClassifyUnknown(severity: Severity): Verdict {
    match severity
    case Critical => Verdict(Act, Urgent, None)
    case High => Verdict(Act, HighPriority, None)
    case Medium => Verdict(Act, MediumPriority, None)
    case Low => Verdict(Review, LowPriority, None)
    case Info => IN_ORDER
  }

  /** The rules table. */
  function Classify(templateId: string, matcher: string, severity: Severity): Verdict {
    if templateId == "http-missing-security-headers" then ClassifyHeader(matcher)
    else if templateId == "weak-hsts-detect" then Verdict(Act, MediumPriority, Some(WeakHsts))
    else if templateId == "fastly-debug-headers" || templateId == "x-debug-headers" then
      Verdict(Act, LowPriority, Some(DebugHeaders))
    else if templateId == "tls-version" || templateId == "ssl-issuer" || templateId == "ssl-dns-names"
      || templateId == "wildcard-tls" then
      if AtLeastMedium(severity) then Verdict(Act, HighPriority, Some(ObsoleteTls)) else IN_ORDER
    else if templateId == "tls-certificate-expiry" then ClassifyExpiry(matcher)
    else if templateId == "tls-certificate-name-mismatch" then Verdict(Act, Urgent, Some(CertificateNameMismatch))
    else if templateId == "tls-certificate-self-signed" then Verdict(Act, Urgent, Some(CertificateSelfSigned))
    else if templateId == "email-extractor" then Verdict(Review, LowPriority, Some(PublishedEmails))
    else if templateId == "robots-txt-endpoint" then Verdict(Review, LowPriority, Some(RobotsPaths))
    else if templateId in INVENTORY_TEMPLATES then IN_ORDER
    else ClassifyUnknown(severity)
  }

  const INVENTORY_TITLES: map<string, string> := map[
    "tls-version" := "TLS protocol versions",
    "tls-certificate-expiry" := "Certificate renewal date",
    "ssl-issuer" := "Certificate issuer",
    "ssl-dns-names" := "Names covered by the certificate",
    "wildcard-tls" := "Wildcard certificate in use",
    "dnssec-detection" := "DNSSEC",
    "dmarc-detect" := "DMARC record",
    "spf-record-detect" := "SPF record",
    "caa-fingerprint" := "CAA record",
    "mx-fingerprint" := "Mail servers",
    "nameserver-fingerprint" := "Name servers",
    "txt-fingerprint" := "DNS TXT records",
    "aaaa-fingerprint" := "IPv6 addresses",
    "waf-detect" := "Web application firewall",
    "dns-waf-detect" := "Web application firewall",
    "tech-detect" := "Detected technologies",
    "robots-txt" := "robots.txt",
    "security-txt" := "security.txt",
    "form-detection" := "Forms on the page",
    "google-floc-disabled" := "Browser tracking opt-out"]

  function DisplayTitle(templateId: string, matcher: string, scannerTitle: string, disposition: Disposition): string {
    if disposition == Inventory then
      if templateId in INVENTORY_TITLES then INVENTORY_TITLES[templateId] else scannerTitle
    else if templateId == "http-missing-security-headers" && matcher == "content-security-policy" then
      "No Content-Security-Policy header"
    else if templateId == "http-missing-security-headers" && matcher != "" then "Missing security header: " + matcher
    else if templateId == "weak-hsts-detect" then "HTTPS is not enforced for long enough"
    else if templateId == "fastly-debug-headers" || templateId == "x-debug-headers" then
      "CDN debug headers exposed in responses"
    else if templateId == "email-extractor" then "Email addresses published in the page source"
    else if templateId == "robots-txt-endpoint" then "Paths disclosed in robots.txt"
    else if templateId == "tls-version" then "Obsolete TLS version accepted"
    else scannerTitle
  }

  const EVIDENCE_SEPARATOR := ", "

  function Strings(values: seq<Option<string>>): seq<string> {
    if values == [] then []
    else (match values[0] case Some(s) => [s] case None => []) + Strings(values[1..])
  }

  function ExtractEvidence(raw: Raw): Option<string> {
    var results := if raw.extracted.Some? then Strings(raw.extracted.value) else [];
    if results != [] then Some(Join(results, EVIDENCE_SEPARATOR)) else raw.matchedAt
  }

  function OrEmpty(s: Option<string>): string {
    match s case Some(v) => v case None => ""
  }

  function TriageOne(f: Finding): (r: Row)
    ensures r.occurrences == 1
  {
    var templateId, matcher := OrEmpty(f.raw.templateId), OrEmpty(f.raw.matcherName);
    var verdict := Classify(templateId, matcher, f.severity);
    Row(DisplayTitle(templateId, matcher, f.title, verdict.disposition), verdict.disposition, verdict.priority,
      f.severity, verdict.guidance, ExtractEvidence(f.raw), templateId, matcher, 1)
  }

  /** The templates the rules table has a line for. */
  predicate HasRule(templateId: string) {
    || templateId in INVENTORY_TEMPLATES
    || templateId in ["http-missing-security-headers", "weak-hsts-detect", "fastly-debug-headers", "x-debug-headers",
        "tls-version", "ssl-issuer", "ssl-dns-names", "wildcard-tls", "tls-certificate-expiry",
        "tls-certificate-name-mismatch", "tls-certificate-self-signed", "email-extractor", "robots-txt-endpoint"]
  }

  /**
   No finding the scanner rated medium or above can reach the appendix because the table does not know
   it: an unknown template acts from medium on, waits for a decision when low, and only informs otherwise.
   */
  lemma UnknownTemplatesStayVisible(f: Finding)
    ensures TriageOne(f).disposition == Inventory && AtLeastMedium(f.severity) ==>
      OrEmpty(f.raw.templateId) in INVENTORY_TEMPLATES || OrEmpty(f.raw.templateId) == "tls-certificate-expiry"
    ensures !HasRule(OrEmpty(f.raw.templateId)) ==>
      && (TriageOne(f).disposition == Act <==> AtLeastMedium(f.severity))
      && (TriageOne(f).disposition == Review <==> f.severity == Low)
      && (TriageOne(f).disposition == Inventory <==> f.severity == Info)
      && TriageOne(f).title == f.title
  {
  }

  // ------------------------------------------------------------------ folding duplicates

  /** The row that already carries `title`. */
  function RowOf(rows: seq<Row>, title: string): (r: Option<nat>)
    ensures r.Some? ==> r.value < |rows| && rows[r.value].title == title && forall k | 0 <= k < r.value :: rows[k].title != title
    ensures r == None ==> forall k | 0 <= k < |rows| :: rows[k].title != title
  {
    if |rows| == 0 then None
    else if rows[0].title == title then Some(0)
    else match RowOf(rows[1..], title)
      case None => None
      case Some(i) => Some(i + 1)
  }

  function MergeEvidence(current: Option<string>, more: Option<string>): Option<string> {
    match (current, more)
    case (_, None) => current
    case (None, Some(e)) => more
    case (Some(c), Some(e)) =>
      if e in Split(c, EVIDENCE_SEPARATOR) then current else Some(c + EVIDENCE_SEPARATOR + e)
  }

  function Louder(a: Priority, b: Priority): Priority {
    if Rank(b) > Rank(a) then b else a
  }

  function Merge(existing: Row, f: Row): Row {
    existing.(occurrences := existing.occurrences + 1,
              evidence := MergeEvidence(existing.evidence, f.evidence),
              priority := Louder(existing.priority, f.priority))
  }

  function Absorb(rows: seq<Row>, f: Row): seq<Row> {
    match RowOf(rows, f.title)
    case Some(i) => rows[i := Merge(rows[i], f)]
    case None => rows + [f]
  }

  function Collapse(members: seq<Row>): seq<Row> {
    if |members| == 0 then [] else Absorb(Collapse(members[..|members| - 1]), members[|members| - 1])
  }

  method CollapseDuplicates(members: seq<Row>) returns (collapsed: seq<Row>)
    ensures collapsed == Collapse(members)
  {
    collapsed := [];
    for n := 0 to |members|
      invariant collapsed == Collapse(members[..n])
    {
      var f := members[n];
      assert members[..n + 1][..n] == members[..n];
      var i := 0;
      while i < |collapsed| && collapsed[i].title != f.title
        invariant 0 <= i <= |collapsed|
        invariant forall k | 0 <= k < i :: collapsed[k].title != f.title
      {
        i := i + 1;
      }
      if i < |collapsed| {
        var existing := collapsed[i];
        existing := existing.(occurrences := existing.occurrences + 1);
        if f.evidence.Some? {
          if existing.evidence.Some? {
            if f.evidence.value !in Split(existing.evidence.value, EVIDENCE_SEPARATOR) {
              existing := existing.(evidence := Some(existing.evidence.value + EVIDENCE_SEPARATOR + f.evidence.value));
            }
          } else {
            existing := existing.(evidence := f.evidence);
          }
        }
        if Rank(f.priority) > Rank(existing.priority) {
          existing := existing.(priority := f.priority);
        }
        collapsed := collapsed[i := existing];
      } else {
        collapsed := collapsed + [f];
      }
    }
    assert members[..|members|] == members;
  }

  // ------------------------------------------------------------------ sorting and the whole scan

  /** Highest priority first, then by title. */
  predicate Precedes(p: Priority, title: string, q: Priority, other: string) {
    Rank(p) > Rank(q) || (Rank(p) == Rank(q) && Less(title, other))
  }

  predicate Before(a: Row, b: Row) {
    Precedes(a.priority, a.title, b.priority, b.title)
  }

  /** The stable sort of the standard library, by insertion. */
  function Insert(r: Row, sorted: seq<Row>): seq<Row> {
    if sorted == [] then [r]
    else if Before(sorted[0], r) then [sorted[0]] + Insert(r, sorted[1..])
    else [r] + sorted
  }

  function Sort(rows: seq<Row>): seq<Row> {
    if rows == [] then [] else Insert(rows[0], Sort(rows[1..]))
  }

  function Bucket(findings: seq<Finding>, d: Disposition): seq<Row> {
    if |findings| == 0 then [] else
    var last := TriageOne(findings[|findings| - 1]);
    Bucket(findings[..|findings| - 1], d) + (if last.disposition == d then [last] else [])
  }

  function Section(findings: seq<Finding>, d: Disposition): seq<Row> {
    Sort(Collapse(Bucket(findings, d)))
  }

  function Triaged(findings: seq<Finding>): TriagedScan {
    TriagedScan(Section(findings, Act), Section(findings, Review), Section(findings, Inventory))
  }

  method TriageScan(findings: seq<Finding>) returns (scan: TriagedScan)
    ensures scan == Triaged(findings)
  {
    var actionable, review, inventory := [], [], [];
    for n := 0 to |findings|
      invariant actionable == Bucket(findings[..n], Act)
      invariant review == Bucket(findings[..n], Review)
      invariant inventory == Bucket(findings[..n], Inventory)
    {
      var row := TriageOne(findings[n]);
      assert findings[..n + 1][..n] == findings[..n];
      match row.disposition {
        case Act => actionable := actionable + [row];
        case Review => review := review + [row];
        case Inventory => inventory := inventory + [row];
      }
    }
    assert findings[..|findings|] == findings;
    actionable := CollapseDuplicates(actionable);
    review := CollapseDuplicates(review);
    inventory := CollapseDuplicates(inventory);
    scan := TriagedScan(Sort(actionable), Sort(review), Sort(inventory));
  }
}
