/** The rulebook, template by template: where a finding is printed, how urgently and under which title. */
module TriageRules {
  import opened Clock
  import opened Text
  import opened Triage
  import opened TriageFacts

  function SectionIn(scan: TriagedScan, d: Disposition): seq<Row> {
    match d
    case Act => scan.actionable
    case Review => scan.review
    case Inventory => scan.inventory
  }

  /** The section has a row of this title, at least this pressing. */
  ghost predicate Prints(findings: seq<Finding>, d: Disposition, p: Priority, title: string) {
    exists r :: r in SectionIn(Triaged(findings), d) && r.title == title && Rank(r.priority) >= Rank(p)
  }

  /** The finding is explained by `topic` and printed as stated, in whatever company it was found. */
  ghost predicate PrintedAs(findings: seq<Finding>, f: Finding, d: Disposition, p: Priority, topic: Option<Topic>, title: string) {
    && f in findings && Prints(findings, d, p, title)
    && TriageOne(f).priority == p && TriageOne(f).guidance == topic
  }

  predicate Is(f: Finding, templateId: string) {
    OrEmpty(f.raw.templateId) == templateId
  }

  function MatcherOf(f: Finding): string {
    OrEmpty(f.raw.matcherName)
  }

  lemma {:induction false} FindingIsPrinted(findings: seq<Finding>, f: Finding)
    requires f in findings
    ensures Prints(findings, TriageOne(f).disposition, TriageOne(f).priority, TriageOne(f).title)
  {
    var x := TriageOne(f);
    var members := Bucket(findings, x.disposition);
    BucketMembers(findings, x.disposition);
    SectionIsCanonical(findings, x.disposition);
    assert x in members;
    var r :| r in Section(findings, x.disposition) && r.title == x.title;
    assert StandsFor(r, members);
  }

  /** The rulebook's word on a single finding. */
  predicate Gives(f: Finding, d: Disposition, p: Priority, topic: Option<Topic>, title: string) {
    var r := TriageOne(f);
    r.disposition == d && r.priority == p && r.guidance == topic && r.title == title
  }

  lemma {:induction false} GivenIsPrinted(findings: seq<Finding>, f: Finding, d: Disposition, p: Priority, topic: Option<Topic>, title: string)
    requires f in findings && Gives(f, d, p, topic, title)
    ensures PrintedAs(findings, f, d, p, topic, title)
  {
    FindingIsPrinted(findings, f);
  }

  lemma {:induction false} PrintedBy(findings: seq<Finding>, f: Finding, d: Disposition, p: Priority, topic: Option<Topic>, title: string)
    requires f in findings
    requires TriageOne(f).disposition == d && TriageOne(f).priority == p
    requires TriageOne(f).guidance == topic && TriageOne(f).title == title
    ensures PrintedAs(findings, f, d, p, topic, title)
  {
    FindingIsPrinted(findings, f);
  }

  // ------------------------------------------------------------------ response headers

  lemma {:induction false} ContentSecurityPolicy(findings: seq<Finding>, f: Finding)
    requires f in findings && Is(f, "http-missing-security-headers") && MatcherOf(f) == "content-security-policy"
    ensures PrintedAs(findings, f, Act, HighPriority, Some(MissingCsp), "No Content-Security-Policy header")
  {
    PrintedBy(findings, f, Act, HighPriority, Some(MissingCsp), "No Content-Security-Policy header");
  }

  lemma {:induction false} FrameOptions(findings: seq<Finding>, f: Finding)
    requires f in findings && Is(f, "http-missing-security-headers") && MatcherOf(f) == "x-frame-options"
    ensures PrintedAs(findings, f, Act, MediumPriority, Some(MissingFrameOptions), "Missing security header: " + MatcherOf(f))
  {
    PrintedBy(findings, f, Act, MediumPriority, Some(MissingFrameOptions), "Missing security header: " + MatcherOf(f));
  }

  lemma {:induction false} ContentTypeOptions(findings: seq<Finding>, f: Finding)
    requires f in findings && Is(f, "http-missing-security-headers") && MatcherOf(f) == "x-content-type-options"
    ensures PrintedAs(findings, f, Act, LowPriority, Some(MissingContentTypeOptions), "Missing security header: " + MatcherOf(f))
  {
    PrintedBy(findings, f, Act, LowPriority, Some(MissingContentTypeOptions), "Missing security header: " + MatcherOf(f));
  }

  lemma IsolationRule(f: Finding)
    requires Is(f, "http-missing-security-headers")
    requires || MatcherOf(f) == "cross-origin-embedder-policy" || MatcherOf(f) == "cross-origin-opener-policy"
             || MatcherOf(f) == "cross-origin-resource-policy"
    ensures Gives(f, Review, LowPriority, Some(MissingIsolation), "Missing security header: " + MatcherOf(f))
  {
  }

  lemma OtherHeaderRule(f: Finding)
    requires Is(f, "http-missing-security-headers")
    requires MatcherOf(f) != "content-security-policy" && MatcherOf(f) != "x-frame-options" && MatcherOf(f) != "x-content-type-options"
    requires MatcherOf(f) != "cross-origin-embedder-policy" && MatcherOf(f) != "cross-origin-opener-policy"
    requires MatcherOf(f) != "cross-origin-resource-policy"
    ensures Gives(f, Review, LowPriority, Some(MissingOtherHeader),
      if MatcherOf(f) == "" then f.title else "Missing security header: " + MatcherOf(f))
  {
  }

  lemma {:induction false} IsolationHeaders(findings: seq<Finding>, f: Finding)
    requires f in findings && Is(f, "http-missing-security-headers")
    requires || MatcherOf(f) == "cross-origin-embedder-policy" || MatcherOf(f) == "cross-origin-opener-policy"
             || MatcherOf(f) == "cross-origin-resource-policy"
    ensures PrintedAs(findings, f, Review, LowPriority, Some(MissingIsolation), "Missing security header: " + MatcherOf(f))
  {
    IsolationRule(f);
    GivenIsPrinted(findings, f, Review, LowPriority, Some(MissingIsolation), "Missing security header: " + MatcherOf(f));
  }

  /** Any header without a rule of its own. */
  lemma {:induction false} OtherHeaders(findings: seq<Finding>, f: Finding)
    requires f in findings && Is(f, "http-missing-security-headers")
    requires MatcherOf(f) != "content-security-policy" && MatcherOf(f) != "x-frame-options" && MatcherOf(f) != "x-content-type-options"
    requires MatcherOf(f) != "cross-origin-embedder-policy" && MatcherOf(f) != "cross-origin-opener-policy"
    requires MatcherOf(f) != "cross-origin-resource-policy"
    ensures PrintedAs(findings, f, Review, LowPriority, Some(MissingOtherHeader),
      if MatcherOf(f) == "" then f.title else "Missing security header: " + MatcherOf(f))
  {
    OtherHeaderRule(f);
    GivenIsPrinted(findings, f, Review, LowPriority, Some(MissingOtherHeader),
      if MatcherOf(f) == "" then f.title else "Missing security header: " + MatcherOf(f));
  }

  lemma {:induction false} WeakTransportSecurity(findings: seq<Finding>, f: Finding)
    requires f in findings && Is(f, "weak-hsts-detect")
    ensures PrintedAs(findings, f, Act, MediumPriority, Some(WeakHsts), "HTTPS is not enforced for long enough")
  {
    PrintedBy(findings, f, Act, MediumPriority, Some(WeakHsts), "HTTPS is not enforced for long enough");
  }

  lemma {:induction false} CdnDebugHeaders(findings: seq<Finding>, f: Finding)
    requires f in findings && (Is(f, "fastly-debug-headers") || Is(f, "x-debug-headers"))
    ensures PrintedAs(findings, f, Act, LowPriority, Some(DebugHeaders), "CDN debug headers exposed in responses")
  {
    PrintedBy(findings, f, Act, LowPriority, Some(DebugHeaders), "CDN debug headers exposed in responses");
  }

  // ------------------------------------------------------------------ transport

  lemma TlsVersionRule(f: Finding)
    requires Is(f, "tls-version")
    ensures if AtLeastMedium(f.severity) then Gives(f, Act, HighPriority, Some(ObsoleteTls), "Obsolete TLS version accepted")
            else Gives(f, Inventory, Noted, None, "TLS protocol versions")
  {
  }

  /** The same template reports an obsolete protocol and one in order; the scanner's severity tells them apart. */
  lemma {:induction false} TlsVersion(findings: seq<Finding>, f: Finding)
    requires f in findings && Is(f, "tls-version")
    ensures f.severity in {Medium, High, Critical} ==>
      PrintedAs(findings, f, Act, HighPriority, Some(ObsoleteTls), "Obsolete TLS version accepted")
    ensures f.severity in {Info, Low} ==> PrintedAs(findings, f, Inventory, Noted, None, "TLS protocol versions")
  {
    TlsVersionRule(f);
    if AtLeastMedium(f.severity) {
      GivenIsPrinted(findings, f, Act, HighPriority, Some(ObsoleteTls), "Obsolete TLS version accepted");
    } else {
      GivenIsPrinted(findings, f, Inventory, Noted, None, "TLS protocol versions");
    }
  }

  function TransportTitle(templateId: string): string {
    if templateId == "ssl-issuer" then "Certificate issuer"
    else if templateId == "ssl-dns-names" then "Names covered by the certificate" else "Wildcard certificate in use"
  }

  lemma IssuerRule(f: Finding)
    requires Is(f, "ssl-issuer")
    ensures if AtLeastMedium(f.severity) then Gives(f, Act, HighPriority, Some(ObsoleteTls), f.title)
            else Gives(f, Inventory, Noted, None, "Certificate issuer")
  {
  }

  lemma NamesRule(f: Finding)
    requires Is(f, "ssl-dns-names")
    ensures if AtLeastMedium(f.severity) then Gives(f, Act, HighPriority, Some(ObsoleteTls), f.title)
            else Gives(f, Inventory, Noted, None, "Names covered by the certificate")
  {
  }

  lemma WildcardRule(f: Finding)
    requires Is(f, "wildcard-tls")
    ensures if AtLeastMedium(f.severity) then Gives(f, Act, HighPriority, Some(ObsoleteTls), f.title)
            else Gives(f, Inventory, Noted, None, "Wildcard certificate in use")
  {
  }

  lemma {:induction false} OtherTransport(findings: seq<Finding>, f: Finding, templateId: string)
    requires f in findings && Is(f, templateId)
    requires templateId == "ssl-issuer" || templateId == "ssl-dns-names" || templateId == "wildcard-tls"
    ensures f.severity in {Medium, High, Critical} ==> PrintedAs(findings, f, Act, HighPriority, Some(ObsoleteTls), f.title)
    ensures f.severity in {Info, Low} ==> PrintedAs(findings, f, Inventory, Noted, None, TransportTitle(templateId))
  {
    if templateId == "ssl-issuer" { IssuerRule(f); } else if templateId == "ssl-dns-names" { NamesRule(f); } else { WildcardRule(f); }
    if AtLeastMedium(f.severity) {
      GivenIsPrinted(findings, f, Act, HighPriority, Some(ObsoleteTls), f.title);
    } else {
      GivenIsPrinted(findings, f, Inventory, Noted, None, TransportTitle(templateId));
    }
  }

  /** Certificates by how near their end is. */
  lemma {:induction false} CertificateExpired(findings: seq<Finding>, f: Finding)
    requires f in findings && Is(f, "tls-certificate-expiry") && MatcherOf(f) == "expired"
    ensures PrintedAs(findings, f, Act, Urgent, Some(Topic.CertificateExpired), f.title)
  {
    PrintedBy(findings, f, Act, Urgent, Some(Topic.CertificateExpired), f.title);
  }

  lemma {:induction false} CertificateCritical(findings: seq<Finding>, f: Finding)
    requires f in findings && Is(f, "tls-certificate-expiry") && MatcherOf(f) == "critical"
    ensures PrintedAs(findings, f, Act, Urgent, Some(Topic.CertificateCritical), f.title)
  {
    PrintedBy(findings, f, Act, Urgent, Some(Topic.CertificateCritical), f.title);
  }

  lemma {:induction false} CertificateSoon(findings: seq<Finding>, f: Finding)
    requires f in findings && Is(f, "tls-certificate-expiry") && MatcherOf(f) == "soon"
    ensures PrintedAs(findings, f, Act, HighPriority, Some(Topic.CertificateSoon), f.title)
  {
    PrintedBy(findings, f, Act, HighPriority, Some(Topic.CertificateSoon), f.title);
  }

  lemma {:induction false} CertificateApproaching(findings: seq<Finding>, f: Finding)
    requires f in findings && Is(f, "tls-certificate-expiry") && MatcherOf(f) == "approaching"
    ensures PrintedAs(findings, f, Review, MediumPriority, Some(Topic.CertificateApproaching), f.title)
  {
    PrintedBy(findings, f, Review, MediumPriority, Some(Topic.CertificateApproaching), f.title);
  }

  /** One that is comfortably valid is appendix material, whatever the scanner rated it. */
  lemma {:induction false} CertificateInOrder(findings: seq<Finding>, f: Finding)
    requires f in findings && Is(f, "tls-certificate-expiry")
    requires MatcherOf(f) !in ["expired", "critical", "soon", "approaching"]
    ensures PrintedAs(findings, f, Inventory, Noted, None, "Certificate renewal date")
  {
    PrintedBy(findings, f, Inventory, Noted, None, "Certificate renewal date");
  }

  lemma {:induction false} CertificateNameMismatch(findings: seq<Finding>, f: Finding)
    requires f in findings && Is(f, "tls-certificate-name-mismatch")
    ensures PrintedAs(findings, f, Act, Urgent, Some(Topic.CertificateNameMismatch), f.title)
  {
    PrintedBy(findings, f, Act, Urgent, Some(Topic.CertificateNameMismatch), f.title);
  }

  lemma {:induction false} CertificateSelfSigned(findings: seq<Finding>, f: Finding)
    requires f in findings && Is(f, "tls-certificate-self-signed")
    ensures PrintedAs(findings, f, Act, Urgent, Some(Topic.CertificateSelfSigned), f.title)
  {
    PrintedBy(findings, f, Act, Urgent, Some(Topic.CertificateSelfSigned), f.title);
  }

  // ------------------------------------------------------------------ exposure and the appendix

  lemma {:induction false} EmailAddresses(findings: seq<Finding>, f: Finding)
    requires f in findings && Is(f, "email-extractor")
    ensures PrintedAs(findings, f, Review, LowPriority, Some(PublishedEmails), "Email addresses published in the page source")
  {
    PrintedBy(findings, f, Review, LowPriority, Some(PublishedEmails), "Email addresses published in the page source");
  }

  lemma {:induction false} RobotsEntries(findings: seq<Finding>, f: Finding)
    requires f in findings && Is(f, "robots-txt-endpoint")
    ensures PrintedAs(findings, f, Review, LowPriority, Some(RobotsPaths), "Paths disclosed in robots.txt")
  {
    PrintedBy(findings, f, Review, LowPriority, Some(RobotsPaths), "Paths disclosed in robots.txt");
  }

  /** What was looked at and is in order, whatever the scanner rated it. */
  const APPENDIX: seq<(string, string)> := [
    ("waf-detect", "Web application firewall"), ("dns-waf-detect", "Web application firewall"),
    ("tech-detect", "Detected technologies"), ("robots-txt", "robots.txt"), ("security-txt", "security.txt"),
    ("google-floc-disabled", "Browser tracking opt-out"), ("form-detection", "Forms on the page"),
    ("dnssec-detection", "DNSSEC"), ("caa-fingerprint", "CAA record"), ("aaaa-fingerprint", "IPv6 addresses"),
    ("txt-fingerprint", "DNS TXT records"), ("mx-fingerprint", "Mail servers"), ("nameserver-fingerprint", "Name servers"),
    ("spf-record-detect", "SPF record"), ("dmarc-detect", "DMARC record")]

  lemma AppendixTitles0(k: nat)
    requires 0 <= k < 5
    ensures APPENDIX[k].0 in INVENTORY_TITLES && INVENTORY_TITLES[APPENDIX[k].0] == APPENDIX[k].1
  {
  }

  lemma AppendixTitles5(k: nat)
    requires 5 <= k < 10
    ensures APPENDIX[k].0 in INVENTORY_TITLES && INVENTORY_TITLES[APPENDIX[k].0] == APPENDIX[k].1
  {
  }

  lemma AppendixTitles10(k: nat)
    requires 10 <= k < 15
    ensures APPENDIX[k].0 in INVENTORY_TITLES && INVENTORY_TITLES[APPENDIX[k].0] == APPENDIX[k].1
  {
  }

  lemma AppendixRules0(matcher: string, severity: Severity, k: nat)
    requires 0 <= k < 2
    ensures Classify(APPENDIX[k].0, matcher, severity) == Verdict(Inventory, Noted, None)
  {
  }

  lemma AppendixRules2(matcher: string, severity: Severity, k: nat)
    requires 2 <= k < 4
    ensures Classify(APPENDIX[k].0, matcher, severity) == Verdict(Inventory, Noted, None)
  {
  }

  lemma AppendixRules4(matcher: string, severity: Severity, k: nat)
    requires 4 <= k < 6
    ensures Classify(APPENDIX[k].0, matcher, severity) == Verdict(Inventory, Noted, None)
  {
  }

  lemma AppendixRules6(matcher: string, severity: Severity, k: nat)
    requires 6 <= k < 8
    ensures Classify(APPENDIX[k].0, matcher, severity) == Verdict(Inventory, Noted, None)
  {
  }

  lemma AppendixRules8(matcher: string, severity: Severity, k: nat)
    requires 8 <= k < 10
    ensures Classify(APPENDIX[k].0, matcher, severity) == Verdict(Inventory, Noted, None)
  {
  }

  lemma AppendixRules10(matcher: string, severity: Severity, k: nat)
    requires 10 <= k < 12
    ensures Classify(APPENDIX[k].0, matcher, severity) == Verdict(Inventory, Noted, None)
  {
  }

  lemma AppendixRules12(matcher: string, severity: Severity, k: nat)
    requires 12 <= k < 14
    ensures Classify(APPENDIX[k].0, matcher, severity) == Verdict(Inventory, Noted, None)
  {
  }

  lemma AppendixRules14(matcher: string, severity: Severity, k: nat)
    requires 14 <= k < 15
    ensures Classify(APPENDIX[k].0, matcher, severity) == Verdict(Inventory, Noted, None)
  {
  }

  lemma AppendixRule(f: Finding, k: nat)
    requires k < |APPENDIX| && Is(f, APPENDIX[k].0)
    requires Classify(APPENDIX[k].0, MatcherOf(f), f.severity) == Verdict(Inventory, Noted, None)
    requires APPENDIX[k].0 in INVENTORY_TITLES && INVENTORY_TITLES[APPENDIX[k].0] == APPENDIX[k].1
    ensures Gives(f, Inventory, Noted, None, APPENDIX[k].1)
  {
  }

  lemma {:induction false} AppendixTemplates(findings: seq<Finding>, f: Finding, k: nat)
    requires f in findings && k < |APPENDIX| && Is(f, APPENDIX[k].0)
    ensures PrintedAs(findings, f, Inventory, Noted, None, APPENDIX[k].1)
  {
    if k < 5 { AppendixTitles0(k); } else if k < 10 { AppendixTitles5(k); } else { AppendixTitles10(k); }
    if k < 2 { AppendixRules0(MatcherOf(f), f.severity, k); }
    else if k < 4 { AppendixRules2(MatcherOf(f), f.severity, k); }
    else if k < 6 { AppendixRules4(MatcherOf(f), f.severity, k); }
    else if k < 8 { AppendixRules6(MatcherOf(f), f.severity, k); }
    else if k < 10 { AppendixRules8(MatcherOf(f), f.severity, k); }
    else if k < 12 { AppendixRules10(MatcherOf(f), f.severity, k); }
    else if k < 14 { AppendixRules12(MatcherOf(f), f.severity, k); }
    else { AppendixRules14(MatcherOf(f), f.severity, k); }
    AppendixRule(f, k);
    GivenIsPrinted(findings, f, Inventory, Noted, None, APPENDIX[k].1);
  }

  function UnknownPlace(severity: Severity): (Disposition, Priority) {
    match severity
    case Critical => (Act, Urgent)
    case High => (Act, HighPriority)
    case Medium => (Act, MediumPriority)
    case Low => (Review, LowPriority)
    case Info => (Inventory, Noted)
  }

  /** A template without a rule: what the scanner rated highly stays in sight, under the scanner's own title. */
  lemma {:induction false} UnknownTemplate(findings: seq<Finding>, f: Finding)
    requires f in findings && !HasRule(OrEmpty(f.raw.templateId))
    ensures PrintedAs(findings, f, UnknownPlace(f.severity).0, UnknownPlace(f.severity).1, None, f.title)
  {
    UnknownTemplateRule(f);
    GivenIsPrinted(findings, f, UnknownPlace(f.severity).0, UnknownPlace(f.severity).1, None, f.title);
  }

  lemma UnknownTemplateRule(f: Finding)
    requires !HasRule(OrEmpty(f.raw.templateId))
    ensures Gives(f, UnknownPlace(f.severity).0, UnknownPlace(f.severity).1, None, f.title)
  {
    NoRule(OrEmpty(f.raw.templateId), OrEmpty(f.raw.matcherName), f.severity);
    UnknownTemplatesStayVisible(f);
  }

  lemma NoRule(templateId: string, matcher: string, severity: Severity)
    requires !HasRule(templateId)
    ensures Classify(templateId, matcher, severity) == ClassifyUnknown(severity)
  {
  }

  // ------------------------------------------------------------------ what comes first

  /** A row of this title is urgent and so is every row before it. */
  ghost predicate Leads(rows: seq<Row>, title: string) {
    exists k :: 0 <= k < |rows| && rows[k].title == title && UrgentUpTo(rows, k)
  }

  ghost predicate UrgentUpTo(rows: seq<Row>, k: nat) {
    k < |rows| && forall i | 0 <= i <= k :: rows[i].priority == Urgent
  }

  lemma {:induction false} OrderedLeads(rows: seq<Row>, r: Row)
    requires StrictlyOrdered(rows) && r in rows && r.priority == Urgent
    ensures Leads(rows, r.title)
  {
    var k :| 0 <= k < |rows| && rows[k] == r;
    forall i | 0 <= i < k ensures rows[i].priority == Urgent { assert Before(rows[i], rows[k]); }
    assert UrgentUpTo(rows, k);
  }

  lemma {:induction false} ActionsInOrder(findings: seq<Finding>)
    ensures StrictlyOrdered(SectionIn(Triaged(findings), Act))
  {
    SectionIsCanonical(findings, Act);
  }

  lemma {:induction false} UrgentRowLeads(rows: seq<Row>, title: string)
    requires StrictlyOrdered(rows) && exists r :: r in rows && r.title == title && Rank(r.priority) >= Rank(Urgent)
    ensures Leads(rows, title)
  {
    var r :| r in rows && r.title == title && Rank(r.priority) >= Rank(Urgent);
    OrderedLeads(rows, r);
  }

  /** An urgent finding leads the report: its row is urgent, in the first section, and so is every row before it. */
  lemma {:induction false} UrgentComesFirst(findings: seq<Finding>, title: string)
    requires Prints(findings, Act, Urgent, title)
    ensures Leads(SectionIn(Triaged(findings), Act), title)
  {
    ActionsInOrder(findings);
    UrgentRowLeads(SectionIn(Triaged(findings), Act), title);
  }

  /** An expired certificate, or one about to expire, outranks everything else a scan can find. */
  lemma {:induction false} ExpiredCertificateLeads(findings: seq<Finding>, f: Finding)
    requires f in findings && Is(f, "tls-certificate-expiry") && (MatcherOf(f) == "expired" || MatcherOf(f) == "critical")
    ensures Leads(Triaged(findings).actionable, f.title)
  {
    if MatcherOf(f) == "expired" {
      CertificateExpired(findings, f);
      UrgentComesFirst(findings, f.title);
    } else {
      CertificateCritical(findings, f);
      UrgentComesFirst(findings, f.title);
    }
  }

  // ------------------------------------------------------------------ evidence

  function AllText(texts: seq<string>): (values: seq<Option<string>>)
    ensures |values| == |texts| && forall k | 0 <= k < |texts| :: values[k] == Some(texts[k])
  {
    seq(|texts|, k requires 0 <= k < |texts| => Some(texts[k]))
  }

  /** Texts are taken as they come... */
  lemma {:induction false} TextsAreTaken(texts: seq<string>)
    ensures Strings(AllText(texts)) == texts
  {
    if texts != [] {
      TextsAreTaken(texts[1..]);
      assert AllText(texts)[1..] == AllText(texts[1..]);
      assert texts == [texts[0]] + texts[1..];
    }
  }

  /** ...and what is no text is passed over. */
  lemma {:induction false} NonTextsAreSkipped(before: seq<Option<string>>, after: seq<Option<string>>)
    ensures Strings(before + [None] + after) == Strings(before + after)
  {
    if before == [] {
      assert before + [None] + after == [None] + after && before + after == after;
    } else {
      NonTextsAreSkipped(before[1..], after);
      assert (before + [None] + after)[1..] == before[1..] + [None] + after && (before + after)[1..] == before[1..] + after;
    }
  }

  lemma {:induction false} SomeText(values: seq<Option<string>>)
    ensures Strings(values) != [] <==> exists s :: Some(s) in values
  {
    if values != [] {
      SomeText(values[1..]);
      assert values == [values[0]] + values[1..];
      if values[0].Some? { assert Some(values[0].value) in values; }
    }
  }

  /** A finding's evidence is what was extracted, joined; where it matched only if nothing was. */
  lemma {:induction false} EvidenceIsWhatWasExtracted(f: Finding)
    ensures f.raw.extracted.Some? && (exists s :: Some(s) in f.raw.extracted.value) ==>
      TriageOne(f).evidence == Some(Join(Strings(f.raw.extracted.value), ", "))
    ensures f.raw.extracted == None ==> TriageOne(f).evidence == f.raw.matchedAt
    ensures f.raw.extracted.Some? && (forall s :: Some(s) !in f.raw.extracted.value) ==>
      TriageOne(f).evidence == f.raw.matchedAt
  {
    if f.raw.extracted.Some? { SomeText(f.raw.extracted.value); }
  }

  /** What a row keeps of its finding for a technical reader. */
  lemma RowKeepsItsSource(f: Finding)
    ensures TriageOne(f).scannerSeverity == f.severity && TriageOne(f).occurrences == 1
    ensures TriageOne(f).templateId == (if f.raw.templateId.Some? then f.raw.templateId.value else "")
    ensures TriageOne(f).matcher == (if f.raw.matcherName.Some? then f.raw.matcherName.value else "")
  {
  }
}
