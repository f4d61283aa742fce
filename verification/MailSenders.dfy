/** Which domain a sender's address counts as, and whose list decides whether a provider may send for it. */
module MailSenders {
  import opened Clock
  import opened Text
  import opened DomainFacts
  import opened MailRelay

  /** The first entry of a provider is the one that counts. */
  lemma {:induction false} FirstEntryCounts(domains: seq<(Provider, seq<string>)>, p: Provider, list: seq<string>)
    ensures DomainsOf(domains, p) == Some(list) <==>
      exists k :: 0 <= k < |domains| && domains[k] == (p, list) && forall i | 0 <= i < k :: domains[i].0 != p
    ensures DomainsOf(domains, p) == None <==> forall k | 0 <= k < |domains| :: domains[k].0 != p
  {
    if domains != [] {
      var rest := domains[1..];
      FirstEntryCounts(rest, p, list);
      if domains[0].0 != p {
        if DomainsOf(rest, p) == Some(list) {
          var k :| 0 <= k < |rest| && rest[k] == (p, list) && forall i | 0 <= i < k :: rest[i].0 != p;
          assert domains[k + 1] == (p, list);
          assert forall i | 0 <= i < k + 1 :: domains[i].0 != p;
        }
        if k :| 0 <= k < |domains| && domains[k] == (p, list) && forall i | 0 <= i < k :: domains[i].0 != p {
          assert rest[k - 1] == (p, list);
          assert forall i | 0 <= i < k - 1 :: rest[i].0 != p;
        }
      } else {
        assert DomainsOf(domains, p) == Some(domains[0].1);
      }
    }
  }

  ghost predicate MayUse(relay: Relay, p: Provider, domain: string) {
    match DomainsOf(relay.domains, p)
    case None => true
    case Some(list) => Lower(domain) in list
  }

  lemma {:induction false} DomainOfAddress(local: string, domain: string)
    requires '@' !in domain
    ensures AfterLast(local + "@" + domain, '@') == domain
  {
    AtLast(local, '@', domain);
  }

  /** The address of "Name <local@domain>", whatever the name is. */
  lemma {:induction false} NamedSender(name: string, address: string)
    requires '<' !in address && '>' !in address
    ensures Bare(name + "<" + address + ">") == address
  {
    var written := name + "<" + address + ">";
    AtLast(name, '<', address + ">");
    assert written == name + "<" + (address + ">");
    AtLast(name + "<" + address, '>', "");
    assert written == name + "<" + address + ">" + "";
    assert written[|name|] == '<' && written[|written| - 1] == '>';
    assert written[|name| + 1..|name| + 1 + |address|] == address;
  }

  /** A provider with a list of domains sends only for senders of one of them, whichever way the sender is written. */
  lemma {:induction false} SenderDomainDecides(relay: Relay, p: Provider, name: string, local: string, domain: string)
    requires '@' !in domain && '<' !in local + "@" + domain && '>' !in local + "@" + domain
    ensures DomainEnabled(relay, p, name + "<" + (local + "@" + domain) + ">") <==> MayUse(relay, p, domain)
    ensures Trim(local + "@" + domain) == local + "@" + domain ==>
      (DomainEnabled(relay, p, local + "@" + domain) <==> MayUse(relay, p, domain))
  {
    NamedSender(name, local + "@" + domain);
    DomainOfAddress(local, domain);
  }
}
