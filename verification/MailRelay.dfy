/** The way out for transactional mail: providers tried in order until one takes the message. */
module MailRelay {
  import opened Clock
  import opened Text

  /** A name in the configured chain: one of the three providers, or anything else that was written there. */
  datatype Provider = Resend | Smtp2go | Mailjet | Unknown(name: string)

  datatype Outcome = Sent | Rejected | Ambiguous | Conflict

  /** What one request comes back with: nothing (timeout or network error), or a status and whether the body refuses. */
  datatype Reply = Unreachable | Answered(status: nat, bodyRefuses: bool)

  /** The outcome table. Only SMTP2GO and Mailjet report refusals in the body of a 2xx. */
  function Judge(provider: Provider, reply: Reply): Outcome {
    match reply
    case Unreachable => Ambiguous
    case Answered(status, bodyRefuses) =>
      if 200 <= status <= 299 then
        if bodyRefuses && (provider == Smtp2go || provider == Mailjet) then Rejected else Sent
      else if status == 409 then Conflict
      else if status >= 500 then Ambiguous
      else Rejected
  }

  const DEFAULT_ORDER: seq<Provider> := [Resend, Smtp2go, Mailjet]

  /** Which keys are set, the configured order, and the sender domains each provider is limited to. */
  datatype Relay = Relay(keys: set<Provider>, order: seq<Provider>, domains: seq<(Provider, seq<string>)>, sink: bool)

  function Order(relay: Relay): seq<Provider> {
    if relay.order == [] then DEFAULT_ORDER else relay.order
  }

  /** The first `domains` entry for a provider, if any. */
  function DomainsOf(domains: seq<(Provider, seq<string>)>, provider: Provider): Option<seq<string>> {
    if domains == [] then None
    else if domains[0].0 == provider then Some(domains[0].1)
    else DomainsOf(domains[1..], provider)
  }

  /** The bare address in "Name <a@b.c>" or "a@b.c". */
  function Bare(address: string): string {
    if '<' in address && '>' in address && |BeforeLast(address, '<')| < |BeforeLast(address, '>')|
    then address[|BeforeLast(address, '<')| + 1..|BeforeLast(address, '>')|]
    else Trim(address)
  }

  predicate DomainEnabled(relay: Relay, provider: Provider, from: string) {
    match DomainsOf(relay.domains, provider)
    case None => true
    case Some(list) => Lower(AfterLast(Bare(from), '@')) in list
  }

  /** Whether a request can be built for the provider at all. */
  predicate Usable(relay: Relay, provider: Provider, from: string) {
    DomainEnabled(relay, provider, from) && provider in DEFAULT_ORDER && provider in relay.keys
  }

  /** The chain's test on a provider, for one sender. */
  function MaySend(relay: Relay, from: string): Provider -> bool {
    p => Usable(relay, p, from)
  }

  datatype Request = Request(provider: Provider, outcome: Outcome)

  datatype Delivery =
    | Sunk
    | SentBy(provider: Provider)
    | InFlightAt(provider: Provider)
    | NotConfigured
    | Undelivered(tried: seq<Request>)

  /** A request the chain goes on from. */
  predicate NotTaken(r: Request) {
    r.outcome == Rejected || r.outcome == Ambiguous
  }

  function Last(requests: seq<Request>): Request
    requires |requests| > 0
  {
    requests[|requests| - 1]
  }

  /** A provider's turn, when `asked` requests were made before it: Resend is asked again after an ambiguous answer. */
  function Turn(provider: Provider, script: nat -> Reply, asked: nat): (turn: seq<Request>)
    ensures 1 <= |turn| <= 2 && turn[0].provider == provider && Last(turn).provider == provider
    ensures |turn| == 2 <==> provider == Resend && turn[0].outcome == Ambiguous
  {
    var first := Request(provider, Judge(provider, script(asked)));
    if first.outcome == Ambiguous && provider == Resend
    then [first, Request(provider, Judge(provider, script(asked + 1)))]
    else [first]
  }

  /** The turns taken along an order, up to the first one that ends with the message taken. */
  function Turns(order: seq<Provider>, may: Provider -> bool, script: nat -> Reply, asked: nat): seq<seq<Request>> {
    if order == [] then []
    else if !may(order[0]) then Turns(order[1..], may, script, asked)
    else
      var turn := Turn(order[0], script, asked);
      if NotTaken(Last(turn)) then [turn] + Turns(order[1..], may, script, asked + |turn|) else [turn]
  }

  /** Every request made, in order. */
  function Requests(turns: seq<seq<Request>>): seq<Request> {
    if turns == [] then [] else turns[0] + Requests(turns[1..])
  }

  /** The last request of every turn. */
  function Ends(turns: seq<seq<Request>>): seq<Request> {
    if turns == [] then [] else (if turns[0] == [] then [] else [Last(turns[0])]) + Ends(turns[1..])
  }

  /** The providers of `order` a request can be built for, in order. */
  function UsableOrder(order: seq<Provider>, may: Provider -> bool): seq<Provider> {
    if order == [] then [] else (if may(order[0]) then [order[0]] else []) + UsableOrder(order[1..], may)
  }

  /** How many turns of an order go to Resend. */
  function ResendTurns(order: seq<Provider>): nat {
    if order == [] then 0 else (if order[0] == Resend then 1 else 0) + ResendTurns(order[1..])
  }

  ghost predicate NoneTaken(requests: seq<Request>) {
    forall i | 0 <= i < |requests| :: NotTaken(requests[i])
  }

  lemma {:induction false} RequestsAppend(turns: seq<seq<Request>>, turn: seq<Request>)
    ensures Requests(turns + [turn]) == Requests(turns) + turn
  {
    if turns == [] {
      assert [turn][1..] == [];
    } else {
      assert (turns + [turn])[1..] == turns[1..] + [turn];
      RequestsAppend(turns[1..], turn);
    }
  }

  lemma {:induction false} EndsAppend(turns: seq<seq<Request>>, turn: seq<Request>)
    requires |turn| > 0
    ensures Ends(turns + [turn]) == Ends(turns) + [Last(turn)]
  {
    if turns == [] {
      assert [turn][1..] == [];
    } else {
      assert (turns + [turn])[1..] == turns[1..] + [turn];
      EndsAppend(turns[1..], turn);
    }
  }

  /** Only the last request of a chain can have been accepted or already be in flight. */
  lemma {:induction false} TakenEndsTheChain(order: seq<Provider>, may: Provider -> bool, script: nat -> Reply,
                                             asked: nat, i: nat)
    requires i + 1 < |Requests(Turns(order, may, script, asked))|
    ensures NotTaken(Requests(Turns(order, may, script, asked))[i])
  {
    if !may(order[0]) {
      TakenEndsTheChain(order[1..], may, script, asked, i);
    } else {
      var turn := Turn(order[0], script, asked);
      if NotTaken(Last(turn)) {
        RequestsCons(turn, Turns(order[1..], may, script, asked + |turn|));
        if i >= |turn| {
          TakenEndsTheChain(order[1..], may, script, asked + |turn|, i - |turn|);
        }
      } else {
        RequestsCons(turn, []);
      }
    }
  }

  lemma {:induction false} RequestsCons(turn: seq<Request>, rest: seq<seq<Request>>)
    ensures Requests([turn] + rest) == turn + Requests(rest)
  {
    assert ([turn] + rest)[1..] == rest;
  }

  /** Each request's outcome is the table's reading of the reply to that request. */
  lemma {:induction false} RequestsAreJudged(order: seq<Provider>, may: Provider -> bool, script: nat -> Reply,
                                             asked: nat, i: nat)
    requires i < |Requests(Turns(order, may, script, asked))|
    ensures var r := Requests(Turns(order, may, script, asked))[i]; r.outcome == Judge(r.provider, script(asked + i))
  {
    if !may(order[0]) {
      RequestsAreJudged(order[1..], may, script, asked, i);
    } else {
      var turn := Turn(order[0], script, asked);
      var rest := if NotTaken(Last(turn)) then Turns(order[1..], may, script, asked + |turn|) else [];
      assert Turns(order, may, script, asked) == [turn] + rest;
      RequestsCons(turn, rest);
      if i >= |turn| {
        RequestsAreJudged(order[1..], may, script, asked + |turn|, i - |turn|);
        assert asked + |turn| + (i - |turn|) == asked + i;
      }
    }
  }

  /** The k-th turn is a turn of the k-th usable provider. */
  ghost predicate InOrder(turns: seq<seq<Request>>, usable: seq<Provider>) {
    |turns| <= |usable| && forall k | 0 <= k < |turns| :: TurnOf(usable[k], turns[k])
  }

  /** One request, and a second one exactly when the first was Resend's and ambiguous. */
  predicate TurnOf(p: Provider, turn: seq<Request>) {
    1 <= |turn| <= 2 && turn[0].provider == p && Last(turn).provider == p
    && (|turn| == 2 <==> p == Resend && turn[0].outcome == Ambiguous)
  }

  lemma InOrderCons(turn: seq<Request>, rest: seq<seq<Request>>, p: Provider, usable: seq<Provider>)
    requires TurnOf(p, turn) && InOrder(rest, usable)
    ensures InOrder([turn] + rest, [p] + usable)
  {
    var turns, all := [turn] + rest, [p] + usable;
    forall k | 0 <= k < |turns| ensures TurnOf(all[k], turns[k]) {
      if k > 0 { assert turns[k] == rest[k - 1] && all[k] == usable[k - 1]; }
    }
  }

  lemma UsableFirst(order: seq<Provider>, may: Provider -> bool)
    requires order != []
    ensures UsableOrder(order, may) ==
      if may(order[0]) then [order[0]] + UsableOrder(order[1..], may) else UsableOrder(order[1..], may)
  {
  }

  /** The turns after the first one, which there are only if it left the message untaken. */
  function RestOf(order: seq<Provider>, may: Provider -> bool, script: nat -> Reply, asked: nat): seq<seq<Request>>
    requires order != []
  {
    var turn := Turn(order[0], script, asked);
    if NotTaken(Last(turn)) then Turns(order[1..], may, script, asked + |turn|) else []
  }

  lemma TurnsFirst(order: seq<Provider>, may: Provider -> bool, script: nat -> Reply, asked: nat)
    requires order != [] && may(order[0])
    ensures Turns(order, may, script, asked) == [Turn(order[0], script, asked)] + RestOf(order, may, script, asked)
  {
  }

  /** Usable providers are contacted in order with none skipped. */
  lemma {:induction false} ProvidersInOrder(order: seq<Provider>, may: Provider -> bool, script: nat -> Reply, asked: nat)
    ensures InOrder(Turns(order, may, script, asked), UsableOrder(order, may))
    decreases |order|, 1
  {
    if order != [] {
      UsableFirst(order, may);
      if !may(order[0]) {
        ProvidersInOrder(order[1..], may, script, asked);
      } else {
        TurnsFirst(order, may, script, asked);
        RestInOrder(order, may, script, asked);
        InOrderCons(Turn(order[0], script, asked), RestOf(order, may, script, asked), order[0], UsableOrder(order[1..], may));
      }
    }
  }

  lemma {:induction false} RestInOrder(order: seq<Provider>, may: Provider -> bool, script: nat -> Reply, asked: nat)
    requires order != []
    ensures InOrder(RestOf(order, may, script, asked), UsableOrder(order[1..], may))
    decreases |order|, 0
  {
    ProvidersInOrder(order[1..], may, script, asked + |Turn(order[0], script, asked)|);
  }

  /** All usable providers are contacted, unless a request was taken. */
  lemma {:induction false} NobodyIsLeftOut(order: seq<Provider>, may: Provider -> bool, script: nat -> Reply, asked: nat)
    requires NoneTaken(Ends(Turns(order, may, script, asked)))
    ensures |Turns(order, may, script, asked)| == |UsableOrder(order, may)|
  {
    if order != [] {
      if !may(order[0]) {
        NobodyIsLeftOut(order[1..], may, script, asked);
      } else {
        var turn := Turn(order[0], script, asked);
        var rest := if NotTaken(Last(turn)) then Turns(order[1..], may, script, asked + |turn|) else [];
        assert Turns(order, may, script, asked) == [turn] + rest;
        EndsCons(turn, rest);
        var ends := [Last(turn)] + Ends(rest);
        assert NotTaken(ends[0]);
        assert forall k | 0 <= k < |Ends(rest)| :: ends[k + 1] == Ends(rest)[k];
        NobodyIsLeftOut(order[1..], may, script, asked + |turn|);
      }
    }
  }

  lemma {:induction false} EndsCons(turn: seq<Request>, rest: seq<seq<Request>>)
    requires |turn| > 0
    ensures Ends([turn] + rest) == [Last(turn)] + Ends(rest)
  {
    assert ([turn] + rest)[1..] == rest;
  }

  /** No chain makes more requests than it has usable providers, plus one for each turn of Resend. */
  lemma {:induction false} RequestBound(order: seq<Provider>, may: Provider -> bool, script: nat -> Reply, asked: nat)
    ensures |Requests(Turns(order, may, script, asked))|
         <= |UsableOrder(order, may)| + ResendTurns(UsableOrder(order, may))
  {
    if order != [] {
      if !may(order[0]) {
        assert UsableOrder(order, may) == UsableOrder(order[1..], may);
        RequestBound(order[1..], may, script, asked);
      } else {
        var turn := Turn(order[0], script, asked);
        var rest := if NotTaken(Last(turn)) then Turns(order[1..], may, script, asked + |turn|) else [];
        assert Turns(order, may, script, asked) == [turn] + rest;
        RequestsCons(turn, rest);
        RequestBound(order[1..], may, script, asked + |turn|);
        assert UsableOrder(order, may)[1..] == UsableOrder(order[1..], may);
      }
    }
  }

  /** Nothing is asked that has no key or may not send for the domain, and nothing usable is left out. */
  lemma {:induction false} UsableOrderMeaning(order: seq<Provider>, may: Provider -> bool, p: Provider)
    ensures p in UsableOrder(order, may) <==> p in order && may(p)
  {
    if order != [] {
      assert order == [order[0]] + order[1..];
      UsableOrderMeaning(order[1..], may, p);
    }
  }

  // ------------------------------------------------------------------ what the replies decide

  /** A 2xx, unless SMTP2GO or Mailjet refuse in its body. */
  predicate Accepts(p: Provider, reply: Reply) {
    reply.Answered? && 200 <= reply.status <= 299 && !(reply.bodyRefuses && (p == Smtp2go || p == Mailjet))
  }

  predicate AlreadyThere(p: Provider, reply: Reply) {
    reply.Answered? && reply.status == 409
  }

  /** Nothing is known of the message: no answer came, or a 5xx. */
  predicate Unclear(reply: Reply) {
    reply.Unreachable? || reply.status >= 500
  }

  /** A 2xx refused in its body by SMTP2GO or Mailjet, or any other answer below 500 but a 409. */
  predicate Refuses(p: Provider, reply: Reply) {
    reply.Answered? && reply.status < 500 && reply.status != 409 && !Accepts(p, reply)
  }

  lemma RepliesAreReadSo(p: Provider, reply: Reply)
    ensures Judge(p, reply) == Sent <==> Accepts(p, reply)
    ensures Judge(p, reply) == Conflict <==> AlreadyThere(p, reply)
    ensures Judge(p, reply) == Ambiguous <==> Unclear(reply)
    ensures Judge(p, reply) == Rejected <==> Refuses(p, reply)
  {
  }

  /** The chain goes on only from a request that was refused or left unclear, never from a 2xx it accepts or a 409. */
  lemma {:induction false} GoesOnAfter(order: seq<Provider>, may: Provider -> bool, script: nat -> Reply, k: nat)
    requires k + 1 < |Requests(Turns(order, may, script, 0))|
    ensures Unclear(script(k)) || Refuses(Requests(Turns(order, may, script, 0))[k].provider, script(k))
  {
    TakenEndsTheChain(order, may, script, 0, k);
    RequestsAreJudged(order, may, script, 0, k);
    RepliesAreReadSo(Requests(Turns(order, may, script, 0))[k].provider, script(k));
  }

  lemma {:induction false} RequestsSplit(a: seq<seq<Request>>, b: seq<seq<Request>>)
    ensures Requests(a + b) == Requests(a) + Requests(b)
    decreases |b|
  {
    if b == [] {
      assert a + b == a;
    } else {
      assert a + b == (a + [b[0]]) + b[1..];
      RequestsSplit(a + [b[0]], b[1..]);
      RequestsAppend(a, b[0]);
    }
  }

  /** A turn's first request is number `|Requests(turns[..i])|` of the chain. */
  lemma {:induction false} FirstOfTurn(turns: seq<seq<Request>>, i: nat)
    requires i < |turns| && turns[i] != []
    ensures |Requests(turns[..i])| < |Requests(turns)| && Requests(turns)[|Requests(turns[..i])|] == turns[i][0]
  {
    RequestsSplit(turns[..i], turns[i..]);
    assert turns == turns[..i] + turns[i..];
    assert Requests(turns[i..]) == turns[i] + Requests(turns[i..][1..]);
  }

  /** Only Resend is asked a second time in its turn, and exactly when the first request was left unclear. */
  lemma {:induction false} AskedAgainWhenUnclear(order: seq<Provider>, may: Provider -> bool, script: nat -> Reply, i: nat)
    requires i < |Turns(order, may, script, 0)|
    ensures var turns := Turns(order, may, script, 0);
      1 <= |turns[i]| <= 2 && (|turns[i]| == 2 <==> turns[i][0].provider == Resend && Unclear(script(|Requests(turns[..i])|)))
  {
    var turns := Turns(order, may, script, 0);
    ProvidersInOrder(order, may, script, 0);
    assert TurnOf(UsableOrder(order, may)[i], turns[i]);
    FirstOfTurn(turns, i);
    var n := |Requests(turns[..i])|;
    RequestsAreJudged(order, may, script, 0, n);
    RepliesAreReadSo(turns[i][0].provider, script(n));
  }

  lemma {:induction false} LastEnd(turns: seq<seq<Request>>)
    requires turns != [] && forall k | 0 <= k < |turns| :: turns[k] != []
    ensures Ends(turns) != [] && Requests(turns) != [] && Last(Ends(turns)) == Last(Requests(turns))
  {
    var most, turn := turns[..|turns| - 1], turns[|turns| - 1];
    assert turns == most + [turn];
    RequestsAppend(most, turn);
    EndsAppend(most, turn);
  }

  /** The last request of a chain and the reply it got. */
  ghost predicate EndedBy(turns: seq<seq<Request>>, script: nat -> Reply, p: Provider, how: (Provider, Reply) -> bool) {
    var requests := Requests(turns);
    requests != [] && Last(requests).provider == p && how(p, script(|requests| - 1))
  }

  lemma {:induction false} OutcomeOfTheLast(order: seq<Provider>, may: Provider -> bool, script: nat -> Reply, p: Provider)
    ensures var turns := Turns(order, may, script, 0);
      && (turns != [] ==> Ends(turns) != [] && Requests(turns) != [] && Last(Ends(turns)) == Last(Requests(turns)))
      && (Ends(turns) != [] && Last(Ends(turns)) == Request(p, Sent) <==> EndedBy(turns, script, p, Accepts))
      && (Ends(turns) != [] && Last(Ends(turns)) == Request(p, Conflict) <==>
            EndedBy(turns, script, p, AlreadyThere))
  {
    var turns := Turns(order, may, script, 0);
    if turns != [] {
      ProvidersInOrder(order, may, script, 0);
      assert forall k | 0 <= k < |turns| :: TurnOf(UsableOrder(order, may)[k], turns[k]);
      LastEnd(turns);
      var n := |Requests(turns)| - 1;
      RequestsAreJudged(order, may, script, 0, n);
      RepliesAreReadSo(Requests(turns)[n].provider, script(n));
    }
  }

  lemma KnownProvider(p: Provider)
    ensures p in DEFAULT_ORDER <==> !p.Unknown?
  {
    assert DEFAULT_ORDER[0] == Resend && DEFAULT_ORDER[1] == Smtp2go && DEFAULT_ORDER[2] == Mailjet;
  }

  /** Whom a message from this sender can go to: providers in the order that are known, have a key and may use the domain. */
  lemma WhoMaySend(relay: Relay, from: string, p: Provider)
    ensures p in UsableOrder(Order(relay), MaySend(relay, from)) <==>
      && p in (if relay.order == [] then DEFAULT_ORDER else relay.order)
      && !p.Unknown? && p in relay.keys && DomainEnabled(relay, p, from)
  {
    KnownProvider(p);
    UsableOrderMeaning(Order(relay), MaySend(relay, from), p);
  }

  /**
   The loop of `Relay::send` over an order of providers, against any script of replies: the n-th request made is
   answered by `script(n)`.
   */
  method SendAlong(order: seq<Provider>, may: Provider -> bool, script: nat -> Reply)
    returns (delivery: Delivery, turns: seq<seq<Request>>)
    ensures turns == Turns(order, may, script, 0)
    ensures delivery.Undelivered? ==> delivery.tried == Ends(turns) && delivery.tried != [] && NoneTaken(delivery.tried)
    ensures delivery.NotConfigured? ==> turns == []
    ensures delivery.SentBy? ==> Ends(turns) != [] && Last(Ends(turns)) == Request(delivery.provider, Sent)
    ensures delivery.InFlightAt? ==> Ends(turns) != [] && Last(Ends(turns)) == Request(delivery.provider, Conflict)
    ensures !delivery.Sunk?
  {
    turns := [];
    var tried: seq<Request> := [];
    var asked: nat := 0;
    for n := 0 to |order|
      invariant Turns(order, may, script, 0) == turns + Turns(order[n..], may, script, asked)
      invariant asked == |Requests(turns)|
      invariant tried == Ends(turns) && |tried| == |turns| && NoneTaken(tried)
    {
      var name := order[n];
      assert order[n..][1..] == order[n + 1..];
      if may(name) {
        var turn := Turn(name, script, asked);
        var result := Last(turn);
        RequestsAppend(turns, turn);
        EndsAppend(turns, turn);
        turns, asked := turns + [turn], asked + |turn|;
        match result.outcome {
          case Sent => return SentBy(name), turns;
          case Conflict => return InFlightAt(name), turns;
          case Rejected => tried := tried + [result];
          case Ambiguous => tried := tried + [result];
        }
      }
    }
    if tried == [] {
      return NotConfigured, turns;
    }
    return Undelivered(tried), turns;
  }

  /** `Relay::send`: the sink keeps everything from leaving; otherwise the chain runs along the configured order. */
  method Send(relay: Relay, from: string, script: nat -> Reply)
    returns (delivery: Delivery, turns: seq<seq<Request>>)
    ensures delivery == Sunk <==> relay.sink
    ensures relay.sink ==> turns == []
    ensures !relay.sink ==> turns == Turns(Order(relay), MaySend(relay, from), script, 0)
    ensures !relay.sink ==> (delivery == NotConfigured <==> UsableOrder(Order(relay), MaySend(relay, from)) == [])
    ensures delivery.Undelivered? ==> delivery.tried == Ends(turns) && NoneTaken(delivery.tried)
    ensures delivery.Undelivered? ==> |turns| == |UsableOrder(Order(relay), MaySend(relay, from))|
    ensures !relay.sink ==> forall p :: delivery == SentBy(p) <==> EndedBy(turns, script, p, Accepts)
    ensures !relay.sink ==> forall p :: delivery == InFlightAt(p) <==> EndedBy(turns, script, p, AlreadyThere)
  {
    if relay.sink {
      return Sunk, [];
    }
    delivery, turns := SendAlong(Order(relay), MaySend(relay, from), script);
    ProvidersInOrder(Order(relay), MaySend(relay, from), script, 0);
    forall p
      ensures delivery == SentBy(p) <==> EndedBy(turns, script, p, Accepts)
      ensures delivery == InFlightAt(p) <==> EndedBy(turns, script, p, AlreadyThere)
    {
      OutcomeOfTheLast(Order(relay), MaySend(relay, from), script, p);
    }
    if delivery.Undelivered? || delivery.NotConfigured? {
      NobodyIsLeftOut(Order(relay), MaySend(relay, from), script, 0);
    }
  }
}
