/** The command palette: how a typed query scores a text, and how commands are ranked by it. */
module Palette {
  import opened Clock
  import opened Text

  // ------------------------------------------------------------------ subsequences

  /** `hits` are increasing positions of `t` that spell `q`. */
  ghost predicate Embeds(q: string, t: string, hits: seq<nat>) {
    |hits| == |q|
    && (forall k | 0 <= k < |hits| :: hits[k] < |t| && t[hits[k]] == q[k])
    && forall j, k | 0 <= j < k < |hits| :: hits[j] < hits[k]
  }

  ghost predicate IsSubsequence(q: string, t: string) {
    exists hits: seq<nat> :: Embeds(q, t, hits)
  }

  /** The embedding whose every hit is as early as in any other. */
  ghost predicate Leftmost(q: string, t: string, hits: seq<nat>) {
    Embeds(q, t, hits) && forall e: seq<nat> | Embeds(q, t, e) :: NotAfter(hits, e)
  }

  ghost predicate NotAfter(hits: seq<nat>, e: seq<nat>) {
    |hits| == |e| && forall k | 0 <= k < |hits| :: hits[k] <= e[k]
  }

  /** How many characters lie between the hits. */
  function Slack(hits: seq<nat>): int
    requires |hits| > 0
  {
    hits[|hits| - 1] - hits[0] - (|hits| - 1)
  }

  // ------------------------------------------------------------------ the score

  /** `t.indexOf(c, index)`. */
  function HitFrom(t: string, c: char, index: nat): (r: Option<nat>)
    ensures r.Some? ==> index <= r.value < |t| && t[r.value] == c && forall j | index <= j < r.value :: t[j] != c
    ensures r == None ==> forall j | index <= j < |t| :: t[j] != c
    decreases |t| - index
  {
    if index >= |t| then None else if t[index] == c then Some(index) else HitFrom(t, c, index + 1)
  }

  /** The greedy search: each character where it first occurs after the hit before. */
  function Hits(q: string, t: string, index: nat): Option<seq<nat>> {
    if q == "" then Some([]) else
    match HitFrom(t, q[0], index)
    case None => None
    case Some(hit) =>
      match Hits(q[1..], t, hit + 1)
      case None => None
      case Some(rest) => Some([hit] + rest)
  }

  function Needle(query: string): string {
    Trim(Lower(query))
  }

  function ScoreOf(query: string, text: string): Option<int> {
    var q, t := Needle(query), Lower(text);
    if q == "" then Some(0) else
    match Find(t, q)
    case Some(direct) => Some(if direct == 0 then 1000 else 800 - direct)
    case None =>
      match Hits(q, t, 0)
      case None => None
      case Some(hits) => HitsCover(q, t, 0); Some(500 - Slack(hits))
  }

  lemma {:induction false} HitsCover(q: string, t: string, index: nat)
    ensures Hits(q, t, index).Some? ==> |Hits(q, t, index).value| == |q|
  {
    if q != "" && HitFrom(t, q[0], index).Some? {
      HitsCover(q[1..], t, HitFrom(t, q[0], index).value + 1);
    }
  }

  function Prepend(hits: seq<nat>, rest: Option<seq<nat>>): Option<seq<nat>> {
    match rest
    case None => None
    case Some(more) => Some(hits + more)
  }

  lemma {:induction false} HitsStep(q: string, t: string, n: nat, index: nat, hits: seq<nat>)
    requires n < |q|
    ensures HitFrom(t, q[n], index) == None ==> Prepend(hits, Hits(q[n..], t, index)) == None
    ensures HitFrom(t, q[n], index).Some? ==>
      var hit := HitFrom(t, q[n], index).value;
      Prepend(hits, Hits(q[n..], t, index)) == Prepend(hits + [hit], Hits(q[n + 1..], t, hit + 1))
  {
    assert q[n..][0] == q[n] && q[n..][1..] == q[n + 1..];
    var hit := HitFrom(t, q[n], index);
    if hit.Some? && Hits(q[n + 1..], t, hit.value + 1).Some? {
      var more := Hits(q[n + 1..], t, hit.value + 1).value;
      assert hits + ([hit.value] + more) == hits + [hit.value] + more;
    }
  }

  /** The loop that adds up the gaps between hits. */
  method Gaps(q: string, t: string) returns (found: bool, gaps: int)
    requires q != ""
    ensures found <==> Hits(q, t, 0).Some?
    ensures found ==> Hits(q, t, 0).value != [] && gaps == Slack(Hits(q, t, 0).value)
  {
    var index: nat, lastHit: int := 0, -1;
    gaps := 0;
    ghost var hits: seq<nat> := [];
    assert q[0..] == q;
    assert Prepend([], Hits(q, t, 0)) == Hits(q, t, 0) by {
      if Hits(q, t, 0).Some? { assert [] + Hits(q, t, 0).value == Hits(q, t, 0).value; }
    }
    for n := 0 to |q|
      invariant |hits| == n && Hits(q, t, 0) == Prepend(hits, Hits(q[n..], t, index))
      invariant n == 0 ==> lastHit == -1 && gaps == 0
      invariant n > 0 ==> lastHit == hits[n - 1] && gaps == Slack(hits)
    {
      HitsStep(q, t, n, index, hits);
      var hit := HitFrom(t, q[n], index);
      if hit == None {
        return false, 0;
      }
      if lastHit >= 0 {
        gaps := gaps + hit.value - lastHit - 1;
      }
      lastHit := hit.value;
      index := hit.value + 1;
      hits := hits + [hit.value];
    }
    assert q[|q|..] == "" && hits + [] == hits;
    found := true;
  }

  method Score(query: string, text: string) returns (score: Option<int>)
    ensures score == ScoreOf(query, text)
  {
    var q := Needle(query);
    if q == "" {
      return Some(0);
    }
    var t := Lower(text);
    var direct := Find(t, q);
    if direct == Some(0) {
      return Some(1000);
    }
    if direct.Some? {
      var at: int := direct.value;
      return Some(800 - at);
    }
    var found, gaps := Gaps(q, t);
    return if found then Some(500 - gaps) else None;
  }

  // ------------------------------------------------------------------ what a score means

  lemma {:induction false} HitsAreAnEmbedding(q: string, t: string, index: nat)
    requires Hits(q, t, index).Some?
    ensures Embeds(q, t, Hits(q, t, index).value)
    ensures forall k | 0 <= k < |q| :: index <= Hits(q, t, index).value[k]
  {
    if q != "" {
      var hit := HitFrom(t, q[0], index).value;
      HitsAreAnEmbedding(q[1..], t, hit + 1);
    }
  }

  /** Greedy search is complete, and every embedding has its hits no earlier. */
  lemma {:induction false} GreedyIsLeftmost(q: string, t: string, index: nat, e: seq<nat>)
    requires Embeds(q, t, e) && (q != "" ==> index <= e[0])
    ensures Hits(q, t, index).Some? && NotAfter(Hits(q, t, index).value, e)
  {
    if q != "" {
      assert t[e[0]] == q[0];
      var hit := HitFrom(t, q[0], index).value;
      assert hit <= e[0];
      var rest := e[1..];
      if q[1..] != "" {
        assert rest[0] == e[1] && e[0] < e[1];
      }
      GreedyIsLeftmost(q[1..], t, hit + 1, rest);
    }
  }

  lemma {:induction false} SubstringEmbeds(q: string, t: string, at: nat)
    requires OccursAt(t, q, at)
    ensures IsSubsequence(q, t)
  {
    var hits: seq<nat> := seq(|q|, k requires 0 <= k < |q| => at + k);
    forall k | 0 <= k < |q| ensures t[at + k] == q[k] { assert t[at..at + |q|][k] == q[k]; }
    assert Embeds(q, t, hits);
  }

  /** A text scores at all exactly when the query, trimmed and lower-cased, is a subsequence of it. */
  lemma {:induction false} ScoresIffSubsequence(query: string, text: string)
    ensures ScoreOf(query, text).Some? <==> IsSubsequence(Needle(query), Lower(text))
  {
    var q, t := Needle(query), Lower(text);
    if q == "" {
      assert Embeds(q, t, []);
    } else if Find(t, q).Some? {
      SubstringEmbeds(q, t, Find(t, q).value);
    } else if Hits(q, t, 0).Some? {
      HitsAreAnEmbedding(q, t, 0);
    } else if IsSubsequence(q, t) {
      var e: seq<nat> :| Embeds(q, t, e);
      GreedyIsLeftmost(q, t, 0, e);
    }
  }

  /** A hit that is not a substring scores 500 less the slack of the leftmost embedding, which is never zero. */
  lemma {:induction false} ScatteredScore(query: string, text: string, hits: seq<nat>)
    requires Needle(query) != "" && !Contains(Lower(text), Needle(query))
    requires Leftmost(Needle(query), Lower(text), hits)
    ensures ScoreOf(query, text) == Some(500 - Slack(hits))
    ensures Slack(hits) > 0
  {
    var q, t := Needle(query), Lower(text);
    GreedyIsLeftmost(q, t, 0, hits);
    var greedy := Hits(q, t, 0).value;
    HitsAreAnEmbedding(q, t, 0);
    assert NotAfter(hits, greedy);
    assert greedy == hits;
    if Slack(hits) <= 0 { TightIsSubstring(q, t, hits); }
  }

  lemma {:induction false} HitsSpread(hits: seq<nat>, j: nat, k: nat)
    requires j <= k < |hits|
    requires forall a, b | 0 <= a < b < |hits| :: hits[a] < hits[b]
    ensures hits[k] - hits[j] >= k - j
    decreases k - j
  {
    if j < k { HitsSpread(hits, j, k - 1); }
  }

  lemma {:induction false} TightIsSubstring(q: string, t: string, hits: seq<nat>)
    requires q != "" && Embeds(q, t, hits) && Slack(hits) <= 0
    ensures Contains(t, q)
  {
    var at, n := hits[0], |q|;
    forall k | 0 <= k < n ensures hits[k] == at + k {
      HitsSpread(hits, 0, k);
      HitsSpread(hits, k, n - 1);
    }
    assert t[at..at + n] == q;
    assert OccursAt(t, q, at);
  }

  /**
   Which of two matches ranks higher: a text that contains the query from position `d` on, or one in which it
   is scattered. A prefix always does; after that the contained one does exactly when it starts early enough
   for the slack of the other.
   */
  lemma {:induction false} ContainedOutranksScattered(query: string, text: string, other: string, d: nat, hits: seq<nat>)
    requires Needle(query) != "" && Find(Lower(text), Needle(query)) == Some(d)
    requires !Contains(Lower(other), Needle(query)) && Leftmost(Needle(query), Lower(other), hits)
    ensures ScoreOf(query, text).Some? && ScoreOf(query, other).Some?
    ensures ScoreOf(query, other).value < ScoreOf(query, text).value <==> d < 300 + Slack(hits)
  {
    ScatteredScore(query, other, hits);
  }

  lemma {:induction false} EarlyOutranks(query: string, text: string, other: string, d: nat)
    requires Needle(query) != "" && Find(Lower(text), Needle(query)) == Some(d) && d <= 300
    requires !Contains(Lower(other), Needle(query)) && ScoreOf(query, other).Some?
    ensures ScoreOf(query, other).value < ScoreOf(query, text).value
  {
    var hits := LeftmostHits(query, other);
    ScatteredScore(query, other, hits);
  }

  /** The texts hold the query from `d` on and only scattered, respectively. */
  ghost predicate Rivals(query: string, text: string, other: string, d: nat) {
    Needle(query) != "" && Find(Lower(text), Needle(query)) == Some(d)
    && !Contains(Lower(other), Needle(query)) && ScoreOf(query, other).Some?
  }

  /** Every scattered match is outranked exactly by the matches up to position 300. */
  lemma {:induction false} OutranksAllUpTo300(d: nat)
    ensures d <= 300 <==> forall query, text, other | Rivals(query, text, other, d) ::
      ScoreOf(query, text).Some? && ScoreOf(query, other).value < ScoreOf(query, text).value
  {
    if d <= 300 {
      forall query, text, other | Rivals(query, text, other, d)
        ensures ScoreOf(query, text).Some? && ScoreOf(query, other).value < ScoreOf(query, text).value
      {
        EarlyOutranks(query, text, other, d);
      }
    } else {
      var text := LateRival(d);
      LateSubstringDoesNot(text, d);
    }
  }

  lemma {:induction false} LateRival(d: nat) returns (text: string)
    ensures Rivals("ac", text, "abc", d) && Find(Lower(text), "ac") == Some(d)
  {
    text := LateAc(d);
    AbcHasNoAc();
    assert Needle("ac") == "ac" && Lower("abc") == "abc";
    if d > 300 { LateSubstringDoesNot(text, d); } else { HitsOfAc(); }
  }

  lemma {:induction false} LeftmostHits(query: string, other: string) returns (hits: seq<nat>)
    requires Needle(query) != "" && !Contains(Lower(other), Needle(query)) && ScoreOf(query, other).Some?
    ensures Leftmost(Needle(query), Lower(other), hits)
  {
    var q, t := Needle(query), Lower(other);
    HitsAreAnEmbedding(q, t, 0);
    hits := Hits(q, t, 0).value;
    forall e: seq<nat> | Embeds(q, t, e) ensures NotAfter(hits, e) { GreedyIsLeftmost(q, t, 0, e); }
  }

  /** A text in which "ac" first occurs at position `d`. */
  lemma {:induction false} LateAc(d: nat) returns (text: string)
    ensures Find(Lower(text), "ac") == Some(d)
  {
    text := seq(d, _ => '.') + "ac";
    assert Lower(text) == text;
    assert text[d..d + 2] == "ac";
    assert OccursAt(text, "ac", d);
    forall i: nat | i < d ensures !OccursAt(text, "ac", i) {
      if i + 2 <= |text| { assert text[i..i + 2][0] == text[i] == '.'; }
    }
  }

  lemma AbcHasNoAc()
    ensures Find("abc", "ac") == None
  {
    forall i: nat ensures !OccursAt("abc", "ac", i) {
      if i == 0 {
        assert "abc"[0..2][1] == 'b';
      } else if i == 1 {
        assert "abc"[1..3][0] == 'b';
      }
    }
  }

  lemma HitsOfAc()
    ensures Hits("ac", "abc", 0) == Some([0, 2])
  {
    assert HitFrom("abc", 'a', 0) == Some(0) && HitFrom("abc", 'c', 1) == Some(2);
    assert "ac"[1..] == "c" && "c"[1..] == "";
    var two: seq<nat> := [2];
    assert Hits("", "abc", 3) == Some([]) && two + [] == two;
    assert Hits("c", "abc", 1) == Some(two) && [0] + two == [0, 2];
  }

  /** From position 301 on a substring no longer outranks the tightest scattered hit. */
  lemma LateSubstringDoesNot(text: string, d: nat)
    requires Find(Lower(text), "ac") == Some(d) && d > 300
    ensures ScoreOf("ac", "abc") == Some(499) && ScoreOf("ac", text) == Some(800 - d)
    ensures ScoreOf("ac", text).value <= ScoreOf("ac", "abc").value
  {
    assert Lower("ac") == "ac" && Lower("abc") == "abc";
    assert Needle("ac") == "ac";
    AbcHasNoAc();
    HitsOfAc();
  }

  /** A text that starts with the query scores 1000 and outranks every text that does not. */
  lemma {:induction false} PrefixOutranksAll(query: string, text: string, other: string)
    requires Needle(query) != ""
    ensures ScoreOf(query, text) == Some(1000) <==> Find(Lower(text), Needle(query)) == Some(0)
    ensures ScoreOf(query, text) == Some(1000) && ScoreOf(query, other).Some? && ScoreOf(query, other) != Some(1000) ==>
      ScoreOf(query, other).value < 800
  {
    if !Contains(Lower(text), Needle(query)) && ScoreOf(query, text).Some? {
      var hits := LeftmostHits(query, text);
      ScatteredScore(query, text, hits);
    }
    if !Contains(Lower(other), Needle(query)) && ScoreOf(query, other).Some? {
      var hits := LeftmostHits(query, other);
      ScatteredScore(query, other, hits);
    }
  }

  /** Of two texts that contain the query and do not start with it, the one that does so earlier ranks higher. */
  lemma {:induction false} EarlierRanksHigher(query: string, text: string, other: string, d: nat, e: nat)
    requires Needle(query) != "" && Find(Lower(text), Needle(query)) == Some(d) && Find(Lower(other), Needle(query)) == Some(e)
    ensures ScoreOf(query, text).Some? && ScoreOf(query, other).Some?
    ensures ScoreOf(query, other).value < ScoreOf(query, text).value <==> d < e
  {
  }

  // ------------------------------------------------------------------ ranking

  datatype Command = Command(title: string, detail: Option<string>, keywords: Option<string>, group: string)

  function OrEmpty(text: Option<string>): string {
    match text
    case None => ""
    case Some(value) => value
  }

  function Haystack(c: Command): string {
    c.title + " " + OrEmpty(c.detail) + " " + OrEmpty(c.keywords)
  }

  function CommandScore(c: Command, query: string): Option<int> {
    ScoreOf(query, Haystack(c))
  }

  lemma {:induction false} EmbedsInLonger(q: string, before: string, t: string, after: string)
    requires IsSubsequence(q, t)
    ensures IsSubsequence(q, before + t + after)
  {
    var hits: seq<nat> :| Embeds(q, t, hits);
    var moved: seq<nat> := seq(|hits|, k requires 0 <= k < |hits| => hits[k] + |before|);
    assert Embeds(q, before + t + after, moved);
  }

  lemma LowerBoth(a: string, b: string)
    ensures Lower(a + b) == Lower(a) + Lower(b)
  {
  }

  /** A command is found by any of its texts: its title, its detail or its keywords. */
  lemma {:induction false} FoundByAnyText(c: Command, query: string, text: string)
    requires text == c.title || c.detail == Some(text) || c.keywords == Some(text)
    requires IsSubsequence(Needle(query), Lower(text))
    ensures CommandScore(c, query).Some?
  {
    var first, second, third := c.title, OrEmpty(c.detail), OrEmpty(c.keywords);
    var before := if text == first then "" else if c.detail == Some(text) then first + " " else first + " " + second + " ";
    var after := if text == first then " " + second + " " + third else if c.detail == Some(text) then " " + third else "";
    assert Haystack(c) == before + text + after;
    LowerBoth(before + text, after);
    LowerBoth(before, text);
    EmbedsInLonger(Needle(query), Lower(before), Lower(text), Lower(after));
    ScoresIffSubsequence(query, Haystack(c));
  }

  /** What map, filter and sort work on: a command that scored, with its score and the place it was listed at. */
  datatype Entry = Entry(command: Command, score: int, place: nat)

  function Scored(commands: seq<Command>, query: string): seq<Entry> {
    if commands == [] then [] else
    var n := |commands| - 1;
    var before := Scored(commands[..n], query);
    match CommandScore(commands[n], query)
    case None => before
    case Some(score) => before + [Entry(commands[n], score, n)]
  }

  /** A stable insertion: behind every entry that scores at least as much. */
  function Insert(e: Entry, sorted: seq<Entry>): seq<Entry> {
    if sorted == [] || sorted[0].score < e.score then [e] + sorted else [sorted[0]] + Insert(e, sorted[1..])
  }

  /** The stable sort by descending score. */
  function SortByScore(entries: seq<Entry>): seq<Entry> {
    if entries == [] then [] else Insert(entries[|entries| - 1], SortByScore(entries[..|entries| - 1]))
  }

  function Commands(entries: seq<Entry>): seq<Command> {
    seq(|entries|, k requires 0 <= k < |entries| => entries[k].command)
  }

  function Rank(commands: seq<Command>, query: string): seq<Command> {
    if Trim(query) == "" then commands else Commands(SortByScore(Scored(commands, query)))
  }

  /** Higher scores first, equal scores as they were listed. */
  predicate Ahead(a: Entry, b: Entry) {
    a.score > b.score || (a.score == b.score && a.place < b.place)
  }

  ghost predicate Ordered(entries: seq<Entry>) {
    forall j, k | 0 <= j < k < |entries| :: Ahead(entries[j], entries[k])
  }

  /** The entry says that the command listed at its place matches, and how well. */
  ghost predicate Lists(commands: seq<Command>, query: string, e: Entry) {
    e.place < |commands| && commands[e.place] == e.command && CommandScore(e.command, query) == Some(e.score)
  }

  lemma {:induction false} ScoredAreTheMatches(commands: seq<Command>, query: string, e: Entry)
    ensures e in Scored(commands, query) <==> Lists(commands, query, e)
  {
    if commands != [] {
      var most := commands[..|commands| - 1];
      ScoredAreTheMatches(most, query, e);
      assert e.place < |most| ==> most[e.place] == commands[e.place];
    }
  }

  lemma {:induction false} InsertAdds(e: Entry, sorted: seq<Entry>, x: Entry)
    ensures x in Insert(e, sorted) <==> x == e || x in sorted
  {
    if !(sorted == [] || sorted[0].score < e.score) {
      assert sorted == [sorted[0]] + sorted[1..];
      InsertAdds(e, sorted[1..], x);
    }
  }

  lemma {:induction false} InsertKeepsOrder(e: Entry, sorted: seq<Entry>)
    requires Ordered(sorted) && forall x | x in sorted :: x.place < e.place
    ensures Ordered(Insert(e, sorted))
  {
    if sorted == [] {
    } else if sorted[0].score < e.score {
      forall k | 0 <= k < |sorted| ensures Ahead(e, sorted[k]) {
        assert k > 0 ==> Ahead(sorted[0], sorted[k]);
      }
    } else {
      var rest := sorted[1..];
      InsertKeepsOrder(e, rest);
      var inserted := Insert(e, rest);
      forall k | 0 <= k < |inserted| ensures Ahead(sorted[0], inserted[k]) {
        InsertAdds(e, rest, inserted[k]);
        assert inserted[k] in rest ==> exists j | 0 <= j < |rest| :: rest[j] == inserted[k] && sorted[j + 1] == rest[j];
        assert sorted[0] in sorted;
      }
    }
  }

  lemma {:induction false} SortKeepsEntries(entries: seq<Entry>, x: Entry)
    ensures x in SortByScore(entries) <==> x in entries
  {
    if entries != [] {
      var most := entries[..|entries| - 1];
      assert entries == most + [entries[|entries| - 1]];
      SortKeepsEntries(most, x);
      InsertAdds(entries[|entries| - 1], SortByScore(most), x);
    }
  }

  ghost predicate PlacesRise(entries: seq<Entry>) {
    forall j, k | 0 <= j < k < |entries| :: entries[j].place < entries[k].place
  }

  lemma {:induction false} ScoredPlacesRise(commands: seq<Command>, query: string)
    ensures PlacesRise(Scored(commands, query))
  {
    if commands != [] {
      var most := commands[..|commands| - 1];
      ScoredPlacesRise(most, query);
      forall e | e in Scored(most, query) ensures e.place < |most| { ScoredAreTheMatches(most, query, e); }
    }
  }

  lemma {:induction false} SortOrders(entries: seq<Entry>)
    requires PlacesRise(entries)
    ensures Ordered(SortByScore(entries))
  {
    if entries != [] {
      var n := |entries| - 1;
      SortOrders(entries[..n]);
      forall x | x in SortByScore(entries[..n]) ensures x.place < entries[n].place {
        SortKeepsEntries(entries[..n], x);
      }
      InsertKeepsOrder(entries[n], SortByScore(entries[..n]));
    }
  }

  /** The ranking: exactly the matching commands, best score first, ties in the order they were listed. */
  ghost predicate IsRanking(commands: seq<Command>, query: string, entries: seq<Entry>) {
    Ordered(entries) && forall e :: e in entries <==> Lists(commands, query, e)
  }

  lemma {:induction false} RankIsTheRanking(commands: seq<Command>, query: string)
    requires Trim(query) != ""
    ensures exists entries :: IsRanking(commands, query, entries) && Rank(commands, query) == Commands(entries)
  {
    var scored := Scored(commands, query);
    var entries := SortByScore(scored);
    ScoredPlacesRise(commands, query);
    SortOrders(scored);
    forall e ensures e in entries <==> Lists(commands, query, e) {
      ScoredAreTheMatches(commands, query, e);
      SortKeepsEntries(scored, e);
    }
    assert IsRanking(commands, query, entries);
  }

  lemma {:induction false} OrderedHeads(a: seq<Entry>, b: seq<Entry>)
    requires Ordered(a) && Ordered(b) && a != [] && b != [] && a[0] in b && b[0] in a
    ensures a[0] == b[0]
  {
    var j :| 0 <= j < |a| && a[j] == b[0];
    var k :| 0 <= k < |b| && b[k] == a[0];
    assert j > 0 ==> Ahead(a[0], a[j]);
    assert k > 0 ==> Ahead(b[0], b[k]);
  }

  lemma {:induction false} OrderedIsUnique(a: seq<Entry>, b: seq<Entry>)
    requires Ordered(a) && Ordered(b) && forall e :: e in a <==> e in b
    ensures a == b
  {
    assert a != [] ==> a[0] in a;
    assert b != [] ==> b[0] in b;
    if a != [] && b != [] {
      OrderedHeads(a, b);
      forall e ensures e in a[1..] <==> e in b[1..] {
        InTail(a, e);
        InTail(b, e);
      }
      OrderedIsUnique(a[1..], b[1..]);
      assert a == [a[0]] + a[1..] && b == [b[0]] + b[1..];
    }
  }

  lemma {:induction false} InTail(a: seq<Entry>, e: Entry)
    requires Ordered(a) && a != []
    ensures e in a[1..] <==> e in a && e != a[0]
  {
    assert a == [a[0]] + a[1..];
    if e in a[1..] {
      var k :| 1 <= k < |a| && a[k] == e;
      assert Ahead(a[0], a[k]);
    }
  }

  /** There is no other ranking, so `rank` returns it. */
  lemma {:induction false} RankingIsUnique(commands: seq<Command>, query: string, a: seq<Entry>, b: seq<Entry>)
    requires IsRanking(commands, query, a) && IsRanking(commands, query, b)
    ensures a == b
  {
    OrderedIsUnique(a, b);
  }

  /** A blank query lists everything, as it was; any other query scores against a needle that is not empty. */
  lemma {:induction false} BlankQueryListsAll(commands: seq<Command>, query: string)
    ensures Trim(query) == "" <==> Needle(query) == ""
    ensures Needle(query) == "" ==> Rank(commands, query) == commands
  {
    LowerTrims(query);
  }

  lemma {:induction false} LowerTrims(s: string)
    ensures Trim(s) == "" <==> Trim(Lower(s)) == ""
  {
    BlankIffAllSpace(s);
    BlankIffAllSpace(Lower(s));
    assert forall k | 0 <= k < |s| :: IsSpace(Lower(s)[k]) <==> IsSpace(s[k]);
  }

  lemma {:induction false} BlankIffAllSpace(s: string)
    ensures Trim(s) == "" <==> forall k | 0 <= k < |s| :: IsSpace(s[k])
  {
    if s != "" && IsSpace(s[0]) {
      BlankIffAllSpace(s[1..]);
      assert s == [s[0]] + s[1..];
    } else if s != "" {
      TrimEndKeepsStart(s);
    }
  }

  lemma {:induction false} TrimEndKeepsStart(s: string)
    requires s != "" && !IsSpace(s[0])
    ensures TrimEnd(s) != ""
  {
    if IsSpace(s[|s| - 1]) { TrimEndKeepsStart(s[..|s| - 1]); }
  }
}
