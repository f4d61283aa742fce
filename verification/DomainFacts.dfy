/** The target parser accepts exactly the dressings of canonical names, and gives the name back. */
module DomainFacts {
  import opened Clock
  import opened Text
  import opened Domain

  // ------------------------------------------------------------------ cutting and its inverse

  lemma {:induction false} TrimStartPadded(left: string, s: string)
    requires AllSpace(left) && (s == "" || !IsSpace(s[0]))
    ensures TrimStart(left + s) == s
  {
    if left == "" { assert left + s == s; } else {
      assert (left + s)[1..] == left[1..] + s;
      TrimStartPadded(left[1..], s);
    }
  }

  lemma {:induction false} TrimEndPadded(s: string, right: string)
    requires AllSpace(right) && (s == "" || !IsSpace(s[|s| - 1]))
    ensures TrimEnd(s + right) == s
  {
    if right == "" { assert s + right == s; } else {
      assert (s + right)[..|s + right| - 1] == s + right[..|right| - 1];
      TrimEndPadded(s, right[..|right| - 1]);
    }
  }

  lemma TrimPadded(left: string, core: string, right: string)
    requires AllSpace(left) && AllSpace(right) && Unpadded(core)
    ensures Trim(left + core + right) == core
  {
    assert left + core + right == left + (core + right);
    TrimStartPadded(left, core + right);
    TrimEndPadded(core, right);
  }

  lemma {:induction false} TrimStartCuts(s: string) returns (left: string)
    ensures s == left + TrimStart(s) && AllSpace(left)
    ensures TrimStart(s) == "" || !IsSpace(TrimStart(s)[0])
  {
    if s != "" && IsSpace(s[0]) {
      var rest := TrimStartCuts(s[1..]);
      left := [s[0]] + rest;
    } else {
      left := "";
    }
  }

  lemma {:induction false} TrimEndCuts(s: string) returns (right: string)
    ensures s == TrimEnd(s) + right && AllSpace(right)
    ensures TrimEnd(s) == "" || !IsSpace(TrimEnd(s)[|TrimEnd(s)| - 1])
  {
    if s != "" && IsSpace(s[|s| - 1]) {
      var rest := TrimEndCuts(s[..|s| - 1]);
      right := rest + [s[|s| - 1]];
    } else {
      right := "";
    }
  }

  lemma TrimCuts(s: string) returns (left: string, right: string)
    ensures s == left + Trim(s) + right && AllSpace(left) && AllSpace(right)
    ensures Trim(s) == "" || Unpadded(Trim(s))
  {
    left := TrimStartCuts(s);
    right := TrimEndCuts(TrimStart(s));
    assert Trim(s) != "" ==> TrimStart(s)[0] == Trim(s)[0];
  }

  lemma {:induction false} UpToPathStops(s: string, tail: string)
    requires FreeOfPath(s) && (tail == "" || EndsHost(tail[0]))
    ensures UpToPath(s + tail) == s
  {
    if s == "" { assert s + tail == tail; } else {
      assert (s + tail)[1..] == s[1..] + tail;
      UpToPathStops(s[1..], tail);
    }
  }

  lemma {:induction false} UpToPathCuts(s: string) returns (tail: string)
    ensures s == UpToPath(s) + tail && FreeOfPath(UpToPath(s)) && (tail == "" || EndsHost(tail[0]))
  {
    if s == "" || EndsHost(s[0]) {
      tail := s;
    } else {
      tail := UpToPathCuts(s[1..]);
      assert s == [s[0]] + s[1..];
    }
  }

  lemma {:induction false} AtLast(a: string, c: char, b: string)
    requires c !in b
    ensures AfterLast(a + [c] + b, c) == b && BeforeLast(a + [c] + b, c) == a
  {
    var s := a + [c] + b;
    assert s[|a|] == c;
    if b == "" {
      assert s[..|s| - 1] == a;
    } else {
      var shorter := b[..|b| - 1];
      assert s[..|s| - 1] == a + [c] + shorter;
      AtLast(a, c, shorter);
      assert b == shorter + [b[|b| - 1]];
      assert s[|s| - 1] == b[|b| - 1] && b[|b| - 1] in b;
    }
  }

  lemma {:induction false} CutAtLast(s: string, c: char)
    requires c in s
    ensures s == BeforeLast(s, c) + [c] + AfterLast(s, c) && c !in AfterLast(s, c)
  {
    var shorter := s[..|s| - 1];
    assert s == shorter + [s[|s| - 1]];
    if s[|s| - 1] != c { CutAtLast(shorter, c); }
  }

  lemma {:induction false} TrimDotsPadded(s: string, n: nat)
    requires s == "" || s[|s| - 1] != '.'
    ensures TrimDots(s + Dots(n)) == s
  {
    if n == 0 { assert s + Dots(n) == s; } else {
      assert (s + Dots(n))[..|s + Dots(n)| - 1] == s + Dots(n - 1);
      TrimDotsPadded(s, n - 1);
    }
  }

  lemma {:induction false} TrimDotsCuts(s: string) returns (n: nat)
    ensures s == TrimDots(s) + Dots(n)
  {
    if s != "" && s[|s| - 1] == '.' {
      n := TrimDotsCuts(s[..|s| - 1]);
      assert s == s[..|s| - 1] + ".";
      assert Dots(n + 1) == Dots(n) + ".";
      n := n + 1;
    } else {
      n := 0;
    }
  }

  lemma {:induction false} CountParts(a: string, b: string, c: char)
    ensures CountChar(a + b, c) == CountChar(a, c) + CountChar(b, c)
  {
    if a == "" { assert a + b == b; } else {
      assert (a + b)[1..] == a[1..] + b;
      CountParts(a[1..], b, c);
    }
  }

  lemma {:induction false} CountNone(s: string, c: char)
    ensures CountChar(s, c) == 0 <==> c !in s
  {
    if s != "" {
      assert s == [s[0]] + s[1..];
      CountNone(s[1..], c);
    }
  }

  // ------------------------------------------------------------------ canonical names

  predicate HostChar(c: char) {
    LabelChar(c) || c == '.'
  }

  lemma DotIsClean()
    ensures CleanSeparator(".") && CleanSeparator("://")
  {
    assert "://"[1..] == "//" && "://"[..2] == ":/";
    assert "://"[2..] == "/" && "://"[..1] == ":";
  }

  lemma DotFree(s: string)
    ensures Contains(s, ".") <==> '.' in s
  {
    if '.' in s {
      var i :| 0 <= i < |s| && s[i] == '.';
      assert s[i..i + 1] == ".";
      assert OccursAt(s, ".", i);
    }
    if Contains(s, ".") {
      var i := Find(s, ".").value;
      assert s[i..i + 1][0] == s[i];
    }
  }

  /** What every canonical name looks like, character by character. */
  lemma {:induction false} JoinedShape(labels: seq<string>)
    requires |labels| > 0 && AllCanonical(labels)
    ensures var h := Join(labels, ".");
      && h != "" && LabelChar(h[0]) && LabelChar(h[|h| - 1])
      && (forall k | 0 <= k < |h| :: HostChar(h[k]) && !('A' <= h[k] <= 'Z'))
      && (|labels| >= 2 ==> '.' in h)
  {
    assert CanonicalLabel(labels[0]);
    if |labels| > 1 {
      var rest := Join(labels[1..], ".");
      JoinedShape(labels[1..]);
      var h := labels[0] + "." + rest;
      assert h[|labels[0]|] == '.';
      forall k | 0 <= k < |h| ensures HostChar(h[k]) && !('A' <= h[k] <= 'Z') {
        if k > |labels[0]| { assert h[k] == rest[k - |labels[0]| - 1]; }
      }
    }
  }

  lemma {:induction false} CharsOfSplit(s: string)
    ensures forall k | 0 <= k < |Split(s, ".")| :: forall i | 0 <= i < |Split(s, ".")[k]| :: Split(s, ".")[k][i] in s
    decreases |s|
  {
    if Find(s, ".").Some? {
      CharsOfSplit(s[Find(s, ".").value + 1..]);
    }
  }

  lemma {:induction false} JoinUndoesSplit(s: string)
    ensures Join(Split(s, "."), ".") == s
    decreases |s|
  {
    if Find(s, ".").Some? {
      var i := Find(s, ".").value;
      JoinUndoesSplit(s[i + 1..]);
      assert s[i..i + 1] == ".";
      assert s == s[..i] + s[i..i + 1] + s[i + 1..];
    }
  }

  lemma PartsOfSplit(s: string)
    ensures Join(Split(s, "."), ".") == s
    ensures forall k | 0 <= k < |Split(s, ".")| :: forall i | 0 <= i < |Split(s, ".")[k]| :: Split(s, ".")[k][i] in s
    ensures |Split(s, ".")| >= 2 <==> '.' in s
  {
    JoinUndoesSplit(s);
    CharsOfSplit(s);
    DotFree(s);
  }

  lemma LeadingDotSplits(rest: string)
    requires rest != "" && rest[0] == '.'
    ensures Split(rest, ".")[0] == ""
  {
    assert rest[0..1] == ".";
    assert OccursAt(rest, ".", 0);
  }

  lemma TwoDots(s: string, j: nat)
    requires OccursAt(s, "..", j)
    ensures s[j] == '.' && s[j + 1] == '.' && OccursAt(s, ".", j)
  {
    assert s[j..j + 2][0] == s[j] && s[j..j + 2][1] == s[j + 1];
    assert s[j..j + 1] == ".";
  }

  lemma TwoDotsFurtherOn(s: string, j: nat, i: nat)
    requires OccursAt(s, "..", j) && i < j
    ensures OccursAt(s[i + 1..], "..", j - i - 1)
  {
    assert s[i + 1..][j - i - 1..j - i + 1] == s[j..j + 2];
  }

  ghost predicate HasEmptyPart(s: string) {
    exists k :: 0 <= k < |Split(s, ".")| && Split(s, ".")[k] == ""
  }

  lemma EmptyPartOfRest(s: string, i: nat)
    requires Find(s, ".") == Some(i) && HasEmptyPart(s[i + 1..])
    ensures HasEmptyPart(s)
  {
    var rest := s[i + 1..];
    var k :| 0 <= k < |Split(rest, ".")| && Split(rest, ".")[k] == "";
    assert Split(s, ".")[k + 1] == "";
  }

  lemma {:induction false} DoubleDotLeavesEmptyPart(s: string, j: nat)
    requires OccursAt(s, "..", j)
    ensures HasEmptyPart(s)
    decreases |s|
  {
    TwoDots(s, j);
    var i := Find(s, ".").value;
    if i == j {
      LeadingDotSplits(s[i + 1..]);
      assert Split(s[i + 1..], ".")[0] == "";
    } else {
      TwoDotsFurtherOn(s, j, i);
      DoubleDotLeavesEmptyPart(s[i + 1..], j - i - 1);
    }
    EmptyPartOfRest(s, i);
  }

  lemma {:induction false} OkLabelsExcludeDoubleDots(host: string)
    requires forall k | 0 <= k < |Split(host, ".")| :: LabelOk(Split(host, ".")[k])
    ensures !Contains(host, "..") && !(host != "" && host[0] == '.')
  {
    forall j: nat | OccursAt(host, "..", j) ensures false { DoubleDotLeavesEmptyPart(host, j); }
    assert LabelOk(Split(host, ".")[0]);
    if host != "" {
      assert OccursAt(host, ".", 0) <==> host[0] == '.' by { assert host[0..1] == [host[0]]; }
    }
  }

  lemma {:induction false} LabelsPassSyntax(labels: seq<string>)
    requires |labels| >= 1 && AllCanonical(labels)
    ensures ValidateSyntax(Join(labels, "."))
  {
    forall k | 0 <= k < |labels| ensures !Contains(labels[k], ".") {
      assert CanonicalLabel(labels[k]);
      DotFree(labels[k]);
    }
    DotIsClean();
    SplitUndoesJoin(labels, ".");
    assert forall k | 0 <= k < |labels| :: CanonicalLabel(labels[k]);
    OkLabelsExcludeDoubleDots(Join(labels, "."));
  }

  lemma {:induction false} CheckedIsCanonical(host: string)
    requires Lower(host) == host && CheckHost(host) == Ok(host)
    ensures Canonical(host)
  {
    PartsOfSplit(host);
    var labels := Split(host, ".");
    forall k | 0 <= k < |labels| ensures CanonicalLabel(labels[k]) {
      assert LabelOk(labels[k]);
      forall i | 0 <= i < |labels[k]| ensures !('A' <= labels[k][i] <= 'Z') {
        var at :| 0 <= at < |host| && host[at] == labels[k][i];
        assert Lower(host)[at] == LowerChar(host[at]);
      }
    }
  }

  // ------------------------------------------------------------------ the parser against its reference

  /** What a spelling of a canonical name looks like: enough to cut everything around it. */
  predicate PlainSpelling(s: string) {
    s != "" && LabelChar(s[0]) && s[|s| - 1] != '.' && forall k | 0 <= k < |s| :: HostChar(s[k])
  }

  lemma {:induction false} CanonicalShape(host: string)
    requires Labelled(host)
    ensures PlainSpelling(host) && Lower(host) == host && '.' in host
  {
    var labels: seq<string> :| |labels| >= 2 && Join(labels, ".") == host && AllCanonical(labels);
    JoinedShape(labels);
    LowerOfLower(host);
  }

  lemma {:induction false} LowerOfLower(host: string)
    requires forall k | 0 <= k < |host| :: !('A' <= host[k] <= 'Z')
    ensures Lower(host) == host
  {
  }

  lemma {:induction false} SpellingShape(spelled: string, host: string)
    requires Lower(spelled) == host && PlainSpelling(host)
    ensures PlainSpelling(spelled)
  {
    forall k | 0 <= k < |spelled| ensures HostChar(spelled[k]) && (spelled[k] == '.' <==> host[k] == '.') {
      assert HostChar(host[k]) && host[k] == LowerChar(spelled[k]);
    }
  }

  lemma {:induction false} CanonicalPasses(host: string)
    requires Canonical(host)
    ensures CheckHost(host) == Ok(host)
  {
    CanonicalShape(host);
    LabelledPassesSyntax(host);
  }

  lemma {:induction false} LabelledPassesSyntax(host: string)
    requires Labelled(host)
    ensures ValidateSyntax(host)
  {
    var labels: seq<string> :| |labels| >= 2 && Join(labels, ".") == host && AllCanonical(labels);
    LabelsPassSyntax(labels);
  }

  lemma {:induction false} BareHostHasNoColon(spelled: string, dots: nat)
    requires PlainSpelling(spelled)
    ensures ':' !in spelled + Dots(dots) && '@' !in spelled + Dots(dots) && FreeOfPath(spelled + Dots(dots))
    ensures CountChar(spelled + Dots(dots), ':') == 0
  {
    var bare := spelled + Dots(dots);
    assert forall k | 0 <= k < |bare| :: HostChar(bare[k]);
    CountNone(bare, ':');
  }

  lemma {:induction false} ReadPort(bare: string, port: string)
    requires CountChar(bare, ':') == 0 && ':' !in port
    ensures CountChar(bare + ":" + port, ':') < 2 && BeforeLast(bare + ":" + port, ':') == bare
  {
    AtLast(bare, ':', port);
    assert bare + ":" + port == bare + [':'] + port == bare + (":" + port);
    CountParts(bare, ":" + port, ':');
    CountParts(":", port, ':');
    CountNone(port, ':');
    assert CountChar(":", ':') == 1 by { assert ":"[1..] == ""; }
  }

  lemma {:induction false} ReadHost(d: Dressing)
    requires PlainSpelling(d.spelled) && PlainPort(d)
    ensures var authority := HostAndPort(d);
      && authority != "" && authority[0] != '[' && CountChar(authority, ':') < 2
      && '@' !in authority && FreeOfPath(authority)
      && TrimDots(BeforeLast(authority, ':')) == d.spelled
  {
    var bare := d.spelled + Dots(d.dots);
    BareHostHasNoColon(d.spelled, d.dots);
    TrimDotsPadded(d.spelled, d.dots);
    if d.port.Some? {
      ReadPort(bare, d.port.value);
      assert HostAndPort(d) == bare + ":" + d.port.value;
    } else {
      assert HostAndPort(d) == bare;
    }
  }

  lemma {:induction false} ReadAuthority(d: Dressing, authority: string)
    requires authority == HostAndPort(d) && FreeOfPath(authority) && '@' !in authority
    requires d.userinfo.Some? ==> FreeOfPath(d.userinfo.value)
    requires d.tail == "" || EndsHost(d.tail[0])
    ensures AfterLast(UpToPath(AfterScheme(d)), '@') == authority
  {
    var front := if d.userinfo.Some? then d.userinfo.value + "@" else "";
    assert AfterScheme(d) == (front + authority) + d.tail;
    UpToPathStops(front + authority, d.tail);
    if d.userinfo.Some? {
      AtLast(d.userinfo.value, '@', authority);
      assert front + authority == d.userinfo.value + ['@'] + authority;
    } else {
      assert front + authority == authority;
    }
  }

  lemma {:induction false} ReadScheme(d: Dressing)
    requires d.scheme.Some? ==> !Contains(d.scheme.value, "://")
    requires d.scheme == None ==> !Contains(Core(d), "://")
    ensures (match Find(Core(d), "://") case Some(i) => Core(d)[i + 3..] case None => Core(d)) == AfterScheme(d)
  {
    if d.scheme.Some? {
      DotIsClean();
      FirstSeparator(d.scheme.value, "://", AfterScheme(d));
      assert Core(d) == d.scheme.value + "://" + AfterScheme(d);
      assert Core(d)[|d.scheme.value| + 3..] == AfterScheme(d);
    } else {
      assert Core(d) == AfterScheme(d);
    }
  }

  lemma {:induction false} ReadCore(d: Dressing)
    requires PlainSpelling(d.spelled) && PlainPort(d)
    requires d.userinfo.Some? ==> FreeOfPath(d.userinfo.value)
    requires d.tail == "" || EndsHost(d.tail[0])
    requires d.scheme.Some? ==> !Contains(d.scheme.value, "://")
    requires d.scheme == None ==> !Contains(Core(d), "://")
    ensures Authority(Core(d)) == HostAndPort(d)
  {
    ReadHost(d);
    ReadAuthority(d, HostAndPort(d));
    ReadScheme(d);
  }

  /** Anything a proper dressing puts around a canonical name is taken off again. */
  lemma {:induction false} DressedNameParses(d: Dressing, host: string)
    requires Canonical(host) && Wears(d, host)
    ensures NormalizeTarget(Written(d)) == Ok(host)
  {
    CanonicalShape(host);
    SpellingShape(d.spelled, host);
    CanonicalPasses(host);
    CoreIsRead(d, host);
    TrimPadded(d.left, Core(d), d.right);
  }

  lemma {:induction false} CoreIsRead(d: Dressing, host: string)
    requires PlainSpelling(d.spelled) && Wears(d, host)
    ensures HostText(Core(d)) == Ok(host)
  {
    ReadCore(d);
    ReadHost(d);
  }

  lemma {:induction false} UndressScheme(trimmed: string) returns (scheme: Option<string>, rest: string)
    ensures rest == (match Find(trimmed, "://") case Some(i) => trimmed[i + 3..] case None => trimmed)
    ensures trimmed == (if scheme.Some? then scheme.value + "://" else "") + rest
    ensures scheme.Some? ==> !Contains(scheme.value, "://")
    ensures scheme == None ==> !Contains(trimmed, "://")
  {
    var at := Find(trimmed, "://");
    if at.Some? {
      scheme, rest := Some(trimmed[..at.value]), trimmed[at.value + 3..];
      PrefixIsFree(trimmed, at.value);
      assert trimmed == trimmed[..at.value] + trimmed[at.value..at.value + 3] + rest;
    } else {
      scheme, rest := None, trimmed;
      assert "" + rest == rest;
    }
  }

  lemma {:induction false} UndressUserinfo(before: string) returns (userinfo: Option<string>)
    requires FreeOfPath(before)
    ensures before == (if userinfo.Some? then userinfo.value + "@" else "") + AfterLast(before, '@')
    ensures '@' !in AfterLast(before, '@') && FreeOfPath(AfterLast(before, '@'))
    ensures userinfo.Some? ==> FreeOfPath(userinfo.value)
  {
    if '@' in before {
      CutAtLast(before, '@');
      userinfo := Some(BeforeLast(before, '@'));
      var authority := AfterLast(before, '@');
      assert forall k | 0 <= k < |userinfo.value| :: userinfo.value[k] == before[k];
      assert forall k | 0 <= k < |authority| :: authority[k] == before[|userinfo.value| + 1 + k];
    } else {
      userinfo := None;
      assert "" + before == before;
    }
  }

  /** What stands after the last ':' of an authority is a part of it. */
  lemma {:induction false} PortIsPlain(authority: string)
    requires ':' in authority && '@' !in authority && FreeOfPath(authority)
    ensures var port := AfterLast(authority, ':'); FreeOfPath(port) && '@' !in port && ':' !in port
  {
    CutAtLast(authority, ':');
    var port, from := AfterLast(authority, ':'), |BeforeLast(authority, ':')| + 1;
    forall k | 0 <= k < |port| ensures port[k] != '@' && !EndsHost(port[k]) {
      assert port[k] == authority[from + k];
    }
  }

  lemma {:induction false} UndressPort(authority: string) returns (port: Option<string>)
    requires '@' !in authority && FreeOfPath(authority)
    ensures authority == BeforeLast(authority, ':') + (if port.Some? then ":" + port.value else "")
    ensures port.Some? ==> FreeOfPath(port.value) && '@' !in port.value && ':' !in port.value
  {
    if ':' in authority {
      PortIsPlain(authority);
      CutAtLast(authority, ':');
      port := Some(AfterLast(authority, ':'));
      assert authority == BeforeLast(authority, ':') + (":" + port.value);
    } else {
      port := None;
      assert authority + "" == authority;
    }
  }

  /** The pieces a text falls into, whatever the host turns out to be. */
  lemma {:induction false} Undress(input: string) returns (d: Dressing)
    requires Trim(input) != ""
    ensures Written(d) == input
    ensures Wears(d, Lower(TrimDots(BeforeLast(Authority(Trim(input)), ':'))))
  {
    var left, right := TrimCuts(input);
    var scheme, rest := UndressScheme(Trim(input));
    var tail := UpToPathCuts(rest);
    var userinfo := UndressUserinfo(UpToPath(rest));
    var authority := AfterLast(UpToPath(rest), '@');
    assert authority == Authority(Trim(input));
    var port := UndressPort(authority);
    var dots := TrimDotsCuts(BeforeLast(authority, ':'));
    d := Dressing(left, scheme, userinfo, TrimDots(BeforeLast(authority, ':')), dots, port, tail, right);
    assert HostAndPort(d) == authority;
    assert AfterScheme(d) == rest;
    assert Core(d) == Trim(input);
  }

  lemma {:induction false} PrefixIsFree(s: string, at: nat)
    requires Find(s, "://") == Some(at)
    ensures !Contains(s[..at], "://")
  {
    forall i: nat | i + 3 <= at ensures !OccursAt(s[..at], "://", i) {
      assert s[..at][i..i + 3] == s[i..i + 3];
      assert !OccursAt(s, "://", i);
    }
  }

  lemma {:induction false} LowerTwice(s: string)
    ensures Lower(Lower(s)) == Lower(s)
  {
  }

  ghost predicate Dressed(input: string, host: string) {
    exists d :: Wears(d, host) && Written(d) == input
  }

  lemma {:induction false} AcceptedIsDressed(input: string, host: string)
    requires NormalizeTarget(input) == Ok(host)
    ensures Canonical(host) && Dressed(input, host)
  {
    AcceptedHost(input, host);
    var d := Undress(input);
    LowerTwice(TrimDots(BeforeLast(Authority(Trim(input)), ':')));
    CheckedIsCanonical(host);
    assert Wears(d, host) && Written(d) == input;
  }

  lemma {:induction false} AcceptedHost(input: string, host: string)
    requires NormalizeTarget(input) == Ok(host)
    ensures Trim(input) != "" && host == Lower(TrimDots(BeforeLast(Authority(Trim(input)), ':')))
  {
  }

  /**
   What the parser accepts, and as what: exactly the texts that are a canonical name in some proper
   dressing, each as that name.
   */
  lemma {:induction false} AcceptsExactlyDressedNames(input: string, host: string)
    ensures NormalizeTarget(input) == Ok(host) <==> Canonical(host) && Dressed(input, host)
  {
    if NormalizeTarget(input) == Ok(host) { AcceptedIsDressed(input, host); }
    if Canonical(host) && Dressed(input, host) {
      var d :| Wears(d, host) && Written(d) == input;
      DressedNameParses(d, host);
    }
  }

  lemma {:induction false} PlainHostHasNoScheme(host: string)
    requires forall k | 0 <= k < |host| :: HostChar(host[k])
    ensures !Contains(host, "://")
  {
    forall i: nat | i + 3 <= |host| ensures !OccursAt(host, "://", i) {
      assert HostChar(host[i]) && host[i..i + 3][0] == host[i];
    }
  }

  lemma {:induction false} BareDressing(host: string) returns (d: Dressing)
    requires PlainSpelling(host) && Lower(host) == host
    ensures Wears(d, host) && Written(d) == host
  {
    d := Dressing("", None, None, host, 0, None, "", "");
    BareCore(d, host);
    PlainHostHasNoScheme(host);
    assert !IsSpace(host[|host| - 1]) by { assert HostChar(host[|host| - 1]); }
  }

  lemma {:induction false} BareCore(d: Dressing, host: string)
    requires d == Dressing("", None, None, host, 0, None, "", "")
    ensures Core(d) == host && Written(d) == host
  {
    assert HostAndPort(d) == host;
    assert AfterScheme(d) == host;
  }

  /** A stored name parses to itself. */
  lemma {:induction false} CanonicalIsFixed(host: string)
    requires Canonical(host)
    ensures NormalizeTarget(host) == Ok(host)
  {
    CanonicalShape(host);
    var d := BareDressing(host);
    DressedNameParses(d, host);
  }

  lemma UnpaddedIsTrim(s: string)
    requires Unpadded(s)
    ensures Trim(s) == s
  {
    TrimPadded("", s, "");
    assert "" + s + "" == s;
  }

  lemma SchemeCut(front: string, rest: string)
    requires !Contains(front, "://") && !Contains(rest, "://")
    ensures Authority(front + "://" + rest) == Authority(rest)
  {
    DotIsClean();
    FirstSeparator(front, "://", rest);
    assert (front + "://" + rest)[|front| + 3..] == rest;
  }

  /** Why a text without a scheme must not contain "://": it is read from there on, whatever host came before. */
  lemma {:induction false} StraySchemeIsCut(front: string, rest: string)
    requires !Contains(front, "://") && !Contains(rest, "://") && Unpadded(front + "://" + rest) && Unpadded(rest)
    ensures NormalizeTarget(front + "://" + rest) == NormalizeTarget(rest)
  {
    SchemeCut(front, rest);
    UnpaddedIsTrim(front + "://" + rest);
    UnpaddedIsTrim(rest);
  }
}
