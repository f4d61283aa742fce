/** What the two exclusions of the target parser mean: written IPv4 addresses, and names under a private suffix. */
module DomainNames {
  import opened Clock
  import opened Text
  import opened Numbers
  import opened Domain
  import opened DomainFacts

  // ------------------------------------------------------------------ addresses

  predicate IsByte(n: nat) {
    n <= 255
  }

  /** Four numbers as an address is written. */
  function Dotted(a: nat, b: nat, c: nat, d: nat): string {
    DigitsOf(a) + "." + (DigitsOf(b) + "." + (DigitsOf(c) + "." + DigitsOf(d)))
  }

  lemma {:induction false} OneDigit(n: nat)
    requires n < 10
    ensures DigitsOf(n) == [('0' as int + n) as char]
  {
  }

  lemma {:induction false} TwoDigits(n: nat)
    requires 10 <= n < 100
    ensures DigitsOf(n) == [('0' as int + n / 10) as char, ('0' as int + n % 10) as char]
  {
    OneDigit(n / 10);
  }

  lemma {:induction false} ThreeDigits(n: nat)
    requires 100 <= n < 1000
    ensures DigitsOf(n) == [('0' as int + n / 100) as char, ('0' as int + n / 10 % 10) as char, ('0' as int + n % 10) as char]
  {
    TwoDigits(n / 10);
    assert n / 10 / 10 == n / 100;
  }

  lemma {:induction false} ByteIsOctet(n: nat)
    requires IsByte(n)
    ensures IsOctet(DigitsOf(n))
  {
    if n < 10 { OneDigit(n); } else if n < 100 { TwoDigits(n); } else { ThreeDigits(n); }
  }

  lemma DigitOfValue(c: char)
    requires '0' <= c <= '9'
    ensures 0 <= DigitValue(c) <= 9 && ('0' as int + DigitValue(c)) as char == c
  {
  }

  lemma {:induction false} TwoDigitOctet(s: string) returns (n: nat)
    requires IsOctet(s) && |s| == 2
    ensures IsByte(n) && DigitsOf(n) == s
  {
    DigitOfValue(s[0]);
    DigitOfValue(s[1]);
    n := 10 * DigitValue(s[0]) + DigitValue(s[1]);
    TwoDigits(n);
    assert n / 10 == DigitValue(s[0]) && n % 10 == DigitValue(s[1]);
    assert s == [s[0], s[1]];
  }

  lemma {:induction false} ThreeDigitOctet(s: string) returns (n: nat)
    requires IsOctet(s) && |s| == 3
    ensures IsByte(n) && DigitsOf(n) == s
  {
    DigitOfValue(s[0]);
    DigitOfValue(s[1]);
    DigitOfValue(s[2]);
    n := 100 * DigitValue(s[0]) + 10 * DigitValue(s[1]) + DigitValue(s[2]);
    ThreeDigits(n);
    assert n / 10 == 10 * DigitValue(s[0]) + DigitValue(s[1]) && n % 10 == DigitValue(s[2]);
    assert n / 100 == DigitValue(s[0]) && n / 10 % 10 == DigitValue(s[1]);
    assert s == [s[0], s[1], s[2]];
  }

  lemma {:induction false} OctetIsByte(s: string) returns (n: nat)
    requires IsOctet(s)
    ensures IsByte(n) && DigitsOf(n) == s
  {
    if |s| == 1 {
      DigitOfValue(s[0]);
      n := DigitValue(s[0]);
      OneDigit(n);
    } else if |s| == 2 {
      n := TwoDigitOctet(s);
    } else {
      n := ThreeDigitOctet(s);
    }
  }

  lemma OctetHasNoDot(s: string)
    requires IsOctet(s)
    ensures !Contains(s, ".")
  {
    DotFree(s);
  }

  lemma {:induction false} JoinFour(parts: seq<string>)
    requires |parts| == 4
    ensures Join(parts, ".") == parts[0] + "." + (parts[1] + "." + (parts[2] + "." + parts[3]))
  {
    var b, c, d := parts[1..], parts[2..], parts[3..];
    assert b[1..] == c && c[1..] == d && d == [parts[3]];
    assert Join(d, ".") == parts[3];
    assert Join(c, ".") == parts[2] + "." + Join(d, ".");
    assert Join(b, ".") == parts[1] + "." + Join(c, ".");
    assert Join(parts, ".") == parts[0] + "." + Join(b, ".");
  }

  ghost predicate IsDotted(host: string) {
    exists a, b, c, d :: IsByte(a) && IsByte(b) && IsByte(c) && IsByte(d) && host == Dotted(a, b, c, d)
  }

  /** What is refused as an address is exactly four numbers up to 255, written out and joined by dots. */
  lemma {:induction false} AddressesAreDottedBytes(host: string)
    ensures IsIpv4(host) <==> IsDotted(host)
  {
    if IsIpv4(host) {
      var parts := Split(host, ".");
      var a := OctetIsByte(parts[0]);
      var b := OctetIsByte(parts[1]);
      var c := OctetIsByte(parts[2]);
      var d := OctetIsByte(parts[3]);
      JoinUndoesSplit(host);
      JoinFour(parts);
      assert host == Dotted(a, b, c, d);
    }
    if IsDotted(host) {
      var a, b, c, d :| IsByte(a) && IsByte(b) && IsByte(c) && IsByte(d) && host == Dotted(a, b, c, d);
      DottedIsAddress(a, b, c, d);
    }
  }

  lemma {:induction false} DottedIsAddress(a: nat, b: nat, c: nat, d: nat)
    requires IsByte(a) && IsByte(b) && IsByte(c) && IsByte(d)
    ensures IsIpv4(Dotted(a, b, c, d))
  {
    var parts := [DigitsOf(a), DigitsOf(b), DigitsOf(c), DigitsOf(d)];
    ByteIsOctet(a);
    ByteIsOctet(b);
    ByteIsOctet(c);
    ByteIsOctet(d);
    forall k | 0 <= k < 4 ensures !Contains(parts[k], ".") { OctetHasNoDot(parts[k]); }
    DotIsClean();
    SplitUndoesJoin(parts, ".");
    JoinFour(parts);
  }

  // ------------------------------------------------------------------ private names

  const PRIVATE: seq<string> := [
    "localhost", "local", "internal", "localdomain", "home.arpa", "in-addr.arpa", "ip6.arpa", "onion"]

  /** The name itself, or a name below it. */
  ghost predicate Under(host: string, name: string) {
    host == name || exists front :: host == front + "." + name
  }

  lemma EndsWithSuffix(host: string, suffix: string)
    ensures EndsWith(host, suffix) <==> exists front :: host == front + suffix
  {
    if EndsWith(host, suffix) { assert host == host[..|host| - |suffix|] + suffix; }
  }

  lemma {:induction false} BelowIsUnder(host: string, name: string)
    ensures Blocks("." + name, host) <==> Under(host, name)
  {
    var dotted := "." + name;
    assert dotted[0] == '.' && dotted[1..] == name;
    EndsWithSuffix(host, dotted);
    if EndsWith(host, dotted) {
      var front :| host == front + dotted;
      assert host == front + "." + name;
    }
    if front :| host == front + "." + name {
      assert host == front + dotted;
    }
  }

  lemma PrivateNamesAreListed(k: nat)
    requires k < |PRIVATE|
    ensures k + 1 < |BLOCKED_SUFFIXES| && BLOCKED_SUFFIXES[k + 1] == "." + PRIVATE[k]
  {
  }

  /** A host is refused as private exactly if it is one of these names or below one. */
  lemma {:induction false} BlockedIffPrivate(host: string)
    ensures IsBlockedName(host) <==> exists k :: 0 <= k < |PRIVATE| && Under(host, PRIVATE[k])
  {
    if IsBlockedName(host) {
      var k :| 0 <= k < |BLOCKED_SUFFIXES| && Blocks(BLOCKED_SUFFIXES[k], host);
      if k == 0 {
        assert Under(host, PRIVATE[0]);
      } else {
        PrivateNamesAreListed(k - 1);
        BelowIsUnder(host, PRIVATE[k - 1]);
      }
    }
    if k :| 0 <= k < |PRIVATE| && Under(host, PRIVATE[k]) {
      PrivateNamesAreListed(k);
      BelowIsUnder(host, PRIVATE[k]);
      assert Blocks(BLOCKED_SUFFIXES[k + 1], host);
    }
  }

  ghost predicate Private(host: string) {
    exists k :: 0 <= k < |PRIVATE| && Under(host, PRIVATE[k])
  }

  /** Which refusal a host gets: the first of these that applies. */
  lemma {:induction false} RefusalsSayWhy(host: string)
    ensures CheckHost(host) == Err(Empty) <==> host == ""
    ensures CheckHost(host) == Err(TooLong) <==> |host| > 253
    ensures CheckHost(host) == Err(IpLiteral) <==> |host| <= 253 && IsDotted(host)
    ensures CheckHost(host) == Err(Malformed) <==>
      0 < |host| <= 253 && !IsDotted(host) && !Private(host) && !ValidateSyntax(host)
    ensures CheckHost(host) == Err(NotPublic) <==>
      0 < |host| <= 253 && !IsDotted(host) && (Private(host) || (ValidateSyntax(host) && '.' !in host))
  {
    AddressesAreDottedBytes(host);
    BlockedIffPrivate(host);
  }

  // ------------------------------------------------------------------ labels and white space, spelled out

  const LETTERS := "abcdefghijklmnopqrstuvwxyz"
  const DIGITS := "0123456789"

  lemma LettersAreListed(c: char)
    ensures 'a' <= c <= 'z' <==> c in LETTERS
  {
    if 'a' <= c <= 'z' { assert LETTERS[c as int - 'a' as int] == c; }
  }

  lemma DigitsAreListed(c: char)
    ensures '0' <= c <= '9' <==> c in DIGITS
  {
    if '0' <= c <= '9' { assert DIGITS[c as int - '0' as int] == c; }
  }

  predicate InLabels(c: char) {
    c in LETTERS || c in DIGITS || c == '-' || c == '_'
  }

  lemma LowerLabelChar(c: char)
    ensures LabelChar(c) && !('A' <= c <= 'Z') <==> InLabels(c)
  {
    LettersAreListed(c);
    DigitsAreListed(c);
  }

  /** A stored label: one to sixty-three of these characters, without a hyphen at either end. */
  lemma {:induction false} StoredLabels(name: string)
    ensures CanonicalLabel(name) <==>
      && 1 <= |name| <= 63 && name[0] != '-' && name[|name| - 1] != '-'
      && forall k | 0 <= k < |name| :: InLabels(name[k])
  {
    forall k | 0 <= k < |name| ensures LabelChar(name[k]) && !('A' <= name[k] <= 'Z') <==> InLabels(name[k]) {
      LowerLabelChar(name[k]);
    }
  }

  const UPPER := "ABCDEFGHIJKLMNOPQRSTUVWXYZ"

  /** Upper-case letters become their lower-case ones and nothing else changes; white space is what ASCII counts as it. */
  lemma CharactersAreRead(c: char, k: nat)
    ensures k < 26 ==> LowerChar(UPPER[k]) == LETTERS[k]
    ensures (forall i | 0 <= i < 26 :: UPPER[i] != c) ==> LowerChar(c) == c
    ensures EndsHost(c) <==> c in ['/', '?', '#']
    ensures IsSpace(c) <==> c in [' ', '\t', '\n', '\U{0B}', '\U{0C}', '\r']
  {
    if 'A' <= c <= 'Z' { assert UPPER[c as int - 'A' as int] == c; }
  }

  predicate HasTwo(s: string, c: char) {
    exists i, j :: 0 <= i < j < |s| && s[i] == c && s[j] == c
  }

  lemma {:induction false} CountsAll(s: string, c: char)
    ensures CountChar(s, c) >= 1 <==> c in s
    ensures CountChar(s, c) >= 2 <==> HasTwo(s, c)
  {
    if s != "" {
      CountsAll(s[1..], c);
      assert s == [s[0]] + s[1..];
      if s[0] == c && c in s[1..] {
        var j :| 0 <= j < |s[1..]| && s[1..][j] == c;
        assert s[0] == c && s[j + 1] == c;
      }
      if HasTwo(s[1..], c) {
        var i, j :| 0 <= i < j < |s[1..]| && s[1..][i] == c && s[1..][j] == c;
        assert s[i + 1] == c && s[j + 1] == c;
      }
      if HasTwo(s, c) {
        var i, j :| 0 <= i < j < |s| && s[i] == c && s[j] == c;
        assert s[1..][j - 1] == c;
        if i > 0 { assert s[1..][i - 1] == c; }
      }
    }
  }

  /** What becomes of a typed text: nothing to read, an address in brackets or with two colons, or a host to check. */
  lemma {:induction false} TextsAreJudgedSo(input: string)
    ensures Trim(input) == "" ==> NormalizeTarget(input) == Err(Empty)
    ensures Trim(input) != "" ==>
      var authority := Authority(Trim(input));
      NormalizeTarget(input) ==
        if (authority != "" && authority[0] == '[') || HasTwo(authority, ':') then Err(IpLiteral)
        else CheckHost(Lower(TrimDots(BeforeLast(authority, ':'))))
  {
    CountsAll(Authority(Trim(input)), ':');
  }
}
