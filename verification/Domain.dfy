/** Target domain parsing: what a user may type for a host, and the canonical name it stands for. */
module Domain {
  import opened Clock
  import opened Text

  datatype DomainError = Empty | TooLong | IpLiteral | NotPublic | Malformed

  const BLOCKED_SUFFIXES: seq<string> := [
    "localhost", ".localhost", ".local", ".internal", ".localdomain", ".home.arpa", ".in-addr.arpa", ".ip6.arpa", ".onion"]

  // ------------------------------------------------------------------ string steps

  predicate EndsHost(c: char) {
    c == '/' || c == '?' || c == '#'
  }

  function UpToPath(s: string): string {
    if s == "" || EndsHost(s[0]) then "" else [s[0]] + UpToPath(s[1..])
  }

  function CountChar(s: string, c: char): nat {
    if s == "" then 0 else (if s[0] == c then 1 else 0) + CountChar(s[1..], c)
  }

  function TrimDots(s: string): string {
    if s != "" && s[|s| - 1] == '.' then TrimDots(s[..|s| - 1]) else s
  }

  predicate EndsWith(s: string, suffix: string) {
    |suffix| <= |s| && s[|s| - |suffix|..] == suffix
  }

  // ------------------------------------------------------------------ the checks

  function DigitValue(c: char): int {
    c as int - '0' as int
  }

  predicate Below256(s: string)
    requires |s| == 3
  {
    100 * DigitValue(s[0]) + 10 * DigitValue(s[1]) + DigitValue(s[2]) <= 255
  }

  predicate IsOctet(s: string) {
    && 1 <= |s| <= 3
    && (forall k | 0 <= k < |s| :: '0' <= s[k] <= '9')
    && (|s| > 1 ==> s[0] != '0')
    && (|s| == 3 ==> Below256(s))
  }

  /** The dotted form of an IPv4 address: four decimal octets without leading zeros. */
  predicate IsIpv4(s: string) {
    var parts := Split(s, ".");
    |parts| == 4 && forall k | 0 <= k < 4 :: IsOctet(parts[k])
  }

  predicate IsBlockedName(host: string) {
    exists k :: 0 <= k < |BLOCKED_SUFFIXES| && Blocks(BLOCKED_SUFFIXES[k], host)
  }

  predicate Blocks(blocked: string, host: string) {
    if |blocked| > 0 && blocked[0] == '.' then host == blocked[1..] || EndsWith(host, blocked) else host == blocked
  }

  predicate LabelChar(c: char) {
    'a' <= c <= 'z' || 'A' <= c <= 'Z' || '0' <= c <= '9' || c == '-' || c == '_'
  }

  predicate LabelOk(name: string) {
    && 1 <= |name| <= 63
    && name[0] != '-' && name[|name| - 1] != '-'
    && forall k | 0 <= k < |name| :: LabelChar(name[k])
  }

  predicate ValidateSyntax(host: string) {
    if (host != "" && host[0] == '.') || Contains(host, "..") then false
    else forall k | 0 <= k < |Split(host, ".")| :: LabelOk(Split(host, ".")[k])
  }

  /** Everything between scheme and path, with userinfo dropped. */
  function Authority(trimmed: string): string {
    var withoutScheme := match Find(trimmed, "://") case Some(i) => trimmed[i + 3..] case None => trimmed;
    AfterLast(UpToPath(withoutScheme), '@')
  }

  function CheckHost(host: string): Result<string, DomainError> {
    if host == "" then Err(Empty)
    else if |host| > 253 then Err(TooLong)
    else if IsIpv4(host) then Err(IpLiteral)
    else if IsBlockedName(host) then Err(NotPublic)
    else if !ValidateSyntax(host) then Err(Malformed)
    else if '.' !in host then Err(NotPublic)
    else Ok(host)
  }

  /** The host text left once scheme, path, userinfo, port and trailing dots are off. */
  function HostText(trimmed: string): Result<string, DomainError> {
    var authority := Authority(trimmed);
    if (authority != "" && authority[0] == '[') || CountChar(authority, ':') >= 2 then Err(IpLiteral)
    else Ok(Lower(TrimDots(BeforeLast(authority, ':'))))
  }

  /**
   `normalize_target` on ASCII text. After the port is cut no ':' is left, so the parse of the host
   as an IPv6 literal cannot succeed and is not repeated here.
   */
  function NormalizeTarget(input: string): Result<string, DomainError> {
    var trimmed := Trim(input);
    if trimmed == "" then Err(Empty) else
    match HostText(trimmed)
    case Err(e) => Err(e)
    case Ok(host) => CheckHost(host)
  }

  // ------------------------------------------------------------------ the reference

  /** A label as it is stored: section 2.3.4 of RFC 1035 limits it to 63 octets. */
  predicate CanonicalLabel(name: string) {
    LabelOk(name) && forall k | 0 <= k < |name| :: !('A' <= name[k] <= 'Z')
  }

  ghost predicate AllCanonical(labels: seq<string>) {
    forall k | 0 <= k < |labels| :: CanonicalLabel(labels[k])
  }

  /** Two or more stored labels joined by dots. */
  ghost predicate Labelled(host: string) {
    exists labels: seq<string> :: |labels| >= 2 && Join(labels, ".") == host && AllCanonical(labels)
  }

  /** A public host name in stored form: lower-case labels joined by dots, no address, no blocked name. */
  ghost predicate Canonical(host: string) {
    Labelled(host) && |host| <= 253 && !IsIpv4(host) && !IsBlockedName(host)
  }

  /** A host with everything people paste around it. */
  datatype Dressing = Dressing(
    left: string, scheme: Option<string>, userinfo: Option<string>, spelled: string, dots: nat,
    port: Option<string>, tail: string, right: string)

  function Dots(n: nat): string {
    seq(n, _ => '.')
  }

  function HostAndPort(d: Dressing): string {
    d.spelled + Dots(d.dots) + (if d.port.Some? then ":" + d.port.value else "")
  }

  function AfterScheme(d: Dressing): string {
    (if d.userinfo.Some? then d.userinfo.value + "@" else "") + HostAndPort(d) + d.tail
  }

  function Core(d: Dressing): string {
    (if d.scheme.Some? then d.scheme.value + "://" else "") + AfterScheme(d)
  }

  function Written(d: Dressing): string {
    d.left + Core(d) + d.right
  }

  predicate AllSpace(s: string) {
    forall k | 0 <= k < |s| :: IsSpace(s[k])
  }

  predicate Unpadded(s: string) {
    s != "" && !IsSpace(s[0]) && !IsSpace(s[|s| - 1])
  }

  predicate FreeOfPath(s: string) {
    forall k | 0 <= k < |s| :: !EndsHost(s[k])
  }

  predicate PlainPort(d: Dressing) {
    d.port.Some? ==> FreeOfPath(d.port.value) && '@' !in d.port.value && ':' !in d.port.value
  }

  /**
   When a dressing leaves its host readable. The last clause is the one that is easy to miss: with no
   scheme of its own, nothing in the text may look like one.
   */
  predicate Wears(d: Dressing, host: string) {
    && AllSpace(d.left) && AllSpace(d.right) && Unpadded(Core(d))
    && Lower(d.spelled) == host
    && (d.userinfo.Some? ==> FreeOfPath(d.userinfo.value))
    && PlainPort(d)
    && (d.tail == "" || EndsHost(d.tail[0]))
    && (d.scheme.Some? ==> !Contains(d.scheme.value, "://"))
    && (d.scheme == None ==> !Contains(Core(d), "://"))
  }
}
