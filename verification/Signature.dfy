/** Webhook signatures: a header "t=...,v1=..." checked against a keyed hash of the timestamp and the payload. */
module Signature {
  import opened Clock
  import opened Text
  import opened Hex
  import opened Numbers

  type Bytes = seq<bv8>

  /** The keyed hash with the webhook secret fixed: the signed text first, then the payload's bytes. */
  type Mac = (string, Bytes) -> Bytes

  const TOLERANCE := 300
  const TWO_63 := 0x8000_0000_0000_0000
  const TWO_64 := 0x1_0000_0000_0000_0000

  // ------------------------------------------------------------------ signed 64-bit arithmetic

  /** Two's-complement wrap-around: what a release build computes on overflow. */
  function Wrap64(n: int): (r: int)
    ensures -TWO_63 <= r < TWO_63
    ensures -TWO_63 <= n < TWO_63 ==> r == n
  {
    (n + TWO_63) % TWO_64 - TWO_63
  }

  predicate InRange(n: int) {
    -TWO_63 <= n < TWO_63
  }

  /** `(now - timestamp).abs() <= 300`. */
  predicate Recent(now: int, timestamp: int) {
    var difference := Wrap64(now - timestamp);
    (if difference < 0 then Wrap64(-difference) else difference) <= TOLERANCE
  }

  predicate Near(now: int, timestamp: int) {
    -300 <= now - timestamp <= 300
  }

  /** The subtraction leaves the 64-bit range and comes back inside the window. */
  predicate Overflows(now: int, timestamp: int) {
    var distance := if now < timestamp then timestamp - now else now - timestamp;
    distance == TWO_63 || distance >= TWO_64 - 300
  }

  /** The window check is the distance test exactly when the subtraction does not wrap into the window. */
  lemma RecentIffNearOrOverflow(now: int, timestamp: int)
    requires InRange(now) && InRange(timestamp)
    ensures Recent(now, timestamp) <==> Near(now, timestamp) || Overflows(now, timestamp)
    ensures now >= 0 && timestamp >= 0 ==> (Recent(now, timestamp) <==> Near(now, timestamp))
  {
    var d := now - timestamp;
    if d >= TWO_63 {
      assert Wrap64(d) == d - TWO_64;
    } else if d < -TWO_63 {
      assert Wrap64(d) == d + TWO_64;
    }
    assert Wrap64(TWO_63) == -TWO_63;
  }

  /** A timestamp half the range away passes the window check. */
  lemma FarTimestampPasses()
    ensures Recent(0, -TWO_63) && !Near(0, -TWO_63)
  {
    assert Wrap64(TWO_63) == -TWO_63;
  }

  // ------------------------------------------------------------------ decimal numbers

  predicate AllDigits(s: string) {
    s != "" && forall k | 0 <= k < |s| :: IsDigit(s[k])
  }

  /** `str::parse::<i64>`: an optional sign, at least one digit, and a value that fits. */
  function ParseI64(s: string): Option<int> {
    var digits := if s != "" && (s[0] == '-' || s[0] == '+') then s[1..] else s;
    if !AllDigits(digits) then None else
    var value: int := if s[0] == '-' then -DigitsValue(digits) else DigitsValue(digits);
    if InRange(value) then Some(value) else None
  }

  lemma {:induction false} DecimalReadsBack(n: int)
    requires InRange(n)
    ensures ParseI64(Decimal(n)) == Some(n)
  {
    if n < 0 {
      DigitsReadBack(-n);
      assert Decimal(n)[1..] == DigitsOf(-n);
    } else {
      DigitsReadBack(n);
    }
  }

  // ------------------------------------------------------------------ the header

  /** A part of the header, trimmed and cut at its first '='. */
  function Field(part: string): Option<(string, string)> {
    var trimmed := Trim(part);
    match Find(trimmed, "=")
    case None => None
    case Some(i) => Some((trimmed[..i], trimmed[i + 1..]))
  }

  predicate HasKey(part: string, key: string) {
    Field(part).Some? && Field(part).value.0 == key
  }

  /** The last `t` decides, and one that does not parse leaves no timestamp. */
  function TimestampOf(parts: seq<string>): Option<int> {
    if parts == [] then None
    else if HasKey(parts[|parts| - 1], "t") then ParseI64(Field(parts[|parts| - 1]).value.1)
    else TimestampOf(parts[..|parts| - 1])
  }

  function SignaturesOf(parts: seq<string>): seq<string> {
    if parts == [] then [] else
    var last := parts[|parts| - 1];
    SignaturesOf(parts[..|parts| - 1]) + (if HasKey(last, "v1") then [Field(last).value.1] else [])
  }

  /** Position `i` holds the header's last `t`. */
  ghost predicate LastTimestampAt(parts: seq<string>, i: nat) {
    i < |parts| && HasKey(parts[i], "t") && forall j | i < j < |parts| :: !HasKey(parts[j], "t")
  }

  lemma {:induction false} LastTimestampDecides(parts: seq<string>, i: nat)
    requires LastTimestampAt(parts, i)
    ensures TimestampOf(parts) == ParseI64(Field(parts[i]).value.1)
  {
    if i < |parts| - 1 {
      LastTimestampDecides(parts[..|parts| - 1], i);
    }
  }

  lemma {:induction false} TimestampNeedsAField(parts: seq<string>)
    requires TimestampOf(parts).Some?
    ensures exists i: nat :: LastTimestampAt(parts, i)
  {
    if HasKey(parts[|parts| - 1], "t") {
      assert LastTimestampAt(parts, |parts| - 1);
    } else {
      var most := parts[..|parts| - 1];
      TimestampNeedsAField(most);
      var i: nat :| LastTimestampAt(most, i);
      assert LastTimestampAt(parts, i);
    }
  }

  /** Every `v1` is a candidate, and nothing else is. */
  lemma {:induction false} SignaturesMeaning(parts: seq<string>, c: string)
    ensures c in SignaturesOf(parts) <==> exists part | part in parts :: Field(part) == Some(("v1", c))
  {
    if parts != [] {
      var most, last := parts[..|parts| - 1], parts[|parts| - 1];
      assert parts == most + [last];
      SignaturesMeaning(most, c);
    }
  }

  // ------------------------------------------------------------------ the check

  datatype Verdict = Accepted | Malformed | Mismatch | Stale

  predicate Matches(candidate: string, expected: Bytes) {
    DecodeHex(candidate) == Some(expected)
  }

  predicate Complete(parts: seq<string>) {
    TimestampOf(parts).Some? && SignaturesOf(parts) != []
  }

  /** A recent timestamp and a candidate that spells the hash of "timestamp.payload". */
  ghost predicate Genuine(parts: seq<string>, payload: Bytes, mac: Mac, now: int) {
    match TimestampOf(parts)
    case None => false
    case Some(t) => Recent(now, t) && exists c | c in SignaturesOf(parts) :: Matches(c, mac(Decimal(t) + ".", payload))
  }

  /** The loop over the header's parts. */
  method ReadHeader(header: string) returns (timestamp: Option<int>, signatures: seq<string>)
    ensures timestamp == TimestampOf(Split(header, ","))
    ensures signatures == SignaturesOf(Split(header, ","))
  {
    timestamp, signatures := None, [];
    var parts := Split(header, ",");
    for n := 0 to |parts|
      invariant timestamp == TimestampOf(parts[..n]) && signatures == SignaturesOf(parts[..n])
    {
      assert parts[..n + 1][..n] == parts[..n];
      var field := Field(parts[n]);
      if field.Some? {
        var (key, value) := field.value;
        if key == "t" {
          timestamp := ParseI64(value);
        } else if key == "v1" {
          signatures := signatures + [value];
        }
      }
    }
    assert parts[..|parts|] == parts;
  }

  method VerifySignature(payload: Bytes, header: string, mac: Mac, now: int) returns (verdict: Verdict)
    requires InRange(now)
    ensures var parts := Split(header, ","); verdict == Accepted <==> Genuine(parts, payload, mac, now)
    ensures verdict == Malformed <==> !Complete(Split(header, ","))
    ensures verdict == Stale <==> Complete(Split(header, ",")) && !Recent(now, TimestampOf(Split(header, ",")).value)
  {
    var timestamp, signatures := ReadHeader(header);
    if timestamp == None || signatures == [] {
      return Malformed;
    }
    if !Recent(now, timestamp.value) {
      return Stale;
    }
    var expected := mac(Decimal(timestamp.value) + ".", payload);
    for n := 0 to |signatures|
      invariant forall k | 0 <= k < n :: !Matches(signatures[k], expected)
    {
      var decoded := DecodeHex(signatures[n]);
      if decoded.Some? && |decoded.value| == |expected| {
        var same := ConstantTimeEq(decoded.value, expected);
        if same {
          assert Matches(signatures[n], expected);
          return Accepted;
        }
      }
    }
    return Mismatch;
  }

  // ------------------------------------------------------------------ what a sender writes is accepted

  function Written(key: string, value: string): string {
    key + "=" + value
  }

  lemma {:induction false} WrittenField(key: string, value: string)
    requires key != "" && !IsSpace(key[0]) && '=' !in key
    requires value == "" || !IsSpace(value[|value| - 1])
    ensures Field(Written(key, value)) == Some((key, value))
  {
    var part := Written(key, value);
    assert part[0] == key[0];
    assert part[|part| - 1] == if value == "" then '=' else value[|value| - 1];
    assert Trim(part) == part;
    assert part[|key|..|key| + 1] == "=";
    assert OccursAt(part, "=", |key|);
    forall j: nat | j < |key| ensures !OccursAt(part, "=", j) {
      assert part[j..j + 1][0] == key[j];
    }
    assert Find(part, "=") == Some(|key|);
    assert part[..|key|] == key && part[|key| + 1..] == value;
  }

  /** A header as sent: the timestamp, any other fields, and the hash of "timestamp.payload" in lower-case hex. */
  function SignedParts(t: int, others: seq<string>, payload: Bytes, mac: Mac): seq<string> {
    [Written("t", Decimal(t))] + others + [Written("v1", EncodeHex(mac(Decimal(t) + ".", payload)))]
  }

  lemma {:induction false} LastHexDigit(bytes: Bytes)
    ensures forall k | 0 <= k < |EncodeHex(bytes)| :: !IsSpace(EncodeHex(bytes)[k]) && EncodeHex(bytes)[k] != ','
  {
    if bytes != [] {
      LastHexDigit(bytes[1..]);
    }
  }

  lemma CommaAt(s: string, i: nat)
    ensures OccursAt(s, ",", i) ==> i < |s| && s[i] == ','
  {
    if OccursAt(s, ",", i) { assert s[i..i + 1][0] == s[i]; }
  }

  lemma NoComma(s: string)
    requires ',' !in s
    ensures !Contains(s, ",")
  {
    forall i: nat ensures !OccursAt(s, ",", i) { CommaAt(s, i); }
  }

  lemma {:induction false} SignedTimestamp(t: int, others: seq<string>, payload: Bytes, mac: Mac)
    requires InRange(t)
    requires forall k | 0 <= k < |others| :: !HasKey(others[k], "t")
    ensures TimestampOf(SignedParts(t, others, payload, mac)) == Some(t)
  {
    var hex := EncodeHex(mac(Decimal(t) + ".", payload));
    var parts := SignedParts(t, others, payload, mac);
    LastHexDigit(mac(Decimal(t) + ".", payload));
    WrittenField("t", Decimal(t));
    WrittenField("v1", hex);
    forall j | 0 < j < |parts| ensures !HasKey(parts[j], "t") {
      assert parts[j] == if j < |parts| - 1 then others[j - 1] else Written("v1", hex);
    }
    LastTimestampDecides(parts, 0);
    DecimalReadsBack(t);
  }

  lemma {:induction false} LastSignature(most: seq<string>, c: string)
    requires c == "" || !IsSpace(c[|c| - 1])
    ensures c in SignaturesOf(most + [Written("v1", c)])
  {
    WrittenField("v1", c);
    assert (most + [Written("v1", c)])[..|most|] == most;
  }

  lemma {:induction false} SignedCandidate(t: int, others: seq<string>, payload: Bytes, mac: Mac)
    ensures var expected := mac(Decimal(t) + ".", payload);
      EncodeHex(expected) in SignaturesOf(SignedParts(t, others, payload, mac)) && Matches(EncodeHex(expected), expected)
  {
    var expected := mac(Decimal(t) + ".", payload);
    LastHexDigit(expected);
    LastSignature([Written("t", Decimal(t))] + others, EncodeHex(expected));
    DecodeUndoesEncode(expected);
  }

  lemma {:induction false} SignedHeaderSplits(t: int, others: seq<string>, payload: Bytes, mac: Mac)
    requires forall k | 0 <= k < |others| :: ',' !in others[k]
    ensures Split(Join(SignedParts(t, others, payload, mac), ","), ",") == SignedParts(t, others, payload, mac)
  {
    var parts := SignedParts(t, others, payload, mac);
    LastHexDigit(mac(Decimal(t) + ".", payload));
    forall k | 0 <= k < |parts| ensures !Contains(parts[k], ",") {
      if 0 < k < |parts| - 1 { assert parts[k] == others[k - 1]; }
      NoComma(parts[k]);
    }
    SplitUndoesJoin(parts, ",");
  }

  /** Whatever other fields travel along, such as signatures of rotated secrets, a header signed now is genuine. */
  lemma {:induction false} SignedHeaderIsGenuine(t: int, others: seq<string>, payload: Bytes, mac: Mac, now: int)
    requires InRange(t) && InRange(now) && Near(now, t)
    requires forall k | 0 <= k < |others| :: ',' !in others[k] && !HasKey(others[k], "t")
    ensures var parts := SignedParts(t, others, payload, mac);
      Split(Join(parts, ","), ",") == parts && Genuine(parts, payload, mac, now)
  {
    SignedHeaderSplits(t, others, payload, mac);
    SignedTimestamp(t, others, payload, mac);
    SignedCandidate(t, others, payload, mac);
    RecentIffNearOrOverflow(now, t);
  }
}
