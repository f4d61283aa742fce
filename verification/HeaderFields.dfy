/** What counts as a field of a signature header, and which texts are its numbers. */
module HeaderFields {
  import opened Clock
  import opened Text
  import opened Numbers
  import opened Domain
  import opened DomainFacts
  import opened Signature

  lemma EqualsIsFound(key: string, value: string)
    requires '=' !in key
    ensures Find(key + "=" + value, "=") == Some(|key|)
  {
    forall i: nat | i < |key| ensures !OccursAt(key, "=", i) { assert key[i..i + 1] == [key[i]]; }
    FirstSeparator(key, "=", value);
  }

  /** White space around a field is no part of it, and its first '=' ends the key. */
  lemma {:induction false} FieldsAreCut(left: string, key: string, value: string, right: string)
    requires AllSpace(left) && AllSpace(right) && '=' !in key && Unpadded(key + "=" + value)
    ensures Field(left + (key + "=" + value) + right) == Some((key, value))
  {
    TrimPadded(left, key + "=" + value, right);
    EqualsIsFound(key, value);
    var core := key + "=" + value;
    assert core[..|key|] == key && core[|key| + 1..] == value;
  }

  /** A part without '=' is no field. */
  lemma {:induction false} NoEqualsNoField(part: string)
    requires '=' !in part
    ensures Field(part) == None
  {
    var left, right := TrimCuts(part);
    forall i: nat ensures !OccursAt(Trim(part), "=", i) {
      if i < |Trim(part)| {
        assert part[|left| + i] == Trim(part)[i];
        assert Trim(part)[i..i + 1] == [Trim(part)[i]];
      }
    }
  }

  /** Digits with or without a sign. */
  ghost predicate Writes(s: string, n: int) {
    || (AllDigits(s) && n == DigitsValue(s))
    || (exists digits :: s == "+" + digits && AllDigits(digits) && n == DigitsValue(digits))
    || (exists digits :: s == "-" + digits && AllDigits(digits) && n == -DigitsValue(digits))
  }

  lemma {:induction false} SignedWrites(s: string, n: int)
    requires s != "" && (s[0] == '+' || s[0] == '-')
    ensures Writes(s, n) <==> AllDigits(s[1..]) && n == if s[0] == '-' then -DigitsValue(s[1..]) else DigitsValue(s[1..])
  {
    assert !IsDigit(s[0]) && s == [s[0]] + s[1..];
    if digits :| s == "+" + digits && AllDigits(digits) && n == DigitsValue(digits) { assert digits == s[1..]; }
    if digits :| s == "-" + digits && AllDigits(digits) && n == -DigitsValue(digits) { assert digits == s[1..]; }
    if AllDigits(s[1..]) && s[0] == '+' { assert s == "+" + s[1..]; }
    if AllDigits(s[1..]) && s[0] == '-' { assert s == "-" + s[1..]; }
  }

  lemma {:induction false} UnsignedWrites(s: string, n: int)
    requires s == "" || (s[0] != '+' && s[0] != '-')
    ensures Writes(s, n) <==> AllDigits(s) && n == DigitsValue(s)
  {
    forall digits: string ensures s != "+" + digits && s != "-" + digits {
      assert ("+" + digits)[0] == '+' && ("-" + digits)[0] == '-';
    }
  }

  /** A timestamp is read exactly from digits with or without a sign whose value fits in 64 bits. */
  lemma {:induction false} NumbersAreRead(s: string, n: int)
    ensures ParseI64(s) == Some(n) <==> Writes(s, n) && -0x8000_0000_0000_0000 <= n < 0x8000_0000_0000_0000
  {
    if s != "" && (s[0] == '+' || s[0] == '-') {
      SignedWrites(s, n);
    } else {
      UnsignedWrites(s, n);
    }
  }
}
