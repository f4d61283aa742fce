/** The report's markup as text: escaping, serialising, and what a tokenizer reads back. */
module Html {
  import opened Clock

  // ------------------------------------------------------------------ escaping

  function EscapeChar(c: char): string {
    if c == '&' then "&amp;"
    else if c == '<' then "&lt;"
    else if c == '>' then "&gt;"
    else if c == '"' then "&quot;"
    else if c == '\'' then "&#x27;"
    else [c]
  }

  function Escape(input: string): string {
    if input == "" then "" else EscapeChar(input[0]) + Escape(input[1..])
  }

  lemma {:induction false} EscapeStep(input: string, n: nat, out: string)
    requires n < |input|
    ensures out + Escape(input[n..]) == out + EscapeChar(input[n]) + Escape(input[n + 1..])
  {
    assert input[n..][1..] == input[n + 1..];
  }

  method EscapeText(input: string) returns (out: string)
    ensures out == Escape(input)
  {
    out := "";
    for n := 0 to |input|
      invariant Escape(input) == out + Escape(input[n..])
    {
      EscapeStep(input, n, out);
      out := out + EscapeChar(input[n]);
    }
  }

  predicate StartsWith(s: string, prefix: string) {
    |prefix| <= |s| && s[..|prefix|] == prefix
  }

  /** The character reference a text starts with, and its length. */
  function ReferenceAt(s: string): (r: Option<(char, nat)>)
    ensures r.Some? ==> 0 < r.value.1 <= |s|
  {
    if s == "" || s[0] != '&' then None
    else if StartsWith(s, "&amp;") then Some(('&', 5))
    else if StartsWith(s, "&lt;") then Some(('<', 4))
    else if StartsWith(s, "&gt;") then Some(('>', 4))
    else if StartsWith(s, "&quot;") then Some(('"', 6))
    else if StartsWith(s, "&#x27;") then Some(('\'', 6))
    else None
  }

  /** Character references back to characters. */
  function Unescape(s: string): string {
    if s == "" then "" else
    match ReferenceAt(s)
    case Some((c, n)) => [c] + Unescape(s[n..])
    case None => [s[0]] + Unescape(s[1..])
  }

  predicate Special(c: char) {
    c == '<' || c == '>' || c == '"' || c == '\''
  }

  lemma {:induction false} EscapedIsInert(input: string)
    ensures forall k | 0 <= k < |Escape(input)| :: !Special(Escape(input)[k])
  {
    if input != "" {
      EscapedIsInert(input[1..]);
    }
  }

  lemma {:induction false} ReferenceReads(c: char, rest: string)
    requires Special(c) || c == '&'
    ensures ReferenceAt(EscapeChar(c) + rest) == Some((c, |EscapeChar(c)|))
  {
    var e, s := EscapeChar(c), EscapeChar(c) + rest;
    assert s[..|e|] == e && s[0] == '&' && s[1] == e[1];
    assert c == '<' || c == '>' ==> s[2] == e[2];
  }

  lemma {:induction false} UnescapeOne(c: char, rest: string)
    ensures Unescape(EscapeChar(c) + rest) == [c] + Unescape(rest)
  {
    var s := EscapeChar(c) + rest;
    assert s[|EscapeChar(c)|..] == rest;
    if Special(c) || c == '&' {
      ReferenceReads(c, rest);
    } else {
      assert s[0] == c && ReferenceAt(s) == None;
    }
  }

  /** Escaping loses nothing: it has a left inverse. */
  lemma {:induction false} UnescapeUndoesEscape(input: string)
    ensures Unescape(Escape(input)) == input
  {
    if input != "" {
      UnescapeOne(input[0], Escape(input[1..]));
      UnescapeUndoesEscape(input[1..]);
      assert input == [input[0]] + input[1..];
    }
  }

  // ------------------------------------------------------------------ tags as text

  /** A tag as a reader of the markup sees it: attribute values with their references resolved. */
  datatype Tag = Tag(name: string, attrs: seq<(string, string)>)

  function Written(name: string, value: string): string {
    " " + name + "=\"" + Escape(value) + "\""
  }

  function WrittenAll(attrs: seq<(string, string)>): string {
    if attrs == [] then "" else Written(attrs[0].0, attrs[0].1) + WrittenAll(attrs[1..])
  }

  function WrittenTag(tag: Tag): string {
    "<" + tag.name + WrittenAll(tag.attrs) + ">"
  }

  // ------------------------------------------------------------------ reading the markup back

  /** Where a tokenizer is: in text, in a tag's name, in an attribute's name, past its '=', in its value, past it. */
  datatype Mode =
    | Data
    | InName(name: string)
    | InAttribute(name: string, attrs: seq<(string, string)>, attribute: string)
    | PastEquals(name: string, attrs: seq<(string, string)>, attribute: string)
    | InValue(name: string, attrs: seq<(string, string)>, attribute: string, value: string)
    | PastValue(name: string, attrs: seq<(string, string)>)

  datatype Reader = Reader(mode: Mode, tags: seq<Tag>, data: string)

  function Read(r: Reader, c: char): Reader {
    match r.mode
    case Data => if c == '<' then r.(mode := InName("")) else r.(data := r.data + [c])
    case InName(name) =>
      if c == '>' then Reader(Data, r.tags + [Tag(name, [])], r.data)
      else if c == ' ' then r.(mode := InAttribute(name, [], ""))
      else r.(mode := InName(name + [c]))
    case InAttribute(name, attrs, attribute) =>
      if c == '>' then Reader(Data, r.tags + [Tag(name, attrs + [(attribute, "")])], r.data)
      else if c == '=' then r.(mode := PastEquals(name, attrs, attribute))
      else r.(mode := InAttribute(name, attrs, attribute + [c]))
    case PastEquals(name, attrs, attribute) =>
      if c == '"' then r.(mode := InValue(name, attrs, attribute, "")) else r
    case InValue(name, attrs, attribute, value) =>
      if c == '"' then r.(mode := PastValue(name, attrs + [(attribute, Unescape(value))]))
      else r.(mode := InValue(name, attrs, attribute, value + [c]))
    case PastValue(name, attrs) =>
      if c == '>' then Reader(Data, r.tags + [Tag(name, attrs)], r.data)
      else if c == ' ' then r.(mode := InAttribute(name, attrs, ""))
      else r
  }

  function ReadAll(r: Reader, s: string): Reader
    decreases |s|
  {
    if s == "" then r else ReadAll(Read(r, s[0]), s[1..])
  }

  /** The tags of a document, read from its text. */
  function Markup(html: string): seq<Tag> {
    ReadAll(Reader(Data, [], ""), html).tags
  }

  predicate WordChar(c: char) {
    'a' <= c <= 'z' || '0' <= c <= '9' || c == '-' || c == '/'
  }

  ghost predicate Word(s: string) {
    forall k | 0 <= k < |s| :: WordChar(s[k])
  }

  lemma {:induction false} ReadAllAppend(r: Reader, a: string, b: string)
    ensures ReadAll(r, a + b) == ReadAll(ReadAll(r, a), b)
    decreases |a|
  {
    if a == "" {
      assert a + b == b;
    } else {
      assert (a + b)[0] == a[0] && (a + b)[1..] == a[1..] + b;
      ReadAllAppend(Read(r, a[0]), a[1..], b);
    }
  }

  lemma {:induction false} ReadData(r: Reader, s: string)
    requires r.mode == Data && '<' !in s
    ensures ReadAll(r, s) == r.(data := r.data + s)
    decreases |s|
  {
    if s == "" {
      assert r.data + s == r.data;
    } else {
      ReadData(Read(r, s[0]), s[1..]);
      assert r.data + s == r.data + [s[0]] + s[1..];
    }
  }

  lemma {:induction false} ReadName(r: Reader, s: string)
    requires r.mode.InName? && Word(s)
    ensures ReadAll(r, s) == r.(mode := InName(r.mode.name + s))
    decreases |s|
  {
    if s == "" {
      assert r.mode.name + s == r.mode.name;
    } else {
      assert WordChar(s[0]);
      ReadName(Read(r, s[0]), s[1..]);
      assert r.mode.name + s == r.mode.name + [s[0]] + s[1..];
    }
  }

  lemma {:induction false} ReadAttribute(r: Reader, s: string)
    requires r.mode.InAttribute? && Word(s)
    ensures ReadAll(r, s) == r.(mode := InAttribute(r.mode.name, r.mode.attrs, r.mode.attribute + s))
    decreases |s|
  {
    if s == "" {
      assert r.mode.attribute + s == r.mode.attribute;
    } else {
      assert WordChar(s[0]);
      ReadAttribute(Read(r, s[0]), s[1..]);
      assert r.mode.attribute + s == r.mode.attribute + [s[0]] + s[1..];
    }
  }

  lemma {:induction false} ReadValue(r: Reader, s: string)
    requires r.mode.InValue? && '"' !in s
    ensures ReadAll(r, s) == r.(mode := InValue(r.mode.name, r.mode.attrs, r.mode.attribute, r.mode.value + s))
    decreases |s|
  {
    if s == "" {
      assert r.mode.value + s == r.mode.value;
    } else {
      ReadValue(Read(r, s[0]), s[1..]);
      assert r.mode.value + s == r.mode.value + [s[0]] + s[1..];
    }
  }

  /** Where a tag's attributes can go on: after its name, or after another attribute's value. */
  function Between(name: string, attrs: seq<(string, string)>): Mode {
    if attrs == [] then InName(name) else PastValue(name, attrs)
  }

  lemma {:induction false} ReadOne(r: Reader, c: char)
    ensures ReadAll(r, [c]) == Read(r, c)
  {
    assert [c][1..] == "";
  }

  /** An attribute is read back with its value, whatever the value is. */
  lemma {:induction false} ReadWritten(r: Reader, name: string, attrs: seq<(string, string)>, a: string, v: string)
    requires r.mode == Between(name, attrs) && Word(a)
    ensures ReadAll(r, Written(a, v)) == r.(mode := PastValue(name, attrs + [(a, v)]))
  {
    var r1 := r.(mode := InAttribute(name, attrs, ""));
    var r2 := r.(mode := InAttribute(name, attrs, a));
    var r3 := r.(mode := InValue(name, attrs, a, ""));
    var r4 := r.(mode := InValue(name, attrs, a, Escape(v)));
    ReadOne(r, ' ');
    ReadAttribute(r1, a);
    assert "" + a == a;
    ReadQuote(r2);
    EscapedIsInert(v);
    ReadValue(r3, Escape(v));
    assert "" + Escape(v) == Escape(v);
    ReadOne(r4, '"');
    UnescapeUndoesEscape(v);
    ReadFive(r, " ", a, "=\"", Escape(v), "\"");
  }

  lemma {:induction false} ReadQuote(r: Reader)
    requires r.mode.InAttribute?
    ensures ReadAll(r, "=\"") == r.(mode := InValue(r.mode.name, r.mode.attrs, r.mode.attribute, ""))
  {
    ReadOne(r, '=');
    ReadOne(Read(r, '='), '"');
    ReadAllAppend(r, "=", "\"");
    assert "=" + "\"" == "=\"";
  }

  lemma {:induction false} ReadFive(r: Reader, a: string, b: string, c: string, d: string, e: string)
    ensures ReadAll(r, a + b + c + d + e) == ReadAll(ReadAll(ReadAll(ReadAll(ReadAll(r, a), b), c), d), e)
  {
    ReadAllAppend(r, a + b + c + d, e);
    ReadAllAppend(r, a + b + c, d);
    ReadAllAppend(r, a + b, c);
    ReadAllAppend(r, a, b);
  }

  lemma {:induction false} ReadWrittenAll(r: Reader, name: string, done: seq<(string, string)>, attrs: seq<(string, string)>)
    requires r.mode == Between(name, done)
    requires forall k | 0 <= k < |attrs| :: Word(attrs[k].0)
    ensures ReadAll(r, WrittenAll(attrs)) == r.(mode := Between(name, done + attrs))
    decreases |attrs|
  {
    if attrs == [] {
      assert done + attrs == done;
    } else {
      var (a, v) := attrs[0];
      ReadWritten(r, name, done, a, v);
      ReadAllAppend(r, Written(a, v), WrittenAll(attrs[1..]));
      ReadWrittenAll(r.(mode := PastValue(name, done + [(a, v)])), name, done + [(a, v)], attrs[1..]);
      assert done + [(a, v)] + attrs[1..] == done + attrs;
    }
  }

  /** A tag is read back as itself. */
  lemma {:induction false} ReadTag(r: Reader, tag: Tag)
    requires r.mode == Data && Word(tag.name)
    requires forall k | 0 <= k < |tag.attrs| :: Word(tag.attrs[k].0)
    ensures ReadAll(r, WrittenTag(tag)) == r.(tags := r.tags + [tag])
  {
    var named := r.(mode := InName(tag.name));
    var closing := r.(mode := Between(tag.name, tag.attrs));
    ReadOne(r, '<');
    ReadName(r.(mode := InName("")), tag.name);
    assert "" + tag.name == tag.name;
    ReadWrittenAll(named, tag.name, [], tag.attrs);
    assert [] + tag.attrs == tag.attrs;
    ReadOne(closing, '>');
    ReadAllAppend(r, "<" + tag.name + WrittenAll(tag.attrs), ">");
    ReadAllAppend(r, "<" + tag.name, WrittenAll(tag.attrs));
    ReadAllAppend(r, "<", tag.name);
  }

  lemma Associative<T>(a: seq<T>, b: seq<T>, c: seq<T>)
    ensures a + b + c == a + (b + c)
  {
  }

  lemma {:induction false} ReadText(r: Reader, s: string)
    requires r.mode == Data && '<' !in s
    ensures ReadAll(r, s) == Reader(Data, r.tags + [], r.data + s)
  {
    ReadData(r, s);
    assert r.tags + [] == r.tags;
  }

  lemma {:induction false} ReadTagOnly(r: Reader, tag: Tag)
    requires r.mode == Data && Word(tag.name)
    requires forall k | 0 <= k < |tag.attrs| :: Word(tag.attrs[k].0)
    ensures ReadAll(r, WrittenTag(tag)) == Reader(Data, r.tags + [tag], r.data + "")
  {
    ReadTag(r, tag);
    assert r.data + "" == r.data;
  }

  /** Two stretches of markup, one after the other. */
  lemma {:induction false} ReadBoth(r: Reader, a: string, b: string,
                                    tagsA: seq<Tag>, dataA: string, tagsB: seq<Tag>, dataB: string)
    requires ReadAll(r, a) == Reader(Data, r.tags + tagsA, r.data + dataA)
    requires ReadAll(ReadAll(r, a), b) == Reader(Data, r.tags + tagsA + tagsB, r.data + dataA + dataB)
    ensures ReadAll(r, a + b) == Reader(Data, r.tags + (tagsA + tagsB), r.data + (dataA + dataB))
  {
    ReadAllAppend(r, a, b);
    Associative(r.tags, tagsA, tagsB);
    Associative(r.data, dataA, dataB);
  }
}
