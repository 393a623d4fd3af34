/** The text encodings that identities, signatures and hashes rest on: decimal numbers, UTF-8, the
    length-prefixed canonical form, conflict-detection item ids, and episode ids. */
module Encodings {
  import opened Options
  import opened Text

  // ---------------------------------------------------------------- decimal numbers

  function DigitChar(d: nat): char
    requires d < 10
  {
    "0123456789"[d]
  }

  /** `str(n)`. */
  function Decimal(n: nat): (s: string)
    ensures s != []
  {
    if n < 10 then [DigitChar(n)] else Decimal(n / 10) + [DigitChar(n % 10)]
  }

  /** `s` with zeros in front up to the width. */
  function ZeroPad(s: string, width: nat): string
    decreases width - |s|
  {
    if |s| >= width then s else ZeroPad("0" + s, width)
  }

  predicate AllDigits(s: string) {
    forall i :: 0 <= i < |s| ==> '0' <= s[i] <= '9'
  }

  function DigitValue(c: char): nat
    requires '0' <= c <= '9'
  {
    c as int - '0' as int
  }

  function ValueOf(s: string): nat
    requires AllDigits(s)
  {
    if s == [] then 0 else 10 * ValueOf(s[..|s| - 1]) + DigitValue(s[|s| - 1])
  }

  lemma {:induction false} DecimalReads(n: nat)
    ensures AllDigits(Decimal(n)) && ValueOf(Decimal(n)) == n
  {
    assert DigitValue(DigitChar(n % 10)) == n % 10;
    if n >= 10 {
      DecimalReads(n / 10);
      assert Decimal(n)[..|Decimal(n)| - 1] == Decimal(n / 10);
    } else {
      assert Decimal(n)[..0] == [];
    }
  }

  lemma {:induction false} LeadingZero(s: string)
    requires AllDigits(s)
    ensures AllDigits("0" + s) && ValueOf("0" + s) == ValueOf(s)
  {
    if s == [] {
      assert ("0" + s)[..0] == [];
    } else {
      LeadingZero(s[..|s| - 1]);
      assert ("0" + s)[..|s|] == "0" + s[..|s| - 1];
    }
  }

  lemma {:induction false} PaddingReads(s: string, width: nat)
    requires AllDigits(s)
    ensures AllDigits(ZeroPad(s, width)) && ValueOf(ZeroPad(s, width)) == ValueOf(s)
    decreases width - |s|
  {
    if |s| < width {
      LeadingZero(s);
      PaddingReads("0" + s, width);
    }
  }

  /** The decimal digits of a number, none of them a leading zero. */
  lemma {:induction false} DecimalIsShortest(n: nat)
    ensures AllDigits(Decimal(n)) && ValueOf(Decimal(n)) == n
    ensures if n < 10 then |Decimal(n)| == 1 else Decimal(n)[0] != '0'
  {
    DecimalReads(n);
    if n >= 10 {
      DecimalIsShortest(n / 10);
    }
  }

  /** Padding reaches the width and adds nothing to longer text. */
  lemma {:induction false} PaddingFills(s: string, width: nat)
    ensures if |s| < width then |ZeroPad(s, width)| == width else ZeroPad(s, width) == s
    decreases width - |s|
  {
    if |s| < width {
      PaddingFills("0" + s, width);
    }
  }

  /** Text up to the first separator is determined by the whole. */
  lemma {:induction false} SplitsAtSeparator(a: string, x: string, b: string, y: string, sep: char)
    requires a + [sep] + x == b + [sep] + y && sep !in a && sep !in b
    ensures a == b && x == y
  {
    var whole, other := a + [sep] + x, b + [sep] + y;
    assert whole[0] == if a == [] then sep else a[0];
    assert other[0] == if b == [] then sep else b[0];
    if a == [] {
      assert x == whole[1..] && y == other[1..];
    } else {
      assert a[1..] + [sep] + x == whole[1..] == other[1..] == b[1..] + [sep] + y;
      SplitsAtSeparator(a[1..], x, b[1..], y, sep);
      assert a == [a[0]] + a[1..] && b == [b[0]] + b[1..];
    }
  }

  lemma NoSeparator(s: string, sep: char)
    requires AllDigits(s) && !('0' <= sep <= '9')
    ensures sep !in s
  {
  }

  /** A number written before a separator can be read back, whatever follows. */
  lemma PrefixNumber(m: nat, x: string, n: nat, y: string, width: nat, sep: char)
    requires ZeroPad(Decimal(m), width) + [sep] + x == ZeroPad(Decimal(n), width) + [sep] + y
    requires !('0' <= sep <= '9')
    ensures m == n && x == y
  {
    DecimalReads(m);
    DecimalReads(n);
    PaddingReads(Decimal(m), width);
    PaddingReads(Decimal(n), width);
    NoSeparator(ZeroPad(Decimal(m), width), sep);
    NoSeparator(ZeroPad(Decimal(n), width), sep);
    SplitsAtSeparator(ZeroPad(Decimal(m), width), x, ZeroPad(Decimal(n), width), y, sep);
  }

  // ---------------------------------------------------------------- UTF-8

  /** RFC 3629, section 3. */
  function EncodeChar(c: char): (b: Bytes)
    ensures 1 <= |b| <= 4
  {
    var n := c as int;
    if n < 0x80 then [n]
    else if n < 0x800 then [0xC0 + n / 0x40, 0x80 + n % 0x40]
    else if n < 0x1_0000 then [0xE0 + n / 0x1000, 0x80 + n / 0x40 % 0x40, 0x80 + n % 0x40]
    else [0xF0 + n / 0x4_0000, 0x80 + n / 0x1000 % 0x40, 0x80 + n / 0x40 % 0x40, 0x80 + n % 0x40]
  }

  /** Each character's bytes in turn. */
  function EncodeAll(encode: char -> Bytes, s: string): Bytes {
    if s == [] then [] else encode(s[0]) + EncodeAll(encode, s[1..])
  }

  function Utf8(s: string): Bytes {
    EncodeAll(EncodeChar, s)
  }

  lemma {:induction false} EncodeAllAppend(encode: char -> Bytes, s: string, t: string)
    ensures EncodeAll(encode, s + t) == EncodeAll(encode, s) + EncodeAll(encode, t)
  {
    if s == [] {
      assert s + t == t;
    } else {
      EncodeAllAppend(encode, s[1..], t);
      assert (s + t)[0] == s[0] && (s + t)[1..] == s[1..] + t;
      Associates(encode(s[0]), EncodeAll(encode, s[1..]), EncodeAll(encode, t));
    }
  }

  lemma Associates<T>(a: seq<T>, b: seq<T>, c: seq<T>)
    ensures a + (b + c) == (a + b) + c
  {
  }

  lemma Utf8Append(s: string, t: string)
    ensures Utf8(s + t) == Utf8(s) + Utf8(t)
  {
    EncodeAllAppend(EncodeChar, s, t);
  }

  /** The first byte gives the length. */
  lemma FirstByte(c: char)
    ensures var b := EncodeChar(c);
            && (|b| == 1 <==> b[0] < 0x80) && (|b| == 2 <==> 0xC0 <= b[0] < 0xE0)
            && (|b| == 3 <==> 0xE0 <= b[0] < 0xF0) && (|b| == 4 <==> 0xF0 <= b[0])
  {
  }

  /** The code point, read back from its bytes. */
  ghost function CodePoint(b: Bytes): int
    requires 1 <= |b| <= 4
  {
    var head: int := b[0];
    var byte := (k: int) requires 0 <= k < |b| => b[k] as int - 0x80;
    if |b| == 1 then head
    else if |b| == 2 then (head - 0xC0) * 0x40 + byte(1)
    else if |b| == 3 then (head - 0xE0) * 0x1000 + byte(1) * 0x40 + byte(2)
    else (head - 0xF0) * 0x4_0000 + byte(1) * 0x1000 + byte(2) * 0x40 + byte(3)
  }

  lemma CharReads(c: char)
    ensures CodePoint(EncodeChar(c)) == c as int
  {
    var n := c as int;
    assert n / 0x1000 == n / 0x40 / 0x40 && n / 0x4_0000 == n / 0x1000 / 0x40;
  }

  /** The fewest bytes that hold the code point, and every byte after the first a continuation byte. */
  lemma CharIsShortest(c: char)
    ensures var b, n := EncodeChar(c), c as int;
            && CodePoint(b) == n
            && |b| == (if n <= 0x7F then 1 else if n <= 0x7FF then 2 else if n <= 0xFFFF then 3 else 4)
            && forall k :: 1 <= k < |b| ==> 0x80 <= b[k] <= 0xBF
  {
    CharReads(c);
  }

  lemma {:induction false} Utf8Reads(s: string, t: string)
    requires Utf8(s) == Utf8(t)
    ensures s == t
  {
    if s != [] && t != [] {
      var a, b := EncodeChar(s[0]), EncodeChar(t[0]);
      FirstByte(s[0]);
      FirstByte(t[0]);
      assert a[0] == Utf8(s)[0] == Utf8(t)[0] == b[0];
      assert a == Utf8(s)[..|a|] == Utf8(t)[..|a|] == b;
      assert Utf8(s[1..]) == Utf8(s)[|a|..] == Utf8(t)[|a|..] == Utf8(t[1..]);
      CharReads(s[0]);
      CharReads(t[0]);
      Utf8Reads(s[1..], t[1..]);
      assert s == [s[0]] + s[1..] && t == [t[0]] + t[1..];
    }
  }

  lemma {:induction false} LongerHasMoreBytes(s: string, n: nat)
    requires n < |s|
    ensures |Utf8(s[..n])| < |Utf8(s)|
  {
    Utf8Append(s[..n], s[n..]);
    assert s == s[..n] + s[n..];
    assert Utf8(s[n..]) == EncodeChar(s[n]) + Utf8(s[n..][1..]);
  }

  // ---------------------------------------------------------------- the canonical form

  const LENGTH_PREFIX_WIDTH := 10

  /** Each field behind its byte length and a colon. */
  function Canonical(fields: seq<string>): Bytes {
    if fields == [] then []
    else
      var encoded := Utf8(fields[|fields| - 1]);
      Canonical(fields[..|fields| - 1]) + Utf8(ZeroPad(Decimal(|encoded|), LENGTH_PREFIX_WIDTH) + ":") + encoded
  }

  ghost function FieldText(field: string): string {
    ZeroPad(Decimal(|Utf8(field)|), LENGTH_PREFIX_WIDTH) + ":" + field
  }

  ghost function CanonicalText(fields: seq<string>): string {
    if fields == [] then "" else FieldText(fields[0]) + CanonicalText(fields[1..])
  }

  lemma {:induction false} CanonicalTextAppend(fields: seq<string>, last: string)
    ensures CanonicalText(fields + [last]) == CanonicalText(fields) + FieldText(last)
  {
    if fields == [] {
      assert (fields + [last])[1..] == [];
    } else {
      CanonicalTextAppend(fields[1..], last);
      assert (fields + [last])[1..] == fields[1..] + [last];
    }
  }

  lemma {:induction false} CanonicalIsText(fields: seq<string>)
    ensures Canonical(fields) == Utf8(CanonicalText(fields))
  {
    if fields != [] {
      var init, last := fields[..|fields| - 1], fields[|fields| - 1];
      CanonicalIsText(init);
      CanonicalTextAppend(init, last);
      assert fields == init + [last];
      var header := ZeroPad(Decimal(|Utf8(last)|), LENGTH_PREFIX_WIDTH) + ":";
      Utf8Append(header, last);
      Utf8Append(CanonicalText(init), header + last);
    }
  }

  /** Each further field adds its length in bytes, written with ten digits and more only if it takes more, a
      colon, and its bytes. */
  lemma CanonicalAdds(fields: seq<string>, last: string) returns (digits: string)
    ensures AllDigits(digits) && ValueOf(digits) == |Utf8(last)|
    ensures |digits| == 10 || (|digits| > 10 && digits[0] != '0')
    ensures Canonical([]) == []
    ensures Canonical(fields + [last]) == Canonical(fields) + Utf8(digits) + [0x3A] + Utf8(last)
  {
    var n := |Utf8(last)|;
    digits := ZeroPad(Decimal(n), 10);
    DecimalIsShortest(n);
    PaddingReads(Decimal(n), 10);
    PaddingFills(Decimal(n), 10);
    assert (fields + [last])[..|fields|] == fields;
    Utf8Append(digits, ":");
    assert Utf8(":") == EncodeChar(':') == [0x3A];
  }

  /** Two fields of the same byte length at the start of the same text are the same field. */
  lemma SameBytesSameField(f: string, x: string, g: string, y: string)
    requires f + x == g + y && |Utf8(f)| == |Utf8(g)|
    ensures f == g && x == y
  {
    var whole := f + x;
    assert f == whole[..|f|] && g == whole[..|g|];
    if |f| < |g| {
      assert g[..|f|] == f;
      LongerHasMoreBytes(g, |f|);
    } else if |g| < |f| {
      assert f[..|g|] == g;
      LongerHasMoreBytes(f, |g|);
    }
    assert x == whole[|f|..] == y;
  }

  lemma FieldDecodes(f: string, x: string, g: string, y: string)
    requires FieldText(f) + x == FieldText(g) + y
    ensures f == g && x == y
  {
    var a, b := ZeroPad(Decimal(|Utf8(f)|), LENGTH_PREFIX_WIDTH), ZeroPad(Decimal(|Utf8(g)|), LENGTH_PREFIX_WIDTH);
    assert FieldText(f) + x == a + [':'] + (f + x);
    assert FieldText(g) + y == b + [':'] + (g + y);
    PrefixNumber(|Utf8(f)|, f + x, |Utf8(g)|, g + y, LENGTH_PREFIX_WIDTH, ':');
    SameBytesSameField(f, x, g, y);
  }

  lemma {:induction false} CanonicalTextDecodes(fields: seq<string>, others: seq<string>)
    requires CanonicalText(fields) == CanonicalText(others)
    ensures fields == others
  {
    if fields != [] && others != [] {
      FieldDecodes(fields[0], CanonicalText(fields[1..]), others[0], CanonicalText(others[1..]));
      CanonicalTextDecodes(fields[1..], others[1..]);
      assert fields == [fields[0]] + fields[1..] && others == [others[0]] + others[1..];
    } else {
      assert |FieldText("")| > 0;
    }
  }

  /** The canonical form tells any two lists of fields apart, of whatever lengths and contents. */
  lemma CanonicalIsInjective(fields: seq<string>, others: seq<string>)
    ensures Canonical(fields) == Canonical(others) <==> fields == others
  {
    if Canonical(fields) == Canonical(others) {
      CanonicalIsText(fields);
      CanonicalIsText(others);
      Utf8Reads(CanonicalText(fields), CanonicalText(others));
      CanonicalTextDecodes(fields, others);
    }
  }

  method CanonicalizeFields(fields: seq<string>) returns (bytes: Bytes)
    ensures bytes == Canonical(fields)
  {
    bytes := [];
    assert fields[..0] == [];
    for i := 0 to |fields|
      invariant bytes == Canonical(fields[..i])
    {
      assert fields[..i + 1][..i] == fields[..i];
      var encoded := Utf8(fields[i]);
      bytes := bytes + Utf8(ZeroPad(Decimal(|encoded|), LENGTH_PREFIX_WIDTH) + ":");
      bytes := bytes + encoded;
    }
    assert fields[..|fields|] == fields;
  }

  // ---------------------------------------------------------------- conflict-detection item ids

  /** A component behind its own length. */
  function Component(s: string): string {
    Decimal(|s|) + ":" + s
  }

  function AttributeItemId(entityId: string, attributeName: string): string {
    Component(entityId) + (":" + Component(attributeName))
  }

  function EdgeItemId(subjectRef: string, predicateName: string, objectRef: string): string {
    Component(subjectRef) + (":" + (Component(predicateName) + (":" + Component(objectRef))))
  }

  /** A component is read back from the front of any text. */
  lemma ComponentDecodes(f: string, x: string, g: string, y: string)
    requires Component(f) + x == Component(g) + y
    ensures f == g && x == y
  {
    assert Component(f) + x == ZeroPad(Decimal(|f|), 0) + [':'] + (f + x);
    assert Component(g) + y == ZeroPad(Decimal(|g|), 0) + [':'] + (g + y);
    PrefixNumber(|f|, f + x, |g|, g + y, 0, ':');
    assert f == (f + x)[..|f|] == (g + y)[..|f|] == g;
    assert x == (f + x)[|f|..] == (g + y)[|f|..] == y;
  }

  lemma AfterColon(x: string, y: string)
    requires ":" + x == ":" + y
    ensures x == y
  {
    assert x == (":" + x)[1..] && y == (":" + y)[1..];
  }

  lemma WholeComponent(f: string, g: string)
    requires Component(f) == Component(g)
    ensures f == g
  {
    assert Component(f) + "" == Component(f) && Component(g) + "" == Component(g);
    ComponentDecodes(f, "", g, "");
  }

  lemma AttributeIdsAreInjective(e: string, a: string, e': string, a': string)
    ensures AttributeItemId(e, a) == AttributeItemId(e', a') <==> e == e' && a == a'
  {
    if AttributeItemId(e, a) == AttributeItemId(e', a') {
      ComponentDecodes(e, ":" + Component(a), e', ":" + Component(a'));
      AfterColon(Component(a), Component(a'));
      WholeComponent(a, a');
    }
  }

  lemma EdgeIdsAreInjective(s: string, p: string, o: string, s': string, p': string, o': string)
    ensures EdgeItemId(s, p, o) == EdgeItemId(s', p', o') <==> s == s' && p == p' && o == o'
  {
    if EdgeItemId(s, p, o) == EdgeItemId(s', p', o') {
      var x, x' := Component(p) + (":" + Component(o)), Component(p') + (":" + Component(o'));
      ComponentDecodes(s, ":" + x, s', ":" + x');
      AfterColon(x, x');
      ComponentDecodes(p, ":" + Component(o), p', ":" + Component(o'));
      AfterColon(Component(o), Component(o'));
      WholeComponent(o, o');
    }
  }

  /** No edge shares its id with an attribute. */
  lemma EdgeIdsAreNotAttributeIds(s: string, p: string, o: string, e: string, a: string)
    ensures EdgeItemId(s, p, o) != AttributeItemId(e, a)
  {
    if EdgeItemId(s, p, o) == AttributeItemId(e, a) {
      var x := Component(p) + (":" + Component(o));
      ComponentDecodes(s, ":" + x, e, ":" + Component(a));
      AfterColon(x, Component(a));
      assert Component(a) + "" == Component(a);
      ComponentDecodes(p, ":" + Component(o), a, "");
    }
  }

  // ---------------------------------------------------------------- reading item ids back

  function FirstColon(s: string): (k: Option<nat>)
    ensures k.Some? ==> k.value < |s| && s[k.value] == ':' && ':' !in s[..k.value]
    ensures k.None? ==> ':' !in s
  {
    if s == [] then None
    else if s[0] == ':' then Some(0)
    else
      match FirstColon(s[1..])
      case None => None
      case Some(k) => assert s[..k + 1] == [s[0]] + s[1..][..k]; Some(k + 1)
  }

  /** The component at the front of a text, and what follows it. */
  function FrontComponent(s: string): (r: Option<(string, string)>)
    ensures r.Some? ==> |r.value.1| < |s|
  {
    match FirstColon(s)
    case None => None
    case Some(k) =>
      var digits, rest := s[..k], s[k + 1..];
      if AllDigits(digits) && digits == Decimal(ValueOf(digits)) && ValueOf(digits) <= |rest|
      then Some((rest[..ValueOf(digits)], rest[ValueOf(digits)..])) else None
  }

  /** The components that an item id was built from, if it was. */
  function Components(s: string): Option<seq<string>>
    decreases |s|
  {
    match FrontComponent(s)
    case None => None
    case Some((first, rest)) =>
      if rest == "" then Some([first])
      else if rest[0] != ':' then None
      else
        match Components(rest[1..])
        case None => None
        case Some(others) => Some([first] + others)
  }

  function Joined(components: seq<string>): string
    requires components != []
  {
    if |components| == 1 then Component(components[0])
    else Component(components[0]) + (":" + Joined(components[1..]))
  }

  lemma {:induction false} FirstColonIs(a: string, x: string)
    requires ':' !in a
    ensures FirstColon(a + ":" + x) == Some(|a|)
  {
    var s := a + ":" + x;
    if a == [] {
      assert s[0] == ':';
    } else {
      assert s[0] == a[0] && s[1..] == a[1..] + ":" + x;
      FirstColonIs(a[1..], x);
    }
  }

  lemma FrontComponentIs(f: string, x: string)
    ensures FrontComponent(Component(f) + x) == Some((f, x))
  {
    var digits, rest := Decimal(|f|), f + x;
    var s := Component(f) + x;
    assert s == digits + ":" + rest;
    DecimalReads(|f|);
    NoSeparator(digits, ':');
    FirstColonIs(digits, rest);
    assert s[..|digits|] == digits && s[|digits| + 1..] == rest;
    assert rest[..|f|] == f && rest[|f|..] == x;
  }

  lemma Reassembles(s: string, k: nat, n: nat)
    requires k < |s| && s[k] == ':' && n <= |s[k + 1..]|
    ensures s == s[..k] + ":" + (s[k + 1..][..n] + s[k + 1..][n..])
  {
    assert s[k + 1..] == s[k + 1..][..n] + s[k + 1..][n..];
    assert s == s[..k] + [s[k]] + s[k + 1..];
  }

  lemma ComponentFront(f: string, x: string)
    ensures Component(f) + x == Decimal(|f|) + ":" + (f + x)
  {
  }

  lemma FrontComponentRebuilds(s: string)
    requires FrontComponent(s).Some?
    ensures s == Component(FrontComponent(s).value.0) + FrontComponent(s).value.1
  {
    var k := FirstColon(s).value;
    var (f, x) := FrontComponent(s).value;
    Reassembles(s, k, ValueOf(s[..k]));
    ComponentFront(f, x);
  }

  lemma LastComponentReads(f: string)
    ensures Components(Component(f)) == Some([f])
  {
    FrontComponentIs(f, "");
    assert Component(f) + "" == Component(f);
  }

  lemma NextComponentReads(f: string, tail: string)
    ensures Components(Component(f) + (":" + tail))
         == match Components(tail) case None => None case Some(others) => Some([f] + others)
  {
    FrontComponentIs(f, ":" + tail);
    assert (":" + tail)[1..] == tail;
  }

  lemma JoinedIs(components: seq<string>)
    requires |components| > 1
    ensures Joined(components) == Component(components[0]) + (":" + Joined(components[1..]))
    ensures [components[0]] + components[1..] == components
  {
  }

  lemma {:induction false} JoinedReads(components: seq<string>)
    requires components != []
    ensures Components(Joined(components)) == Some(components)
  {
    if |components| == 1 {
      LastComponentReads(components[0]);
      assert components == [components[0]];
    } else {
      JoinedReads(components[1..]);
      NextComponentReads(components[0], Joined(components[1..]));
      JoinedIs(components);
    }
  }

  lemma {:induction false} ReadIsJoined(s: string)
    requires Components(s).Some?
    ensures Components(s).value != [] && s == Joined(Components(s).value)
    decreases |s|
  {
    FrontComponentRebuilds(s);
    var (first, rest) := FrontComponent(s).value;
    if rest == "" {
      assert Component(first) + "" == Component(first);
    } else {
      ReadIsJoined(rest[1..]);
      var others := Components(rest[1..]).value;
      assert rest == ":" + rest[1..];
      assert ([first] + others)[1..] == others;
    }
  }

  lemma IdsAreJoined(a: string, b: string, c: string)
    ensures AttributeItemId(a, b) == Joined([a, b]) && EdgeItemId(a, b, c) == Joined([a, b, c])
  {
    assert [a, b][1..] == [b] && [a, b, c][1..] == [b, c] && [b, c][1..] == [c];
    assert Joined([b, c]) == Component(b) + (":" + Joined([c]));
    assert Joined([a, b]) == Component(a) + (":" + Joined([b]));
  }

  /** A general fact's id is taken as it is. */
  function FactItemId(factId: string): string {
    factId
  }

  /** So a fact can share its key with an edge or an attribute: exactly when its id reads as three, or two,
      length-prefixed components. */
  lemma FactIdsCollideIff(factId: string)
    ensures (exists s, p, o :: FactItemId(factId) == EdgeItemId(s, p, o))
       <==> Components(factId).Some? && |Components(factId).value| == 3
    ensures (exists e, a :: FactItemId(factId) == AttributeItemId(e, a))
       <==> Components(factId).Some? && |Components(factId).value| == 2
  {
    if s, p, o :| FactItemId(factId) == EdgeItemId(s, p, o) {
      IdsAreJoined(s, p, o);
      JoinedReads([s, p, o]);
    }
    if e, a :| FactItemId(factId) == AttributeItemId(e, a) {
      IdsAreJoined(e, a, "");
      JoinedReads([e, a]);
    }
    if Components(factId).Some? {
      var cs := Components(factId).value;
      ReadIsJoined(factId);
      if |cs| == 3 {
        IdsAreJoined(cs[0], cs[1], cs[2]);
        assert cs == [cs[0], cs[1], cs[2]];
      } else if |cs| == 2 {
        IdsAreJoined(cs[0], cs[1], "");
        assert cs == [cs[0], cs[1]];
      }
    }
  }

  lemma SomeFactIsTakenForEdge()
    ensures FactItemId("1:a:1:b:1:c") == EdgeItemId("a", "b", "c")
    ensures FactItemId("1:a:1:b") == AttributeItemId("a", "b")
  {
    assert Decimal(1) == "1";
  }

  // ---------------------------------------------------------------- episode ids

  datatype EpisodeKey = EpisodeKey(tenantId: string, sessionId: string, sequence: nat)

  function EpisodeIdFor(tenantId: string, sessionId: string, sequence: int): Option<string> {
    if Blank(tenantId) || Blank(sessionId) || sequence < 0 then None
    else Some(tenantId + ":" + sessionId + ":" + Decimal(sequence))
  }

  /** The position of the last colon. */
  function LastColon(s: string): (k: Option<nat>)
    ensures k.Some? ==> k.value < |s| && s[k.value] == ':' && ':' !in s[k.value + 1..]
    ensures k.None? ==> ':' !in s
  {
    if s == [] then None
    else if s[|s| - 1] == ':' then Some(|s| - 1)
    else LastColon(s[..|s| - 1])
  }

  /** `int(text)` on ASCII: surrounding whitespace, a sign, and single underscores between digits. */
  function PythonInt(text: string): Option<int> {
    var s := Strip(text);
    if s != [] && s[0] == '-' then
      match Underscored(s[1..]) case None => None case Some(n) => Some(-n)
    else
      match Underscored(if s != [] && s[0] == '+' then s[1..] else s) case None => None case Some(n) => Some(n)
  }

  function Strip(s: string): string {
    if s == [] then s
    else if Whitespace(s[0]) then Strip(s[1..])
    else if Whitespace(s[|s| - 1]) then Strip(s[..|s| - 1])
    else s
  }

  function Underscored(s: string): Option<int> {
    if s == [] || !('0' <= s[|s| - 1] <= '9') then None
    else if |s| == 1 then Some(DigitValue(s[0]))
    else
      var init := s[..|s| - 1];
      match Underscored(if init[|init| - 1] == '_' then init[..|init| - 1] else init)
      case None => None
      case Some(n) => Some(10 * n + DigitValue(s[|s| - 1]))
  }

  function ParseEpisodeId(id: string): Option<EpisodeKey> {
    match LastColon(id)
    case None => None
    case Some(j) =>
      var left := id[..j];
      match LastColon(left)
      case None => None
      case Some(i) =>
        var tenantId, sessionId := left[..i], left[i + 1..];
        if tenantId == [] || sessionId == [] then None
        else
          match PythonInt(id[j + 1..])
          case None => None
          case Some(n) => if n < 0 then None else Some(EpisodeKey(tenantId, sessionId, n))
  }

  lemma {:induction false} UnderscoredReads(s: string)
    requires s != [] && AllDigits(s)
    ensures Underscored(s) == Some(ValueOf(s))
  {
    if |s| == 1 {
      assert s[..0] == [];
    } else {
      UnderscoredReads(s[..|s| - 1]);
    }
  }

  lemma IntReadsDecimal(n: nat)
    ensures PythonInt(Decimal(n)) == Some(n)
  {
    DecimalReads(n);
    var s := Decimal(n);
    assert !Whitespace(s[0]) && !Whitespace(s[|s| - 1]);
    UnderscoredReads(s);
  }

  lemma {:induction false} StripFront(spaces: string, s: string)
    requires (forall i :: 0 <= i < |spaces| ==> Whitespace(spaces[i]))
    ensures Strip(spaces + s) == Strip(s)
  {
    if spaces == [] {
      assert spaces + s == s;
    } else {
      StripFront(spaces[1..], s);
      assert (spaces + s)[1..] == spaces[1..] + s;
    }
  }

  lemma {:induction false} StripBack(s: string, spaces: string)
    requires s != [] && !Whitespace(s[0]) && !Whitespace(s[|s| - 1])
    requires forall i :: 0 <= i < |spaces| ==> Whitespace(spaces[i])
    ensures Strip(s + spaces) == s
  {
    if spaces == [] {
      assert s + spaces == s;
    } else {
      StripBack(s, spaces[..|spaces| - 1]);
      assert (s + spaces)[..|s + spaces| - 1] == s + spaces[..|spaces| - 1];
    }
  }

  /** A number is read with its sign and without the white space around it. */
  lemma IntReads(front: string, sign: string, digits: string, back: string)
    requires forall i :: 0 <= i < |front| ==> Whitespace(front[i])
    requires forall i :: 0 <= i < |back| ==> Whitespace(back[i])
    requires sign in {"", "+", "-"} && digits != [] && AllDigits(digits)
    ensures var n: int := ValueOf(digits);
            PythonInt(front + (sign + digits + back)) == Some(if sign == "-" then -n else n)
  {
    var s := sign + digits;
    assert s[|s| - 1] == digits[|digits| - 1] && s[0] == if sign == "" then digits[0] else sign[0];
    StripFront(front, s + back);
    StripBack(s, back);
    UnderscoredReads(digits);
    assert sign == "" ==> s == digits;
    assert sign != "" ==> s[1..] == digits;
  }

  lemma {:induction false} LastColonIs(a: string, b: string)
    requires ':' !in b
    ensures LastColon(a + ":" + b) == Some(|a|)
  {
    var s := a + ":" + b;
    if b == [] {
      assert s == a + ":";
    } else {
      assert s[|s| - 1] == b[|b| - 1];
      assert s[..|s| - 1] == a + ":" + b[..|b| - 1];
      LastColonIs(a, b[..|b| - 1]);
    }
  }

  lemma SplitAt(a: string, b: string)
    ensures (a + ":" + b)[..|a|] == a && (a + ":" + b)[|a| + 1..] == b
  {
  }

  /** Parsing splits at the last two colons, whatever the tenant and session contain, and refuses empty parts and
      a last part that is no number or a negative one. */
  lemma ParseSplits(head: string, session: string, text: string)
    requires ':' !in session && ':' !in text
    ensures ParseEpisodeId(head + ":" + session + ":" + text)
         == if head == [] || session == [] || PythonInt(text).None? || PythonInt(text).value < 0 then None
            else Some(EpisodeKey(head, session, PythonInt(text).value))
  {
    var left := head + ":" + session;
    LastColonIs(left, text);
    SplitAt(left, text);
    LastColonIs(head, session);
    SplitAt(head, session);
  }

  lemma DecimalSplits(head: string, session: string, n: nat)
    requires ':' !in session
    ensures ParseEpisodeId(head + ":" + session + ":" + Decimal(n))
         == if head == [] || session == [] then None else Some(EpisodeKey(head, session, n))
  {
    DecimalReads(n);
    NoSeparator(Decimal(n), ':');
    IntReadsDecimal(n);
    ParseSplits(head, session, Decimal(n));
  }

  /** An episode id parses back to its own key exactly when the session id has no colon. */
  lemma EpisodeIdRoundTrip(tenantId: string, sessionId: string, n: nat)
    requires !Blank(tenantId) && !Blank(sessionId)
    ensures EpisodeIdFor(tenantId, sessionId, n).Some?
    ensures ParseEpisodeId(EpisodeIdFor(tenantId, sessionId, n).value) == Some(EpisodeKey(tenantId, sessionId, n))
       <==> ':' !in sessionId
  {
    var id := EpisodeIdFor(tenantId, sessionId, n).value;
    if ':' !in sessionId {
      DecimalSplits(tenantId, sessionId, n);
    } else {
      var k := LastColon(sessionId).value;
      var head, tail := tenantId + ":" + sessionId[..k], sessionId[k + 1..];
      assert sessionId == sessionId[..k] + ":" + tail;
      assert id == head + ":" + tail + ":" + Decimal(n);
      DecimalSplits(head, tail, n);
      assert |tail| < |sessionId|;
    }
  }
}
